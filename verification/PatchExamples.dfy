/** Patches as diff tools write them, and two at which the laws of the edit and of the inverse fail. */
module PatchExamples {
  import opened Common
  import opened Lines
  import opened PatchText
  import opened PatchEdit
  import opened NarrowEdit
  import opened PatchSpelling

  const BODY := "a\nb\nc"

  /** @@ -2 +1,0 @@ */
  const REMOVES_B := Hunk(2, 1, 1, 0, ["-b"])

  const BLANKS_X := Hunk(1, 1, 1, 1, ["-x", "+"])

  lemma {:induction false} SplitsBody()
    ensures Source(BODY) == ["a", "b", "c"] && Join(["a", "c"]) == "a\nc"
  {
    assert AreLines(["a", "b", "c"]);
    assert ["a", "b", "c"][1..] == ["b", "c"] && ["b", "c"][1..] == ["c"] && ["a", "c"][1..] == ["c"];
    assert Join(["a", "b", "c"]) == "a" + "\n" + ("b" + "\n" + "c") == BODY;
    SplitJoin(["a", "b", "c"]);
  }

  lemma {:induction false} OneHunkApplies(h: Hunk, source: seq<string>, start: nat)
    requires OldIndex(h) == NewIndex(h) == start && Matches(source, start, OldLines(h.lines))
    ensures Apply([h], source, 0, []) == Some(source[..start] + NewLines(h.lines) + source[start + |OldLines(h.lines)|..])
  {
    assert [] + source[0..start] == source[..start];
  }

  lemma {:induction false} BIsUnique()
    ensures Unique(BODY, "b") && IndexOf(BODY, "b") == 2
  {
    hide IndexOf, LastIndexOf;
    assert OccursAt(BODY, "b", 2);
    assert forall i :: OccursAt(BODY, "b", i) ==> BODY[i] == "b"[0];
    assert forall i :: OccursAt(BODY, "b", i) ==> i == 2;
  }

  lemma {:induction false} RemovesBIsWellFormed()
    ensures WellFormed([REMOVES_B]) && OldLines(["-b"]) == ["b"] && NewLines(["-b"]) == []
  {
    assert ["-b"][1..] == [] && "-b"[1..] == "b";
    assert Removes(REMOVES_B.lines[0]);
  }

  /** Removing the line between two others: the edit is the line's text by nothing, and it leaves its line breaks. */
  lemma {:induction false} EditLeavesBlankLine()
    ensures Parse(Print([REMOVES_B])) == Some([REMOVES_B])
    ensures IsPrepared(BODY, [REMOVES_B], Prepared("a\nc", PatchMode, "", "b"))
    ensures Unique(BODY, "b") && OccursAt(BODY, "b", IndexOf(BODY, "b")) && ReplaceOnce(BODY, "b", "") == "a\n\nc"
  {
    hide WellFormed, Parse, Print, Unique, IndexOf, IsPrepared;
    RemovesBIsWellFormed();
    PrintThenParse([REMOVES_B]);
    BIsUnique();
    BRemoved();
    BPrepared();
    assert BODY[..2] + "" + BODY[3..] == "a\n\nc";
  }

  lemma {:induction false} BRemoved()
    ensures Apply([REMOVES_B], Source(BODY), 0, []) == Some(["a", "c"])
  {
    hide Source, Join, Apply, OldLines, NewLines;
    SplitsBody();
    RemovesBIsWellFormed();
    var source := ["a", "b", "c"];
    assert source[1..2] == ["b"];
    OneHunkApplies(REMOVES_B, source, 1);
    assert source[..1] + [] + source[2..] == ["a", "c"];
  }

  lemma {:induction false} BPrepared()
    ensures IsPrepared(BODY, [REMOVES_B], Prepared("a\nc", PatchMode, "", "b"))
  {
    hide WellFormed, Unique, Source, Apply, Join;
    SplitsBody();
    BRemoved();
    RemovesBIsWellFormed();
    BIsUnique();
    BNarrowed();
    assert ["a", "b", "c"][..1] == ["a", "c"][..1] && ["a", "b", "c"][2..] == ["a", "c"][1..];
  }

  lemma {:induction false} BNarrowed()
    ensures Fits(Range(1, 2, 1), ["a", "b", "c"], ["a", "c"])
    ensures NarrowedAt(BODY, ["a", "b", "c"], ["a", "c"], Range(1, 2, 1), 0, Prepared("a\nc", PatchMode, "", "b"))
  {
    hide Unique, Join;
    BIsUnique();
    SplitsBody();
    JoinsOne("b");
    JoinsNone();
    var source, output := ["a", "b", "c"], ["a", "c"];
    assert source[1..2] == ["b"] && output[1..1] == [];
    assert source[..1] == output[..1] && source[2..] == output[1..];
    assert Widened(Range(1, 2, 1), 0) == Range(1, 2, 1);
  }

  lemma {:induction false} JoinsOne(line: string)
    ensures Join([line]) == line
  {
  }

  lemma {:induction false} JoinsNone()
    ensures Join([]) == ""
  {
  }

  /** A line taken away and a line added, as the lines of a hunk. */
  lemma {:induction false} TwoLines(removed: string, added: string)
    ensures OldLines(["-" + removed, "+" + added]) == [removed] && NewLines(["-" + removed, "+" + added]) == [added]
  {
    var first, second := "-" + removed, "+" + added;
    assert [first, second][1..] == [second] && [second][1..] == [];
    assert Content(first) == removed && Content(second) == added;
    assert OldLines([second]) == [] && NewLines([second]) == [added];
  }

  lemma {:induction false} BlanksX()
    ensures WellFormed([BLANKS_X]) && OldLines(BLANKS_X.lines) == ["x"] && NewLines(BLANKS_X.lines) == [""]
  {
    hide WellFormed;
    TwoLines("x", "");
    assert "-" + "x" == "-x" && "+" + "" == "+";
    assert ["-x", "+"] == BLANKS_X.lines;
    OneHunkIsWellFormed(BLANKS_X, 0);
  }

  /** A patch that leaves one empty line: the document is then the empty string, and the inverse patch does not apply to it. */
  lemma {:induction false} InverseOfBlankFails()
    ensures WellFormed([BLANKS_X]) && Apply([BLANKS_X], Source("x"), 0, []) == Some([""])
    ensures Join([""]) == "" && Apply(Invert([BLANKS_X]), Source(""), 0, []) == None
  {
    hide OldLines, NewLines, WellFormed;
    BlanksX();
    SplitOfLine("x");
    OneHunkApplies(BLANKS_X, ["x"], 0);
    assert ["x"][..0] + [""] + ["x"][1..] == [""];
    InvertedLines(BLANKS_X.lines);
    assert Invert([BLANKS_X])[0] == InvertHunk(BLANKS_X);
  }

  // ---- texts that diff tools write

  /** Both counts left out, each being one. */
  const ONE_LINE := ["@@ -2 +2 @@", "-b", "+c"]
  const SWAPS_B := Hunk(2, 1, 2, 1, ["-b", "+c"])

  lemma {:induction false} OneDigit(s: string, n: nat)
    requires |s| == 1 && IsDigit(s[0]) && s[0] as int - '0' as int == n
    ensures Digits(s, n)
  {
    assert s[..0] == "" && NumberOf("") == 0;
  }

  lemma {:induction false} OneHunkSpelled(header: string, h: Hunk)
    requires SpellsHeader(header, HeaderOf(h)) && IsLine(header) && WellFormed([h])
    ensures Parse(Join([header] + h.lines)) == Some([h])
  {
    hide SpellsHeader, Parse, ValidHeader, Consumed, Produced, Changes;
    var lines := [header] + h.lines;
    SplitJoin(lines);
    assert lines[1..1 + |h.lines|] == h.lines && lines[1 + |h.lines|..] == [] && [h][1..] == [];
    assert SpellsLines(lines[1 + |h.lines|..], []);
    ParsesIffSpells(Join(lines), [h]);
  }

  /** One hunk, by its counts and its lines. */
  lemma {:induction false} OneHunkIsWellFormed(h: Hunk, i: nat)
    requires ValidHeader(HeaderOf(h)) && i < |h.lines| && Removes(h.lines[i]) && 0 <= OldIndex(h) && 0 <= NewIndex(h)
    requires forall k :: 0 <= k < |h.lines| ==> IsHunkLine(h.lines[k]) && IsLine(h.lines[k])
    requires |OldLines(h.lines)| == h.oldCount && |NewLines(h.lines)| == h.newCount
    ensures WellFormed([h])
  {
    hide OldLines, NewLines, Consumed, Produced, IsLine;
    assert Ordered([h][1..], OldEnd(h), NewEnd(h));
    assert AnyChange([h][0].lines);
  }

  lemma {:induction false} SwapsBIsWellFormed()
    ensures WellFormed([SWAPS_B]) && OldLines(SWAPS_B.lines) == ["b"] && NewLines(SWAPS_B.lines) == ["c"]
  {
    hide WellFormed;
    TwoLines("b", "c");
    assert "-" + "b" == "-b" && "+" + "c" == "+c";
    assert ["-b", "+c"] == SWAPS_B.lines;
    OneHunkIsWellFormed(SWAPS_B, 0);
  }

  /** The short form reads as a patch of one line, and turns the second line of a document into another. */
  lemma {:induction false} ShortFormApplies()
    ensures Parse(Join(ONE_LINE)) == Some([SWAPS_B]) && Apply([SWAPS_B], ["a", "b"], 0, []) == Some(["a", "c"])
  {
    hide WellFormed, OldLines, NewLines, Parse, Join, Digits, Apply;
    OneDigit("2", 2);
    assert SpellsRange("2", 2, 1);
    assert HeaderParts(ONE_LINE[0], "2", "2");
    SwapsBIsWellFormed();
    OneHunkSpelled(ONE_LINE[0], SWAPS_B);
    assert [ONE_LINE[0]] + SWAPS_B.lines == ONE_LINE;
    assert ["a", "b"][1..2] == ["b"];
    OneHunkApplies(SWAPS_B, ["a", "b"], 1);
    assert ["a", "b"][..1] + ["c"] + ["a", "b"][2..] == ["a", "c"];
  }

  /** A change with a line of context on each side. */
  const IN_CONTEXT := ["@@ -1,3 +1,3 @@", " a", "-b", "+c", " d"]
  const SWAPS_IN_CONTEXT := Hunk(1, 3, 1, 3, [" a", "-b", "+c", " d"])

  lemma {:induction false} LinesNext(line: string, rest: seq<string>)
    ensures OldLines([line] + rest) == (if Adds(line) then [] else [Content(line)]) + OldLines(rest)
    ensures NewLines([line] + rest) == (if Removes(line) then [] else [Content(line)]) + NewLines(rest)
  {
    assert ([line] + rest)[1..] == rest;
  }

  lemma {:induction false} ContextLines()
    ensures OldLines(SWAPS_IN_CONTEXT.lines) == ["a", "b", "d"] && NewLines(SWAPS_IN_CONTEXT.lines) == ["a", "c", "d"]
  {
    assert Content(" a") == "a" && Content("-b") == "b" && Content("+c") == "c" && Content(" d") == "d";
    LinesNext(" d", []);
    LinesNext("+c", [" d"]);
    LinesNext("-b", ["+c", " d"]);
    LinesNext(" a", ["-b", "+c", " d"]);
    assert [" d"] + [] == [" d"] && ["+c"] + [" d"] == ["+c", " d"] && ["-b"] + ["+c", " d"] == ["-b", "+c", " d"];
    assert [" a"] + ["-b", "+c", " d"] == SWAPS_IN_CONTEXT.lines;
  }

  lemma {:induction false} SwapsInContextIsWellFormed()
    ensures WellFormed([SWAPS_IN_CONTEXT])
  {
    hide WellFormed, OldLines, NewLines;
    ContextLines();
    OneHunkIsWellFormed(SWAPS_IN_CONTEXT, 1);
  }

  /** The patch is read, the lines of context stay, and the one between them is changed. */
  lemma {:induction false} ContextStays()
    ensures Parse(Join(IN_CONTEXT)) == Some([SWAPS_IN_CONTEXT])
    ensures Apply([SWAPS_IN_CONTEXT], ["a", "b", "d", "e"], 0, []) == Some(["a", "c", "d", "e"])
  {
    hide WellFormed, OldLines, NewLines, SpellsRange, Digits, Parse, Join, Apply;
    ThreeFromOne();
    assert HeaderParts(IN_CONTEXT[0], "1,3", "1,3");
    SwapsInContextIsWellFormed();
    OneHunkSpelled(IN_CONTEXT[0], SWAPS_IN_CONTEXT);
    assert [IN_CONTEXT[0]] + SWAPS_IN_CONTEXT.lines == IN_CONTEXT;
    ContextLines();
    var source := ["a", "b", "d", "e"];
    assert source[0..3] == ["a", "b", "d"];
    OneHunkApplies(SWAPS_IN_CONTEXT, source, 0);
    assert source[..0] + ["a", "c", "d"] + source[3..] == ["a", "c", "d", "e"];
  }

  lemma {:induction false} ThreeFromOne()
    ensures SpellsRange("1,3", 1, 3)
  {
    hide Digits;
    OneDigit("1", 1);
    OneDigit("3", 3);
    assert "1,3" == "1" + "," + "3";
  }
}
