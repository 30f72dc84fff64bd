/** Applying a parsed patch to a document, undoing it, and narrowing it to one unique edit. */
module PatchEdit {
  import opened Common
  import opened Lines
  import opened PatchText

  /** line.slice(1) */
  function Content(line: string): string {
    if line == "" then "" else line[1..]
  }

  /** What the hunk's lines expect to find in the old document. */
  function OldLines(lines: seq<string>): (r: seq<string>)
    ensures |r| == Consumed(lines)
  {
    if lines == [] then []
    else (if Adds(lines[0]) then [] else [Content(lines[0])]) + OldLines(lines[1..])
  }

  /** What the hunk's lines leave in the new document. */
  function NewLines(lines: seq<string>): (r: seq<string>)
    ensures |r| == Produced(lines)
  {
    if lines == [] then []
    else (if Removes(lines[0]) then [] else [Content(lines[0])]) + NewLines(lines[1..])
  }

  predicate Matches(source: seq<string>, at: int, expected: seq<string>) {
    0 <= at && at + |expected| <= |source| && source[at..at + |expected|] == expected
  }

  /**
   * The meaning of a patch: between hunks the document is copied, and at each hunk its old lines
   * give way to its new ones. No result when a hunk is not where it says, in either document.
   */
  function Apply(hunks: seq<Hunk>, source: seq<string>, at: nat, output: seq<string>): (r: Option<seq<string>>)
    requires at <= |source|
    ensures r.Some? ==> output <= r.value
  {
    if hunks == [] then Some(output + source[at..])
    else
      var h := hunks[0];
      if OldIndex(h) < at || OldIndex(h) > |source| then None
      else
        var copied := output + source[at..OldIndex(h)];
        var old_ := OldLines(h.lines);
        if |copied| != NewIndex(h) || !Matches(source, OldIndex(h), old_) then None
        else
          assert output <= copied <= copied + NewLines(h.lines);
          Apply(hunks[1..], source, OldIndex(h) + |old_|, copied + NewLines(h.lines))
  }

  /** Between the two documents, the text before a hunk is the same, and the hunk's lines are in both where it says. */
  predicate HunkFits(h: Hunk, source: seq<string>, s: nat, output: seq<string>, o: nat)
    requires s <= |source| && o <= |output|
  {
    && s <= OldIndex(h) <= |source| && o <= NewIndex(h) <= |output|
    && source[s..OldIndex(h)] == output[o..NewIndex(h)]
    && Matches(source, OldIndex(h), OldLines(h.lines))
    && Matches(output, NewIndex(h), NewLines(h.lines))
  }

  /**
   * The same meaning with neither document built from the other: between hunks the two documents
   * agree, and at each hunk one has the old lines where the other has the new ones.
   */
  predicate Relates(hunks: seq<Hunk>, source: seq<string>, s: nat, output: seq<string>, o: nat)
    requires s <= |source| && o <= |output|
  {
    if hunks == [] then source[s..] == output[o..]
    else
      var h := hunks[0];
      HunkFits(h, source, s, output, o)
      && Relates(hunks[1..], source, OldIndex(h) + |OldLines(h.lines)|, output, NewIndex(h) + |NewLines(h.lines)|)
  }

  /** Applying a patch gives the one document the patch relates to the old one, or none. */
  lemma {:induction false} AppliesIffRelates(hunks: seq<Hunk>, source: seq<string>, at: nat,
                                             output: seq<string>, final: seq<string>)
    requires at <= |source|
    ensures Apply(hunks, source, at, output) == Some(final) <==>
            output <= final && Relates(hunks, source, at, final, |output|)
    decreases hunks
  {
    hide OldLines, NewLines;
    if hunks == [] {
      assert output <= final ==> final == output + final[|output|..];
    } else {
      var h := hunks[0];
      if at <= OldIndex(h) <= |source| {
        var copied, old_, new_ := output + source[at..OldIndex(h)], OldLines(h.lines), NewLines(h.lines);
        if Matches(source, OldIndex(h), old_) {
          AppliesIffRelates(hunks[1..], source, OldIndex(h) + |old_|, copied + new_, final);
        }
        if output <= final && |output| <= NewIndex(h) {
          GapAndHunk(output, source[at..OldIndex(h)], new_, final, NewIndex(h));
        }
      }
    }
  }

  lemma {:induction false} GapAndHunk(output: seq<string>, gap: seq<string>, new_: seq<string>, final: seq<string>, index: int)
    requires output <= final && |output| <= index
    ensures |output + gap| == index && output + gap + new_ <= final <==>
            index <= |final| && gap == final[|output|..index] && Matches(final, index, new_)
  {
    var copied := output + gap;
    if |copied| == index && copied + new_ <= final {
      assert gap == (copied + new_)[|output|..index] == final[|output|..index];
      assert new_ == (copied + new_)[index..index + |new_|] == final[index..index + |new_|];
    }
    if index <= |final| && gap == final[|output|..index] && Matches(final, index, new_) {
      assert copied == final[..index];
      assert copied + new_ == final[..index + |new_|];
    }
  }

  // ---- undoing a patch

  function InvertLine(line: string): string {
    if Adds(line) then "-" + line[1..]
    else if Removes(line) then "+" + line[1..]
    else line
  }

  function InvertLines(lines: seq<string>): (r: seq<string>)
    ensures |r| == |lines|
    ensures forall i :: 0 <= i < |r| ==> r[i] == InvertLine(lines[i])
  {
    if lines == [] then [] else [InvertLine(lines[0])] + InvertLines(lines[1..])
  }

  /** The hunk with additions and removals, and old and new ranges, exchanged. */
  function InvertHunk(h: Hunk): Hunk {
    Hunk(h.newStart, h.newCount, h.oldStart, h.oldCount, InvertLines(h.lines))
  }

  function Invert(hunks: seq<Hunk>): (r: seq<Hunk>)
    ensures |r| == |hunks|
    ensures forall i :: 0 <= i < |r| ==> r[i] == InvertHunk(hunks[i])
  {
    if hunks == [] then [] else [InvertHunk(hunks[0])] + Invert(hunks[1..])
  }

  lemma {:induction false} InvertedLines(lines: seq<string>)
    ensures OldLines(InvertLines(lines)) == NewLines(lines)
    ensures NewLines(InvertLines(lines)) == OldLines(lines)
  {
    if lines != [] {
      assert InvertLines(lines)[1..] == InvertLines(lines[1..]);
      assert Content(InvertLine(lines[0])) == Content(lines[0]);
      InvertedLines(lines[1..]);
    }
  }

  lemma {:induction false} InvertedLine(line: string)
    requires IsHunkLine(line) && IsLine(line)
    ensures var inverse := InvertLine(line);
            && IsHunkLine(inverse) && IsLine(inverse) && (Adds(inverse) <==> Removes(line)) && (Removes(inverse) <==> Adds(line))
  {
  }

  lemma {:induction false} InvertedHunk(h: Hunk)
    requires WellFormedHunk(h)
    ensures WellFormedHunk(InvertHunk(h))
    ensures AnyChange(h.lines) ==> AnyChange(InvertHunk(h).lines)
  {
    hide Consumed, Produced, InvertLine, IsHunkLine, IsLine, Adds, Removes;
    InvertedLines(h.lines);
    var inverse := InvertHunk(h);
    forall i | 0 <= i < |inverse.lines|
      ensures IsHunkLine(inverse.lines[i]) && IsLine(inverse.lines[i])
      ensures Adds(inverse.lines[i]) <==> Removes(h.lines[i])
      ensures Removes(inverse.lines[i]) <==> Adds(h.lines[i])
    {
      InvertedLine(h.lines[i]);
    }
    if AnyChange(h.lines) {
      var j :| 0 <= j < |h.lines| && (Adds(h.lines[j]) || Removes(h.lines[j]));
      assert Adds(inverse.lines[j]) || Removes(inverse.lines[j]);
    }
  }

  lemma {:induction false} InvertedIsOrdered(hunks: seq<Hunk>, oldEnd: int, newEnd: int)
    requires Ordered(hunks, oldEnd, newEnd)
    ensures Ordered(Invert(hunks), newEnd, oldEnd)
  {
    hide WellFormedHunk, AnyChange;
    if hunks != [] {
      InvertedHunk(hunks[0]);
      InvertedIsOrdered(hunks[1..], OldEnd(hunks[0]), NewEnd(hunks[0]));
      assert Invert(hunks)[1..] == Invert(hunks[1..]);
    }
  }

  /** The inverse of an accepted patch is an accepted patch. */
  lemma {:induction false} InvertedIsWellFormed(hunks: seq<Hunk>)
    requires WellFormed(hunks)
    ensures WellFormed(Invert(hunks))
  {
    InvertedIsOrdered(hunks, 0, 0);
    var i :| 0 <= i < |hunks| && AnyChange(hunks[i].lines);
    OrderedHunk(hunks, 0, 0, i);
    InvertedHunk(hunks[i]);
    assert AnyChange(Invert(hunks)[i].lines);
  }

  lemma {:induction false} OrderedHunk(hunks: seq<Hunk>, oldEnd: int, newEnd: int, i: nat)
    requires Ordered(hunks, oldEnd, newEnd) && i < |hunks|
    ensures WellFormedHunk(hunks[i])
    decreases i
  {
    hide WellFormedHunk;
    if i > 0 {
      OrderedHunk(hunks[1..], OldEnd(hunks[0]), NewEnd(hunks[0]), i - 1);
    }
  }

  lemma {:induction false} InvertedFits(h: Hunk, source: seq<string>, s: nat, output: seq<string>, o: nat)
    requires s <= |source| && o <= |output|
    ensures HunkFits(InvertHunk(h), output, o, source, s) <==> HunkFits(h, source, s, output, o)
    ensures OldIndex(InvertHunk(h)) == NewIndex(h) && NewIndex(InvertHunk(h)) == OldIndex(h)
  {
    hide OldLines, NewLines, InvertLines, Matches;
    InvertedLines(h.lines);
  }

  /** The inverse relates the two documents the other way round. */
  lemma {:induction false} InvertedRelates(hunks: seq<Hunk>, source: seq<string>, s: nat, output: seq<string>, o: nat)
    requires s <= |source| && o <= |output|
    ensures Relates(Invert(hunks), output, o, source, s) <==> Relates(hunks, source, s, output, o)
    decreases hunks
  {
    hide OldLines, NewLines, InvertLines, HunkFits, OldIndex, NewIndex;
    if hunks != [] {
      var h := hunks[0];
      InvertedLines(h.lines);
      InvertedFits(h, source, s, output, o);
      assert Invert(hunks)[0] == InvertHunk(h) && Invert(hunks)[1..] == Invert(hunks[1..]);
      if HunkFits(h, source, s, output, o) {
        FitEnds(h, source, s, output, o);
        InvertedRelates(hunks[1..], source, OldIndex(h) + |OldLines(h.lines)|, output, NewIndex(h) + |NewLines(h.lines)|);
      }
    }
  }

  lemma {:induction false} FitEnds(h: Hunk, source: seq<string>, s: nat, output: seq<string>, o: nat)
    requires s <= |source| && o <= |output| && HunkFits(h, source, s, output, o)
    ensures 0 <= OldIndex(h) && OldIndex(h) + |OldLines(h.lines)| <= |source|
    ensures 0 <= NewIndex(h) && NewIndex(h) + |NewLines(h.lines)| <= |output|
  {
    hide OldLines, NewLines;
    MatchFits(source, OldIndex(h), OldLines(h.lines));
    MatchFits(output, NewIndex(h), NewLines(h.lines));
  }

  lemma {:induction false} MatchFits(source: seq<string>, at: int, expected: seq<string>)
    requires Matches(source, at, expected)
    ensures at + |expected| <= |source|
  {
  }

  /** On line lists, the inverse takes the new document back to the old one. */
  lemma {:induction false} InverseUndoes(hunks: seq<Hunk>, source: seq<string>, final: seq<string>)
    ensures Apply(hunks, source, 0, []) == Some(final) <==> Apply(Invert(hunks), final, 0, []) == Some(source)
  {
    hide Apply, Relates, Invert;
    AppliesIffRelates(hunks, source, 0, [], final);
    AppliesIffRelates(Invert(hunks), final, 0, [], source);
    InvertedRelates(hunks, source, 0, final, 0);
  }

  // ---- documents as strings

  /** The document's lines; an empty document has none. */
  function Source(body: string): (r: seq<string>)
    ensures Join(r) == body && AreLines(r)
  {
    if body == "" then [] else Split(body)
  }

  lemma {:induction false} SourceOfJoin(lines: seq<string>)
    requires AreLines(lines)
    ensures Source(Join(lines)) == lines <==> lines != [""]
  {
    if |lines| == 1 {
      SplitJoin(lines);
    } else if |lines| > 1 {
      SplitJoin(lines);
    }
  }

  lemma {:induction false} NewLinesAreLines(lines: seq<string>)
    requires AreLines(lines)
    ensures AreLines(NewLines(lines))
  {
    if lines != [] {
      NewLinesAreLines(lines[1..]);
    }
  }

  lemma {:induction false} AppliedLinesAreLines(hunks: seq<Hunk>, source: seq<string>, at: nat, output: seq<string>,
                                                oldEnd: int, newEnd: int)
    requires at <= |source| && AreLines(source) && AreLines(output)
    requires Ordered(hunks, oldEnd, newEnd)
    requires Apply(hunks, source, at, output).Some?
    ensures AreLines(Apply(hunks, source, at, output).value)
    decreases hunks
  {
    hide OldLines, NewLines;
    if hunks != [] {
      var h := hunks[0];
      var copied := output + source[at..OldIndex(h)];
      NewLinesAreLines(h.lines);
      AppliedLinesAreLines(hunks[1..], source, OldIndex(h) + |OldLines(h.lines)|, copied + NewLines(h.lines),
                           OldEnd(h), NewEnd(h));
    }
  }

  /** Hunks that apply both to no lines and to one empty line only add lines, above that line. */
  lemma {:induction false} NothingOrBlank(hunks: seq<Hunk>, output: seq<string>)
    requires Apply(hunks, [], 0, output).Some? && Apply(hunks, [""], 0, output).Some?
    ensures Apply(hunks, [""], 0, output).value == Apply(hunks, [], 0, output).value + [""]
    decreases hunks
  {
    hide OldLines, NewLines;
    var none: seq<string> := [];
    if hunks != [] {
      var h := hunks[0];
      assert output + none[0..0] == output + [""][0..0] == output;
      NothingOrBlank(hunks[1..], output + NewLines(h.lines));
    }
  }

  lemma {:induction false} AddsSomething(hunks: seq<Hunk>, output: seq<string>, oldEnd: int, newEnd: int)
    requires hunks != [] && Ordered(hunks, oldEnd, newEnd)
    requires Apply(hunks, [], 0, output).Some?
    ensures Apply(hunks, [], 0, output).value != []
  {
    OneSideCounts(hunks[0].lines);
  }

  lemma {:induction false} OneSideCounts(lines: seq<string>)
    requires lines != []
    ensures Consumed(lines) > 0 || Produced(lines) > 0
  {
  }

  /**
   * On strings, the inverse patch restores the old document exactly when the new document is not
   * one empty line: that document is the empty string, which reads back as no line at all.
   */
  lemma {:induction false} InverseRestoresDocument(body: string, hunks: seq<Hunk>)
    requires WellFormed(hunks) && Apply(hunks, Source(body), 0, []).Some?
    ensures WellFormed(Invert(hunks)) && Parse(Print(Invert(hunks))) == Some(Invert(hunks))
    ensures var output := Apply(hunks, Source(body), 0, []).value;
            var undone := Apply(Invert(hunks), Source(Join(output)), 0, []);
            (undone.Some? && Join(undone.value) == body) <==> output != [""]
  {
    hide Ordered, Parse, Print;
    InvertedIsWellFormed(hunks);
    PrintThenParse(Invert(hunks));
    var source := Source(body);
    var output := Apply(hunks, source, 0, []).value;
    InverseUndoes(hunks, source, output);
    AppliedLinesAreLines(hunks, source, 0, [], 0, 0);
    SourceOfJoin(output);
    if output == [""] && Apply(Invert(hunks), [], 0, []).Some? {
      NothingOrBlank(Invert(hunks), []);
      var undone := Apply(Invert(hunks), [], 0, []).value;
      AddsSomething(Invert(hunks), [], 0, 0);
      JoinAppend(undone, [""]);
    }
  }
}
