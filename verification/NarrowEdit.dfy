/** prepareAuthoredDocumentPatch: applying the patch and narrowing it to one unique replacement. */
module NarrowEdit {
  import opened Common
  import opened Lines
  import opened PatchText
  import opened PatchEdit

  datatype Mode = PatchMode | ReplaceMode

  datatype Prepared = Prepared(body: string, mode: Mode, text: string, findText: string)

  /** Lines lo..oldEnd of the old document become lines lo..newEnd of the new one. */
  datatype Range = Range(lo: nat, oldEnd: nat, newEnd: nat)

  predicate Fits(r: Range, source: seq<string>, output: seq<string>) {
    && r.lo <= r.oldEnd <= |source|
    && r.lo <= r.newEnd <= |output|
    && source[..r.lo] == output[..r.lo]
    && source[r.oldEnd..] == output[r.newEnd..]
  }

  function FindText(source: seq<string>, r: Range): string
    requires r.lo <= r.oldEnd <= |source|
  {
    Join(source[r.lo..r.oldEnd])
  }

  function NewText(output: seq<string>, r: Range): string
    requires r.lo <= r.newEnd <= |output|
  {
    Join(output[r.lo..r.newEnd])
  }

  predicate Unique(body: string, text: string) {
    text != "" && IndexOf(body, text) == LastIndexOf(body, text)
  }

  /** The range that k widenings give: first upwards to the top, then downwards. */
  function Widened(r: Range, k: nat): Range {
    if k <= r.lo then Range(r.lo - k, r.oldEnd, r.newEnd)
    else Range(0, r.oldEnd + (k - r.lo), r.newEnd + (k - r.lo))
  }

  lemma {:induction false} WidenedFits(r: Range, k: nat, source: seq<string>, output: seq<string>)
    requires Fits(r, source, output)
    requires k <= r.lo + |source| - r.oldEnd
    ensures Fits(Widened(r, k), source, output)
  {
    var w := Widened(r, k);
    assert source[..w.lo] == source[..r.lo][..w.lo];
    assert output[..w.lo] == output[..r.lo][..w.lo];
    assert |source[r.oldEnd..]| == |output[r.newEnd..]|;
    assert source[w.oldEnd..] == source[r.oldEnd..][w.oldEnd - r.oldEnd..];
    assert output[w.newEnd..] == output[r.newEnd..][w.newEnd - r.newEnd..];
  }

  /** k widenings give unique text, and no fewer do. */
  ghost predicate FirstUnique(body: string, source: seq<string>, output: seq<string>, r: Range, k: nat)
    requires Fits(r, source, output)
  {
    && k <= r.lo + |source| - r.oldEnd
    && Fits(Widened(r, k), source, output)
    && Unique(body, FindText(source, Widened(r, k)))
    && forall j :: 0 <= j < k ==>
         Fits(Widened(r, j), source, output) && !Unique(body, FindText(source, Widened(r, j)))
  }

  // ---- the range the hunks change

  function Hull(hunks: seq<Hunk>): Range
    requires hunks != []
    requires 0 <= OldIndex(hunks[0]) && 0 <= OldEnd(hunks[|hunks| - 1]) && 0 <= NewEnd(hunks[|hunks| - 1])
  {
    Range(OldIndex(hunks[0]), OldEnd(hunks[|hunks| - 1]), NewEnd(hunks[|hunks| - 1]))
  }

  lemma {:induction false} AppliedTail(hunks: seq<Hunk>, source: seq<string>, at: nat, output: seq<string>,
                                       oldEnd: int, newEnd: int)
    requires at <= |source| && hunks != []
    requires Ordered(hunks, oldEnd, newEnd)
    requires Apply(hunks, source, at, output).Some?
    ensures var final, last := Apply(hunks, source, at, output).value, hunks[|hunks| - 1];
            && at <= OldIndex(hunks[0]) <= OldEnd(last) <= |source|
            && |output| <= NewIndex(hunks[0]) <= NewEnd(last) <= |final|
            && source[OldEnd(last)..] == final[NewEnd(last)..]
            && output + source[at..OldIndex(hunks[0])] <= final
            && |output + source[at..OldIndex(hunks[0])]| == NewIndex(hunks[0])
    decreases hunks
  {
    hide OldLines, NewLines, Consumed, Produced;
    var h := hunks[0];
    var copied := output + source[at..OldIndex(h)];
    var next := OldIndex(h) + |OldLines(h.lines)|;
    assert copied <= copied + NewLines(h.lines);
    if |hunks| == 1 {
      assert hunks[1..] == [];
    } else {
      AppliedTail(hunks[1..], source, next, copied + NewLines(h.lines), OldEnd(h), NewEnd(h));
    }
  }

  lemma {:induction false} HullFits(hunks: seq<Hunk>, source: seq<string>)
    requires hunks != [] && Ordered(hunks, 0, 0)
    requires Apply(hunks, source, 0, []).Some?
    ensures 0 <= OldIndex(hunks[0]) <= OldEnd(hunks[|hunks| - 1]) && 0 <= NewEnd(hunks[|hunks| - 1])
    ensures OldIndex(hunks[0]) == NewIndex(hunks[0])
    ensures Fits(Hull(hunks), source, Apply(hunks, source, 0, []).value)
  {
    hide Ordered, Apply;
    AppliedTail(hunks, source, 0, [], 0, 0);
    var final, lo := Apply(hunks, source, 0, []).value, OldIndex(hunks[0]);
    assert [] + source[0..lo] == source[..lo];
    assert final[..lo] == source[..lo];
  }

  // ---- replacing the text that was found

  function Above(lines: seq<string>): string {
    if lines == [] then "" else Join(lines) + "\n"
  }

  function Below(lines: seq<string>): string {
    if lines == [] then "" else "\n" + Join(lines)
  }

  lemma {:induction false} JoinParts(a: seq<string>, b: seq<string>, c: seq<string>)
    requires b != []
    ensures Join(a + b + c) == Above(a) + Join(b) + Below(c)
  {
    if a == [] {
      assert a + b == b;
    } else {
      JoinAppend(a, b);
    }
    if c == [] {
      assert a + b + c == a + b;
    } else {
      JoinAppend(a + b, c);
    }
  }

  /** Leaving the middle out keeps both line breaks around it, unless nothing is around it. */
  lemma {:induction false} JoinGap(a: seq<string>, c: seq<string>)
    ensures Join(a + c) == Above(a) + Below(c) <==> a == [] && c == []
  {
    if a != [] && c != [] {
      JoinAppend(a, c);
      assert |Join(a + c)| < |Above(a) + Below(c)|;
    } else if a != [] {
      assert a + c == a;
    } else {
      assert a + c == c;
    }
  }

  /** The document with the one occurrence of the found text replaced. */
  function ReplaceOnce(body: string, findText: string, text: string): string
    requires Unique(body, findText) && OccursAt(body, findText, IndexOf(body, findText))
  {
    var i := IndexOf(body, findText);
    body[..i] + text + body[i + |findText|..]
  }

  /** The found text is where its lines are, and nowhere else. */
  lemma {:induction false} FoundInPlace(source: seq<string>, r: Range)
    requires r.lo <= r.oldEnd <= |source|
    requires Unique(Join(source), FindText(source, r))
    ensures var body, findText := Join(source), FindText(source, r);
            && OccursAt(body, findText, |Above(source[..r.lo])|)
            && (forall i :: OccursAt(body, findText, i) ==> i == |Above(source[..r.lo])|)
            && IndexOf(body, findText) == |Above(source[..r.lo])|
            && body == Above(source[..r.lo]) + findText + Below(source[r.oldEnd..])
  {
    hide Above, Below, Join, IndexOf, LastIndexOf;
    var a, b, c := source[..r.lo], source[r.lo..r.oldEnd], source[r.oldEnd..];
    assert b != [] by { JoinOfNothing(); }
    assert source == a + b + c;
    JoinParts(a, b, c);
    var body, findText := Join(source), FindText(source, r);
    assert body[|Above(a)|..|Above(a)| + |findText|] == findText;
    assert OccursAt(body, findText, |Above(a)|);
    assert IndexOf(body, findText) != -1;
  }

  lemma {:induction false} JoinOfNothing()
    ensures Join([]) == ""
  {
  }

  /**
   * Replacing the found text by the new text gives the new document exactly when the new text has
   * a line, or the found text is the whole document.
   */
  lemma {:induction false} ReplacementIsExact(source: seq<string>, output: seq<string>, r: Range)
    requires Fits(r, source, output)
    requires Unique(Join(source), FindText(source, r))
    ensures var body, findText := Join(source), FindText(source, r);
            && OccursAt(body, findText, IndexOf(body, findText))
            && (ReplaceOnce(body, findText, NewText(output, r)) == Join(output) <==>
                r.lo < r.newEnd || (r.lo == 0 && r.oldEnd == |source|))
  {
    hide Above, Below, Join, IndexOf, LastIndexOf;
    FoundInPlace(source, r);
    var body, findText := Join(source), FindText(source, r);
    var a, b, c := output[..r.lo], output[r.lo..r.newEnd], output[r.newEnd..];
    assert source[..r.lo] == a && source[r.oldEnd..] == c;
    assert body[..|Above(a)|] == Above(a);
    assert body[|Above(a)| + |findText|..] == Below(c);
    assert ReplaceOnce(body, findText, NewText(output, r)) == Above(a) + Join(b) + Below(c);
    if r.lo < r.newEnd {
      assert output == a + b + c;
      JoinParts(a, b, c);
    } else {
      assert output == a + c;
      JoinOfNothing();
      assert Above(a) + "" + Below(c) == Above(a) + Below(c);
      JoinGap(a, c);
    }
  }

  /**
   * The patch only removes lines, in one run; the removed text is unique as it stands and is not
   * the whole document.
   */
  predicate RemovesRunInside(body: string, hunks: seq<Hunk>)
  {
    && hunks != [] && 0 <= NewEnd(hunks[|hunks| - 1])
    && 0 <= OldIndex(hunks[0]) <= OldEnd(hunks[|hunks| - 1]) <= |Source(body)|
    && var r := Hull(hunks);
       && r.newEnd == r.lo
       && Unique(body, FindText(Source(body), r))
       && (0 < r.lo || r.oldEnd < |Source(body)|)
  }

  /** What prepareAuthoredDocumentPatch returns for hunks that apply to a document with text: the patched document and an edit. */
  ghost predicate IsPrepared(body: string, hunks: seq<Hunk>, prepared: Prepared) {
    && WellFormed(hunks) && body != "" && hunks != [] && Apply(hunks, Source(body), 0, []).Some?
    && 0 <= OldIndex(hunks[0]) <= OldEnd(hunks[|hunks| - 1]) && 0 <= NewEnd(hunks[|hunks| - 1])
    && var source, output := Source(body), Apply(hunks, Source(body), 0, []).value;
       Fits(Hull(hunks), source, output) && exists k :: NarrowedAt(body, source, output, Hull(hunks), k, prepared)
  }

  /** The edit after k widenings, the first whose text is unique. */
  ghost predicate NarrowedAt(body: string, source: seq<string>, output: seq<string>, hull: Range, k: int, prepared: Prepared)
    requires Fits(hull, source, output)
  {
    k >= 0 && FirstUnique(body, source, output, hull, k)
    && prepared == Prepared(Join(output), PatchMode, NewText(output, Widened(hull, k)), FindText(source, Widened(hull, k)))
  }

  lemma {:induction false} NarrowedAtIsExact(source: seq<string>, output: seq<string>, hull: Range, k: int, prepared: Prepared)
    requires Fits(hull, source, output) && NarrowedAt(Join(source), source, output, hull, k, prepared)
    ensures var body := Join(source);
            && OccursAt(body, prepared.findText, IndexOf(body, prepared.findText))
            && (forall i, j :: OccursAt(body, prepared.findText, i) && OccursAt(body, prepared.findText, j) ==> i == j)
            && (ReplaceOnce(body, prepared.findText, prepared.text) == prepared.body <==>
                  !(hull.newEnd == hull.lo && Unique(body, FindText(source, hull)) && (0 < hull.lo || hull.oldEnd < |source|)))
  {
    hide IndexOf, LastIndexOf, Join;
    var r := Widened(hull, k);
    FoundInPlace(source, r);
    ReplacementIsExact(source, output, r);
    if k > 0 {
      assert r.lo < r.newEnd;
      assert Widened(hull, 0) == hull;
    } else {
      assert r == hull;
    }
  }

  /**
   * Narrowed edit equals whole edit. Whatever range the widening stops at, its text occurs exactly
   * once in the document; and replacing it there gives the patched document, except when the patch
   * removes a run of lines inside the document, where a line break too many is left.
   */
  lemma {:induction false} NarrowedEditEqualsWholeEdit(body: string, hunks: seq<Hunk>, prepared: Prepared)
    requires IsPrepared(body, hunks, prepared)
    ensures OccursAt(body, prepared.findText, IndexOf(body, prepared.findText))
    ensures forall i, j :: OccursAt(body, prepared.findText, i) && OccursAt(body, prepared.findText, j) ==> i == j
    ensures ReplaceOnce(body, prepared.findText, prepared.text) == prepared.body <==> !RemovesRunInside(body, hunks)
  {
    hide WellFormed, Apply, IndexOf, LastIndexOf, Join, NarrowedAt, Unique, FindText, OccursAt, ReplaceOnce, Source;
    var source, output := Source(body), Apply(hunks, Source(body), 0, []).value;
    var k :| NarrowedAt(body, source, output, Hull(hunks), k, prepared);
    NarrowedAtIsExact(source, output, Hull(hunks), k, prepared);
  }

  // ---- the function itself, as the loops it is

  method ApplyHunkLines(lines: seq<string>, source: seq<string>, start: nat, output0: seq<string>)
    returns (r: Option<seq<string>>, cursor: nat)
    requires start <= |source|
    ensures r == if Matches(source, start, OldLines(lines)) then Some(output0 + NewLines(lines)) else None
    ensures r.Some? ==> cursor == start + |OldLines(lines)| <= |source|
  {
    hide Consumed, Produced;
    var output := output0;
    cursor := start;
    var i := 0;
    while i < |lines|
      invariant 0 <= i <= |lines|
      invariant 0 <= cursor <= |source|
      invariant Matches(source, cursor, OldLines(lines[i..])) <==> Matches(source, start, OldLines(lines))
      invariant cursor + |OldLines(lines[i..])| == start + |OldLines(lines)|
      invariant output + NewLines(lines[i..]) == output0 + NewLines(lines)
    {
      var line := lines[i];
      var value := Content(line);
      assert lines[i..][1..] == lines[i + 1..];
      MatchesNext(source, cursor, lines[i..]);
      NewLinesNext(output, lines[i..]);
      if !Adds(line) {
        if cursor >= |source| || source[cursor] != value {
          return None, cursor;
        }
        cursor := cursor + 1;
      }
      if !Removes(line) {
        output := output + [value];
      }
      i := i + 1;
    }
    assert lines[i..] == [];
    assert output + [] == output;
    r := Some(output);
  }

  lemma {:induction false} MatchesNext(source: seq<string>, cursor: nat, lines: seq<string>)
    requires cursor <= |source| && lines != []
    ensures Adds(lines[0]) ==> OldLines(lines) == OldLines(lines[1..])
    ensures !Adds(lines[0]) ==>
              && |OldLines(lines)| == 1 + |OldLines(lines[1..])|
              && (Matches(source, cursor, OldLines(lines)) <==>
                  && cursor < |source| && source[cursor] == Content(lines[0])
                  && Matches(source, cursor + 1, OldLines(lines[1..])))
  {
    hide Content, Consumed;
    if !Adds(lines[0]) {
      MatchesCons(source, cursor, Content(lines[0]), OldLines(lines[1..]));
    }
  }

  lemma {:induction false} MatchesCons(source: seq<string>, cursor: nat, first: string, rest: seq<string>)
    requires cursor <= |source|
    ensures Matches(source, cursor, [first] + rest) <==>
            cursor < |source| && source[cursor] == first && Matches(source, cursor + 1, rest)
  {
    var end := cursor + 1 + |rest|;
    if end <= |source| {
      assert source[cursor..end] == [source[cursor]] + source[cursor + 1..end];
      assert ([first] + rest)[0] == first && ([first] + rest)[1..] == rest;
    }
  }

  lemma {:induction false} NewLinesNext(output: seq<string>, lines: seq<string>)
    requires lines != []
    ensures output + NewLines(lines) ==
            (if Removes(lines[0]) then output else output + [Content(lines[0])]) + NewLines(lines[1..])
  {
    hide Content, Produced;
    var rest := NewLines(lines[1..]);
    if Removes(lines[0]) {
      assert [] + rest == rest;
    } else {
      Associate(output, [Content(lines[0])], rest);
    }
  }

  lemma {:induction false} Associate(a: seq<string>, b: seq<string>, c: seq<string>)
    ensures a + (b + c) == a + b + c
  {
  }

  function MinLine(current: Option<nat>, line: nat): nat {
    if current.Some? && current.value < line then current.value else line
  }

  function MaxLine(current: nat, line: nat): nat {
    if current > line then current else line
  }

  lemma {:induction false} ApplyNext(hunks: seq<Hunk>, i: nat, source: seq<string>, at: nat, output: seq<string>)
    requires i < |hunks| && at <= |source|
    ensures Apply(hunks[i..], source, at, output) ==
            if OldIndex(hunks[i]) < at || OldIndex(hunks[i]) > |source| then None
            else
              var copied, old_ := output + source[at..OldIndex(hunks[i])], OldLines(hunks[i].lines);
              if |copied| != NewIndex(hunks[i]) || !Matches(source, OldIndex(hunks[i]), old_) then None
              else Apply(hunks[i + 1..], source, OldIndex(hunks[i]) + |old_|, copied + NewLines(hunks[i].lines))
  {
    hide OldLines, NewLines;
    assert hunks[i..][0] == hunks[i] && hunks[i..][1..] == hunks[i + 1..];
  }

  lemma {:induction false} OrderedNext(hunks: seq<Hunk>, i: nat, oldEnd: int, newEnd: int)
    requires i < |hunks| && Ordered(hunks[i..], oldEnd, newEnd)
    ensures WellFormedHunk(hunks[i]) && oldEnd <= OldIndex(hunks[i]) && newEnd <= NewIndex(hunks[i])
    ensures Ordered(hunks[i + 1..], OldEnd(hunks[i]), NewEnd(hunks[i]))
    ensures |OldLines(hunks[i].lines)| == hunks[i].oldCount
  {
    assert hunks[i..][0] == hunks[i] && hunks[i..][1..] == hunks[i + 1..];
  }

  /** The first loop: applies the hunks, and takes the hull of the lines they change. */
  method ApplyHunks(hunks: seq<Hunk>, source: seq<string>) returns (r: Option<(seq<string>, Range)>)
    requires hunks != [] && Ordered(hunks, 0, 0)
    ensures r.Some? <==> Apply(hunks, source, 0, []).Some?
    ensures r.Some? ==> r.value.0 == Apply(hunks, source, 0, []).value
    ensures r.Some? ==> 0 <= OldIndex(hunks[0]) <= OldEnd(hunks[|hunks| - 1]) && 0 <= NewEnd(hunks[|hunks| - 1])
    ensures r.Some? ==> r.value.1 == Hull(hunks) && Fits(Hull(hunks), source, r.value.0)
  {
    hide WellFormedHunk, OldLines, NewLines, Apply, Ordered, Matches, Fits;
    var output: seq<string> := [];
    var sourceIndex: nat := 0;
    var oldStart: Option<nat>, oldEnd: nat := None, 0;
    var newStart: Option<nat>, newEnd: nat := None, 0;
    var i: nat := 0;
    assert hunks[0..] == hunks;
    while i < |hunks|
      invariant 0 <= i <= |hunks|
      invariant sourceIndex <= |source|
      invariant oldEnd <= sourceIndex
      invariant Apply(hunks[i..], source, sourceIndex, output) == Apply(hunks, source, 0, [])
      invariant Ordered(hunks[i..], oldEnd, newEnd)
      invariant i == 0 ==> oldStart == None && newStart == None
      invariant i > 0 ==> 0 <= OldIndex(hunks[0]) <= oldEnd && 0 <= NewIndex(hunks[0]) <= newEnd
      invariant i > 0 ==> oldStart == Some(OldIndex(hunks[0])) && newStart == Some(NewIndex(hunks[0]))
      invariant i > 0 ==> oldEnd == OldEnd(hunks[i - 1]) && newEnd == NewEnd(hunks[i - 1])
    {
      var hunk := hunks[i];
      ApplyNext(hunks, i, source, sourceIndex, output);
      OrderedNext(hunks, i, oldEnd, newEnd);
      var hunkOldIndex: nat, hunkNewIndex: nat := OldIndex(hunk), NewIndex(hunk);
      if hunkOldIndex < sourceIndex || hunkOldIndex > |source| {
        return None;
      }
      output := output + source[sourceIndex..hunkOldIndex];
      if |output| != hunkNewIndex {
        return None;
      }
      var applied, cursor := ApplyHunkLines(hunk.lines, source, hunkOldIndex, output);
      if applied == None {
        return None;
      }
      output := applied.value;
      sourceIndex := cursor;
      oldStart := Some(MinLine(oldStart, hunkOldIndex));
      oldEnd := MaxLine(oldEnd, hunkOldIndex + hunk.oldCount);
      newStart := Some(MinLine(newStart, hunkNewIndex));
      newEnd := MaxLine(newEnd, hunkNewIndex + hunk.newCount);
      i := i + 1;
    }
    assert hunks[i..] == [];
    ApplyNone(source, sourceIndex, output);
    output := output + source[sourceIndex..];
    HullFits(hunks, source);
    r := Some((output, Range(oldStart.value, oldEnd, newEnd)));
  }

  lemma {:induction false} ApplyNone(source: seq<string>, at: nat, output: seq<string>)
    requires at <= |source|
    ensures Apply([], source, at, output) == Some(output + source[at..])
  {
  }

  /** The second loop: widens the range until its text is unique. Its last branch is never taken. */
  method Narrow(body: string, source: seq<string>, output: seq<string>, hull: Range)
    returns (findText: string, text: string, ghost k: nat)
    requires body != "" && source == Source(body)
    requires Fits(hull, source, output)
    ensures FirstUnique(body, source, output, hull, k)
    ensures findText == FindText(source, Widened(hull, k)) && text == NewText(output, Widened(hull, k))
  {
    hide IndexOf, LastIndexOf, Join, Unique;
    var oldStart: nat, oldEnd: nat := hull.lo, hull.oldEnd;
    var newStart: nat, newEnd: nat := hull.lo, hull.newEnd;
    k := 0;
    assert source[0..|source|] == source;
    WholeIsUnique(body);
    while true
      invariant k <= hull.lo + |source| - hull.oldEnd
      invariant oldStart == newStart
      invariant Range(oldStart, oldEnd, newEnd) == Widened(hull, k)
      invariant Fits(Widened(hull, k), source, output)
      invariant forall j :: 0 <= j < k ==>
                  Fits(Widened(hull, j), source, output) && !Unique(body, FindText(source, Widened(hull, j)))
      decreases oldStart + (|source| - oldEnd)
    {
      findText := Join(source[oldStart..oldEnd]);
      if Unique(body, findText) {
        text := Join(output[newStart..newEnd]);
        return;
      }
      assert |source[oldEnd..]| == |output[newEnd..]|;
      if oldStart > 0 && newStart > 0 {
        oldStart := oldStart - 1;
        newStart := newStart - 1;
      } else if oldEnd < |source| && newEnd < |output| {
        oldEnd := oldEnd + 1;
        newEnd := newEnd + 1;
      } else {
        assert false;
      }
      k := k + 1;
      WidenedFits(hull, k, source, output);
    }
  }

  lemma {:induction false} WholeIsUnique(body: string)
    requires body != ""
    ensures Unique(body, body)
  {
    assert OccursAt(body, body, 0);
    assert forall i :: OccursAt(body, body, i) ==> i == 0;
  }

  method PrepareAuthoredDocumentPatch(body: string, patch: string) returns (r: Result<Prepared>)
    ensures match Parse(patch)
            case None => r == Err("OUTLINE_PATCH_INVALID")
            case Some(hunks) =>
              WellFormed(hunks) &&
              match Apply(hunks, Source(body), 0, [])
              case None => r == Err("OUTLINE_PATCH_INVALID")
              case Some(output) =>
                if body == "" then
                  r == Ok(Prepared(Join(output), ReplaceMode, Join(output), ""))
                else
                  r.Ok? && r.value.body == Join(output) && IsPrepared(body, hunks, r.value)
  {
    hide IndexOf, LastIndexOf, Join, Unique, Parse, Apply, Ordered, Changes, FirstUnique, Fits;
    var hunks := ParseUnifiedTextPatch(patch);
    if hunks == None {
      return Err("OUTLINE_PATCH_INVALID");
    }
    ParsesExactlyTheWellFormed(hunks.value);
    assert hunks.value != [] by { WellFormedHasHunks(hunks.value); }
    var source := Source(body);
    var applied := ApplyHunks(hunks.value, source);
    if applied == None {
      return Err("OUTLINE_PATCH_INVALID");
    }
    var (output, hull) := applied.value;
    var nextBody := Join(output);
    if source == [] {
      assert body == "" by { JoinOfNothing(); }
      return Ok(Prepared(nextBody, ReplaceMode, nextBody, ""));
    }
    var findText, text, k := Narrow(body, source, output, hull);
    r := Ok(Prepared(nextBody, PatchMode, text, findText));
    assert NarrowedAt(body, source, output, hull, k, r.value);
  }

  lemma {:induction false} WellFormedHasHunks(hunks: seq<Hunk>)
    requires WellFormed(hunks)
    ensures hunks != []
  {
  }
}
