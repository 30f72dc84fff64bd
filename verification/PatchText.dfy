/** The unified-diff text: hunks, their parser and their printer. */
module PatchText {
  import opened Common
  import opened Lines

  const MAX_SAFE_INTEGER := 9007199254740991

  datatype Hunk = Hunk(oldStart: nat, oldCount: nat, newStart: nat, newCount: nat, lines: seq<string>)

  datatype Header = Header(oldStart: nat, oldCount: nat, newStart: nat, newCount: nat)

  /** An empty range names the line before it; any other range names its first line. */
  function LineIndex(start: nat, count: nat): int {
    if count == 0 then start else start - 1
  }

  function OldIndex(h: Hunk): int { LineIndex(h.oldStart, h.oldCount) }

  function NewIndex(h: Hunk): int { LineIndex(h.newStart, h.newCount) }

  function OldEnd(h: Hunk): int { OldIndex(h) + h.oldCount }

  function NewEnd(h: Hunk): int { NewIndex(h) + h.newCount }

  predicate Adds(line: string) {
    line != "" && line[0] == '+'
  }

  predicate Removes(line: string) {
    line != "" && line[0] == '-'
  }

  predicate IsHunkLine(line: string) {
    line != "" && (line[0] == ' ' || line[0] == '+' || line[0] == '-')
  }

  predicate StartsHeader(line: string) {
    |line| >= 3 && line[0] == '@' && line[1] == '@' && line[2] == ' '
  }

  /** Lines that count against the old document: all but additions. */
  function Consumed(lines: seq<string>): nat {
    if lines == [] then 0 else (if Adds(lines[0]) then 0 else 1) + Consumed(lines[1..])
  }

  /** Lines that count against the new document: all but removals. */
  function Produced(lines: seq<string>): nat {
    if lines == [] then 0 else (if Removes(lines[0]) then 0 else 1) + Produced(lines[1..])
  }

  predicate AnyChange(lines: seq<string>) {
    exists j :: 0 <= j < |lines| && (Adds(lines[j]) || Removes(lines[j]))
  }

  predicate Changes(hunks: seq<Hunk>) {
    exists i :: 0 <= i < |hunks| && AnyChange(hunks[i].lines)
  }

  predicate ValidHeader(h: Header) {
    && h.oldStart <= MAX_SAFE_INTEGER && h.oldCount <= MAX_SAFE_INTEGER
    && h.newStart <= MAX_SAFE_INTEGER && h.newCount <= MAX_SAFE_INTEGER
    && (h.oldStart == 0 ==> h.oldCount == 0)
    && (h.newStart == 0 ==> h.newCount == 0)
  }

  predicate WellFormedHunk(h: Hunk) {
    && ValidHeader(Header(h.oldStart, h.oldCount, h.newStart, h.newCount))
    && h.lines != []
    && (forall i :: 0 <= i < |h.lines| ==> IsHunkLine(h.lines[i]) && IsLine(h.lines[i]))
    && Consumed(h.lines) == h.oldCount
    && Produced(h.lines) == h.newCount
  }

  /** Hunks are well formed, in order and disjoint, in the old document and in the new one. */
  predicate Ordered(hunks: seq<Hunk>, oldEnd: int, newEnd: int) {
    hunks == [] ||
    (&& WellFormedHunk(hunks[0])
     && oldEnd <= OldIndex(hunks[0]) && newEnd <= NewIndex(hunks[0])
     && Ordered(hunks[1..], OldEnd(hunks[0]), NewEnd(hunks[0])))
  }

  predicate WellFormed(hunks: seq<Hunk>) {
    Ordered(hunks, 0, 0) && Changes(hunks)
  }

  // ---- header lines

  /** (\d+)(?:,(\d+))? and what follows it. */
  function ParseRange(s: string): Option<(nat, nat, string)> {
    var n := DigitRun(s);
    if n == 0 then None
    else
      var start, rest := NumberOf(s[..n]), s[n..];
      if rest == "" || rest[0] != ',' then Some((start, 1, rest))
      else
        var m := DigitRun(rest[1..]);
        if m == 0 then Some((start, 1, rest))
        else Some((start, NumberOf(rest[1..][..m]), rest[1..][m..]))
  }

  /** ^@@ -(\d+)(?:,(\d+))? \+(\d+)(?:,(\d+))? @@$ */
  function ParseHeader(line: string): Option<Header> {
    if !("@@ -" <= line) then None
    else match ParseRange(line[4..])
      case None => None
      case Some((oldStart, oldCount, rest)) =>
        if !(" +" <= rest) then None
        else match ParseRange(rest[2..])
          case None => None
          case Some((newStart, newCount, tail)) =>
            if tail != " @@" then None else Some(Header(oldStart, oldCount, newStart, newCount))
  }

  function PrintRange(start: nat, count: nat): string {
    Numeral(start) + "," + Numeral(count)
  }

  function PrintHeader(h: Hunk): string {
    "@@ -" + PrintRange(h.oldStart, h.oldCount) + " +" + PrintRange(h.newStart, h.newCount) + " @@"
  }

  lemma {:induction false} PrintedRangeIs(start: nat, count: nat, rest: string)
    ensures PrintRange(start, count) + rest == Numeral(start) + ("," + (Numeral(count) + rest))
  {
    hide Numeral;
  }

  /** What the two runs of digits of a range are. */
  lemma {:induction false} RangeReads(first: string, second: string, rest: string)
    requires first != "" && AllDigits(first) && second != "" && AllDigits(second) && rest != "" && !IsDigit(rest[0])
    ensures ParseRange(first + ("," + (second + rest))) == Some((NumberOf(first), NumberOf(second), rest))
  {
    hide NumberOf, DigitRun;
    var tail := "," + (second + rest);
    TakeDrop(first, tail);
    TakeDrop(second, rest);
    DigitRunOf(first, tail);
    DigitRunOf(second, rest);
    assert tail[1..] == second + rest;
  }

  lemma {:induction false} ParsePrintedRange(start: nat, count: nat, rest: string)
    requires rest != "" && !IsDigit(rest[0])
    ensures ParseRange(PrintRange(start, count) + rest) == Some((start, count, rest))
  {
    hide NumberOf, Numeral, ParseRange, PrintRange;
    PrintedRangeIs(start, count, rest);
    RangeReads(Numeral(start), Numeral(count), rest);
  }

  lemma {:induction false} TakeDrop(a: string, b: string)
    ensures (a + b)[..|a|] == a && (a + b)[|a|..] == b
  {
  }

  lemma {:induction false} ParsePrintedHeader(h: Hunk)
    ensures ParseHeader(PrintHeader(h)) == Some(Header(h.oldStart, h.oldCount, h.newStart, h.newCount))
  {
    var new_ := PrintRange(h.newStart, h.newCount) + " @@";
    var old_ := PrintRange(h.oldStart, h.oldCount) + (" +" + new_);
    assert PrintHeader(h) == "@@ -" + old_;
    assert PrintHeader(h)[4..] == old_;
    ParsePrintedRange(h.oldStart, h.oldCount, " +" + new_);
    assert (" +" + new_)[2..] == new_;
    ParsePrintedRange(h.newStart, h.newCount, " @@");
  }

  lemma {:induction false} NumeralsAreLines(s: string)
    requires AllDigits(s)
    ensures IsLine(s)
  {
  }

  lemma {:induction false} PrintedHeaderIsLine(h: Hunk)
    ensures IsLine(PrintHeader(h)) && StartsHeader(PrintHeader(h))
  {
    NumeralsAreLines(Numeral(h.oldStart));
    NumeralsAreLines(Numeral(h.oldCount));
    NumeralsAreLines(Numeral(h.newStart));
    NumeralsAreLines(Numeral(h.newCount));
  }

  // ---- the whole patch

  /** Where the body that begins at a line ends: at the next header line, or at the end. */
  function BodyEnd(lines: seq<string>, index: nat): (end: nat)
    requires index <= |lines|
    ensures index <= end <= |lines|
    decreases |lines| - index
  {
    if index == |lines| || StartsHeader(lines[index]) then index else BodyEnd(lines, index + 1)
  }

  predicate AllHunkLines(lines: seq<string>) {
    forall i :: 0 <= i < |lines| ==> IsHunkLine(lines[i])
  }

  /** A header and a body make a hunk when they fit each other and follow the hunks before. */
  function MakeHunk(header: Option<Header>, body: seq<string>, oldEnd: int, newEnd: int): (r: Option<Hunk>)
    ensures r.Some? ==> r.value.lines == body
  {
    if header == None || !ValidHeader(header.value) || body == [] || !AllHunkLines(body) then None
    else
      var Header(oldStart, oldCount, newStart, newCount) := header.value;
      var h := Hunk(oldStart, oldCount, newStart, newCount, body);
      if || Consumed(body) != oldCount
         || Produced(body) != newCount
         || OldIndex(h) < oldEnd
         || NewIndex(h) < newEnd
      then None
      else Some(h)
  }

  function ParseHunk(lines: seq<string>, index: nat, oldEnd: int, newEnd: int): (r: Option<Hunk>)
    requires index < |lines|
    ensures r.Some? ==> |r.value.lines| == BodyEnd(lines, index + 1) - (index + 1)
  {
    MakeHunk(ParseHeader(lines[index]), lines[index + 1..BodyEnd(lines, index + 1)], oldEnd, newEnd)
  }

  function ParseHunks(lines: seq<string>, index: nat, oldEnd: int, newEnd: int): Option<seq<Hunk>>
    requires index <= |lines|
    decreases |lines| - index
  {
    if index == |lines| then Some([])
    else match ParseHunk(lines, index, oldEnd, newEnd)
      case None => None
      case Some(h) =>
        match ParseHunks(lines, BodyEnd(lines, index + 1), OldEnd(h), NewEnd(h))
        case None => None
        case Some(rest) => Some([h] + rest)
  }

  function Parse(patch: string): Option<seq<Hunk>> {
    match ParseHunks(Split(patch), 0, 0, 0)
    case None => None
    case Some(hunks) => if Changes(hunks) then Some(hunks) else None
  }

  function PrintLines(hunks: seq<Hunk>): seq<string> {
    if hunks == [] then [] else [PrintHeader(hunks[0])] + hunks[0].lines + PrintLines(hunks[1..])
  }

  function Print(hunks: seq<Hunk>): string {
    Join(PrintLines(hunks))
  }

  lemma {:induction false} BodyEndOf(lines: seq<string>, index: nat, end: nat)
    requires index <= end <= |lines|
    requires forall i :: index <= i < end ==> IsHunkLine(lines[i])
    requires end < |lines| ==> StartsHeader(lines[end])
    ensures BodyEnd(lines, index) == end
    decreases end - index
  {
    if index < end {
      BodyEndOf(lines, index + 1, end);
    }
  }

  lemma {:induction false} PrintedLinesAreLines(hunks: seq<Hunk>, oldEnd: int, newEnd: int)
    requires Ordered(hunks, oldEnd, newEnd)
    ensures AreLines(PrintLines(hunks))
    ensures hunks != [] ==> PrintLines(hunks) != [] && StartsHeader(PrintLines(hunks)[0])
  {
    hide PrintHeader, Consumed, Produced;
    if hunks != [] {
      PrintedLinesAreLines(hunks[1..], OldEnd(hunks[0]), NewEnd(hunks[0]));
      PrintedHeaderIsLine(hunks[0]);
    }
  }

  lemma {:induction false} ParsePrintedHunk(h: Hunk, lines: seq<string>, index: nat, oldEnd: int, newEnd: int)
    requires WellFormedHunk(h) && oldEnd <= OldIndex(h) && newEnd <= NewIndex(h)
    requires index + 1 + |h.lines| <= |lines|
    requires lines[index] == PrintHeader(h)
    requires lines[index + 1..index + 1 + |h.lines|] == h.lines
    requires index + 1 + |h.lines| < |lines| ==> StartsHeader(lines[index + 1 + |h.lines|])
    ensures BodyEnd(lines, index + 1) == index + 1 + |h.lines|
    ensures ParseHunk(lines, index, oldEnd, newEnd) == Some(h)
  {
    hide ParseHeader, PrintHeader, Consumed, Produced;
    ParsePrintedHeader(h);
    var end := index + 1 + |h.lines|;
    forall i | index + 1 <= i < end ensures IsHunkLine(lines[i]) {
      assert lines[i] == h.lines[i - index - 1];
    }
    BodyEndOf(lines, index + 1, end);
  }

  lemma {:induction false} PrintedParts(lines: seq<string>, index: nat, header: string, body: seq<string>, rest: seq<string>)
    requires index <= |lines| && lines[index..] == [header] + body + rest
    ensures index + 1 + |body| <= |lines|
    ensures lines[index] == header
    ensures lines[index + 1..index + 1 + |body|] == body
    ensures lines[index + 1 + |body|..] == rest
  {
    var all := [header] + body + rest;
    assert lines[index] == all[0];
    assert lines[index + 1..index + 1 + |body|] == all[1..1 + |body|];
    assert lines[index + 1 + |body|..] == all[1 + |body|..];
  }

  lemma {:induction false} ParsePrintedLines(hunks: seq<Hunk>, lines: seq<string>, index: nat, oldEnd: int, newEnd: int)
    requires Ordered(hunks, oldEnd, newEnd)
    requires index <= |lines| && lines[index..] == PrintLines(hunks)
    ensures ParseHunks(lines, index, oldEnd, newEnd) == Some(hunks)
    decreases hunks
  {
    hide ParseHunk, PrintHeader, WellFormedHunk, StartsHeader, OldIndex, NewIndex, OldEnd, NewEnd;
    if hunks != [] {
      var h, rest := hunks[0], PrintLines(hunks[1..]);
      var end := index + 1 + |h.lines|;
      PrintedLinesAreLines(hunks[1..], OldEnd(h), NewEnd(h));
      PrintedParts(lines, index, PrintHeader(h), h.lines, rest);
      ParsePrintedHunk(h, lines, index, oldEnd, newEnd);
      ParsePrintedLines(hunks[1..], lines, end, OldEnd(h), NewEnd(h));
      assert hunks == [h] + hunks[1..];
    }
  }

  /** Printing well-formed hunks and parsing the text gives them back. */
  lemma {:induction false} PrintThenParse(hunks: seq<Hunk>)
    requires WellFormed(hunks)
    ensures Parse(Print(hunks)) == Some(hunks)
  {
    hide ParseHunks, Ordered;
    ParsePrintedLines(hunks, PrintLines(hunks), 0, 0, 0);
    PrintedLinesAreLines(hunks, 0, 0);
    assert hunks != [];
    SplitJoin(PrintLines(hunks));
  }

  lemma {:induction false} ParsedHunksAreOrdered(lines: seq<string>, index: nat, oldEnd: int, newEnd: int)
    requires index <= |lines| && AreLines(lines)
    requires ParseHunks(lines, index, oldEnd, newEnd).Some?
    ensures Ordered(ParseHunks(lines, index, oldEnd, newEnd).value, oldEnd, newEnd)
    decreases |lines| - index
  {
    hide ParseHeader, Consumed, Produced;
    if index < |lines| {
      var h, end := ParseHunk(lines, index, oldEnd, newEnd).value, BodyEnd(lines, index + 1);
      assert WellFormedHunk(h) by {
        forall i | 0 <= i < |h.lines| ensures IsLine(h.lines[i]) {
          assert h.lines[i] == lines[index + 1 + i];
        }
      }
      ParsedHunksAreOrdered(lines, end, OldEnd(h), NewEnd(h));
      var hunks := ParseHunks(lines, index, oldEnd, newEnd).value;
      assert hunks[1..] == ParseHunks(lines, end, OldEnd(h), NewEnd(h)).value;
    }
  }

  /** The parser's results are exactly the well-formed hunk lists. */
  lemma {:induction false} ParsesExactlyTheWellFormed(hunks: seq<Hunk>)
    ensures WellFormed(hunks) <==> exists patch :: Parse(patch) == Some(hunks)
  {
    hide Ordered;
    if WellFormed(hunks) {
      PrintThenParse(hunks);
    }
    forall patch | Parse(patch) == Some(hunks) ensures WellFormed(hunks) {
      ParsedHunksAreOrdered(Split(patch), 0, 0, 0);
    }
  }

  // ---- the parser as the loop it is

  function Prepend(done: seq<Hunk>, rest: Option<seq<Hunk>>): Option<seq<Hunk>> {
    match rest
    case None => None
    case Some(hunks) => Some(done + hunks)
  }

  lemma {:induction false} PrependNothing(rest: Option<seq<Hunk>>)
    ensures Prepend([], rest) == rest
  {
    if rest.Some? {
      assert [] + rest.value == rest.value;
    }
  }

  lemma {:induction false} PrependNext(done: seq<Hunk>, lines: seq<string>, index: nat, oldEnd: int, newEnd: int)
    requires index < |lines|
    ensures var r := Prepend(done, ParseHunks(lines, index, oldEnd, newEnd));
            match ParseHunk(lines, index, oldEnd, newEnd)
            case None => r == None
            case Some(h) =>
              r == Prepend(done + [h], ParseHunks(lines, BodyEnd(lines, index + 1), OldEnd(h), NewEnd(h)))
  {
    hide ParseHunk;
    match ParseHunk(lines, index, oldEnd, newEnd)
    case None =>
    case Some(h) =>
      match ParseHunks(lines, BodyEnd(lines, index + 1), OldEnd(h), NewEnd(h)) {
        case None =>
        case Some(rest) => assert done + ([h] + rest) == done + [h] + rest;
      }
  }

  lemma {:induction false} NoChangeInNothing()
    ensures !AnyChange([]) && !Changes([])
  {
  }

  lemma {:induction false} AnyChangeNext(lines: seq<string>, line: string)
    ensures AnyChange(lines + [line]) <==> AnyChange(lines) || Adds(line) || Removes(line)
    ensures AllHunkLines(lines + [line]) <==> AllHunkLines(lines) && IsHunkLine(line)
  {
    var all := lines + [line];
    assert all[|lines|] == line;
    assert forall j :: 0 <= j < |lines| ==> all[j] == lines[j];
  }

  lemma {:induction false} ChangesNext(hunks: seq<Hunk>, h: Hunk)
    ensures Changes(hunks + [h]) <==> Changes(hunks) || AnyChange(h.lines)
  {
    var all := hunks + [h];
    assert all[|hunks|] == h;
    assert forall i :: 0 <= i < |hunks| ==> all[i] == hunks[i];
  }

  /** The inner loop: reads body lines up to the next header, or stops at a line without a marker. */
  method ReadBody(lines: seq<string>, start: nat) returns (body: Option<seq<string>>, index: nat, changed: bool)
    requires start <= |lines|
    ensures var all := lines[start..BodyEnd(lines, start)];
            if AllHunkLines(all)
            then body == Some(all) && index == BodyEnd(lines, start) && changed == AnyChange(all)
            else body == None
  {
    hide AnyChange, AllHunkLines, StartsHeader;
    var hunkLines: seq<string> := [];
    NoChangeInNothing();
    assert AllHunkLines([]) by { AllOfNothing(); }
    changed := false;
    index := start;
    while index < |lines| && !StartsHeader(lines[index])
      invariant start <= index <= |lines|
      invariant hunkLines == lines[start..index]
      invariant BodyEnd(lines, index) == BodyEnd(lines, start)
      invariant AllHunkLines(hunkLines)
      invariant changed == AnyChange(hunkLines)
    {
      var line := lines[index];
      if !IsHunkLine(line) {
        SomeLineUnmarked(lines[start..BodyEnd(lines, start)], index - start);
        return None, index, changed;
      }
      AnyChangeNext(hunkLines, line);
      hunkLines := hunkLines + [line];
      changed := changed || line[0] == '+' || line[0] == '-';
      index := index + 1;
    }
    body := Some(hunkLines);
  }

  lemma {:induction false} AllOfNothing()
    ensures AllHunkLines([])
  {
  }

  lemma {:induction false} SomeLineUnmarked(lines: seq<string>, i: nat)
    requires i < |lines| && !IsHunkLine(lines[i])
    ensures !AllHunkLines(lines)
  {
  }

  method ParseUnifiedTextPatch(value: string) returns (r: Option<seq<Hunk>>)
    ensures r == Parse(value)
  {
    hide ParseHeader, Changes, AnyChange, AllHunkLines, ParseHunks, BodyEnd, Prepend;
    NoChangeInNothing();
    var lines := Split(value);
    var hunks: seq<Hunk> := [];
    var changed := false;
    var index := 0;
    var previousOldEnd, previousNewEnd := 0, 0;
    PrependNothing(ParseHunks(lines, 0, 0, 0));
    while index < |lines|
      invariant 0 <= index <= |lines|
      invariant changed == Changes(hunks)
      invariant ParseHunks(lines, 0, 0, 0) ==
                Prepend(hunks, ParseHunks(lines, index, previousOldEnd, previousNewEnd))
    {
      PrependNext(hunks, lines, index, previousOldEnd, previousNewEnd);
      var header := ParseHeader(lines[index]);
      if header == None || !ValidHeader(header.value) {
        return None;
      }
      var hunkLines, next, hunkChanged := ReadBody(lines, index + 1);
      if hunkLines == None || hunkLines.value == [] {
        return None;
      }
      var hunk := Hunk(header.value.oldStart, header.value.oldCount,
                       header.value.newStart, header.value.newCount, hunkLines.value);
      var oldIndex := LineIndex(hunk.oldStart, hunk.oldCount);
      var newIndex := LineIndex(hunk.newStart, hunk.newCount);
      if || Consumed(hunk.lines) != hunk.oldCount
         || Produced(hunk.lines) != hunk.newCount
         || oldIndex < previousOldEnd
         || newIndex < previousNewEnd
      {
        return None;
      }
      ChangesNext(hunks, hunk);
      changed := changed || hunkChanged;
      previousOldEnd := oldIndex + hunk.oldCount;
      previousNewEnd := newIndex + hunk.newCount;
      hunks := hunks + [hunk];
      index := next;
    }
    EndOfLines(hunks, lines, previousOldEnd, previousNewEnd);
    return if changed && hunks != [] then Some(hunks) else None;
  }

  lemma {:induction false} EndOfLines(hunks: seq<Hunk>, lines: seq<string>, oldEnd: int, newEnd: int)
    ensures Prepend(hunks, ParseHunks(lines, |lines|, oldEnd, newEnd)) == Some(hunks)
  {
    assert hunks + [] == hunks;
  }
}
