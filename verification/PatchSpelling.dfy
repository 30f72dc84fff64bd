/** Every text that the parser of unified diffs accepts, and what each of them says. */
module PatchSpelling {
  import opened Common
  import opened Lines
  import opened PatchText

  // ---- the grammar, without the parser

  ghost predicate Digits(s: string, n: nat) {
    s != "" && AllDigits(s) && NumberOf(s) == n
  }

  /** A range is its start and its count, in any digits, and a count of one may be left out. */
  ghost predicate SpellsRange(text: string, start: nat, count: nat) {
    || (count == 1 && Digits(text, start))
    || exists first: string, second: string :: text == first + "," + second && Digits(first, start) && Digits(second, count)
  }

  ghost predicate HeaderParts(line: string, old_: string, new_: string) {
    line == "@@ -" + old_ + " +" + new_ + " @@"
  }

  ghost predicate SpellsHeader(line: string, h: Header) {
    exists old_, new_ :: HeaderParts(line, old_, new_) && SpellsRange(old_, h.oldStart, h.oldCount) && SpellsRange(new_, h.newStart, h.newCount)
  }

  function HeaderOf(h: Hunk): Header {
    Header(h.oldStart, h.oldCount, h.newStart, h.newCount)
  }

  /** Each hunk is a header and its lines. */
  ghost predicate SpellsLines(lines: seq<string>, hunks: seq<Hunk>) {
    if hunks == [] then lines == []
    else
      var n := 1 + |hunks[0].lines|;
      && n <= |lines| && SpellsHeader(lines[0], HeaderOf(hunks[0])) && lines[1..n] == hunks[0].lines
      && SpellsLines(lines[n..], hunks[1..])
  }

  ghost predicate Spells(patch: string, hunks: seq<Hunk>) {
    SpellsLines(Split(patch), hunks)
  }

  // ---- ranges

  lemma {:induction false} DigitsBefore(digits: string, rest: string)
    requires digits != "" && AllDigits(digits) && (rest != "" ==> !IsDigit(rest[0]))
    ensures DigitRun(digits + rest) == |digits| && (digits + rest)[..|digits|] == digits && (digits + rest)[|digits|..] == rest
  {
    hide DigitRun;
    DigitRunOf(digits, rest);
  }

  /** A spelled range reads as what it spells, whatever stands after it, unless that could be more of it. */
  lemma {:induction false} SpelledRangeReads(text: string, start: nat, count: nat, rest: string)
    requires SpellsRange(text, start, count) && (rest != "" ==> !IsDigit(rest[0]) && rest[0] != ',')
    ensures ParseRange(text + rest) == Some((start, count, rest))
  {
    hide DigitRun, NumberOf;
    if count == 1 && Digits(text, start) {
      DigitsBefore(text, rest);
    } else {
      var first: string, second: string :| text == first + "," + second && Digits(first, start) && Digits(second, count);
      var tail := "," + (second + rest);
      assert text + rest == first + tail;
      DigitsBefore(first, tail);
      DigitsBefore(second, rest);
      assert tail[1..] == second + rest;
    }
  }

  /** What a range is read from spells it. */
  lemma {:induction false} ReadRangeSpells(s: string)
    requires ParseRange(s).Some?
    ensures var (start, count, rest) := ParseRange(s).value;
            && |rest| <= |s| && s == s[..|s| - |rest|] + rest && SpellsRange(s[..|s| - |rest|], start, count)
  {
    hide DigitRun, NumberOf;
    var n := DigitRun(s);
    var start, tail := NumberOf(s[..n]), s[n..];
    assert s == s[..n] + tail && Digits(s[..n], start);
    if tail != "" && tail[0] == ',' && DigitRun(tail[1..]) != 0 {
      var m := DigitRun(tail[1..]);
      var second, rest := tail[1..][..m], tail[1..][m..];
      assert tail == "," + second + rest;
      assert s[..|s| - |rest|] == s[..n] + "," + second;
      assert Digits(second, NumberOf(second));
    }
  }

  // ---- headers

  /** A header line is accepted exactly when it spells the header. */
  lemma {:induction false} HeaderReadsIff(line: string, h: Header)
    ensures ParseHeader(line) == Some(h) <==> SpellsHeader(line, h)
  {
    if SpellsHeader(line, h) {
      SpelledHeaderReads(line, h);
    }
    if ParseHeader(line) == Some(h) {
      ReadHeaderSpells(line, h);
    }
  }

  lemma {:induction false} SpelledHeaderReads(line: string, h: Header)
    requires SpellsHeader(line, h)
    ensures ParseHeader(line) == Some(h)
  {
    hide ParseRange, SpellsRange;
    var old_, new_ :| HeaderParts(line, old_, new_) && SpellsRange(old_, h.oldStart, h.oldCount) && SpellsRange(new_, h.newStart, h.newCount);
    var middle := " +" + (new_ + " @@");
    assert line == "@@ -" + (old_ + middle);
    assert line[4..] == old_ + middle;
    SpelledRangeReads(old_, h.oldStart, h.oldCount, middle);
    assert middle[2..] == new_ + " @@";
    SpelledRangeReads(new_, h.newStart, h.newCount, " @@");
  }

  lemma {:induction false} ReadHeaderSpells(line: string, h: Header)
    requires ParseHeader(line) == Some(h)
    ensures SpellsHeader(line, h)
  {
    hide ParseRange, SpellsRange;
    var after := line[4..];
    ReadRangeSpells(after);
    var rest := ParseRange(after).value.2;
    var old_, last := after[..|after| - |rest|], rest[2..];
    ReadRangeSpells(last);
    var new_ := last[..|last| - 3];
    assert line == "@@ -" + after && after == old_ + rest && rest == " +" + last && last == new_ + " @@";
    HeaderJoins(line, old_, new_, after, rest, last);
  }

  lemma {:induction false} HeaderJoins(line: string, old_: string, new_: string, after: string, rest: string, last: string)
    requires line == "@@ -" + after && after == old_ + rest && rest == " +" + last && last == new_ + " @@"
    ensures HeaderParts(line, old_, new_)
  {
    assert line == "@@ -" + old_ + " +" + new_ + " @@";
  }

  // ---- whole patches

  lemma {:induction false} SpelledStarts(lines: seq<string>, hunks: seq<Hunk>)
    requires SpellsLines(lines, hunks)
    ensures lines != [] ==> hunks != [] && StartsHeader(lines[0])
  {
    hide SpellsRange;
    if hunks != [] {
      var old_, new_ :| HeaderParts(lines[0], old_, new_) && SpellsRange(old_, hunks[0].oldStart, hunks[0].oldCount);
    }
  }

  /** One hunk of a spelled text, before the next header or the end. */
  lemma {:induction false} SpelledHunkReads(lines: seq<string>, h: Hunk, index: nat, oldEnd: int, newEnd: int)
    requires WellFormedHunk(h) && oldEnd <= OldIndex(h) && newEnd <= NewIndex(h)
    requires index + 1 + |h.lines| <= |lines| && SpellsHeader(lines[index], HeaderOf(h))
    requires lines[index + 1..index + 1 + |h.lines|] == h.lines
    requires index + 1 + |h.lines| < |lines| ==> StartsHeader(lines[index + 1 + |h.lines|])
    ensures BodyEnd(lines, index + 1) == index + 1 + |h.lines|
    ensures ParseHunk(lines, index, oldEnd, newEnd) == Some(h)
  {
    hide ParseHeader, SpellsHeader, Consumed, Produced, StartsHeader, BodyEnd;
    HeaderReadsIff(lines[index], HeaderOf(h));
    forall i | index + 1 <= i < index + 1 + |h.lines| ensures IsHunkLine(lines[i]) {
      assert lines[i] == h.lines[i - index - 1];
    }
    BodyEndOf(lines, index + 1, index + 1 + |h.lines|);
  }

  lemma {:induction false} SpelledLinesRead(hunks: seq<Hunk>, lines: seq<string>, index: nat, oldEnd: int, newEnd: int)
    requires Ordered(hunks, oldEnd, newEnd) && index <= |lines| && SpellsLines(lines[index..], hunks)
    ensures ParseHunks(lines, index, oldEnd, newEnd) == Some(hunks)
    decreases hunks
  {
    hide ParseHunk, WellFormedHunk, SpellsHeader, StartsHeader, BodyEnd;
    if hunks != [] {
      var h, rest := hunks[0], lines[index..];
      var n := 1 + |h.lines|;
      assert rest[0] == lines[index] && rest[n..] == lines[index + n..] && rest[1..n] == lines[index + 1..index + n];
      SpelledStarts(rest[n..], hunks[1..]);
      assert index + n < |lines| ==> lines[index + n] == rest[n..][0];
      SpelledHunkReads(lines, h, index, oldEnd, newEnd);
      SpelledLinesRead(hunks[1..], lines, index + n, OldEnd(h), NewEnd(h));
      assert hunks == [h] + hunks[1..];
    }
  }

  lemma {:induction false} HunkParts(lines: seq<string>, index: nat, oldEnd: int, newEnd: int)
    requires index < |lines| && ParseHunk(lines, index, oldEnd, newEnd).Some?
    ensures var h := ParseHunk(lines, index, oldEnd, newEnd).value;
            SpellsHeader(lines[index], HeaderOf(h)) && h.lines == lines[index + 1..BodyEnd(lines, index + 1)]
  {
    hide ParseHeader, SpellsHeader, Consumed, Produced, BodyEnd, AllHunkLines, ValidHeader;
    var header := ParseHeader(lines[index]).value;
    assert header == Header(header.oldStart, header.oldCount, header.newStart, header.newCount);
    HeaderReadsIff(lines[index], header);
  }

  lemma {:induction false} SpellsNext(lines: seq<string>, h: Hunk, rest: seq<string>, hunks: seq<Hunk>)
    requires lines != [] && SpellsHeader(lines[0], HeaderOf(h)) && lines[1..] == h.lines + rest && SpellsLines(rest, hunks)
    ensures SpellsLines(lines, [h] + hunks)
  {
    hide SpellsHeader;
    var n := 1 + |h.lines|;
    assert lines[1..n] == lines[1..][..|h.lines|] == h.lines && lines[n..] == lines[1..][|h.lines|..] == rest;
    assert ([h] + hunks)[1..] == hunks;
  }

  lemma {:induction false} ReadLinesSpell(lines: seq<string>, index: nat, oldEnd: int, newEnd: int)
    requires index <= |lines| && ParseHunks(lines, index, oldEnd, newEnd).Some?
    ensures SpellsLines(lines[index..], ParseHunks(lines, index, oldEnd, newEnd).value)
    decreases |lines| - index
  {
    hide ParseHunk, SpellsHeader, BodyEnd, SpellsLines;
    if index == |lines| {
      NoLinesSpellNothing(lines[index..]);
    } else {
      var h, end := ParseHunk(lines, index, oldEnd, newEnd).value, BodyEnd(lines, index + 1);
      HunkParts(lines, index, oldEnd, newEnd);
      ReadLinesSpell(lines, end, OldEnd(h), NewEnd(h));
      assert lines[index..][1..] == h.lines + lines[end..];
      SpellsNext(lines[index..], h, lines[end..], ParseHunks(lines, end, OldEnd(h), NewEnd(h)).value);
    }
  }

  lemma {:induction false} NoLinesSpellNothing(lines: seq<string>)
    requires lines == []
    ensures SpellsLines(lines, [])
  {
  }

  /**
   * A text is accepted, and says these hunks, exactly when the hunks are well formed and the text is one of their
   * spellings: any digits for a number, and the count of a range of one line with it or without.
   */
  lemma {:induction false} ParsesIffSpells(patch: string, hunks: seq<Hunk>)
    ensures Parse(patch) == Some(hunks) <==> WellFormed(hunks) && Spells(patch, hunks)
  {
    hide ParseHunks, SpellsLines, Ordered;
    var lines := Split(patch);
    assert lines[0..] == lines;
    if WellFormed(hunks) && Spells(patch, hunks) {
      SpelledLinesRead(hunks, lines, 0, 0, 0);
    }
    if Parse(patch) == Some(hunks) {
      ParsesExactlyTheWellFormed(hunks);
      ReadLinesSpell(lines, 0, 0, 0);
    }
  }

  // ---- a printer that leaves counts out

  /** The short form where it is wanted and possible. */
  function RangeText(start: nat, count: nat, short: bool): (s: string)
    ensures short && count == 1 ==> s == Numeral(start)
    ensures SpellsRange(s, start, count)
  {
    if short && count == 1 then Numeral(start)
    else
      assert Digits(Numeral(start), start) && Digits(Numeral(count), count);
      Numeral(start) + "," + Numeral(count)
  }

  /** short says of each hunk whether the old and the new count are left out where they are one. */
  function TextLines(hunks: seq<Hunk>, short: nat -> (bool, bool)): seq<string> {
    if hunks == [] then []
    else
      var h, n := hunks[0], |hunks|;
      ["@@ -" + RangeText(h.oldStart, h.oldCount, short(n).0) + " +" + RangeText(h.newStart, h.newCount, short(n).1) + " @@"]
      + h.lines + TextLines(hunks[1..], short)
  }

  lemma {:induction false} DigitsAndCommasAreLines(text: string, start: nat, count: nat)
    requires SpellsRange(text, start, count)
    ensures IsLine(text)
  {
    hide NumberOf;
  }

  lemma {:induction false} TextLinesSpell(hunks: seq<Hunk>, short: nat -> (bool, bool), oldEnd: int, newEnd: int)
    requires Ordered(hunks, oldEnd, newEnd)
    ensures SpellsLines(TextLines(hunks, short), hunks) && AreLines(TextLines(hunks, short))
  {
    hide SpellsRange, Consumed, Produced;
    if hunks != [] {
      var h, n, rest := hunks[0], |hunks|, TextLines(hunks[1..], short);
      var old_, new_ := RangeText(h.oldStart, h.oldCount, short(n).0), RangeText(h.newStart, h.newCount, short(n).1);
      var header := "@@ -" + old_ + " +" + new_ + " @@";
      assert HeaderParts(header, old_, new_);
      DigitsAndCommasAreLines(old_, h.oldStart, h.oldCount);
      DigitsAndCommasAreLines(new_, h.newStart, h.newCount);
      TextLinesSpell(hunks[1..], short, OldEnd(h), NewEnd(h));
      var lines := [header] + h.lines + rest;
      assert lines[0] == header && lines[1..1 + |h.lines|] == h.lines && lines[1 + |h.lines|..] == rest;
    }
  }

  /** Whichever counts of one are left out, the text reads back. */
  lemma {:induction false} ShortFormsReadBack(hunks: seq<Hunk>, short: nat -> (bool, bool))
    requires WellFormed(hunks)
    ensures Parse(Join(TextLines(hunks, short))) == Some(hunks)
  {
    hide SpellsLines, Parse, Ordered;
    TextLinesSpell(hunks, short, 0, 0);
    assert TextLines(hunks, short) != [];
    SplitJoin(TextLines(hunks, short));
    ParsesIffSpells(Join(TextLines(hunks, short)), hunks);
  }
}
