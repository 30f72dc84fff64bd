/** Text as lines, and decimal numerals: what JavaScript's split, join, indexOf and Number do. */
module Lines {

  /** A line of text: no line feed inside. */
  predicate IsLine(s: string) {
    '\n' !in s
  }

  ghost predicate AreLines(lines: seq<string>) {
    forall i :: 0 <= i < |lines| ==> IsLine(lines[i])
  }

  /** lines.join("\n") */
  function Join(lines: seq<string>): string {
    if lines == [] then ""
    else if |lines| == 1 then lines[0]
    else lines[0] + "\n" + Join(lines[1..])
  }

  /** s.split("\n"): the one non-empty list of lines that joins back to s (see SplitJoin). */
  function Split(s: string): (lines: seq<string>)
    ensures |lines| >= 1 && AreLines(lines)
    ensures Join(lines) == s
  {
    if s == "" then [""]
    else
      var rest := Split(s[1..]);
      if s[0] == '\n' then
        assert s == "" + "\n" + s[1..];
        [""] + rest
      else
        var lines := [[s[0]] + rest[0]] + rest[1..];
        assert lines[1..] == rest[1..];
        assert s == [s[0]] + s[1..];
        lines
  }

  lemma {:induction false} SplitOfLine(s: string)
    requires IsLine(s)
    ensures Split(s) == [s]
  {
    if s != "" {
      SplitOfLine(s[1..]);
      assert [s[0]] + s[1..] == s;
    }
  }

  /** Splitting at a line feed: the first line, then the lines of the rest. */
  lemma {:induction false} SplitCons(line: string, rest: string)
    requires IsLine(line)
    ensures Split(line + "\n" + rest) == [line] + Split(rest)
  {
    var s := line + "\n" + rest;
    if line == "" {
      assert s[1..] == rest;
    } else {
      assert s[1..] == line[1..] + "\n" + rest;
      SplitCons(line[1..], rest);
      assert [line[0]] + line[1..] == line;
    }
  }

  lemma {:induction false} SplitJoin(lines: seq<string>)
    requires lines != [] && AreLines(lines)
    ensures Split(Join(lines)) == lines
  {
    if |lines| == 1 {
      SplitOfLine(lines[0]);
    } else {
      SplitJoin(lines[1..]);
      SplitCons(lines[0], Join(lines[1..]));
    }
  }

  lemma {:induction false} JoinAppend(a: seq<string>, b: seq<string>)
    requires a != [] && b != []
    ensures Join(a + b) == Join(a) + "\n" + Join(b)
  {
    if |a| == 1 {
      assert (a + b)[1..] == b;
    } else {
      assert (a + b)[1..] == a[1..] + b;
      JoinAppend(a[1..], b);
    }
  }

  // ---- occurrences of one string in another

  predicate OccursAt(body: string, text: string, i: int) {
    0 <= i && i + |text| <= |body| && body[i..i + |text|] == text
  }

  /** body.indexOf(text) */
  function IndexOf(body: string, text: string): (r: int)
    ensures r == -1 ==> forall i :: !OccursAt(body, text, i)
    ensures r != -1 ==> OccursAt(body, text, r) && forall i :: OccursAt(body, text, i) ==> r <= i
  {
    IndexFrom(body, text, 0)
  }

  function IndexFrom(body: string, text: string, start: nat): (r: int)
    requires start <= |body|
    ensures r == -1 ==> forall i :: start <= i ==> !OccursAt(body, text, i)
    ensures r != -1 ==> OccursAt(body, text, r) && r >= start
    ensures r != -1 ==> forall i :: start <= i && OccursAt(body, text, i) ==> r <= i
    decreases |body| - start
  {
    if OccursAt(body, text, start) then start
    else if start == |body| then -1
    else IndexFrom(body, text, start + 1)
  }

  /** body.lastIndexOf(text) */
  function LastIndexOf(body: string, text: string): (r: int)
    ensures r == -1 ==> forall i :: !OccursAt(body, text, i)
    ensures r != -1 ==> OccursAt(body, text, r) && forall i :: OccursAt(body, text, i) ==> i <= r
  {
    LastIndexUpTo(body, text, |body|)
  }

  function LastIndexUpTo(body: string, text: string, end: nat): (r: int)
    requires end <= |body|
    ensures r == -1 ==> forall i :: i <= end ==> !OccursAt(body, text, i)
    ensures r != -1 ==> OccursAt(body, text, r)
    ensures r != -1 ==> forall i :: i <= end && OccursAt(body, text, i) ==> i <= r
  {
    if OccursAt(body, text, end) then end
    else if end == 0 then -1
    else LastIndexUpTo(body, text, end - 1)
  }

  // ---- decimal numerals

  predicate IsDigit(c: char) {
    '0' <= c <= '9'
  }

  ghost predicate AllDigits(s: string) {
    forall i :: 0 <= i < |s| ==> IsDigit(s[i])
  }

  /** How many digits s begins with. */
  function DigitRun(s: string): (n: nat)
    ensures n <= |s| && AllDigits(s[..n])
    ensures n < |s| ==> !IsDigit(s[n])
  {
    if s == "" || !IsDigit(s[0]) then 0 else 1 + DigitRun(s[1..])
  }

  lemma {:induction false} DigitRunOf(digits: string, rest: string)
    requires AllDigits(digits)
    requires rest != "" ==> !IsDigit(rest[0])
    ensures DigitRun(digits + rest) == |digits|
  {
    if digits == "" {
      assert digits + rest == rest;
    } else {
      assert (digits + rest)[1..] == digits[1..] + rest;
      DigitRunOf(digits[1..], rest);
    }
  }

  /** Number(s) for a string of digits; Numbers past 2^53 lose digits, but stay past 2^53. */
  function NumberOf(s: string): nat
    requires AllDigits(s)
  {
    if s == "" then 0
    else 10 * NumberOf(s[..|s| - 1]) + (s[|s| - 1] as int - '0' as int)
  }

  function Numeral(n: nat): (s: string)
    ensures s != "" && AllDigits(s)
    ensures NumberOf(s) == n
  {
    var digit := ('0' as int + n % 10) as char;
    if n < 10 then
      assert NumberOf("") == 0;
      assert [digit][..0] == "";
      [digit]
    else
      var s := Numeral(n / 10) + [digit];
      assert s[..|s| - 1] == Numeral(n / 10);
      s
  }
}
