/** Lengths in UTF-8, and cutting text without cutting a code point. */
module Utf8 {

  /** The octets of one code point (section 3 of RFC 3629). */
  function CharBytes(c: char): (n: nat)
    ensures 1 <= n <= 4
  {
    var v := c as int;
    if v < 0x80 then 1 else if v < 0x800 then 2 else if v < 0x1_0000 then 3 else 4
  }

  /** The octets themselves: a first one that tells the length, and six bits in each that follows. */
  function EncodeChar(c: char): seq<int> {
    var v := c as int;
    if v < 0x80 then [v]
    else if v < 0x800 then [0xC0 + v / 0x40, 0x80 + v % 0x40]
    else if v < 0x1_0000 then [0xE0 + v / 0x40 / 0x40, 0x80 + v / 0x40 % 0x40, 0x80 + v % 0x40]
    else [0xF0 + v / 0x40 / 0x40 / 0x40, 0x80 + v / 0x40 / 0x40 % 0x40, 0x80 + v / 0x40 % 0x40, 0x80 + v % 0x40]
  }

  /** How many octets a first octet announces, and what the octets say. */
  function Announced(octet: int): nat {
    if octet < 0x80 then 1 else if octet < 0xE0 then 2 else if octet < 0xF0 then 3 else 4
  }

  function CodePoint(octets: seq<int>): int
    requires octets != [] && |octets| == Announced(octets[0])
  {
    if |octets| == 1 then octets[0]
    else if |octets| == 2 then (octets[0] - 0xC0) * 0x40 + octets[1] - 0x80
    else if |octets| == 3 then (octets[0] - 0xE0) * 0x1000 + (octets[1] - 0x80) * 0x40 + octets[2] - 0x80
    else (octets[0] - 0xF0) * 0x4_0000 + (octets[1] - 0x80) * 0x1000 + (octets[2] - 0x80) * 0x40 + octets[3] - 0x80
  }

  /** CharBytes is the number of octets of the encoding, each of which fits in eight bits and which reads back. */
  lemma {:induction false} CharBytesIsEncoded(c: char)
    ensures var octets := EncodeChar(c);
            && |octets| == CharBytes(c) && (forall i :: 0 <= i < |octets| ==> 0 <= octets[i] < 0x100)
            && |octets| == Announced(octets[0]) && CodePoint(octets) == c as int
  {
    var v := c as int;
    var high := v / 0x40;
    var higher := high / 0x40;
    assert v < 0x11_0000 && v == high * 0x40 + v % 0x40 && high == higher * 0x40 + high % 0x40;
    assert higher == higher / 0x40 * 0x40 + higher % 0x40;
  }

  function ByteLength(text: string): nat {
    if text == "" then 0 else ByteLength(text[..|text| - 1]) + CharBytes(text[|text| - 1])
  }

  lemma {:induction false} LengthAdds(a: string, b: string)
    ensures ByteLength(a + b) == ByteLength(a) + ByteLength(b)
  {
    if b == "" {
      assert a + b == a;
    } else {
      var n := |b| - 1;
      assert (a + b)[..|a + b| - 1] == a + b[..n];
      LengthAdds(a, b[..n]);
    }
  }

  lemma {:induction false} LengthOfOne(c: char)
    ensures ByteLength([c]) == CharBytes(c)
  {
    assert [c][..0] == "";
  }

  lemma {:induction false} LengthNext(text: string, c: char)
    ensures ByteLength(text + [c]) == ByteLength(text) + CharBytes(c)
  {
    LengthAdds(text, [c]);
    LengthOfOne(c);
  }

  lemma {:induction false} LongEnough(text: string)
    ensures ByteLength(text) >= |text|
  {
    if text != "" {
      LongEnough(text[..|text| - 1]);
    }
  }

  lemma {:induction false} ShortEnough(text: string)
    ensures ByteLength(text) <= 4 * |text|
  {
    if text != "" {
      ShortEnough(text[..|text| - 1]);
    }
  }

  // ---- chunks

  /** The chunks of what is left, after the chunk that is being filled. */
  function ChunksFrom(left: string, chunk: string, maximum: nat): seq<string> {
    if left == "" then if chunk == "" then [] else [chunk]
    else if ByteLength(chunk) + CharBytes(left[0]) > maximum && chunk != "" then
      [chunk] + ChunksFrom(left[1..], [left[0]], maximum)
    else ChunksFrom(left[1..], chunk + [left[0]], maximum)
  }

  function Chunks(text: string, maximum: nat): seq<string> {
    ChunksFrom(text, "", maximum)
  }

  function Concat(chunks: seq<string>): string {
    if chunks == [] then "" else chunks[0] + Concat(chunks[1..])
  }

  /** The text in order, in non-empty chunks within the limit, each too full for the next one's first code point. */
  ghost predicate ChunksOk(chunks: seq<string>, maximum: nat) {
    && (forall i :: 0 <= i < |chunks| ==> chunks[i] != "" && ByteLength(chunks[i]) <= maximum)
    && (forall i :: 0 <= i < |chunks| - 1 ==> ByteLength(chunks[i]) + CharBytes(chunks[i + 1][0]) > maximum)
  }

  lemma {:induction false} ChunksWhole(left: string, chunk: string, maximum: nat)
    ensures Concat(ChunksFrom(left, chunk, maximum)) == chunk + left
  {
    hide ByteLength, CharBytes;
    if left == "" {
      assert chunk != "" ==> Concat([chunk]) == chunk + Concat([]);
    } else if ByteLength(chunk) + CharBytes(left[0]) > maximum && chunk != "" {
      ChunksWhole(left[1..], [left[0]], maximum);
      assert chunk + ([left[0]] + left[1..]) == chunk + left;
    } else {
      ChunksWhole(left[1..], chunk + [left[0]], maximum);
      assert chunk + [left[0]] + left[1..] == chunk + left;
    }
  }

  lemma {:induction false} OneMoreChunk(chunk: string, rest: seq<string>, maximum: nat)
    requires chunk != "" && ByteLength(chunk) <= maximum && ChunksOk(rest, maximum)
    requires rest != [] ==> ByteLength(chunk) + CharBytes(rest[0][0]) > maximum
    ensures ChunksOk([chunk] + rest, maximum)
  {
    hide ByteLength, CharBytes;
  }

  lemma {:induction false} ChunksHold(left: string, chunk: string, maximum: nat)
    requires maximum >= 4 && ByteLength(chunk) <= maximum
    ensures var chunks := ChunksFrom(left, chunk, maximum);
            ChunksOk(chunks, maximum) && (chunk != "" ==> chunks != [] && chunk <= chunks[0])
  {
    if left == "" {
    } else if ByteLength(chunk) + CharBytes(left[0]) > maximum && chunk != "" {
      hide ChunksOk;
      LengthOfOne(left[0]);
      ChunksHold(left[1..], [left[0]], maximum);
      var rest := ChunksFrom(left[1..], [left[0]], maximum);
      assert rest[0][0] == left[0];
      OneMoreChunk(chunk, rest, maximum);
    } else {
      LengthNext(chunk, left[0]);
      assert chunk == "" ==> ByteLength(chunk) == 0;
      ChunksHold(left[1..], chunk + [left[0]], maximum);
    }
  }

  /** utf8Chunks: the whole text, in non-empty chunks within the limit, as few as greedy filling leaves. */
  lemma {:induction false} ChunksAreSound(text: string, maximum: nat)
    requires maximum >= 4
    ensures Concat(Chunks(text, maximum)) == text && ChunksOk(Chunks(text, maximum), maximum)
  {
    ChunksWhole(text, "", maximum);
    assert "" + text == text;
    ChunksHold(text, "", maximum);
  }

  method Utf8Chunks(value: string, maximumBytes: nat) returns (chunks: seq<string>)
    ensures chunks == Chunks(value, maximumBytes)
  {
    chunks := [];
    var chunk, bytes := "", 0;
    for i := 0 to |value|
      invariant bytes == ByteLength(chunk)
      invariant chunks + ChunksFrom(value[i..], chunk, maximumBytes) == Chunks(value, maximumBytes)
    {
      ghost var left := value[i..];
      assert left[0] == value[i] && left[1..] == value[i + 1..];
      var size := CharBytes(value[i]);
      if bytes + size > maximumBytes && |chunk| > 0 {
        chunks := chunks + [chunk];
        chunk, bytes := "", 0;
      }
      LengthNext(chunk, value[i]);
      assert "" + [value[i]] == [value[i]];
      chunk, bytes := chunk + [value[i]], bytes + size;
    }
    if |chunk| > 0 {
      chunks := chunks + [chunk];
    }
  }

  // ---- holding back

  /** How many leading code points fit in so many bytes. */
  function Fitting(text: string, target: nat): (n: nat)
    ensures n <= |text|
  {
    if text == "" || CharBytes(text[0]) > target then 0 else 1 + Fitting(text[1..], target - CharBytes(text[0]))
  }

  /** What is let go and what is held back. */
  function SplitHoldback(text: string, holdback: nat): (string, string) {
    if ByteLength(text) <= holdback then ("", text)
    else var n := Fitting(text, ByteLength(text) - holdback); (text[..n], text[n..])
  }

  lemma {:induction false} FittingIsMost(text: string, target: nat)
    ensures var n := Fitting(text, target);
            ByteLength(text[..n]) <= target && (n < |text| ==> ByteLength(text[..n]) + CharBytes(text[n]) > target)
  {
    var n := Fitting(text, target);
    if n > 0 {
      FittingIsMost(text[1..], target - CharBytes(text[0]));
      assert text[..n] == [text[0]] + text[1..][..n - 1];
      LengthAdds([text[0]], text[1..][..n - 1]);
      LengthOfOne(text[0]);
    }
  }

  /** Nothing is lost, and once more than the holdback is present, at least the holdback and under four bytes more stay behind. */
  lemma {:induction false} HoldbackBounds(text: string, holdback: nat)
    requires holdback > 0
    ensures var (go, stay) := SplitHoldback(text, holdback);
            && go + stay == text
            && if ByteLength(text) <= holdback then go == "" else holdback <= ByteLength(stay) < holdback + 4
  {
    if ByteLength(text) > holdback {
      var target := ByteLength(text) - holdback;
      var n := Fitting(text, target);
      FittingIsMost(text, target);
      assert text[..n] + text[n..] == text;
      LengthAdds(text[..n], text[n..]);
      assert text[..|text|] == text;
    }
  }

  method SplitWithByteHoldback(value: string, holdbackBytes: nat) returns (emit: string, pending: string)
    ensures (emit, pending) == SplitHoldback(value, holdbackBytes)
  {
    var total := ByteLength(value);
    if total <= holdbackBytes {
      return "", value;
    }
    var target := total - holdbackBytes;
    var emittedBytes, emittedCharacters := 0, 0;
    while emittedCharacters < |value|
      invariant emittedCharacters <= |value| && emittedBytes <= target
      invariant Fitting(value, target) == emittedCharacters + Fitting(value[emittedCharacters..], target - emittedBytes)
    {
      var bytes := CharBytes(value[emittedCharacters]);
      if emittedBytes + bytes > target {
        break;
      }
      assert value[emittedCharacters..][1..] == value[emittedCharacters + 1..];
      emittedBytes, emittedCharacters := emittedBytes + bytes, emittedCharacters + 1;
    }
    return value[..emittedCharacters], value[emittedCharacters..];
  }
}
