/** The release archive: one ustar header and padded content per file, in the order of paths. */
module Ustar {
  import opened Common
  import opened Octets
  import opened Octal

  datatype Entry = Entry(path: string, bytes: Bytes)

  const BLOCK: nat := 512

  function Zeros(n: nat): (r: Bytes)
    ensures |r| == n && forall i :: 0 <= i < n ==> r[i] == 0
  {
    seq(n, _ => 0)
  }

  lemma {:induction false} AllZeros(bytes: Bytes)
    requires forall i :: 0 <= i < |bytes| ==> bytes[i] == 0
    ensures bytes == Zeros(|bytes|)
  {
  }

  function Encode(text: string): (r: Bytes)
    requires Ascii(text)
    ensures |r| == |text|
  {
    seq(|text|, i requires 0 <= i < |text| => text[i] as int)
  }

  predicate Ascii(text: string) {
    forall i :: 0 <= i < |text| ==> 0 < text[i] as int < 128
  }

  // ---- paths

  predicate PortableChar(c: char) {
    'A' <= c <= 'Z' || 'a' <= c <= 'z' || '0' <= c <= '9' || c == '.' || c == '_' || c == '/' || c == '-'
  }

  /** The segment that starts here is empty, "." or "..". */
  predicate BadSegment(rest: string) {
    || rest == "" || rest[0] == '/'
    || (rest[0] == '.' && (|rest| == 1 || rest[1] == '/' || (rest[1] == '.' && (|rest| == 2 || rest[2] == '/'))))
  }

  predicate Portable(path: string) {
    && 0 < |path| <= 100
    && (forall i :: 0 <= i < |path| ==> PortableChar(path[i]))
    && !BadSegment(path)
    && forall i :: 0 <= i < |path| && path[i] == '/' ==> !BadSegment(path[i + 1..])
  }

  /** The text between the slashes. */
  function Segments(path: string): (r: seq<string>)
    ensures |r| >= 1
  {
    if path == "" then [""]
    else
      var rest := Segments(path[1..]);
      if path[0] == '/' then [""] + rest else [[path[0]] + rest[0]] + rest[1..]
  }

  /** In ASCII: '-' to '9', 'A' to 'Z', '_', 'a' to 'z'. */
  predicate PortableCode(n: nat) {
    45 <= n < 58 || 65 <= n < 91 || n == 95 || 97 <= n < 123
  }

  predicate Forbidden(segment: string) {
    segment == "" || segment == "." || segment == ".."
  }

  ghost predicate GoodSegments(segments: seq<string>) {
    forall i :: 0 <= i < |segments| ==> !Forbidden(segments[i])
  }

  /** A path is portable exactly when it has at most a hundred portable characters and no segment is empty, "." or "..". */
  lemma {:induction false} PortableIff(path: string)
    ensures Portable(path) <==> |path| <= 100 && GoodSegments(Segments(path)) && forall c :: c in path ==> PortableCode(c as int)
  {
    hide BadSegment, Segments, GoodSegments;
    SegmentsAreGood(path);
    assert forall c :: PortableChar(c) <==> PortableCode(c as int);
    assert path == "" ==> BadSegment(path) by { SegmentIsBad(path); FirstSegment(path); }
    assert (forall c :: c in path ==> PortableChar(c)) <==> forall i :: 0 <= i < |path| ==> PortableChar(path[i]);
  }

  ghost predicate GoodBehindSlashes(path: string) {
    forall i :: 0 <= i < |path| && path[i] == '/' ==> !BadSegment(path[i + 1..])
  }

  lemma {:induction false} GoodBehindFirst(path: string)
    requires path != ""
    ensures GoodBehindSlashes(path) <==> (path[0] == '/' ==> !BadSegment(path[1..])) && GoodBehindSlashes(path[1..])
  {
    hide BadSegment;
    var tail := path[1..];
    assert forall i :: 0 <= i < |tail| ==> tail[i] == path[i + 1] && tail[i + 1..] == path[i + 2..];
    if GoodBehindSlashes(tail) && (path[0] == '/' ==> !BadSegment(path[1..])) {
      forall i | 0 <= i < |path| && path[i] == '/' ensures !BadSegment(path[i + 1..]) {
        if i > 0 {
          assert tail[i - 1] == '/' && tail[i - 1 + 1..] == path[i + 1..];
        }
      }
    }
    if GoodBehindSlashes(path) {
      forall i | 0 <= i < |tail| && tail[i] == '/' ensures !BadSegment(tail[i + 1..]) {
        assert path[i + 1] == '/' && path[i + 1 + 1..] == tail[i + 1..];
      }
    }
  }

  lemma {:induction false} GoodFirst(segments: seq<string>)
    requires segments != []
    ensures GoodSegments(segments) <==> !Forbidden(segments[0]) && GoodSegments(segments[1..])
  {
    assert segments == [segments[0]] + segments[1..];
  }

  lemma {:induction false} ForbiddenIff(s: string)
    ensures Forbidden(s) <==> s == "" || (s[0] == '.' && (|s| == 1 || (|s| == 2 && s[1] == '.')))
  {
    assert |s| == 1 && s[0] == '.' ==> s == ".";
    assert |s| == 2 && s[0] == '.' && s[1] == '.' ==> s == "..";
  }

  lemma {:induction false} SegmentsAreGood(path: string)
    ensures GoodSegments(Segments(path)) <==> !BadSegment(path) && GoodBehindSlashes(path)
    ensures GoodSegments(Segments(path)[1..]) <==> GoodBehindSlashes(path)
  {
    hide BadSegment, Forbidden, GoodSegments, GoodBehindSlashes;
    SegmentIsBad(path);
    GoodFirst(Segments(path));
    if path == "" {
      assert GoodSegments(Segments(path)[1..]) && GoodBehindSlashes(path) by { NothingIsGood(); }
    } else {
      SegmentsAreGood(path[1..]);
      GoodBehindFirst(path);
      assert Segments(path)[1..] == if path[0] == '/' then Segments(path[1..]) else Segments(path[1..])[1..];
    }
  }

  lemma {:induction false} NothingIsGood()
    ensures Segments("")[1..] == [] && GoodSegments([]) && GoodBehindSlashes("")
  {
  }

  lemma {:induction false} FirstSegment(path: string)
    ensures path == "" || path[0] == '/' ==> Segments(path)[0] == ""
    ensures path != "" && path[0] != '/' ==> Segments(path)[0] == [path[0]] + Segments(path[1..])[0]
  {
  }

  lemma {:induction false} SegmentIsBad(path: string)
    ensures BadSegment(path) <==> Forbidden(Segments(path)[0])
  {
    hide Segments, Forbidden;
    var first := Segments(path)[0];
    ForbiddenIff(first);
    FirstSegment(path);
    if path != "" && path[0] != '/' {
      FirstSegment(path[1..]);
      assert first[0] == path[0] && first[1..] == Segments(path[1..])[0];
      if path[0] == '.' && |path| > 1 && path[1] != '/' {
        FirstSegment(path[2..]);
        assert path[1..][1..] == path[2..];
        assert first[1] == path[1] && first[2..] == Segments(path[2..])[0];
      }
    }
  }

  lemma {:induction false} PortableIsAscii(path: string)
    requires Portable(path)
    ensures Ascii(path) && 0 < |path| <= 100
  {
  }

  function LowerChar(c: char): char {
    if 'A' <= c <= 'Z' then (c as int + 32) as char else c
  }

  function Lower(path: string): (r: string)
    ensures |r| == |path| && forall i :: 0 <= i < |path| ==> r[i] == LowerChar(path[i])
  {
    seq(|path|, i requires 0 <= i < |path| => LowerChar(path[i]))
  }

  predicate SameLetter(c: char, d: char) {
    c == d || ('A' <= c <= 'Z' && d as int == c as int + 32) || ('A' <= d <= 'Z' && c as int == d as int + 32)
  }

  /** Two paths fold to one exactly when they differ in nothing but the case of their letters. */
  lemma {:induction false} FoldsAlikeIff(a: string, b: string)
    ensures Lower(a) == Lower(b) <==> |a| == |b| && forall i :: 0 <= i < |a| ==> SameLetter(a[i], b[i])
  {
    assert forall c, d :: LowerChar(c) == LowerChar(d) <==> SameLetter(c, d);
    if |a| == |b| && forall i :: 0 <= i < |a| ==> SameLetter(a[i], b[i]) {
      assert Lower(a) == Lower(b);
    }
    if Lower(a) == Lower(b) {
      forall i | 0 <= i < |a| ensures SameLetter(a[i], b[i]) {
        assert Lower(a)[i] == Lower(b)[i];
      }
    }
  }

  // ---- one header

  const NUL: Bytes := [0]
  const USTAR: Bytes := [117, 115, 116, 97, 114, 0]
  const ROOT: Bytes := [114, 111, 111, 116]
  const SPACES: Bytes := [32, 32, 32, 32, 32, 32, 32, 32]

  function SumOf(bytes: Bytes): nat {
    if bytes == [] then 0 else SumOf(bytes[..|bytes| - 1]) + bytes[|bytes| - 1]
  }

  function OctalField(n: nat, width: nat): (r: Bytes)
    requires width >= 1
    ensures |r| == width
  {
    Fixed(n, width - 1) + NUL
  }

  /** Name, mode, owner and group, size, time. */
  function HeaderFront(path: Bytes, size: nat, epoch: nat): (r: Bytes)
    requires |path| <= 100
    ensures |r| == 148
  {
    HeaderNames(path) + OctalField(size, 12) + OctalField(epoch, 12)
  }

  /** Type, link name, magic, version, owner and group names, device numbers, prefix. */
  function HeaderBack(): (r: Bytes)
    ensures |r| == 356
  {
    [48] + Zeros(100) + USTAR + [48, 48] + ROOT + Zeros(28) + ROOT + Zeros(28) + OctalField(0, 8) + OctalField(0, 8) + Zeros(167)
  }

  /** The header of a ustar file, its checksum taken with spaces in the checksum's place. */
  function Header(path: Bytes, size: nat, epoch: nat): (r: Bytes)
    requires |path| <= 100
    ensures |r| == BLOCK
  {
    var front, back := HeaderFront(path, size, epoch), HeaderBack();
    front + Fixed(SumOf(front + SPACES + back), 6) + [0, 32] + back
  }

  lemma {:induction false} SumIsBounded(bytes: Bytes)
    ensures SumOf(bytes) <= 255 * |bytes|
  {
    if bytes != [] {
      SumIsBounded(bytes[..|bytes| - 1]);
    }
  }

  /** The checksum always fits its six digits. */
  lemma {:induction false} ChecksumFits(bytes: Bytes)
    requires |bytes| == BLOCK
    ensures SumOf(bytes) <= 130560 < Pow8(6)
  {
    SumIsBounded(bytes);
    assert Pow8(6) == 262144 by { PowersOf8(); }
  }

  lemma {:induction false} PowersOf8()
    ensures Pow8(6) == 262144 && Pow8(7) == 2097152 && Pow8(11) == 8589934592
  {
    assert Pow8(2) == 8 * Pow8(1);
    assert Pow8(4) == 64 * Pow8(2);
    assert Pow8(6) == 64 * Pow8(4);
    assert Pow8(7) == 8 * Pow8(6);
    assert Pow8(9) == 64 * Pow8(7);
    assert Pow8(11) == 64 * Pow8(9);
  }

  // ---- writing into the block

  /** What target.set leaves: the value at the offset, the rest as it was. */
  function Written(block: Bytes, offset: nat, value: Bytes): (r: Bytes)
    requires offset + |value| <= |block|
    ensures |r| == |block|
  {
    block[..offset] + value + block[offset + |value|..]
  }

  method WriteText(target: array<Byte>, offset: nat, length: nat, value: Bytes) returns (r: Result<()>)
    requires offset + length <= target.Length
    modifies target
    ensures r.Ok? <==> |value| <= length
    ensures target[..] == if r.Ok? then Written(old(target[..]), offset, value) else old(target[..])
  {
    if |value| > length {
      return Err("TAR_VALUE_TOO_LONG");
    }
    for i := 0 to |value|
      invariant forall k :: 0 <= k < target.Length ==>
                  target[k] == if offset <= k < offset + i then value[k - offset] else old(target[k])
    {
      target[offset + i] := value[i];
    }
    return Ok(());
  }

  method WriteOctal(target: array<Byte>, offset: nat, length: nat, value: nat) returns (r: Result<()>)
    requires offset + length <= target.Length && length >= 2
    modifies target
    ensures r.Ok? <==> value < Pow8(length - 1)
    ensures target[..] == if r.Ok? then Written(old(target[..]), offset, OctalField(value, length)) else old(target[..])
  {
    PaddedIsFixed(value, length - 1);
    r := WriteText(target, offset, length, PadStart(ToOctal(value), length - 1) + NUL);
  }

  /** A block written so far, after what is settled, and the rest of it zero. */
  ghost predicate Begun(block: Bytes, settled: Bytes, now: Bytes) {
    |block| == BLOCK && |settled + now| <= BLOCK && block == settled + now + Zeros(BLOCK - |settled + now|)
  }

  lemma {:induction false} WrittenNext(block: Bytes, settled: Bytes, now: Bytes, gap: nat, value: Bytes)
    requires Begun(block, settled, now) && |settled + now| + gap + |value| <= BLOCK
    ensures Begun(Written(block, |settled + now| + gap, value), settled, now + Zeros(gap) + value)
    ensures gap == 0 ==> Begun(Written(block, |settled + now| + gap, value), settled, now + value)
  {
    var offset := |settled + now| + gap;
    var next := Written(block, offset, value);
    assert next == settled + (now + Zeros(gap) + value) + Zeros(BLOCK - |settled + (now + Zeros(gap) + value)|);
    if gap == 0 {
      assert now + Zeros(gap) + value == now + value;
    }
  }

  /** writeText behind what is written already. */
  method AppendText(header: array<Byte>, offset: nat, length: nat, value: Bytes, ghost settled: Bytes, ghost now: Bytes, ghost gap: nat)
    requires header.Length == BLOCK && offset + length <= BLOCK && |value| <= length
    requires Begun(header[..], settled, now) && offset == |settled + now| + gap
    modifies header
    ensures Begun(header[..], settled, now + Zeros(gap) + value)
    ensures gap == 0 ==> Begun(header[..], settled, now + value)
  {
    hide Begun, Written;
    WrittenNext(header[..], settled, now, gap, value);
    var _ := WriteText(header, offset, length, value);
  }

  /** writeOctal behind what is written already; it fails when the value has too many digits. */
  method AppendOctal(header: array<Byte>, offset: nat, length: nat, value: nat, ghost settled: Bytes, ghost now: Bytes) returns (r: Result<()>)
    requires header.Length == BLOCK && offset + length <= BLOCK && length >= 2
    requires Begun(header[..], settled, now) && offset == |settled + now|
    modifies header
    ensures r.Ok? <==> value < Pow8(length - 1)
    ensures r.Ok? ==> Begun(header[..], settled, now + OctalField(value, length))
  {
    hide Begun, Written, OctalField, Pow8;
    WrittenNext(header[..], settled, now, 0, OctalField(value, length));
    r := WriteOctal(header, offset, length, value);
  }

  /** Name, mode, owner and group. */
  function HeaderNames(path: Bytes): (r: Bytes)
    requires |path| <= 100
    ensures |r| == 124
  {
    path + Zeros(100 - |path|) + OctalField(0x1a4, 8) + OctalField(0, 8) + OctalField(0, 8)
  }

  lemma {:induction false} NothingBegun(block: Bytes)
    requires block == Zeros(BLOCK)
    ensures Begun(block, [], [])
  {
  }

  method WriteNames(header: array<Byte>, path: Bytes)
    requires header.Length == BLOCK && |path| <= 100 && header[..] == Zeros(BLOCK)
    modifies header
    ensures Begun(header[..], [], HeaderNames(path))
  {
    hide Begun, OctalField, Pow8, Zeros;
    PowersOf8();
    NothingBegun(header[..]);
    AppendText(header, 0, 100, path, [], [], 0);
    ghost var now := path;
    assert [] + path == path;
    GapIsWritten(header[..], [], now, 100 - |path|);
    now := now + Zeros(100 - |path|);
    var _ := AppendOctal(header, 100, 8, 0x1a4, [], now);
    now := now + OctalField(0x1a4, 8);
    var _ := AppendOctal(header, 108, 8, 0, [], now);
    now := now + OctalField(0, 8);
    var _ := AppendOctal(header, 116, 8, 0, [], now);
  }

  /** createHeader up to the checksum's spaces. */
  method WriteFront(header: array<Byte>, path: Bytes, size: nat, epoch: nat) returns (r: Result<()>)
    requires header.Length == BLOCK && |path| <= 100 && header[..] == Zeros(BLOCK)
    modifies header
    ensures r.Ok? <==> size < Pow8(11) && epoch < Pow8(11)
    ensures r.Ok? ==> Begun(header[..], HeaderFront(path, size, epoch) + SPACES, [])
  {
    hide Begun, OctalField, Pow8, Zeros, HeaderNames;
    WriteNames(header, path);
    ghost var now := HeaderNames(path);
    r := AppendOctal(header, 124, 12, size, [], now);
    if r.Err? {
      return;
    }
    now := now + OctalField(size, 12);
    r := AppendOctal(header, 136, 12, epoch, [], now);
    if r.Err? {
      return;
    }
    now := now + OctalField(epoch, 12);
    AppendText(header, 148, 8, SPACES, [], now, 0);
    FrontIsSettled(header[..], now);
  }

  /** A field shorter than its place is followed by zeros already. */
  lemma {:induction false} GapIsWritten(block: Bytes, settled: Bytes, now: Bytes, gap: nat)
    requires Begun(block, settled, now) && |settled + now| + gap <= BLOCK
    ensures Begun(block, settled, now + Zeros(gap))
  {
    var n := BLOCK - |settled + now|;
    assert Zeros(n) == Zeros(gap) + Zeros(n - gap);
    assert settled + (now + Zeros(gap)) + Zeros(n - gap) == settled + now + Zeros(n);
  }

  lemma {:induction false} FrontIsSettled(block: Bytes, now: Bytes)
    requires Begun(block, [], now + SPACES)
    ensures Begun(block, now + SPACES, [])
  {
    assert [] + (now + SPACES) == now + SPACES + [];
  }

  /** createHeader behind the checksum. */
  method WriteBack(header: array<Byte>, ghost settled: Bytes)
    requires header.Length == BLOCK && |settled| == 156 && Begun(header[..], settled, [])
    modifies header
    ensures header[..] == settled + HeaderBack()
  {
    hide Begun, OctalField, Pow8, Zeros;
    PowersOf8();
    AppendText(header, 156, 1, [48], settled, [], 0);
    ghost var now := [48];
    assert [] + [48] == now;
    AppendText(header, 257, 6, USTAR, settled, now, 100);
    now := now + Zeros(100) + USTAR;
    AppendText(header, 263, 2, [48, 48], settled, now, 0);
    now := now + [48, 48];
    AppendText(header, 265, 32, ROOT, settled, now, 0);
    now := now + ROOT;
    AppendText(header, 297, 32, ROOT, settled, now, 28);
    now := now + Zeros(28) + ROOT;
    GapIsWritten(header[..], settled, now, 28);
    now := now + Zeros(28);
    var _ := AppendOctal(header, 329, 8, 0, settled, now);
    now := now + OctalField(0, 8);
    var _ := AppendOctal(header, 337, 8, 0, settled, now);
    now := now + OctalField(0, 8);
    BackIsWhole(header[..], settled, now);
  }

  lemma {:induction false} BackIsWhole(block: Bytes, settled: Bytes, now: Bytes)
    requires |settled| == 156 && |now| == 189 && Begun(block, settled, now) && now + Zeros(167) == HeaderBack()
    ensures block == settled + HeaderBack()
  {
    assert settled + now + Zeros(167) == settled + (now + Zeros(167));
  }

  /** header.reduce: the sum of all bytes. */
  method SumBlock(header: array<Byte>) returns (sum: nat)
    ensures sum == SumOf(header[..])
  {
    sum := 0;
    for i := 0 to header.Length
      invariant sum == SumOf(header[..i])
    {
      assert header[..i + 1][..i] == header[..i];
      sum := sum + header[i];
    }
    assert header[..header.Length] == header[..];
  }

  lemma {:induction false} ChecksumWritten(front: Bytes, back: Bytes, checksum: Bytes)
    requires |front| == 148 && |back| == 356 && |checksum| == 8
    ensures Written(front + SPACES + back, 148, checksum) == front + checksum + back
  {
  }

  /** createHeader: the block filled in place, its checksum over all its bytes. */
  method CreateHeader(path: string, size: nat, epoch: nat) returns (header: array<Byte>, r: Result<()>)
    ensures fresh(header) && header.Length == BLOCK
    ensures r.Ok? <==> Portable(path) && size < Pow8(11) && epoch < Pow8(11)
    ensures r.Ok? ==> Ascii(path) && header[..] == Header(Encode(path), size, epoch)
  {
    hide Begun, HeaderFront, HeaderBack, Pow8, Zeros, OctalField, Fixed, SumOf, Written, ToOctal, PadStart, Portable;
    header := new Byte[BLOCK](_ => 0);
    AllZeros(header[..]);
    if !Portable(path) {
      return header, Err("ARCHIVE_PATH_INVALID");
    }
    PortableIsAscii(path);
    ghost var front, back := HeaderFront(Encode(path), size, epoch), HeaderBack();
    r := WriteFront(header, Encode(path), size, epoch);
    if r.Err? {
      return;
    }
    WriteBack(header, front + SPACES);
    var checksum := SumBlock(header);
    ChecksumFits(header[..]);
    PaddedIsFixed(checksum, 6);
    ChecksumWritten(front, back, Fixed(checksum, 6) + [0, 32]);
    r := WriteText(header, 148, 8, PadStart(ToOctal(checksum), 6) + [0, 32]);
    assert front + (Fixed(checksum, 6) + [0, 32]) + back == front + Fixed(checksum, 6) + [0, 32] + back;
  }
}
