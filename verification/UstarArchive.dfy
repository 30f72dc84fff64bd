/** The whole archive, and a reader of the ustar interchange format that gets its files back. */
module UstarArchive {
  import opened Common
  import opened Octets
  import opened Octal
  import opened Ustar

  function Padding(n: nat): (r: nat)
    ensures r < BLOCK && (n + r) % BLOCK == 0
  {
    (BLOCK - n % BLOCK) % BLOCK
  }

  function Member(e: Entry, epoch: nat): Bytes
    requires Portable(e.path)
  {
    Header(Encode(e.path), |e.bytes|, epoch) + e.bytes + Zeros(Padding(|e.bytes|))
  }

  ghost predicate AllPortable(entries: seq<Entry>) {
    forall i :: 0 <= i < |entries| ==> Portable(entries[i].path)
  }

  function Members(entries: seq<Entry>, epoch: nat, i: nat := 0): Bytes
    requires i <= |entries| && forall k :: 0 <= k < |entries| ==> Portable(entries[k].path)
    decreases |entries| - i
  {
    if i == |entries| then [] else Member(entries[i], epoch) + Members(entries, epoch, i + 1)
  }

  /** Two blocks of zeros end an archive. */
  function Archive(entries: seq<Entry>, epoch: nat): Bytes
    requires forall k :: 0 <= k < |entries| ==> Portable(entries[k].path)
  {
    Members(entries, epoch) + Zeros(2 * BLOCK)
  }

  // ---- a reader of ustar, section "ustar Interchange Format" of the pax utility in POSIX.1-2017

  function UpToNul(field: Bytes): Bytes {
    if field == [] || field[0] == 0 then [] else [field[0]] + UpToNul(field[1..])
  }

  function Decode(bytes: Bytes): string {
    seq(|bytes|, i requires 0 <= i < |bytes| => bytes[i] as char)
  }

  /** The name and the size of a regular file, when magic, version and checksum are right and there is no name prefix. */
  function ReadHeader(block: Bytes): Option<(string, nat)>
    requires |block| == BLOCK
  {
    if block[257..263] != USTAR || block[263..265] != [48, 48] || block[156] != 48 || block[345] != 0 then None
    else if ReadOctal(block[148..156]) != SumOf(block[..148] + SPACES + block[156..]) then None
    else Some((Decode(UpToNul(block[..100])), ReadOctal(block[124..136])))
  }

  function ReadArchive(bytes: Bytes): Option<seq<Entry>>
    decreases |bytes|
  {
    if |bytes| < 2 * BLOCK then None
    else if bytes[..2 * BLOCK] == Zeros(2 * BLOCK) then Some([])
    else match ReadHeader(bytes[..BLOCK])
      case None => None
      case Some((path, size)) =>
        if BLOCK + size + Padding(size) > |bytes| then None
        else match ReadArchive(bytes[BLOCK + size + Padding(size)..])
          case None => None
          case Some(rest) => Some([Entry(path, bytes[BLOCK..BLOCK + size])] + rest)
  }

  // ---- reading a header back

  lemma {:induction false} NameReads(path: string, n: nat)
    requires Ascii(path)
    ensures Decode(UpToNul(Encode(path) + Zeros(n))) == path
  {
    NameStops(Encode(path), n);
  }

  lemma {:induction false} NameStops(name: Bytes, n: nat)
    requires forall i :: 0 <= i < |name| ==> name[i] != 0
    ensures UpToNul(name + Zeros(n)) == name
  {
    if name == [] {
      assert name + Zeros(n) == Zeros(n);
    } else {
      NameStops(name[1..], n);
      assert (name + Zeros(n))[1..] == name[1..] + Zeros(n);
    }
  }

  lemma {:induction false} FrontSlices(path: Bytes, size: nat, epoch: nat)
    requires |path| <= 100
    ensures HeaderFront(path, size, epoch)[..100] == path + Zeros(100 - |path|)
    ensures HeaderFront(path, size, epoch)[124..136] == OctalField(size, 12)
  {
    hide OctalField;
  }

  lemma {:induction false} BackSlices()
    ensures var back := HeaderBack(); back[0] == 48 && back[101..107] == USTAR && back[107..109] == [48, 48] && back[189] == 0
  {
    hide OctalField;
  }

  lemma {:induction false} OctalFieldReads(n: nat, width: nat)
    requires width >= 1 && n < Pow8(width - 1)
    ensures ReadOctal(OctalField(n, width)) == n
  {
    FixedRoundTrip(n, width - 1, NUL);
  }

  lemma {:induction false} HeaderReads(path: string, size: nat, epoch: nat)
    requires Portable(path) && size < Pow8(11)
    ensures Ascii(path) && ReadHeader(Header(Encode(path), size, epoch)) == Some((path, size))
  {
    hide HeaderFront, HeaderBack, OctalField, Pow8, Portable, Fixed;
    PortableIsAscii(path);
    var front, back := HeaderFront(Encode(path), size, epoch), HeaderBack();
    var sum := SumOf(front + SPACES + back);
    var h := Header(Encode(path), size, epoch);
    assert h[..148] == front && h[156..] == back && h[148..156] == Fixed(sum, 6) + [0, 32];
    FrontSlices(Encode(path), size, epoch);
    BackSlices();
    assert h[..100] == front[..100] && h[124..136] == front[124..136];
    assert h[257..263] == back[101..107] && h[263..265] == back[107..109] && h[156] == back[0] && h[345] == back[189];
    NameReads(path, 100 - |path|);
    OctalFieldReads(size, 12);
    ChecksumFits(front + SPACES + back);
    FixedRoundTrip(sum, 6, [0, 32]);
  }

  /** A text field. */
  function TextAt(block: Bytes, from: nat, length: nat): string
    requires from + length <= |block|
  {
    Decode(UpToNul(block[from..from + length]))
  }

  /** Every other field reads as intended: mode 0644, root for owner and group, the time, no device and no link. */
  lemma {:induction false} AttributesRead(path: string, size: nat, epoch: nat)
    requires Portable(path) && size < Pow8(11) && epoch < Pow8(11)
    ensures |Encode(path)| <= 100
    ensures var h := Header(Encode(path), size, epoch);
            && ReadOctal(h[100..108]) == 6 * 64 + 4 * 8 + 4 && ReadOctal(h[108..116]) == 0 && ReadOctal(h[116..124]) == 0
            && ReadOctal(h[136..148]) == epoch && TextAt(h, 265, 32) == "root" && TextAt(h, 297, 32) == "root"
            && ReadOctal(h[329..337]) == 0 && ReadOctal(h[337..345]) == 0
            && TextAt(h, 157, 100) == "" && h[345..] == Zeros(167)
  {
    hide HeaderFront, HeaderBack, OctalField, Pow8, Portable, Fixed, UpToNul, Decode;
    PortableIsAscii(path);
    PowersOf8();
    var front, back := HeaderFront(Encode(path), size, epoch), HeaderBack();
    var h := Header(Encode(path), size, epoch);
    assert h[..148] == front && h[156..] == back;
    AttributeSlices(Encode(path), size, epoch);
    OtherSlices();
    assert h[100..108] == front[100..108] && h[108..116] == front[108..116] && h[116..124] == front[116..124] && h[136..148] == front[136..148];
    assert h[157..257] == back[1..101] && h[265..297] == back[109..141] && h[297..329] == back[141..173];
    assert h[329..337] == back[173..181] && h[337..345] == back[181..189] && h[345..] == back[189..];
    OctalFieldReads(0x1a4, 8);
    OctalFieldReads(0, 8);
    OctalFieldReads(epoch, 12);
    assert ROOT == Encode("root");
    NameReads("root", 28);
    NameReads("", 100);
    assert Encode("") + Zeros(100) == Zeros(100);
  }

  lemma {:induction false} AttributeSlices(path: Bytes, size: nat, epoch: nat)
    requires |path| <= 100
    ensures var front := HeaderFront(path, size, epoch);
            && front[100..108] == OctalField(0x1a4, 8) && front[108..116] == OctalField(0, 8) && front[116..124] == OctalField(0, 8)
            && front[136..148] == OctalField(epoch, 12)
  {
    hide OctalField;
    var names := HeaderNames(path);
    var front := HeaderFront(path, size, epoch);
    assert names[100..108] == OctalField(0x1a4, 8) && names[108..116] == OctalField(0, 8) && names[116..124] == OctalField(0, 8);
    assert front[..124] == names;
    assert front[100..108] == front[..124][100..108] && front[108..116] == front[..124][108..116] && front[116..124] == front[..124][116..124];
  }

  lemma {:induction false} OtherSlices()
    ensures var back := HeaderBack();
            && back[1..101] == Zeros(100) && back[109..141] == ROOT + Zeros(28) && back[141..173] == ROOT + Zeros(28)
            && back[173..181] == OctalField(0, 8) && back[181..189] == OctalField(0, 8) && back[189..] == Zeros(167)
  {
    hide OctalField;
  }

  // ---- reading an archive back

  ghost predicate SizesFit(entries: seq<Entry>) {
    forall i :: 0 <= i < |entries| ==> |entries[i].bytes| < Pow8(11)
  }

  lemma {:induction false} MembersLength(entries: seq<Entry>, epoch: nat, i: nat)
    requires i <= |entries| && AllPortable(entries)
    ensures |Members(entries, epoch, i)| % BLOCK == 0
    decreases |entries| - i
  {
    hide Member, Portable;
    if i < |entries| {
      MembersLength(entries, epoch, i + 1);
      MemberLength(entries[i], epoch);
      BlocksAdd(|Member(entries[i], epoch)|, |Members(entries, epoch, i + 1)|);
    }
  }

  lemma {:induction false} MemberLength(e: Entry, epoch: nat)
    requires Portable(e.path)
    ensures |Member(e, epoch)| == BLOCK + |e.bytes| + Padding(|e.bytes|) && |Member(e, epoch)| % BLOCK == 0
  {
    hide Header, Padding;
  }

  lemma {:induction false} BlocksAdd(a: nat, b: nat)
    requires a % BLOCK == 0 && b % BLOCK == 0
    ensures (a + b) % BLOCK == 0
  {
  }

  /** A name is not empty, so a member does not begin with a zero. */
  lemma {:induction false} MemberIsNotEnd(e: Entry, epoch: nat)
    requires Portable(e.path)
    ensures Member(e, epoch)[0] != 0
  {
    hide OctalField, HeaderBack;
    assert HeaderFront(Encode(e.path), |e.bytes|, epoch)[0] == Encode(e.path)[0];
  }

  lemma {:induction false} MemberReads(e: Entry, epoch: nat, rest: Bytes)
    requires Portable(e.path) && |e.bytes| < Pow8(11) && |rest| >= 2 * BLOCK
    ensures ReadArchive(Member(e, epoch) + rest) == match ReadArchive(rest) case None => None case Some(later) => Some([e] + later)
  {
    hide Header, ReadHeader, Pow8, SumOf, Portable;
    PortableIsAscii(e.path);
    var bytes, n := Member(e, epoch) + rest, |e.bytes|;
    MemberIsNotEnd(e, epoch);
    assert bytes[..2 * BLOCK][0] != 0;
    assert bytes[..BLOCK] == Header(Encode(e.path), n, epoch);
    HeaderReads(e.path, n, epoch);
    assert bytes[BLOCK..BLOCK + n] == e.bytes;
    assert bytes[BLOCK + n + Padding(n)..] == rest;
  }

  lemma {:induction false} EndReads()
    ensures ReadArchive(Zeros(2 * BLOCK)) == Some([])
  {
    assert Zeros(2 * BLOCK)[..2 * BLOCK] == Zeros(2 * BLOCK);
  }

  /** Reading an archive gives the entries back, in their order. */
  lemma {:induction false} ArchiveReads(entries: seq<Entry>, epoch: nat, i: nat)
    requires i <= |entries| && AllPortable(entries) && SizesFit(entries)
    ensures ReadArchive(Members(entries, epoch, i) + Zeros(2 * BLOCK)) == Some(entries[i..])
    decreases |entries| - i
  {
    hide Member, Zeros, Pow8, Portable, ReadArchive;
    if i == |entries| {
      assert Members(entries, epoch, i) + Zeros(2 * BLOCK) == Zeros(2 * BLOCK);
      EndReads();
      assert entries[i..] == [];
    } else {
      var rest := Members(entries, epoch, i + 1) + Zeros(2 * BLOCK);
      ArchiveReads(entries, epoch, i + 1);
      MemberReads(entries[i], epoch, rest);
      assert Members(entries, epoch, i) + Zeros(2 * BLOCK) == Member(entries[i], epoch) + rest;
      assert [entries[i]] + entries[i + 1..] == entries[i..];
    }
  }

  // ---- the order of paths

  predicate Less(a: string, b: string) {
    b != "" && (a == "" || a[0] < b[0] || (a[0] == b[0] && Less(a[1..], b[1..])))
  }

  lemma {:induction false} LessIsTotal(a: string, b: string)
    ensures Less(a, b) || Less(b, a) || a == b
  {
    if a != "" && b != "" && a[0] == b[0] {
      LessIsTotal(a[1..], b[1..]);
      assert a[1..] == b[1..] ==> a == [a[0]] + a[1..] == b;
    }
  }

  lemma {:induction false} LessIsStrict(a: string, b: string)
    requires Less(a, b)
    ensures !Less(b, a) && a != b
  {
    if a != "" && a[0] == b[0] {
      LessIsStrict(a[1..], b[1..]);
    }
  }

  lemma {:induction false} LessChains(a: string, b: string, c: string)
    requires Less(a, b) && Less(b, c)
    ensures Less(a, c)
  {
    if a != "" && a[0] == b[0] == c[0] {
      LessChains(a[1..], b[1..], c[1..]);
    }
  }

  // ---- sorting, stable, as Array.sort does it

  /** Behind every entry whose path is not greater. */
  function Insert(sorted: seq<Entry>, e: Entry): (r: seq<Entry>)
    ensures multiset(r) == multiset(sorted) + multiset{e}
  {
    if sorted == [] then [e]
    else if Less(e.path, sorted[|sorted| - 1].path) then
      assert sorted == sorted[..|sorted| - 1] + [sorted[|sorted| - 1]];
      Insert(sorted[..|sorted| - 1], e) + [sorted[|sorted| - 1]]
    else sorted + [e]
  }

  function Sorted(entries: seq<Entry>): (r: seq<Entry>)
    ensures multiset(r) == multiset(entries)
  {
    if entries == [] then []
    else
      assert entries == entries[..|entries| - 1] + [entries[|entries| - 1]];
      Insert(Sorted(entries[..|entries| - 1]), entries[|entries| - 1])
  }

  ghost predicate InOrder(entries: seq<Entry>) {
    forall i, j :: 0 <= i < j < |entries| ==> !Less(entries[j].path, entries[i].path)
  }

  lemma {:induction false} NotGreaterChains(a: string, b: string, c: string)
    requires !Less(b, a) && !Less(c, b)
    ensures !Less(c, a)
  {
    LessIsTotal(a, b);
    LessIsTotal(b, c);
    if Less(a, b) && Less(b, c) {
      LessChains(a, b, c);
      LessIsStrict(a, c);
    }
  }

  lemma {:induction false} InsertKeepsOrder(sorted: seq<Entry>, e: Entry)
    requires InOrder(sorted)
    ensures InOrder(Insert(sorted, e))
  {
    var n := |sorted| - 1;
    if sorted != [] && Less(e.path, sorted[n].path) {
      InsertKeepsOrder(sorted[..n], e);
      LessIsStrict(e.path, sorted[n].path);
      var before := Insert(sorted[..n], e);
      forall i | 0 <= i < |before| ensures !Less(sorted[n].path, before[i].path) {
        assert before[i] in multiset(before);
        assert before[i] in sorted[..n] || before[i] == e;
      }
    } else if sorted != [] {
      forall i | 0 <= i < |sorted| ensures !Less(e.path, sorted[i].path) {
        if i < n {
          NotGreaterChains(sorted[i].path, sorted[n].path, e.path);
        }
      }
    }
  }

  lemma {:induction false} SortedIsInOrder(entries: seq<Entry>)
    ensures InOrder(Sorted(entries))
  {
    if entries != [] {
      SortedIsInOrder(entries[..|entries| - 1]);
      InsertKeepsOrder(Sorted(entries[..|entries| - 1]), entries[|entries| - 1]);
    }
  }

  ghost predicate DistinctPaths(entries: seq<Entry>) {
    forall i, j :: 0 <= i < j < |entries| ==> entries[i].path != entries[j].path
  }

  /** Two ordered lists of the same entries, none with the path of another, are one list. */
  lemma {:induction false} OrderIsUnique(a: seq<Entry>, b: seq<Entry>)
    requires InOrder(a) && InOrder(b) && DistinctPaths(a) && multiset(a) == multiset(b)
    ensures a == b
  {
    hide InOrder, DistinctPaths, Less;
    assert |a| == |multiset(a)| == |multiset(b)| == |b|;
    if a != [] {
      HeadsAgree(a, b);
      assert a == [a[0]] + a[1..] && b == [b[0]] + b[1..];
      assert multiset(a[1..]) == multiset(b[1..]) by { WithoutHead(a); WithoutHead(b); }
      TailInOrder(a);
      TailInOrder(b);
      TailDistinct(a);
      OrderIsUnique(a[1..], b[1..]);
    }
  }

  lemma {:induction false} TailInOrder(a: seq<Entry>)
    requires InOrder(a) && a != []
    ensures InOrder(a[1..])
  {
    hide Less;
  }

  lemma {:induction false} TailDistinct(a: seq<Entry>)
    requires DistinctPaths(a) && a != []
    ensures DistinctPaths(a[1..])
  {
  }

  lemma {:induction false} WithoutHead(a: seq<Entry>)
    requires a != []
    ensures multiset(a[1..]) == multiset(a) - multiset{a[0]}
  {
    assert a == [a[0]] + a[1..];
  }

  lemma {:induction false} HeadsAgree(a: seq<Entry>, b: seq<Entry>)
    requires InOrder(a) && InOrder(b) && DistinctPaths(a) && multiset(a) == multiset(b) && a != [] && b != []
    ensures a[0] == b[0]
  {
    hide Less;
    assert b[0] in multiset(a) && a[0] in multiset(b);
    var i := FindsEntry(a, b[0]);
    var j := FindsEntry(b, a[0]);
    LessIsTotal(a[0].path, b[0].path);
    assert i > 0 ==> a[0].path != a[i].path;
  }

  lemma {:induction false} FindsEntry(a: seq<Entry>, e: Entry) returns (i: nat)
    requires e in multiset(a)
    ensures i < |a| && a[i] == e
  {
    assert e in a;
    i :| i < |a| && a[i] == e;
  }

  // ---- createUstarArchive

  /** No two of the first n paths are the same but for case. */
  ghost predicate DistinctFolded(entries: seq<Entry>, n: nat) {
    forall i, j :: 0 <= i < j < n <= |entries| ==> Lower(entries[i].path) != Lower(entries[j].path)
  }

  /** What an accepted list of files satisfies. */
  ghost predicate Acceptable(entries: seq<Entry>, epoch: nat) {
    AllPortable(entries) && SizesFit(entries) && DistinctFolded(entries, |entries|) && (entries != [] ==> epoch < Pow8(11))
  }

  ghost predicate FoldedIs(seen: set<string>, entries: seq<Entry>, n: nat)
    requires n <= |entries|
  {
    seen == set k | 0 <= k < n :: Lower(entries[k].path)
  }

  lemma {:induction false} FoldedGrows(seen: set<string>, entries: seq<Entry>, i: nat)
    requires i < |entries| && FoldedIs(seen, entries, i) && DistinctFolded(entries, i)
    ensures FoldedIs(seen + {Lower(entries[i].path)}, entries, i + 1)
    ensures Lower(entries[i].path) in seen ==> !DistinctFolded(entries, |entries|)
    ensures Lower(entries[i].path) !in seen ==> DistinctFolded(entries, i + 1)
  {
    hide Lower;
  }

  function ConcatOf(chunks: seq<Bytes>): Bytes {
    if chunks == [] then [] else ConcatOf(chunks[..|chunks| - 1]) + chunks[|chunks| - 1]
  }

  lemma {:induction false} ConcatAdds(chunks: seq<Bytes>, chunk: Bytes)
    ensures ConcatOf(chunks + [chunk]) == ConcatOf(chunks) + chunk
  {
    assert (chunks + [chunk])[..|chunks|] == chunks;
  }

  lemma {:induction false} MembersNext(entries: seq<Entry>, epoch: nat, i: nat)
    requires i < |entries| && AllPortable(entries)
    ensures Members(entries[..i + 1], epoch) == Members(entries[..i], epoch) + Member(entries[i], epoch)
  {
    MembersSplit(entries[..i + 1], epoch, 0, i);
    assert entries[..i + 1][..i] == entries[..i];
    assert Members(entries[..i + 1], epoch, i) == Member(entries[i], epoch) + [];
  }

  /** The members up to the last one, and the last. */
  lemma {:induction false} MembersSplit(entries: seq<Entry>, epoch: nat, k: nat, i: nat)
    requires k <= i && i + 1 == |entries| && AllPortable(entries)
    ensures Members(entries, epoch, k) == Members(entries[..i], epoch, k) + Members(entries, epoch, i)
    decreases i - k
  {
    hide Member;
    if k < i {
      MembersSplit(entries, epoch, k + 1, i);
      assert Member(entries[k], epoch) + (Members(entries[..i], epoch, k + 1) + Members(entries, epoch, i))
             == Member(entries[k], epoch) + Members(entries[..i], epoch, k + 1) + Members(entries, epoch, i);
    }
  }

  lemma {:induction false} TwoPlaces(b: seq<Entry>, i: nat, j: nat)
    requires i < j < |b| && b[i] == b[j]
    ensures multiset(b)[b[i]] >= 2
  {
    assert b == b[..j] + b[j..];
    assert b[i] in multiset(b[..j]) && b[j] in multiset(b[j..]) by { assert b[..j][i] == b[i] && b[j..][0] == b[j]; }
  }

  lemma {:induction false} FindsTwo(a: seq<Entry>, e: Entry) returns (i: nat, j: nat)
    requires multiset(a)[e] >= 2
    ensures i < j < |a| && a[i] == a[j] == e
  {
    i := FindsEntry(a, e);
    var n := |a| - 1;
    assert a == a[..n] + [a[n]];
    if a[n] == e {
      i := FindsEntry(a[..n], e);
      j := n;
    } else {
      i, j := FindsTwo(a[..n], e);
    }
  }

  lemma {:induction false} DistinctAnyOrder(a: seq<Entry>, b: seq<Entry>)
    requires multiset(a) == multiset(b) && DistinctFolded(a, |a|)
    ensures DistinctFolded(b, |b|)
  {
    hide Lower;
    forall i: nat, j: nat | i < j < |b| ensures Lower(b[i].path) != Lower(b[j].path) {
      if b[i] == b[j] {
        TwoPlaces(b, i, j);
        var k, l := FindsTwo(a, b[i]);
      } else {
        assert b[i] in multiset(b) && b[j] in multiset(b);
        var k := FindsEntry(a, b[i]);
        var l := FindsEntry(a, b[j]);
      }
    }
  }

  lemma {:induction false} AcceptableAnyOrder(a: seq<Entry>, b: seq<Entry>, epoch: nat)
    requires multiset(a) == multiset(b) && Acceptable(a, epoch)
    ensures Acceptable(b, epoch)
  {
    hide Portable, Pow8, Lower;
    assert |a| == |multiset(a)| == |multiset(b)| == |b|;
    DistinctAnyOrder(a, b);
    forall i | 0 <= i < |b| ensures Portable(b[i].path) && |b[i].bytes| < Pow8(11) {
      assert b[i] in multiset(b);
      var k := FindsEntry(a, b[i]);
    }
  }

  lemma {:induction false} FoldedApart(entries: seq<Entry>, epoch: nat)
    requires Acceptable(entries, epoch)
    ensures DistinctPaths(entries)
  {
    hide Lower, Portable;
    forall i, j | 0 <= i < j < |entries| ensures entries[i].path != entries[j].path {
      assert Lower(entries[i].path) != Lower(entries[j].path);
    }
  }

  lemma {:induction false} SortedAcceptable(entries: seq<Entry>, epoch: nat)
    ensures Acceptable(Sorted(entries), epoch) <==> Acceptable(entries, epoch)
    ensures Acceptable(entries, epoch) ==> DistinctPaths(Sorted(entries))
  {
    hide Acceptable, Sorted;
    if Acceptable(entries, epoch) {
      AcceptableAnyOrder(entries, Sorted(entries), epoch);
      FoldedApart(Sorted(entries), epoch);
    }
    if Acceptable(Sorted(entries), epoch) {
      AcceptableAnyOrder(Sorted(entries), entries, epoch);
    }
  }

  // ---- what the archive is for

  /** The archive of a list of files: its length is in whole blocks, and a ustar reader gets exactly the files, in the order of paths. */
  lemma {:induction false} ArchiveRoundTrip(entries: seq<Entry>, epoch: nat)
    requires Acceptable(entries, epoch)
    ensures var sorted := Sorted(entries);
            && AllPortable(sorted) && InOrder(sorted) && multiset(sorted) == multiset(entries)
            && ReadArchive(Archive(sorted, epoch)) == Some(sorted)
            && |Archive(sorted, epoch)| % BLOCK == 0
  {
    hide Sorted, ReadArchive, Members, Zeros;
    var sorted := Sorted(entries);
    SortedAcceptable(entries, epoch);
    SortedIsInOrder(entries);
    ArchiveReads(sorted, epoch, 0);
    assert sorted[0..] == sorted;
    MembersLength(sorted, epoch, 0);
    BlocksAdd(|Members(sorted, epoch)|, 2 * BLOCK);
  }

  /** The same files in another order give the same archive. */
  lemma {:induction false} ArchiveIgnoresOrder(entries: seq<Entry>, others: seq<Entry>, epoch: nat)
    requires Acceptable(entries, epoch) && multiset(entries) == multiset(others)
    ensures Acceptable(others, epoch) && Sorted(others) == Sorted(entries)
  {
    hide Sorted, Acceptable, InOrder, DistinctPaths;
    AcceptableAnyOrder(entries, others, epoch);
    SortedAcceptable(entries, epoch);
    SortedIsInOrder(entries);
    SortedIsInOrder(others);
    OrderIsUnique(Sorted(entries), Sorted(others));
  }

  const MAX_SAFE_INTEGER: nat := 0x1F_FFFF_FFFF_FFFF

  /** The loop over the sorted entries: their chunks, and the length of them all. */
  method CollectChunks(sorted: seq<Entry>, epoch: nat) returns (r: Result<(seq<Bytes>, nat)>)
    ensures r.Ok? <==> Acceptable(sorted, epoch)
    ensures r.Ok? ==> ConcatOf(r.value.0) == Archive(sorted, epoch) && r.value.1 == |Archive(sorted, epoch)|
  {
    hide Portable, Header, Pow8, Lower, Zeros, DistinctFolded, FoldedIs, ConcatOf, Members;
    var seen: set<string>, chunks: seq<Bytes>, totalLength: nat := {}, [], 2 * BLOCK;
    NothingCollected(sorted, epoch);
    for i := 0 to |sorted|
      invariant FoldedIs(seen, sorted, i) && DistinctFolded(sorted, i)
      invariant AllPortable(sorted[..i]) && SizesFit(sorted[..i]) && (i > 0 ==> epoch < Pow8(11))
      invariant ConcatOf(chunks) == Members(sorted[..i], epoch)
      invariant totalLength == |ConcatOf(chunks)| + 2 * BLOCK
    {
      var entry := sorted[i];
      if !Portable(entry.path) {
        return Err("ARCHIVE_PATH_INVALID");
      }
      var folded := Lower(entry.path);
      FoldedGrows(seen, sorted, i);
      if folded in seen {
        return Err("ARCHIVE_PATHS_COLLIDE");
      }
      seen := seen + {folded};
      var header, written := CreateHeader(entry.path, |entry.bytes|, epoch);
      if written.Err? {
        return Err(written.code);
      }
      var padding := Zeros(Padding(|entry.bytes|));
      ConcatAdds(chunks, header[..]);
      ConcatAdds(chunks + [header[..]], entry.bytes);
      ConcatAdds(chunks + [header[..]] + [entry.bytes], padding);
      MemberAdded(sorted, epoch, i, ConcatOf(chunks), header[..], padding);
      chunks := chunks + [header[..]] + [entry.bytes] + [padding];
      totalLength := totalLength + header.Length + |entry.bytes| + |padding|;
    }
    assert sorted[..|sorted|] == sorted;
    ConcatAdds(chunks, Zeros(2 * BLOCK));
    return Ok((chunks + [Zeros(2 * BLOCK)], totalLength));
  }

  lemma {:induction false} MemberAdded(entries: seq<Entry>, epoch: nat, i: nat, before: Bytes, header: Bytes, padding: Bytes)
    requires i < |entries| && AllPortable(entries[..i]) && Portable(entries[i].path) && before == Members(entries[..i], epoch)
    requires header == Header(Encode(entries[i].path), |entries[i].bytes|, epoch) && padding == Zeros(Padding(|entries[i].bytes|))
    ensures AllPortable(entries[..i + 1])
    ensures before + header + entries[i].bytes + padding == Members(entries[..i + 1], epoch)
  {
    hide Header, Portable, Zeros, Members;
    PortableIsAscii(entries[i].path);
    assert entries[..i + 1][..i] == entries[..i];
    assert AllPortable(entries[..i + 1]);
    MembersNext(entries[..i + 1], epoch, i);
    assert entries[..i + 1][..i + 1] == entries[..i + 1];
  }

  /** archive.set: a chunk copied to its place. */
  method SetBytes(archive: array<Byte>, offset: nat, chunk: Bytes)
    requires offset + |chunk| <= archive.Length
    modifies archive
    ensures archive[..offset + |chunk|] == old(archive[..offset]) + chunk
  {
    for i := 0 to |chunk|
      invariant forall k :: 0 <= k < offset ==> archive[k] == old(archive[k])
      invariant forall k :: offset <= k < offset + i ==> archive[k] == chunk[k - offset]
    {
      archive[offset + i] := chunk[i];
    }
  }

  /** createUstarArchive: the chunks of the sorted entries, copied into one array of their total length. */
  method CreateUstarArchive(entries: seq<Entry>, epoch: int) returns (archive: array<Byte>, r: Result<()>)
    ensures r.Ok? <==> 0 <= epoch <= MAX_SAFE_INTEGER && Acceptable(entries, epoch)
    ensures r.Ok? ==> AllPortable(Sorted(entries)) && archive[..] == Archive(Sorted(entries), epoch)
  {
    hide Sorted, Acceptable, ConcatOf, Archive;
    archive := new Byte[0];
    if !(0 <= epoch <= MAX_SAFE_INTEGER) {
      return archive, Err("ARCHIVE_EPOCH_INVALID");
    }
    var sorted := Sorted(entries);
    SortedAcceptable(entries, epoch);
    var collected := CollectChunks(sorted, epoch);
    if collected.Err? {
      return archive, Err(collected.code);
    }
    var (chunks, totalLength) := collected.value;
    AcceptableIsPortable(sorted, epoch);
    archive := new Byte[totalLength](_ => 0);
    var offset := 0;
    assert chunks[..0] == [];
    ConcatOfNothing();
    for k := 0 to |chunks|
      invariant offset == |ConcatOf(chunks[..k])| && offset <= totalLength
      invariant archive[..offset] == ConcatOf(chunks[..k])
    {
      ConcatSplits(chunks, k);
      SetBytes(archive, offset, chunks[k]);
      offset := offset + |chunks[k]|;
    }
    assert chunks[..|chunks|] == chunks;
    return archive, Ok(());
  }

  lemma {:induction false} NothingCollected(sorted: seq<Entry>, epoch: nat)
    ensures FoldedIs({}, sorted, 0) && DistinctFolded(sorted, 0)
    ensures sorted[..0] == [] && ConcatOf([]) == [] == Members(sorted[..0], epoch)
  {
  }

  lemma {:induction false} ConcatOfNothing()
    ensures ConcatOf([]) == []
  {
  }

  lemma {:induction false} AcceptableIsPortable(entries: seq<Entry>, epoch: nat)
    requires Acceptable(entries, epoch)
    ensures AllPortable(entries)
  {
    hide Portable;
  }

  lemma {:induction false} ConcatSplits(chunks: seq<Bytes>, k: nat)
    requires k < |chunks|
    ensures ConcatOf(chunks[..k + 1]) == ConcatOf(chunks[..k]) + chunks[k]
    ensures |ConcatOf(chunks[..k])| + |chunks[k]| <= |ConcatOf(chunks)|
  {
    assert chunks[..k + 1][..k] == chunks[..k];
    ConcatPrefix(chunks, k + 1);
  }

  lemma {:induction false} ConcatPrefix(chunks: seq<Bytes>, k: nat)
    requires k <= |chunks|
    ensures |ConcatOf(chunks[..k])| <= |ConcatOf(chunks)|
    decreases |chunks|
  {
    if k == |chunks| {
      assert chunks[..k] == chunks;
    } else {
      ConcatPrefix(chunks[..|chunks| - 1], k);
      assert chunks[..|chunks| - 1][..k] == chunks[..k];
    }
  }
}
