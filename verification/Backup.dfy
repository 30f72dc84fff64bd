/** The backup container: a manifest in front, and the database in sealed chunks behind it. */
module Backup {
  import opened Common
  import opened Octets

  const MAX_BACKUP_BYTES: nat := 64 * 1024 * 1024 * 1024
  const MAX_MANIFEST_BYTES: nat := 65536
  const NONCE_BYTES: nat := 12
  const TAG_BYTES: nat := 16
  /** "2COLLAB_BACKUP_V1" and a zero byte. */
  const MAGIC: Bytes := [50, 67, 79, 76, 76, 65, 66, 95, 66, 65, 67, 75, 85, 80, 95, 86, 49, 0]
  const FIXED: nat := 54

  datatype Manifest = Manifest(identity: string, backupId: string, chunkBytes: nat, chunkCount: nat,
                               plaintextBytes: nat, plaintextSha256: string, ciphertextBytes: nat, ciphertextSha256: string)

  datatype Purpose = Payload | ManifestSeal

  /** What a chunk is bound to; the manifest's seal is bound to the manifest's own bytes. */
  datatype Aad = ChunkAad(backupId: string, index: nat, count: nat) | ManifestAad(bytes: Bytes)

  /** The primitives the code calls. */
  datatype Primitives = Primitives(
    seal: (string, Bytes, Aad, Bytes) -> (Bytes, Bytes),
    open: (string, Bytes, Aad, Bytes, Bytes) -> Option<Bytes>,
    derive: (Bytes, string, Purpose) -> string,
    sha256: Bytes -> string,
    encode: Manifest -> Bytes,
    decode: Bytes -> Option<Manifest>,
    identityOk: Manifest -> bool)

  /** AES-GCM: a ciphertext as long as its cleartext, a 16-byte tag, and opening is the inverse of sealing. */
  ghost predicate LawfulCipher(p: Primitives) {
    && (forall key, nonce, aad, clear :: |p.seal(key, nonce, aad, clear).0| == |clear| && |p.seal(key, nonce, aad, clear).1| == TAG_BYTES)
    && (forall key, nonce, aad, clear, ct, tag ::
          p.open(key, nonce, aad, ct, tag) == Some(clear) <==> p.seal(key, nonce, aad, clear) == (ct, tag))
  }

  /** The manifest text: what decodes is valid, and a valid manifest is encoded within bounds and decodes to itself. */
  ghost predicate LawfulManifest(p: Primitives) {
    && (forall bytes :: p.decode(bytes).Some? ==> ValidManifest(p, p.decode(bytes).value))
    && (forall m :: ValidManifest(p, m) ==> p.decode(p.encode(m)) == Some(m) && 2 <= |p.encode(m)| <= MAX_MANIFEST_BYTES)
  }

  ghost predicate Lawful(p: Primitives) {
    LawfulCipher(p) && LawfulManifest(p)
  }

  function CeilDiv(n: nat, d: nat): nat
    requires d > 0
  {
    (n + d - 1) / d
  }

  predicate ValidManifest(p: Primitives, m: Manifest) {
    && p.identityOk(m)
    && 4096 <= m.chunkBytes <= 16777216 && m.chunkCount >= 1
    && 1 <= m.plaintextBytes <= MAX_BACKUP_BYTES && 1 <= m.ciphertextBytes <= MAX_BACKUP_BYTES
    && m.chunkCount == CeilDiv(m.plaintextBytes, m.chunkBytes)
  }

  // ---- 32-bit lengths, most significant byte first

  const U32_LIMIT: nat := 0x1_0000_0000

  /** A number and its lowest byte. */
  function Push(high: nat, low: Byte): nat {
    high * 256 + low as nat
  }

  function U32(n: nat): (r: Bytes)
    ensures |r| == 4
  {
    [n / 256 / 256 / 256 % 256, n / 256 / 256 % 256, n / 256 % 256, n % 256]
  }

  function ReadU32(bytes: Bytes, offset: nat): (r: Option<nat>)
    ensures r.Some? <==> offset + 4 <= |bytes|
  {
    if offset + 4 > |bytes| then None
    else Some(Push(Push(Push(bytes[offset], bytes[offset + 1]), bytes[offset + 2]), bytes[offset + 3]))
  }

  lemma {:induction false} PushSplits(n: nat)
    ensures Push(n / 256, n % 256) == n
  {
  }

  lemma {:induction false} SplitPushes(high: nat, low: Byte)
    ensures Push(high, low) / 256 == high && Push(high, low) % 256 == low
  {
  }

  lemma {:induction false} U32RoundTrip(n: nat, bytes: Bytes, offset: nat)
    requires n < U32_LIMIT && offset + 4 <= |bytes| && bytes[offset..offset + 4] == U32(n)
    ensures ReadU32(bytes, offset) == Some(n)
  {
    hide Push;
    PushSplits(n);
    PushSplits(n / 256);
    PushSplits(n / 256 / 256);
    assert n / 256 / 256 / 256 < 256;
    var read := bytes[offset..offset + 4];
    assert read[0] == bytes[offset] && read[1] == bytes[offset + 1] && read[2] == bytes[offset + 2] && read[3] == bytes[offset + 3];
  }

  lemma {:induction false} ReadU32Inverts(bytes: Bytes, offset: nat)
    requires offset + 4 <= |bytes|
    ensures ReadU32(bytes, offset).value < U32_LIMIT && U32(ReadU32(bytes, offset).value) == bytes[offset..offset + 4]
  {
    var a, b, c, d := bytes[offset], bytes[offset + 1], bytes[offset + 2], bytes[offset + 3];
    SplitPushes(a, b);
    SplitPushes(Push(a, b), c);
    SplitPushes(Push(Push(a, b), c), d);
    assert bytes[offset..offset + 4] == [a, b, c, d];
  }

  // ---- writing

  /** The plaintext in pieces of chunkBytes, the last one shorter or equal. */
  function Split(plaintext: Bytes, chunkBytes: nat): seq<Bytes>
    requires chunkBytes > 0
  {
    if plaintext == [] then []
    else if |plaintext| <= chunkBytes then [plaintext]
    else [plaintext[..chunkBytes]] + Split(plaintext[chunkBytes..], chunkBytes)
  }

  function Concat(chunks: seq<Bytes>): Bytes {
    if chunks == [] then [] else chunks[0] + Concat(chunks[1..])
  }

  lemma {:induction false} CeilDivStep(n: nat, d: nat)
    requires d > 0
    ensures CeilDiv(0, d) == 0
    ensures 0 < n <= d ==> CeilDiv(n, d) == 1
    ensures n > d ==> CeilDiv(n, d) == 1 + CeilDiv(n - d, d)
  {
    DivIs(d - 1, d, 0);
    if 0 < n <= d {
      DivIs(n + d - 1, d, 1);
    } else if n > d {
      var q := (n - 1) / d;
      assert n - 1 == q * d + (n - 1) % d;
      assert (q + 1) * d == q * d + d;
      DivIs(n + d - 1, d, q + 1);
    }
  }

  lemma {:induction false} Scales(a: nat, b: nat, d: nat)
    requires a <= b
    ensures a * d <= b * d
  {
  }

  lemma {:induction false} DivIs(n: nat, d: nat, q: nat)
    requires d > 0 && q * d <= n < q * d + d
    ensures n / d == q
  {
    var p := n / d;
    assert n == p * d + n % d;
    assert p + 1 <= q ==> (p + 1) * d <= q * d by { if p + 1 <= q { Scales(p + 1, q, d); } }
    assert q + 1 <= p ==> (q + 1) * d <= p * d by { if q + 1 <= p { Scales(q + 1, p, d); } }
  }

  lemma {:induction false} SplitIsWhole(plaintext: Bytes, chunkBytes: nat)
    requires chunkBytes > 0
    ensures Concat(Split(plaintext, chunkBytes)) == plaintext
    ensures |Split(plaintext, chunkBytes)| == CeilDiv(|plaintext|, chunkBytes)
    ensures ChunksFit(Split(plaintext, chunkBytes), chunkBytes)
  {
    hide CeilDiv, ChunksFit;
    SplitConcat(plaintext, chunkBytes);
    SplitCount(plaintext, chunkBytes);
    SplitFits(plaintext, chunkBytes);
  }

  lemma {:induction false} SplitConcat(plaintext: Bytes, chunkBytes: nat)
    requires chunkBytes > 0
    ensures Concat(Split(plaintext, chunkBytes)) == plaintext
  {
    if |plaintext| > chunkBytes {
      SplitConcat(plaintext[chunkBytes..], chunkBytes);
    } else if plaintext != [] {
      assert Concat([plaintext]) == plaintext + [];
    }
  }

  lemma {:induction false} SplitCount(plaintext: Bytes, chunkBytes: nat)
    requires chunkBytes > 0
    ensures |Split(plaintext, chunkBytes)| == CeilDiv(|plaintext|, chunkBytes)
  {
    hide CeilDiv;
    CeilDivStep(|plaintext|, chunkBytes);
    if |plaintext| > chunkBytes {
      SplitCount(plaintext[chunkBytes..], chunkBytes);
    }
  }

  lemma {:induction false} SplitFits(plaintext: Bytes, chunkBytes: nat)
    requires chunkBytes > 0
    ensures ChunksFit(Split(plaintext, chunkBytes), chunkBytes)
  {
    if |plaintext| > chunkBytes {
      SplitFits(plaintext[chunkBytes..], chunkBytes);
    }
  }

  function Min(a: nat, b: nat): nat {
    if a < b then a else b
  }

  /** The chunk of an index, as a range of the plaintext. */
  function ChunkOf(plaintext: Bytes, chunkBytes: nat, index: nat): Bytes {
    var from, to := Min(index * chunkBytes, |plaintext|), Min((index + 1) * chunkBytes, |plaintext|);
    if from <= to then plaintext[from..to] else []
  }

  lemma {:induction false} ChunkBegins(plaintext: Bytes, chunkBytes: nat, index: nat)
    requires chunkBytes > 0 && index < |Split(plaintext, chunkBytes)|
    ensures index * chunkBytes < |plaintext|
  {
    if index > 0 {
      ChunkBegins(plaintext[chunkBytes..], chunkBytes, index - 1);
      assert index * chunkBytes == (index - 1) * chunkBytes + chunkBytes;
    }
  }

  /** A chunk after the first is the chunk before it of the rest. */
  lemma {:induction false} ChunkOfRest(plaintext: Bytes, chunkBytes: nat, index: nat)
    requires index > 0 && chunkBytes <= |plaintext|
    ensures ChunkOf(plaintext, chunkBytes, index) == ChunkOf(plaintext[chunkBytes..], chunkBytes, index - 1)
  {
    var from, to := (index - 1) * chunkBytes, index * chunkBytes;
    assert to == from + chunkBytes && (index + 1) * chunkBytes == to + chunkBytes;
    RangeOfRest(plaintext, chunkBytes, Min(from, |plaintext| - chunkBytes), Min(to, |plaintext| - chunkBytes));
  }

  lemma {:induction false} RangeOfRest(plaintext: Bytes, n: nat, from: nat, to: nat)
    requires from <= to && to + n <= |plaintext|
    ensures plaintext[n..][from..to] == plaintext[from + n..to + n]
  {
  }

  lemma {:induction false} ChunkAt(plaintext: Bytes, chunkBytes: nat, index: nat)
    requires chunkBytes > 0 && index < |Split(plaintext, chunkBytes)|
    ensures Split(plaintext, chunkBytes)[index] == ChunkOf(plaintext, chunkBytes, index)
  {
    if index == 0 {
      assert 0 * chunkBytes == 0 && 1 * chunkBytes == chunkBytes;
    } else {
      hide ChunkOf;
      ChunkAt(plaintext[chunkBytes..], chunkBytes, index - 1);
      ChunkOfRest(plaintext, chunkBytes, index);
    }
  }

  ghost predicate ChunksFit(chunks: seq<Bytes>, chunkBytes: nat) {
    forall i :: 0 <= i < |chunks| ==> |chunks[i]| <= chunkBytes
  }

  /** One record: nonce, length, ciphertext, tag. */
  function Frame(p: Primitives, key: string, nonce: Bytes, aad: Aad, chunk: Bytes): Bytes {
    var (ciphertext, tag) := p.seal(key, nonce, aad, chunk);
    nonce + U32(|ciphertext|) + ciphertext + tag
  }

  /** The records from index i on. */
  function Frames(p: Primitives, key: string, id: string, count: nat, nonces: seq<Bytes>, chunks: seq<Bytes>, i: nat := 0): Bytes
    requires i <= |chunks| <= |nonces|
    decreases |chunks| - i
  {
    if i == |chunks| then []
    else Frame(p, key, nonces[i], ChunkAad(id, i, count), chunks[i]) + Frames(p, key, id, count, nonces, chunks, i + 1)
  }

  function FileOf(p: Primitives, manifestBytes: Bytes, manifestKey: string, nonce: Bytes, count: nat, records: Bytes): Bytes {
    MAGIC + U32(|manifestBytes|) + nonce + p.seal(manifestKey, nonce, ManifestAad(manifestBytes), []).1 + U32(count) + manifestBytes + records
  }

  // ---- reading

  datatype ParsedFile = ParsedFile(manifest: Manifest, manifestBytes: Bytes, nonce: Bytes, tag: Bytes, chunkCount: nat, records: Bytes)

  function ParseFile(p: Primitives, bytes: Bytes): Option<ParsedFile> {
    if |bytes| < FIXED || |bytes| > MAX_BACKUP_BYTES || bytes[..18] != MAGIC then None
    else match ReadU32(bytes, 18)
      case None => None
      case Some(length) =>
        if length < 2 || length > MAX_MANIFEST_BYTES then None
        else match ReadU32(bytes, 50)
          case None => None
          case Some(count) =>
            if count < 1 || FIXED + length > |bytes| then None
            else
              var manifestBytes := bytes[FIXED..FIXED + length];
              match p.decode(manifestBytes)
              case None => None
              case Some(m) =>
                if m.chunkCount != count then None
                else Some(ParsedFile(m, manifestBytes, bytes[22..34], bytes[34..50], count, bytes[FIXED + length..]))
  }

  const INTEGRITY := "BACKUP_INTEGRITY_FAILED"
  const AUTHENTICATION := "BACKUP_AUTHENTICATION_FAILED"

  /** The cleartexts of the records from an offset on, put together, and the offset after them. */
  function ReadFrames(p: Primitives, key: string, id: string, count: nat, chunkBytes: nat, records: Bytes, offset: nat, i: nat): Result<(Bytes, nat)>
    requires i <= count && offset <= |records|
    decreases count - i
  {
    if i == count then Ok(([], offset))
    else if offset + 32 > |records| then Err(INTEGRITY)
    else
      var length := ReadU32(records, offset + 12).value;
      if length > chunkBytes || offset + 32 + length > |records| then Err(INTEGRITY)
      else
        var start, end := offset + 16, offset + 16 + length;
        match p.open(key, records[offset..offset + 12], ChunkAad(id, i, count), records[start..end], records[end..end + 16])
        case None => Err(AUTHENTICATION)
        case Some(clear) =>
          match ReadFrames(p, key, id, count, chunkBytes, records, end + 16, i + 1)
          case Err(code) => Err(code)
          case Ok((rest, last)) => Ok((clear + rest, last))
  }

  function DecryptParsed(p: Primitives, parsed: ParsedFile, masterKey: Bytes): Result<(Manifest, Bytes)> {
    var m := parsed.manifest;
    if |masterKey| != 32 then Err(AUTHENTICATION)
    else if |parsed.records| != m.ciphertextBytes || p.sha256(parsed.records) != m.ciphertextSha256 then Err(INTEGRITY)
    else if p.open(p.derive(masterKey, m.backupId, ManifestSeal), parsed.nonce, ManifestAad(parsed.manifestBytes), [], parsed.tag) == None then Err(AUTHENTICATION)
    else match ReadFrames(p, p.derive(masterKey, m.backupId, Payload), m.backupId, parsed.chunkCount, m.chunkBytes, parsed.records, 0, 0)
      case Err(code) => Err(code)
      case Ok((clear, offset)) =>
        if offset != |parsed.records| || |clear| != m.plaintextBytes || p.sha256(clear) != m.plaintextSha256 then Err(INTEGRITY)
        else Ok((m, clear))
  }

  function Authenticate(p: Primitives, file: Bytes, masterKey: Bytes): Result<(Manifest, Bytes)> {
    match ParseFile(p, file) case None => Err("BACKUP_FORMAT_INVALID") case Some(parsed) => DecryptParsed(p, parsed, masterKey)
  }

  // ---- reading back what was written

  /** The first record of what lies at an offset. */
  lemma {:induction false} FrameReads(p: Primitives, key: string, nonce: Bytes, aad: Aad, chunk: Bytes, records: Bytes, offset: nat, after: Bytes)
    requires LawfulCipher(p) && |nonce| == NONCE_BYTES && |chunk| < U32_LIMIT
    requires offset <= |records| && records[offset..] == Frame(p, key, nonce, aad, chunk) + after
    ensures var start, end := offset + 16, offset + 16 + |chunk|;
            && end + 16 <= |records| && records[end + 16..] == after
            && ReadU32(records, offset + 12) == Some(|chunk|)
            && p.open(key, records[offset..offset + 12], aad, records[start..end], records[end..end + 16]) == Some(chunk)
  {
    hide U32, ReadU32;
    var (ciphertext, tag) := p.seal(key, nonce, aad, chunk);
    var end := offset + 16 + |chunk|;
    assert |ciphertext| == |chunk| && |tag| == 16;
    SlicesOf(records, offset, nonce, U32(|ciphertext|), ciphertext, tag, after);
    U32RoundTrip(|ciphertext|, records, offset + 12);
  }

  lemma {:induction false} SlicesOf(records: Bytes, offset: nat, a: Bytes, b: Bytes, c: Bytes, d: Bytes, after: Bytes)
    requires offset <= |records| && records[offset..] == a + b + c + d + after
    ensures var i, j, k := offset + |a|, offset + |a| + |b|, offset + |a| + |b| + |c|;
            && k + |d| <= |records| && records[offset..i] == a && records[i..j] == b && records[j..k] == c
            && records[k..k + |d|] == d && records[k + |d|..] == after
  {
    var tail := records[offset..];
    assert |records| == offset + |tail|;
    assert tail[0..|a|] == a;
    assert tail[|a|..|a| + |b|] == b;
    assert tail[|a| + |b|..|a| + |b| + |c|] == c;
    assert tail[|a| + |b| + |c|..|a| + |b| + |c| + |d|] == d;
    assert tail[|a| + |b| + |c| + |d|..|tail|] == after;
    RangeOfRest(records, offset, 0, |a|);
    RangeOfRest(records, offset, |a|, |a| + |b|);
    RangeOfRest(records, offset, |a| + |b|, |a| + |b| + |c|);
    RangeOfRest(records, offset, |a| + |b| + |c|, |a| + |b| + |c| + |d|);
    RangeOfRest(records, offset, |a| + |b| + |c| + |d|, |tail|);
  }

  ghost predicate NonceLengths(nonces: seq<Bytes>, from: nat) {
    forall i :: from <= i < |nonces| ==> |nonces[i]| == NONCE_BYTES
  }

  ghost predicate FitFrom(chunks: seq<Bytes>, chunkBytes: nat, from: nat) {
    forall i :: from <= i < |chunks| ==> |chunks[i]| <= chunkBytes
  }

  function Prepend(clear: Bytes, rest: Result<(Bytes, nat)>): Result<(Bytes, nat)> {
    match rest case Err(code) => Err(code) case Ok((later, last)) => Ok((clear + later, last))
  }

  lemma {:induction false} ReadStep(p: Primitives, key: string, id: string, count: nat, chunkBytes: nat, records: Bytes, offset: nat, i: nat,
                                    chunk: Bytes)
    requires i < count && offset + 32 + |chunk| <= |records| && |chunk| <= chunkBytes
    requires ReadU32(records, offset + 12) == Some(|chunk|)
    requires p.open(key, records[offset..offset + 12], ChunkAad(id, i, count), records[offset + 16..offset + 16 + |chunk|],
                    records[offset + 16 + |chunk|..offset + 32 + |chunk|]) == Some(chunk)
    ensures ReadFrames(p, key, id, count, chunkBytes, records, offset, i)
            == Prepend(chunk, ReadFrames(p, key, id, count, chunkBytes, records, offset + 32 + |chunk|, i + 1))
  {
    hide ReadU32;
  }

  lemma {:induction false} ReadNothing(p: Primitives, key: string, id: string, count: nat, chunkBytes: nat, records: Bytes, offset: nat)
    requires offset <= |records|
    ensures ReadFrames(p, key, id, count, chunkBytes, records, offset, count) == Ok(([], offset))
  {
  }

  /** Framed chunks, wherever they were cut, read back to their concatenation, and the offset ends at the end. */
  lemma {:induction false} FramesReadBack(p: Primitives, key: string, id: string, count: nat, chunkBytes: nat,
                                          nonces: seq<Bytes>, chunks: seq<Bytes>, i: nat, records: Bytes, offset: nat)
    requires LawfulCipher(p) && i <= count == |chunks| == |nonces| && chunkBytes < U32_LIMIT
    requires NonceLengths(nonces, i) && FitFrom(chunks, chunkBytes, i)
    requires offset <= |records| && records[offset..] == Frames(p, key, id, count, nonces, chunks, i)
    ensures ReadFrames(p, key, id, count, chunkBytes, records, offset, i) == Ok((Concat(chunks[i..]), |records|))
    decreases count - i
  {
    hide Frame, ReadU32, LawfulCipher, ReadFrames;
    if i == count {
      ReadNothing(p, key, id, count, chunkBytes, records, offset);
      assert chunks[i..] == [];
    } else {
      FrameReads(p, key, nonces[i], ChunkAad(id, i, count), chunks[i], records, offset, Frames(p, key, id, count, nonces, chunks, i + 1));
      ReadStep(p, key, id, count, chunkBytes, records, offset, i, chunks[i]);
      FramesReadBack(p, key, id, count, chunkBytes, nonces, chunks, i + 1, records, offset + 32 + |chunks[i]|);
      assert chunks[i..][1..] == chunks[i + 1..];
    }
  }

  lemma {:induction false} FramesIgnoreEarlier(p: Primitives, key: string, id: string, count: nat, nonces: seq<Bytes>, chunks: seq<Bytes>,
                                               nonces': seq<Bytes>, chunks': seq<Bytes>, i: nat)
    requires i <= |chunks| == |chunks'| == |nonces| == |nonces'| && chunks[i..] == chunks'[i..] && nonces[i..] == nonces'[i..]
    ensures Frames(p, key, id, count, nonces, chunks, i) == Frames(p, key, id, count, nonces', chunks', i)
    decreases |chunks| - i
  {
    hide Frame;
    if i < |chunks| {
      assert chunks[i] == chunks[i..][0] && chunks'[i] == chunks'[i..][0] && nonces[i] == nonces[i..][0] && nonces'[i] == nonces'[i..][0];
      assert chunks[i + 1..] == chunks[i..][1..] && nonces[i + 1..] == nonces[i..][1..];
      assert chunks'[i + 1..] == chunks'[i..][1..] && nonces'[i + 1..] == nonces'[i..][1..];
      FramesIgnoreEarlier(p, key, id, count, nonces, chunks, nonces', chunks', i + 1);
    }
  }

  /** A record that opens is the frame of what it opens to. */
  lemma {:induction false} OpenedIsFrame(p: Primitives, key: string, aad: Aad, records: Bytes, offset: nat, length: nat, clear: Bytes)
    requires LawfulCipher(p) && offset + 32 + length <= |records| && ReadU32(records, offset + 12) == Some(length)
    requires p.open(key, records[offset..offset + 12], aad, records[offset + 16..offset + 16 + length],
                    records[offset + 16 + length..offset + 32 + length]) == Some(clear)
    ensures records[offset..offset + 32 + length] == Frame(p, key, records[offset..offset + 12], aad, clear) && |clear| == length
  {
    hide U32, ReadU32;
    ReadU32Inverts(records, offset + 12);
    var nonce, ciphertext, tag := records[offset..offset + 12], records[offset + 16..offset + 16 + length], records[offset + 16 + length..offset + 32 + length];
    assert p.seal(key, nonce, aad, clear) == (ciphertext, tag);
    assert records[offset + 12..offset + 16] == U32(length);
    JoinedSlices(records, offset, offset + 12, offset + 16, offset + 16 + length, offset + 32 + length);
  }

  lemma {:induction false} JoinedSlices(records: Bytes, a: nat, b: nat, c: nat, d: nat, e: nat)
    requires a <= b <= c <= d <= e <= |records|
    ensures records[a..e] == records[a..b] + records[b..c] + records[c..d] + records[d..e]
  {
    assert records[a..c] == records[a..b] + records[b..c];
    assert records[a..d] == records[a..c] + records[c..d];
    assert records[a..e] == records[a..d] + records[d..e];
  }

  /** What the reader accepts was framed, with nonces and pieces found here. */
  lemma {:induction false} ReadIsFramed(p: Primitives, key: string, id: string, count: nat, chunkBytes: nat, records: Bytes, offset: nat, i: nat)
    returns (nonces: seq<Bytes>, chunks: seq<Bytes>)
    requires LawfulCipher(p) && i <= count && offset <= |records|
    requires ReadFrames(p, key, id, count, chunkBytes, records, offset, i).Ok?
    ensures |nonces| == |chunks| == count && NonceLengths(nonces, i) && FitFrom(chunks, chunkBytes, i)
    ensures var (clear, last) := ReadFrames(p, key, id, count, chunkBytes, records, offset, i).value;
            && offset <= last <= |records| && clear == Concat(chunks[i..])
            && records[offset..last] == Frames(p, key, id, count, nonces, chunks, i)
    decreases count - i
  {
    hide Frame, ReadU32, LawfulCipher;
    if i == count {
      nonces, chunks := seq(count, _ => []), seq(count, _ => []);
    } else {
      var length := ReadU32(records, offset + 12).value;
      var next := offset + 32 + length;
      var clear := p.open(key, records[offset..offset + 12], ChunkAad(id, i, count), records[offset + 16..offset + 16 + length],
                          records[offset + 16 + length..next]).value;
      OpenedIsFrame(p, key, ChunkAad(id, i, count), records, offset, length, clear);
      var laterNonces, later := ReadIsFramed(p, key, id, count, chunkBytes, records, next, i + 1);
      nonces, chunks := laterNonces[i := records[offset..offset + 12]], later[i := clear];
      FramesIgnoreEarlier(p, key, id, count, laterNonces, later, nonces, chunks, i + 1);
      var last := ReadFrames(p, key, id, count, chunkBytes, records, offset, i).value.1;
      assert records[offset..last] == records[offset..next] + records[next..last];
      assert chunks[i..][1..] == later[i + 1..];
    }
  }

  // ---- the file around the records

  lemma {:induction false} FrontSlices(a: Bytes, b: Bytes, c: Bytes, d: Bytes, e: Bytes, rest: Bytes)
    requires |a| == 18 && |b| == 4 && |c| == 12 && |d| == 16 && |e| == 4
    ensures var all := a + b + c + d + e + rest;
            all[..18] == a && all[18..22] == b && all[22..34] == c && all[34..50] == d && all[50..54] == e
  {
  }

  lemma {:induction false} FileSlices(p: Primitives, manifestBytes: Bytes, key: string, nonce: Bytes, count: nat, records: Bytes)
    requires LawfulCipher(p) && |nonce| == NONCE_BYTES
    ensures var file, n := FileOf(p, manifestBytes, key, nonce, count, records), |manifestBytes|;
            && |file| == FIXED + n + |records| && file[..18] == MAGIC && file[18..22] == U32(n) && file[22..34] == nonce
            && file[34..50] == p.seal(key, nonce, ManifestAad(manifestBytes), []).1 && file[50..54] == U32(count)
            && file[54..54 + n] == manifestBytes && file[54 + n..] == records
  {
    hide U32;
    var tag := p.seal(key, nonce, ManifestAad(manifestBytes), []).1;
    assert |tag| == 16;
    var file := FileOf(p, manifestBytes, key, nonce, count, records);
    var front := MAGIC + U32(|manifestBytes|) + nonce + tag + U32(count);
    FrontSlices(MAGIC, U32(|manifestBytes|), nonce, tag, U32(count), manifestBytes + records);
    assert file == front + (manifestBytes + records);
    RangeOfRest(file, 54, 0, |manifestBytes|);
    RangeOfRest(file, 54, |manifestBytes|, |manifestBytes| + |records|);
    assert file[54..] == manifestBytes + records;
  }

  lemma {:induction false} FileFromSlices(p: Primitives, file: Bytes, n: nat, key: string, count: nat)
    requires FIXED + n <= |file| && file[..18] == MAGIC && file[18..22] == U32(n) && file[50..54] == U32(count)
    requires p.seal(key, file[22..34], ManifestAad(file[54..54 + n]), []).1 == file[34..50]
    ensures file == FileOf(p, file[54..54 + n], key, file[22..34], count, file[54 + n..])
  {
    hide U32;
    assert file == file[..18] + file[18..22] + file[22..34] + file[34..50] + file[50..54] + file[54..54 + n] + file[54 + n..];
  }

  /** The file is a container of the manifest and the plaintext: its chunks, in any pieces that fit, sealed and framed in order. */
  ghost predicate IsContainer(p: Primitives, file: Bytes, masterKey: Bytes, m: Manifest, plaintext: Bytes,
                              manifestBytes: Bytes, nonce: Bytes, nonces: seq<Bytes>, chunks: seq<Bytes>) {
    && |nonces| == |chunks| == m.chunkCount < U32_LIMIT && NonceLengths(nonces, 0) && FitFrom(chunks, m.chunkBytes, 0) && |nonce| == NONCE_BYTES
    && p.decode(manifestBytes) == Some(m) && 2 <= |manifestBytes| <= MAX_MANIFEST_BYTES
    && var records := Frames(p, p.derive(masterKey, m.backupId, Payload), m.backupId, m.chunkCount, nonces, chunks);
       && file == FileOf(p, manifestBytes, p.derive(masterKey, m.backupId, ManifestSeal), nonce, m.chunkCount, records)
       && |records| == m.ciphertextBytes && p.sha256(records) == m.ciphertextSha256
       && Concat(chunks) == plaintext && |plaintext| == m.plaintextBytes && p.sha256(plaintext) == m.plaintextSha256
  }

  lemma {:induction false} ContainerParses(p: Primitives, m: Manifest, manifestBytes: Bytes, key: string, nonce: Bytes, records: Bytes)
    requires Lawful(p) && |nonce| == NONCE_BYTES && m.chunkCount < U32_LIMIT
    requires p.decode(manifestBytes) == Some(m) && 2 <= |manifestBytes| <= MAX_MANIFEST_BYTES
    ensures var file := FileOf(p, manifestBytes, key, nonce, m.chunkCount, records);
            ParseFile(p, file) ==
              if |file| > MAX_BACKUP_BYTES then None
              else Some(ParsedFile(m, manifestBytes, nonce, p.seal(key, nonce, ManifestAad(manifestBytes), []).1, m.chunkCount, records))
  {
    hide FileOf, U32, LawfulCipher, CeilDiv;
    FileSlices(p, manifestBytes, key, nonce, m.chunkCount, records);
    var file := FileOf(p, manifestBytes, key, nonce, m.chunkCount, records);
    U32RoundTrip(|manifestBytes|, file, 18);
    U32RoundTrip(m.chunkCount, file, 50);
    assert ValidManifest(p, m);
  }

  /** A container within the size limit is accepted, and gives its manifest and plaintext back; a larger one is refused as to its format. */
  lemma {:induction false} ContainerIsAccepted(p: Primitives, file: Bytes, masterKey: Bytes, m: Manifest, plaintext: Bytes,
                                               manifestBytes: Bytes, nonce: Bytes, nonces: seq<Bytes>, chunks: seq<Bytes>)
    requires Lawful(p) && |masterKey| == 32 && IsContainer(p, file, masterKey, m, plaintext, manifestBytes, nonce, nonces, chunks)
    ensures Authenticate(p, file, masterKey) == if |file| <= MAX_BACKUP_BYTES then Ok((m, plaintext)) else Err("BACKUP_FORMAT_INVALID")
  {
    hide FileOf, ParseFile, ReadFrames, Frames;
    var records := Frames(p, p.derive(masterKey, m.backupId, Payload), m.backupId, m.chunkCount, nonces, chunks);
    ContainerParses(p, m, manifestBytes, p.derive(masterKey, m.backupId, ManifestSeal), nonce, records);
    if |file| <= MAX_BACKUP_BYTES {
      assert ValidManifest(p, m);
      assert records[0..] == records;
      FramesReadBack(p, p.derive(masterKey, m.backupId, Payload), m.backupId, m.chunkCount, m.chunkBytes, nonces, chunks, 0, records, 0);
      assert chunks[0..] == chunks;
      var key, tag := p.derive(masterKey, m.backupId, ManifestSeal), p.seal(p.derive(masterKey, m.backupId, ManifestSeal), nonce, ManifestAad(manifestBytes), []).1;
      assert p.seal(key, nonce, ManifestAad(manifestBytes), []).0 == [];
      assert p.open(key, nonce, ManifestAad(manifestBytes), [], tag) == Some([]);
    }
  }

  /** Nothing else is accepted. */
  lemma {:induction false} AcceptedIsContainer(p: Primitives, file: Bytes, masterKey: Bytes, m: Manifest, plaintext: Bytes)
    returns (manifestBytes: Bytes, nonce: Bytes, nonces: seq<Bytes>, chunks: seq<Bytes>)
    requires Lawful(p) && Authenticate(p, file, masterKey) == Ok((m, plaintext))
    ensures |masterKey| == 32 && |file| <= MAX_BACKUP_BYTES
    ensures IsContainer(p, file, masterKey, m, plaintext, manifestBytes, nonce, nonces, chunks)
    ensures p.identityOk(m) && 4096 <= m.chunkBytes <= 16_777_216 && 1 <= |plaintext| <= 68_719_476_736
    ensures |nonces| == m.chunkCount && (m.chunkCount - 1) * m.chunkBytes < |plaintext| <= m.chunkCount * m.chunkBytes
  {
    hide ReadFrames, Frames, FileOf, U32, CeilDiv;
    var parsed := ParseFile(p, file).value;
    manifestBytes, nonce := parsed.manifestBytes, parsed.nonce;
    var n, manifestKey := |manifestBytes|, p.derive(masterKey, m.backupId, ManifestSeal);
    ReadU32Inverts(file, 18);
    ReadU32Inverts(file, 50);
    var empty := p.open(manifestKey, nonce, ManifestAad(manifestBytes), [], parsed.tag).value;
    assert p.seal(manifestKey, nonce, ManifestAad(manifestBytes), empty) == ([], parsed.tag);
    assert |empty| == 0;
    assert empty == [];
    FileFromSlices(p, file, n, manifestKey, parsed.chunkCount);
    nonces, chunks := ReadIsFramed(p, p.derive(masterKey, m.backupId, Payload), m.backupId, m.chunkCount, m.chunkBytes, parsed.records, 0, 0);
    assert parsed.records[0..|parsed.records|] == parsed.records && chunks[0..] == chunks;
    assert ValidManifest(p, m);
    CeilDivBounds(m.plaintextBytes, m.chunkBytes);
  }

  lemma {:induction false} CeilDivBounds(n: nat, d: nat)
    requires n >= 1 && d > 0
    ensures (CeilDiv(n, d) - 1) * d < n <= CeilDiv(n, d) * d
  {
    var q := (n + d - 1) / d;
    assert n + d - 1 == q * d + (n + d - 1) % d;
    assert (q - 1) * d == q * d - d;
  }

  // ---- creating a backup

  /** The first n values drawn from the random source are nonces, all different. */
  ghost predicate NoncesOk(draws: nat -> Bytes, n: nat) {
    && (forall i: nat :: i < n ==> |draws(i)| == NONCE_BYTES)
    && (forall i: nat, j: nat :: i < j < n ==> draws(i) != draws(j))
  }

  function Drawn(draws: nat -> Bytes, n: nat): seq<Bytes> {
    seq(n, i requires 0 <= i => draws(i))
  }

  function RecordsOf(p: Primitives, key: string, id: string, plaintext: Bytes, chunkBytes: nat, draws: nat -> Bytes): Bytes
    requires chunkBytes > 0
  {
    var chunks := Split(plaintext, chunkBytes);
    Frames(p, key, id, |chunks|, Drawn(draws, |chunks|), chunks)
  }

  function ManifestOf(p: Primitives, identity: string, id: string, plaintext: Bytes, chunkBytes: nat, records: Bytes): Manifest
    requires chunkBytes > 0
  {
    Manifest(identity, id, chunkBytes, CeilDiv(|plaintext|, chunkBytes), |plaintext|, p.sha256(plaintext), |records|, p.sha256(records))
  }

  /** The manifest and the file of a backup. */
  function BackupOf(p: Primitives, masterKey: Bytes, identity: string, id: string, plaintext: Bytes, chunkBytes: nat, draws: nat -> Bytes): (Manifest, Bytes)
    requires chunkBytes > 0
  {
    var records := RecordsOf(p, p.derive(masterKey, id, Payload), id, plaintext, chunkBytes, draws);
    var m := ManifestOf(p, identity, id, plaintext, chunkBytes, records);
    (m, FileOf(p, p.encode(m), p.derive(masterKey, id, ManifestSeal), draws(m.chunkCount), m.chunkCount, records))
  }

  lemma {:induction false} FramesLength(p: Primitives, key: string, id: string, count: nat, nonces: seq<Bytes>, chunks: seq<Bytes>, i: nat)
    requires LawfulCipher(p) && i <= |chunks| <= |nonces| && NonceLengths(nonces, 0)
    ensures |Frames(p, key, id, count, nonces, chunks, i)| == |Concat(chunks[i..])| + 32 * (|chunks| - i)
    decreases |chunks| - i
  {
    if i < |chunks| {
      FramesLength(p, key, id, count, nonces, chunks, i + 1);
      assert chunks[i..][1..] == chunks[i + 1..];
    }
  }

  /** Reading a new backup gives the manifest and the database back, exactly when the file is within the size limit. */
  lemma {:induction false} BackupRoundTripIff(p: Primitives, masterKey: Bytes, identity: string, id: string, plaintext: Bytes,
                                              chunkBytes: nat, draws: nat -> Bytes)
    requires Lawful(p) && |masterKey| == 32 && 4096 <= chunkBytes <= 16777216 && 1 <= |plaintext| <= MAX_BACKUP_BYTES
    requires NoncesOk(draws, CeilDiv(|plaintext|, chunkBytes) + 1)
    requires p.identityOk(BackupOf(p, masterKey, identity, id, plaintext, chunkBytes, draws).0)
    ensures var (m, file) := BackupOf(p, masterKey, identity, id, plaintext, chunkBytes, draws);
            && |file| == FIXED + |p.encode(m)| + |plaintext| + 32 * CeilDiv(|plaintext|, chunkBytes)
            && Authenticate(p, file, masterKey) == if |file| <= MAX_BACKUP_BYTES then Ok((m, plaintext)) else Err("BACKUP_FORMAT_INVALID")
  {
    hide Split, Frames, FileOf, CeilDiv, Authenticate, U32;
    TooLargeIsRefused(p, BackupOf(p, masterKey, identity, id, plaintext, chunkBytes, draws).1, masterKey);
    var (m, file) := BackupOf(p, masterKey, identity, id, plaintext, chunkBytes, draws);
    var chunks, key := Split(plaintext, chunkBytes), p.derive(masterKey, id, Payload);
    var nonces := Drawn(draws, |chunks|);
    var records := RecordsOf(p, key, id, plaintext, chunkBytes, draws);
    SplitIsWhole(plaintext, chunkBytes);
    assert chunks[0..] == chunks;
    FramesLength(p, key, id, |chunks|, nonces, chunks, 0);
    FileSlices(p, p.encode(m), p.derive(masterKey, id, ManifestSeal), draws(m.chunkCount), m.chunkCount, records);
    if |file| <= MAX_BACKUP_BYTES {
      CountPositive(|plaintext|, chunkBytes);
      assert ValidManifest(p, m);
      assert IsContainer(p, file, masterKey, m, plaintext, p.encode(m), draws(m.chunkCount), nonces, chunks);
      ContainerIsAccepted(p, file, masterKey, m, plaintext, p.encode(m), draws(m.chunkCount), nonces, chunks);
    }
  }

  lemma {:induction false} TooLargeIsRefused(p: Primitives, file: Bytes, masterKey: Bytes)
    ensures |file| > MAX_BACKUP_BYTES ==> Authenticate(p, file, masterKey) == Err("BACKUP_FORMAT_INVALID")
  {
  }

  lemma {:induction false} CountPositive(n: nat, d: nat)
    requires n >= 1 && d > 0
    ensures CeilDiv(n, d) >= 1
  {
    CeilDivStep(n, d);
  }

  // ---- the loops

  ghost predicate SeenIs(seen: set<Bytes>, draws: nat -> Bytes, n: nat) {
    forall nonce :: nonce in seen <==> exists i: nat :: i < n && draws(i) == nonce
  }

  lemma {:induction false} NonceDrawn(draws: nat -> Bytes, seen: set<Bytes>, n: nat, count: nat)
    requires NoncesOk(draws, n) && SeenIs(seen, draws, n) && n < count
    ensures draws(n) in seen || |draws(n)| != NONCE_BYTES ==> !NoncesOk(draws, count)
    ensures draws(n) !in seen && |draws(n)| == NONCE_BYTES ==> NoncesOk(draws, n + 1) && SeenIs(seen + {draws(n)}, draws, n + 1)
  {
    if draws(n) in seen {
      var i: nat :| i < n && draws(i) == draws(n);
    } else if |draws(n)| == NONCE_BYTES {
      forall nonce ensures nonce in seen + {draws(n)} <==> exists i: nat :: i < n + 1 && draws(i) == nonce {
        if nonce in seen {
          var i: nat :| i < n && draws(i) == nonce;
        }
      }
    }
  }

  lemma {:induction false} FrameAppended(p: Primitives, key: string, id: string, count: nat, nonces: seq<Bytes>, chunks: seq<Bytes>, i: nat,
                                         records: Bytes, all: Bytes, nonce: Bytes, chunk: Bytes)
    requires i < |chunks| <= |nonces| && nonces[i] == nonce && chunks[i] == chunk
    requires records + Frames(p, key, id, count, nonces, chunks, i) == all
    ensures var (ciphertext, tag) := p.seal(key, nonce, ChunkAad(id, i, count), chunk);
            records + nonce + U32(|ciphertext|) + ciphertext + tag + Frames(p, key, id, count, nonces, chunks, i + 1) == all
  {
    var (ciphertext, tag) := p.seal(key, nonce, ChunkAad(id, i, count), chunk);
    var after := Frames(p, key, id, count, nonces, chunks, i + 1);
    assert records + nonce + U32(|ciphertext|) + ciphertext + tag + after
           == records + (nonce + U32(|ciphertext|) + ciphertext + tag + after);
  }

  lemma {:induction false} NothingDrawn(draws: nat -> Bytes)
    ensures NoncesOk(draws, 0) && SeenIs({}, draws, 0)
  {
  }

  lemma {:induction false} NoFrames(p: Primitives, key: string, id: string, count: nat, nonces: seq<Bytes>, chunks: seq<Bytes>)
    requires |chunks| <= |nonces|
    ensures Frames(p, key, id, count, nonces, chunks, |chunks|) == []
  {
  }

  /** buildCiphertextRecords, its nonces drawn one by one and refused when reused or of another length. */
  method BuildCiphertextRecords(p: Primitives, plaintext: Bytes, backupId: string, chunkBytes: nat, key: string, draws: nat -> Bytes)
    returns (r: Result<(Bytes, nat)>)
    requires chunkBytes > 0
    ensures r.Ok? <==> NoncesOk(draws, CeilDiv(|plaintext|, chunkBytes))
    ensures r.Ok? ==> r.value == (RecordsOf(p, key, backupId, plaintext, chunkBytes, draws), CeilDiv(|plaintext|, chunkBytes))
  {
    hide CeilDiv, Split, Frames, NoncesOk, SeenIs, U32, ChunkOf;
    var count := CeilDiv(|plaintext|, chunkBytes);
    ghost var chunks, nonces := Split(plaintext, chunkBytes), Drawn(draws, count);
    SplitIsWhole(plaintext, chunkBytes);
    ghost var all := Frames(p, key, backupId, count, nonces, chunks, 0);
    var records: Bytes, seen: set<Bytes> := [], {};
    NothingDrawn(draws);
    for index := 0 to count
      invariant NoncesOk(draws, index) && SeenIs(seen, draws, index)
      invariant records + Frames(p, key, backupId, count, nonces, chunks, index) == all
    {
      ChunkAt(plaintext, chunkBytes, index);
      var chunk := ChunkOf(plaintext, chunkBytes, index);
      var nonce := draws(index);
      NonceDrawn(draws, seen, index, count);
      if nonce in seen {
        return Err("BACKUP_NONCE_REUSED");
      }
      if |nonce| != NONCE_BYTES {
        return Err("RANDOM_SOURCE_INVALID");
      }
      seen := seen + {nonce};
      FrameAppended(p, key, backupId, count, nonces, chunks, index, records, all, nonce, chunk);
      var (ciphertext, tag) := p.seal(key, nonce, ChunkAad(backupId, index, count), chunk);
      records := records + nonce + U32(|ciphertext|) + ciphertext + tag;
    }
    NoFrames(p, key, backupId, count, nonces, chunks);
    assert records + [] == records;
    return Ok((records, count));
  }

  /** The reader's loop, its offset moving over nonce, length, ciphertext and tag. */
  method DecryptRecords(p: Primitives, key: string, id: string, count: nat, chunkBytes: nat, records: Bytes) returns (r: Result<(Bytes, nat)>)
    ensures r == ReadFrames(p, key, id, count, chunkBytes, records, 0, 0)
  {
    hide ReadFrames, ReadU32, Prepend;
    var clear: Bytes, offset: nat := [], 0;
    PrependNothing(ReadFrames(p, key, id, count, chunkBytes, records, 0, 0));
    for index := 0 to count
      invariant offset <= |records|
      invariant ReadFrames(p, key, id, count, chunkBytes, records, 0, 0)
                == Prepend(clear, ReadFrames(p, key, id, count, chunkBytes, records, offset, index))
    {
      ghost var rest := ReadFrames(p, key, id, count, chunkBytes, records, offset, index);
      PrependErr(clear, rest);
      ReadTurn(p, key, id, count, chunkBytes, records, offset, index);
      if offset + NONCE_BYTES + 4 + TAG_BYTES > |records| {
        return Err(INTEGRITY);
      }
      var nonce := records[offset..offset + NONCE_BYTES];
      var length := ReadU32(records, offset + NONCE_BYTES).value;
      var start := offset + NONCE_BYTES + 4;
      if length > chunkBytes || start + length + TAG_BYTES > |records| {
        return Err(INTEGRITY);
      }
      var cleartext := p.open(key, nonce, ChunkAad(id, index, count), records[start..start + length],
                           records[start + length..start + length + TAG_BYTES]);
      if cleartext == None {
        return Err(AUTHENTICATION);
      }
      PrependTwice(clear, cleartext.value, ReadFrames(p, key, id, count, chunkBytes, records, start + length + TAG_BYTES, index + 1));
      clear, offset := clear + cleartext.value, start + length + TAG_BYTES;
    }
    ReadEnd(p, key, id, count, chunkBytes, records, offset, clear);
    return Ok((clear, offset));
  }

  /** One turn of the reader: the record at an offset, or why it is refused. */
  lemma {:induction false} ReadTurn(p: Primitives, key: string, id: string, count: nat, chunkBytes: nat, records: Bytes, offset: nat, i: nat)
    requires i < count && offset <= |records|
    ensures ReadFrames(p, key, id, count, chunkBytes, records, offset, i) ==
              if offset + 32 > |records| then Err(INTEGRITY)
              else
                var length := ReadU32(records, offset + 12).value;
                if length > chunkBytes || offset + 32 + length > |records| then Err(INTEGRITY)
                else
                  var clear := p.open(key, records[offset..offset + 12], ChunkAad(id, i, count), records[offset + 16..offset + 16 + length],
                                      records[offset + 16 + length..offset + 32 + length]);
                  if clear == None then Err(AUTHENTICATION)
                  else Prepend(clear.value, ReadFrames(p, key, id, count, chunkBytes, records, offset + 32 + length, i + 1))
  {
    hide ReadU32;
  }

  lemma {:induction false} ReadEnd(p: Primitives, key: string, id: string, count: nat, chunkBytes: nat, records: Bytes, offset: nat, clear: Bytes)
    requires offset <= |records|
    ensures Prepend(clear, ReadFrames(p, key, id, count, chunkBytes, records, offset, count)) == Ok((clear, offset))
  {
    assert clear + [] == clear;
  }

  lemma {:induction false} PrependNothing(rest: Result<(Bytes, nat)>)
    ensures Prepend([], rest) == rest
  {
    if rest.Ok? {
      assert [] + rest.value.0 == rest.value.0;
    }
  }

  lemma {:induction false} PrependErr(clear: Bytes, rest: Result<(Bytes, nat)>)
    ensures rest.Err? ==> Prepend(clear, rest) == rest
  {
  }

  lemma {:induction false} PrependTwice(a: Bytes, b: Bytes, rest: Result<(Bytes, nat)>)
    ensures Prepend(a, Prepend(b, rest)) == Prepend(a + b, rest)
  {
    if rest.Ok? {
      assert a + (b + rest.value.0) == a + b + rest.value.0;
    }
  }
}
