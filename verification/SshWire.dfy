/** SSH wire strings (section 5 of RFC 4251), the SSHSIG envelope (section 2 of OpenSSH
    PROTOCOL.sshsig) with this program's v0 variant, and the signed-data preambles (section 3). */
module SshWire {
  import Text

  type Byte = n: int | 0 <= n < 256
  type Bytes = seq<Byte>

  const TWO_8: int := 256
  const TWO_16: int := 65536
  const TWO_24: int := 16777216
  const TWO_32: int := 4294967296

  /** "SSHSIG" and "SSH SIG" */
  const MAGIC_V1: Bytes := [83, 83, 72, 83, 73, 71]
  const MAGIC_V0: Bytes := [83, 83, 72, 32, 83, 73, 71]

  function Be32(n: int): Bytes
    requires 0 <= n < TWO_32
  {
    [n / TWO_24, n / TWO_16 % 256, n / TWO_8 % 256, n % 256]
  }

  function ReadBe32(b: Bytes): int
    requires |b| >= 4
  {
    b[0] * TWO_24 + b[1] * TWO_16 + b[2] * TWO_8 + b[3]
  }

  /** The length is cast to 32 bits, so it wraps for a value of 2^32 bytes or more. */
  function WireString(value: Bytes): Bytes {
    Be32(|value| % TWO_32) + value
  }

  method AppendWireString(out: Bytes, value: Bytes) returns (out': Bytes)
    ensures out' == out + WireString(value)
  {
    var len := |value| % TWO_32;
    out' := out;
    out' := out' + [len / TWO_24 % 256];
    out' := out' + [len / TWO_16 % 256];
    out' := out' + [len / TWO_8 % 256];
    out' := out' + [len % 256];
    out' := out' + value;
  }

  // ---------- the reader ----------

  /** The outcome of a read: whether it succeeded, what it read, and the new offset. A string
      that is too short for its length has still consumed the length. */
  datatype Read<T> = Read(ok: bool, value: T, offset: nat)

  function ReadStringAt(data: Bytes, offset: nat): (r: Read<Bytes>)
    ensures offset <= r.offset && (offset <= |data| ==> r.offset <= |data|)
  {
    if offset + 4 > |data| then Read(false, [], offset)
    else
      var len := ReadBe32(data[offset..]);
      if offset + 4 + len > |data| then Read(false, [], offset + 4)
      else Read(true, data[offset + 4..offset + 4 + len], offset + 4 + len)
  }

  function ReadByteAt(data: Bytes, offset: nat): (r: Read<Byte>)
    ensures offset <= r.offset && (offset <= |data| ==> r.offset <= |data|)
  {
    if offset >= |data| then Read(false, 0, offset) else Read(true, data[offset], offset + 1)
  }

  class SshWireReader {
    const data: Bytes
    var offset: nat

    constructor (blob: Bytes)
      ensures data == blob && offset == 0
    {
      data := blob;
      offset := 0;
    }

    method ReadString() returns (ok: bool, out: Bytes)
      modifies this
      ensures Read(ok, out, offset) == ReadStringAt(data, old(offset))
    {
      if offset + 4 > |data| {
        return false, [];
      }
      var len := ReadBe32(data[offset..]);
      offset := offset + 4;
      if offset + len > |data| {
        return false, [];
      }
      out := data[offset..offset + len];
      offset := offset + len;
      return true, out;
    }

    method ReadByte() returns (ok: bool, out: Byte)
      modifies this
      ensures Read(ok, out, offset) == ReadByteAt(data, old(offset))
    {
      if offset >= |data| {
        return false, 0;
      }
      out := data[offset];
      offset := offset + 1;
      return true, out;
    }
  }

  // ---------- reading back what was written ----------

  lemma Be32RoundTrip(n: int)
    requires 0 <= n < TWO_32
    ensures ReadBe32(Be32(n)) == n
  {
    Quotients(n);
    var q1 := n / 256;
    var q2 := q1 / 256;
    assert n == q1 * 256 + n % 256 && q1 == q2 * 256 + q1 % 256 && q2 == q2 / 256 * 256 + q2 % 256;
  }

  lemma Quotients(n: int)
    ensures n / TWO_16 == n / 256 / 256 && n / TWO_24 == n / 256 / 256 / 256
  {
  }

  /** The length comes first, its most significant byte foremost. */
  lemma ShortString(value: Bytes)
    requires |value| < 65536
    ensures WireString(value) == [0, 0, |value| / 256, |value| % 256] + value
  {
    assert |value| % TWO_32 == |value|;
  }

  lemma Be32Unique(b: Bytes)
    requires |b| == 4
    ensures 0 <= ReadBe32(b) < TWO_32 && Be32(ReadBe32(b)) == b
  {
    var b0: int, b1: int, b2: int, b3: int := b[0], b[1], b[2], b[3];
    Split(b0, b1 * 65536 + b2 * 256 + b3);
    Split(b0 * 256 + b1, b2 * 256 + b3);
    Split(b0 * 65536 + b1 * 256 + b2, b3);
    Split(b0, b1);
    Split(b0 * 256 + b1, b2);
    assert Be32(ReadBe32(b)) == [b0, b1, b2, b3];
  }

  lemma Split(q: int, r: int)
    ensures 0 <= r < 16777216 ==> (q * 16777216 + r) / 16777216 == q
    ensures 0 <= r < 65536 ==> (q * 65536 + r) / 65536 == q
    ensures 0 <= r < 256 ==> (q * 256 + r) / 256 == q && (q * 256 + r) % 256 == r
  {
  }

  lemma ReadAfter(before: Bytes, b: Bytes, after: Bytes)
    requires |b| == 4
    ensures ReadBe32((before + b + after)[|before|..]) == ReadBe32(b)
  {
    var data := before + b + after;
    assert data[|before|..][..4] == b;
    assert forall k :: 0 <= k < 4 ==> data[|before|..][k] == b[k];
  }

  /** A wire string is read back, wherever it stands, exactly when it is shorter than 2^32
      bytes; a longer one is read as its beginning. */
  lemma WireStringRoundTrip(before: Bytes, value: Bytes, after: Bytes)
    ensures ReadStringAt(before + WireString(value) + after, |before|)
            == Read(true, value, |before| + 4 + |value|)
            <==> |value| < TWO_32
  {
    var data := before + WireString(value) + after;
    var len := |value| % TWO_32;
    assert data == before + Be32(len) + (value + after);
    ReadAfter(before, Be32(len), value + after);
    Be32RoundTrip(len);
    assert data[|before| + 4..|before| + 4 + |value|] == value;
  }

  lemma ReadBack(before: Bytes, value: Bytes, after: Bytes)
    requires |value| < TWO_32
    ensures ReadStringAt(before + WireString(value) + after, |before|)
            == Read(true, value, |(before + WireString(value))|)
  {
    WireStringRoundTrip(before, value, after);
  }

  lemma ReadParts(data: Bytes, offset: nat)
    requires ReadStringAt(data, offset).ok
    ensures var r := ReadStringAt(data, offset);
            && offset + 4 <= r.offset <= |data| && r.value == data[offset + 4..r.offset]
            && |r.value| == ReadBe32(data[offset..offset + 4])
  {
    LengthAt(data, offset);
    hide ReadBe32;
  }

  lemma CutTwo(data: Bytes, from: nat, middle: nat, until: nat)
    requires from <= middle <= until <= |data|
    ensures data[from..until] == data[from..middle] + data[middle..until]
  {
  }

  /** A successful read tells what the bytes were. */
  lemma ReadStringSound(data: Bytes, offset: nat)
    requires ReadStringAt(data, offset).ok
    ensures var r := ReadStringAt(data, offset);
            |r.value| < TWO_32 && offset <= r.offset <= |data| && data[offset..r.offset] == WireString(r.value)
  {
    hide Be32, ReadBe32, ReadStringAt, WireString;
    ReadParts(data, offset);
    var r := ReadStringAt(data, offset);
    Be32Unique(data[offset..offset + 4]);
    WireForm(r.value);
    CutTwo(data, offset, offset + 4, r.offset);
  }

  lemma WireForm(value: Bytes)
    requires |value| < TWO_32
    ensures WireString(value) == Be32(|value|) + value
  {
    hide Be32;
  }

  /** The length word stands in the data as it stands alone. */
  lemma LengthAt(data: Bytes, offset: nat)
    requires offset + 4 <= |data|
    ensures ReadBe32(data[offset..]) == ReadBe32(data[offset..offset + 4])
  {
    assert forall k :: 0 <= k < 4 ==> data[offset..][k] == data[offset..offset + 4][k];
  }

  function WireStrings(values: seq<Bytes>): Bytes {
    if values == [] then [] else WireString(values[0]) + WireStrings(values[1..])
  }

  /** Reading `n` strings from `offset`, stopping at the first that fails. */
  function ReadStrings(data: Bytes, offset: nat, n: nat): Read<seq<Bytes>>
    decreases n
  {
    if n == 0 then Read(true, [], offset)
    else
      var r := ReadStringAt(data, offset);
      if !r.ok then Read(false, [], r.offset)
      else
        var rest := ReadStrings(data, r.offset, n - 1);
        Read(rest.ok, [r.value] + rest.value, rest.offset)
  }

  predicate Encodable(values: seq<Bytes>) {
    forall i :: 0 <= i < |values| ==> |values[i]| < TWO_32
  }

  lemma CutAt(data: Bytes, offset: nat, first: Bytes, rest: Bytes)
    requires offset <= |data| && data[offset..] == first + rest
    ensures data == data[..offset] + first + rest
    ensures offset + |first| <= |data| && data[offset + |first|..] == rest
  {
    assert data == data[..offset] + data[offset..];
    assert data[offset + |first|..] == data[offset..][|first|..];
  }

  lemma FirstThenRest(values: seq<Bytes>)
    requires values != []
    ensures WireStrings(values) == WireString(values[0]) + WireStrings(values[1..])
    ensures values == [values[0]] + values[1..]
  {
    hide WireString;
  }

  /** A list of wire strings is read back as that list, ending where it ends. */
  lemma {:induction false} ReadStringsBack(data: Bytes, offset: nat, values: seq<Bytes>, after: Bytes)
    requires Encodable(values)
    requires offset <= |data| && data[offset..] == WireStrings(values) + after
    ensures ReadStrings(data, offset, |values|) == Read(true, values, offset + |WireStrings(values)|)
    decreases |values|
  {
    if values != [] {
      hide WireString, ReadStringAt, WireStrings;
      var first := WireString(values[0]);
      FirstThenRest(values);
      Text.Regroup(first, WireStrings(values[1..]), after);
      CutAt(data, offset, first, WireStrings(values[1..]) + after);
      ReadBack(data[..offset], values[0], WireStrings(values[1..]) + after);
      ReadStringsBack(data, offset + |first|, values[1..], after);
    } else {
      hide ReadStringAt;
    }
  }

  /** Wire strings are uniquely decodable: no encoding is a proper prefix of another. */
  lemma PrefixFree(x: Bytes, restX: Bytes, y: Bytes, restY: Bytes)
    requires |x| < TWO_32 && |y| < TWO_32
    requires WireString(x) + restX == WireString(y) + restY
    ensures x == y && restX == restY
  {
    var data := WireString(x) + restX;
    assert data == [] + WireString(x) + restX && data == [] + WireString(y) + restY;
    ReadBack([], x, restX);
    ReadBack([], y, restY);
    assert restX == data[|WireString(x)|..] && restY == data[|WireString(y)|..];
  }

  /** Lists with equal encodings are equal, whatever follows them when their lengths agree. */
  lemma {:induction false} EncodingInjective(xs: seq<Bytes>, restX: Bytes, ys: seq<Bytes>, restY: Bytes)
    requires Encodable(xs) && Encodable(ys)
    requires |xs| == |ys| || (restX == [] && restY == [])
    requires WireStrings(xs) + restX == WireStrings(ys) + restY
    ensures xs == ys && restX == restY
    decreases |xs|
  {
    if xs != [] && ys != [] {
      assert WireStrings(xs) + restX == WireString(xs[0]) + (WireStrings(xs[1..]) + restX);
      assert WireStrings(ys) + restY == WireString(ys[0]) + (WireStrings(ys[1..]) + restY);
      PrefixFree(xs[0], WireStrings(xs[1..]) + restX, ys[0], WireStrings(ys[1..]) + restY);
      EncodingInjective(xs[1..], restX, ys[1..], restY);
    } else {
      assert [] + restX == restX && [] + restY == restY;
    }
  }

  // ---------- signed data ----------

  function Tail(hashName: Bytes, digest: Bytes): Bytes {
    WireString(hashName) + WireString(digest)
  }

  /** In v1 the reserved field is an empty wire string, in v0 a zero byte. */
  function TailV1(hashName: Bytes, digest: Bytes): Bytes {
    WireString([]) + Tail(hashName, digest)
  }

  function SignedDataV1(namespace: Bytes, hashName: Bytes, digest: Bytes): Bytes {
    MAGIC_V1 + (WireString(namespace) + TailV1(hashName, digest))
  }

  function SignedDataV0(namespace: Bytes, hashName: Bytes, digest: Bytes): Bytes {
    MAGIC_V0 + (WireString(namespace) + ([0] + Tail(hashName, digest)))
  }

  method BuildSignedDataV1(namespace: Bytes, hashName: Bytes, digest: Bytes) returns (out: Bytes)
    ensures out == SignedDataV1(namespace, hashName, digest)
  {
    out := MAGIC_V1;
    out := AppendWireString(out, namespace);
    out := AppendWireString(out, []);
    out := AppendWireString(out, hashName);
    out := AppendWireString(out, digest);
  }

  method BuildSignedDataV0(namespace: Bytes, hashName: Bytes, digest: Bytes) returns (out: Bytes)
    ensures out == SignedDataV0(namespace, hashName, digest)
  {
    out := MAGIC_V0;
    out := AppendWireString(out, namespace);
    out := out + [0];
    out := AppendWireString(out, hashName);
    out := AppendWireString(out, digest);
  }

  lemma SignedDataV1Injective(n: Bytes, h: Bytes, d: Bytes, n': Bytes, h': Bytes, d': Bytes)
    requires |n| < TWO_32 && |h| < TWO_32 && |d| < TWO_32 && |n'| < TWO_32 && |h'| < TWO_32 && |d'| < TWO_32
    requires SignedDataV1(n, h, d) == SignedDataV1(n', h', d')
    ensures n == n' && h == h' && d == d'
  {
    DropMagic(MAGIC_V1, n, TailV1(h, d), n', TailV1(h', d'));
    PrefixFree(n, TailV1(h, d), n', TailV1(h', d'));
    PrefixFree([], Tail(h, d), [], Tail(h', d'));
    TailInjective(h, d, h', d');
  }

  lemma SignedDataV0Injective(n: Bytes, h: Bytes, d: Bytes, n': Bytes, h': Bytes, d': Bytes)
    requires |n| < TWO_32 && |h| < TWO_32 && |d| < TWO_32 && |n'| < TWO_32 && |h'| < TWO_32 && |d'| < TWO_32
    requires SignedDataV0(n, h, d) == SignedDataV0(n', h', d')
    ensures n == n' && h == h' && d == d'
  {
    DropMagic(MAGIC_V0, n, [0] + Tail(h, d), n', [0] + Tail(h', d'));
    PrefixFree(n, [0] + Tail(h, d), n', [0] + Tail(h', d'));
    assert Tail(h, d) == ([0] + Tail(h, d))[1..] && Tail(h', d') == ([0] + Tail(h', d'))[1..];
    TailInjective(h, d, h', d');
  }

  lemma DropMagic(magic: Bytes, x: Bytes, restX: Bytes, y: Bytes, restY: Bytes)
    requires magic + (WireString(x) + restX) == magic + (WireString(y) + restY)
    ensures WireString(x) + restX == WireString(y) + restY
  {
    assert WireString(x) + restX == (magic + (WireString(x) + restX))[|magic|..];
    assert WireString(y) + restY == (magic + (WireString(y) + restY))[|magic|..];
  }

  lemma TailInjective(h: Bytes, d: Bytes, h': Bytes, d': Bytes)
    requires |h| < TWO_32 && |d| < TWO_32 && |h'| < TWO_32 && |d'| < TWO_32
    requires Tail(h, d) == Tail(h', d')
    ensures h == h' && d == d'
  {
    PrefixFree(h, WireString(d), h', WireString(d'));
    assert WireString(d) + [] == WireString(d) && WireString(d') + [] == WireString(d');
    PrefixFree(d, [], d', []);
  }

  lemma FromOffset(before: Bytes, rest: Bytes)
    ensures (before + rest)[|before|..] == rest
  {
  }

  lemma TwoStrings(h: Bytes, d: Bytes)
    ensures WireStrings([h, d]) == Tail(h, d)
  {
    assert [h, d][1..] == [d] && [d][1..] == [];
    assert WireStrings([d]) == WireString(d) + [];
    assert WireString(d) + [] == WireString(d);
  }

  lemma FourStrings(n: Bytes, h: Bytes, d: Bytes)
    ensures WireStrings([n, [], h, d]) == WireString(n) + TailV1(h, d)
  {
    assert [n, [], h, d][1..] == [[], h, d] && [[], h, d][1..] == [h, d];
    TwoStrings(h, d);
  }

  /** The v1 data is the six bytes "SSHSIG" and four strings, which a reader finds in this order: the
      namespace, an empty one, the hash name and the digest, with nothing after them. */
  lemma SignedDataV1Reads(n: Bytes, h: Bytes, d: Bytes)
    requires |n| < 0x1_0000_0000 && |h| < 0x1_0000_0000 && |d| < 0x1_0000_0000
    ensures var data := SignedDataV1(n, h, d);
            && |data| >= 6 && data[..6] == [0x53, 0x53, 0x48, 0x53, 0x49, 0x47]
            && ReadStrings(data, 6, 4) == Read(true, [n, [], h, d], |data|)
  {
    var rest := WireString(n) + TailV1(h, d);
    FourStrings(n, h, d);
    FromOffset(MAGIC_V1, rest);
    assert SignedDataV1(n, h, d)[..6] == MAGIC_V1;
    hide WireString, WireStrings, TailV1, ReadStrings;
    assert rest + [] == rest;
    ReadStringsBack(SignedDataV1(n, h, d), 6, [n, [], h, d], []);
  }

  /** The v0 data is the seven bytes "SSH SIG", the namespace, a zero byte, and two strings, the hash
      name and the digest, with nothing after them. */
  lemma SignedDataV0Reads(n: Bytes, h: Bytes, d: Bytes)
    requires |n| < 0x1_0000_0000 && |h| < 0x1_0000_0000 && |d| < 0x1_0000_0000
    ensures var data := SignedDataV0(n, h, d);
            var r := ReadStringAt(data, 7);
            && |data| >= 7 && data[..7] == [0x53, 0x53, 0x48, 0x20, 0x53, 0x49, 0x47]
            && r.ok && r.value == n
            && ReadByteAt(data, r.offset) == Read(true, 0, r.offset + 1)
            && ReadStrings(data, r.offset + 1, 2) == Read(true, [h, d], |data|)
  {
    var data, tail := SignedDataV0(n, h, d), Tail(h, d);
    assert data[..7] == MAGIC_V0;
    assert data == MAGIC_V0 + WireString(n) + ([0] + tail);
    ReadBack(MAGIC_V0, n, [0] + tail);
    var before := MAGIC_V0 + WireString(n);
    assert data == (before + [0]) + tail;
    FromOffset(before + [0], tail);
    TwoStrings(h, d);
    assert data[|before|] == 0;
    hide WireString, WireStrings, Tail, ReadStrings, ReadStringAt;
    assert tail + [] == tail;
    ReadStringsBack(data, |before| + 1, [h, d], []);
  }

  /** Data signed under one variant is never data signed under the other. */
  lemma SignedDataDisjoint(n: Bytes, h: Bytes, d: Bytes, n': Bytes, h': Bytes, d': Bytes)
    ensures SignedDataV0(n, h, d) != SignedDataV1(n', h', d')
  {
    assert SignedDataV0(n, h, d)[3] == 32;
    assert SignedDataV1(n', h', d')[3] == 83;
  }
}
