/** Parsing the SSHSIG envelope (section 2 of OpenSSH PROTOCOL.sshsig) and its v0 variant. */
module SshSig {
  import opened SshWire
  import opened Text

  datatype Envelope = Envelope(version: int, namespace: Bytes, hashName: Bytes, sigType: Bytes, sigRaw: Bytes)

  // ---------- reading from the front ----------

  datatype Taken = Taken(value: Bytes, rest: Bytes)

  /** The wire string at the front, and what follows it. */
  function TakeString(data: Bytes): Option<Taken> {
    var r := ReadStringAt(data, 0);
    if r.ok then Some(Taken(r.value, data[r.offset..])) else None
  }

  lemma TakeFront(value: Bytes, rest: Bytes)
    requires |value| < TWO_32
    ensures TakeString(WireString(value) + rest) == Some(Taken(value, rest))
  {
    assert WireString(value) + rest == [] + WireString(value) + rest;
    ReadBack([], value, rest);
    assert (WireString(value) + rest)[|WireString(value)|..] == rest;
  }

  lemma TakenSound(data: Bytes)
    requires TakeString(data).Some?
    ensures var t := TakeString(data).value;
            |t.value| < TWO_32 && data == WireString(t.value) + t.rest
  {
    ReadStringSound(data, 0);
    var r := ReadStringAt(data, 0);
    assert data == data[0..r.offset] + data[r.offset..];
  }

  lemma ReadIsTake(data: Bytes, offset: nat)
    requires offset <= |data|
    ensures var r := ReadStringAt(data, offset);
            TakeString(data[offset..]) == if r.ok then Some(Taken(r.value, data[r.offset..])) else None
  {
    var suffix := data[offset..];
    var r, f := ReadStringAt(data, offset), ReadStringAt(suffix, 0);
    assert suffix[0..] == suffix;
    if r.ok {
      assert f.ok && f.offset + offset == r.offset;
      assert suffix[f.offset..] == data[r.offset..];
      assert suffix[4..f.offset] == data[offset + 4..r.offset];
    }
  }

  // ---------- the parser ----------

  function HeaderLength(blob: Bytes): nat {
    if MAGIC_V1 <= blob then |MAGIC_V1| else if MAGIC_V0 <= blob then |MAGIC_V0| else 0
  }

  /** After the reserved field: a wire string, or for version 0 a single zero byte. */
  function TakeReserved(version: int, data: Bytes): Option<Taken> {
    if version >= 1 then TakeString(data)
    else if data != [] && data[0] == 0 then Some(Taken([], data[1..]))
    else None
  }

  function ParseInner(version: int, namespace: Bytes, hashName: Bytes, inner: Bytes): Option<Envelope> {
    match TakeString(inner)
    case None => None
    case Some(sigType) =>
      match TakeString(sigType.rest)
      case None => None
      case Some(sigRaw) => Some(Envelope(version, namespace, hashName, sigType.value, sigRaw.value))
  }

  function ParseHash(version: int, namespace: Bytes, data: Bytes): Option<Envelope> {
    match TakeString(data)
    case None => None
    case Some(hashName) =>
      match TakeString(hashName.rest)
      case None => None
      case Some(inner) => ParseInner(version, namespace, hashName.value, inner.value)
  }

  function ParseTail(version: int, namespace: Bytes, data: Bytes): Option<Envelope> {
    match TakeReserved(version, data)
    case None => None
    case Some(reserved) => ParseHash(version, namespace, reserved.rest)
  }

  function ParseBody(version: int, body: Bytes): Option<Envelope> {
    match TakeString(body)
    case None => None
    case Some(publicKey) =>
      match TakeString(publicKey.rest)
      case None => None
      case Some(namespace) => ParseTail(version, namespace.value, namespace.rest)
  }

  function ParseEnvelope(blob: Bytes): Option<Envelope> {
    var header := HeaderLength(blob);
    if header == 0 || |blob| < header + 4 then None
    else ParseBody(ReadBe32(blob[header..]), blob[header + 4..])
  }

  method ParseSshSigEnvelope(blob: Bytes) returns (parsed: Option<Envelope>)
    ensures parsed == ParseEnvelope(blob)
  {
    hide ReadBe32, TakeString, ParseBody;
    var headerLength := 0;
    if |blob| >= |MAGIC_V1| && blob[..|MAGIC_V1|] == MAGIC_V1 {
      headerLength := |MAGIC_V1|;
    } else if |blob| >= |MAGIC_V0| && blob[..|MAGIC_V0|] == MAGIC_V0 {
      headerLength := |MAGIC_V0|;
    } else {
      return None;
    }
    if |blob| < headerLength + 4 {
      return None;
    }
    var version := ReadBe32(blob[headerLength..]);
    var reader := new SshWireReader(blob[headerLength + 4..]);
    parsed := ParseNames(version, reader);
  }

  method ParseNames(version: int, reader: SshWireReader) returns (parsed: Option<Envelope>)
    requires reader.offset == 0
    modifies reader
    ensures parsed == ParseBody(version, reader.data)
  {
    hide TakeString, ParseTail, ReadStringAt;
    assert reader.data[0..] == reader.data;
    ReadIsTake(reader.data, 0);
    var ok, publicKey := reader.ReadString();
    if !ok {
      return None;
    }
    ReadIsTake(reader.data, reader.offset);
    var namespace;
    ok, namespace := reader.ReadString();
    if !ok {
      return None;
    }
    parsed := ParseReserved(version, namespace, reader);
  }

  method ParseReserved(version: int, namespace: Bytes, reader: SshWireReader) returns (parsed: Option<Envelope>)
    requires reader.offset <= |reader.data|
    modifies reader
    ensures parsed == ParseTail(version, namespace, old(reader.data[reader.offset..]))
  {
    ghost var rest := reader.data[reader.offset..];
    var ok;
    ReadIsTake(reader.data, reader.offset);
    if version >= 1 {
      var reserved;
      ok, reserved := reader.ReadString();
      if !ok {
        return None;
      }
    } else {
      var reserved;
      ok, reserved := reader.ReadByte();
      if !ok || reserved != 0 {
        return None;
      }
      assert rest[1..] == reader.data[reader.offset..];
    }
    parsed := ParseHashAndSignature(version, namespace, reader);
  }

  method ParseHashAndSignature(version: int, namespace: Bytes, reader: SshWireReader) returns (parsed: Option<Envelope>)
    requires reader.offset <= |reader.data|
    modifies reader
    ensures parsed == ParseHash(version, namespace, old(reader.data[reader.offset..]))
  {
    ReadIsTake(reader.data, reader.offset);
    var ok, hashName := reader.ReadString();
    if !ok {
      return None;
    }
    ReadIsTake(reader.data, reader.offset);
    var innerBlob;
    ok, innerBlob := reader.ReadString();
    if !ok {
      return None;
    }
    parsed := ParseInnerSignature(version, namespace, hashName, innerBlob);
  }

  method ParseInnerSignature(version: int, namespace: Bytes, hashName: Bytes, innerBlob: Bytes)
    returns (parsed: Option<Envelope>)
    ensures parsed == ParseInner(version, namespace, hashName, innerBlob)
  {
    var inner := new SshWireReader(innerBlob);
    assert innerBlob[0..] == innerBlob;
    ReadIsTake(innerBlob, 0);
    var ok, sigType := inner.ReadString();
    if !ok {
      return None;
    }
    ReadIsTake(innerBlob, inner.offset);
    var sigRaw;
    ok, sigRaw := inner.ReadString();
    if !ok {
      return None;
    }
    return Some(Envelope(version, namespace, hashName, sigType, sigRaw));
  }

  // ---------- the layout ----------

  /** Everything an envelope blob is made of, with the bytes that may trail the inner signature
      and the envelope. */
  datatype Parts = Parts(
    magic: Bytes, version: int, publicKey: Bytes, namespace: Bytes, reserved: Bytes, hashName: Bytes,
    sigType: Bytes, sigRaw: Bytes, innerRest: Bytes, rest: Bytes)
  {
    function Inner(): Bytes {
      WireString(sigType) + (WireString(sigRaw) + innerRest)
    }

    function Reserved(): Bytes {
      if version >= 1 then WireString(reserved) else [0]
    }

    ghost predicate Valid() {
      && (magic == MAGIC_V1 || magic == MAGIC_V0) && 0 <= version < TWO_32
      && (version == 0 ==> reserved == [])
      && |publicKey| < TWO_32 && |namespace| < TWO_32 && |reserved| < TWO_32 && |hashName| < TWO_32
      && |sigType| < TWO_32 && |sigRaw| < TWO_32 && |Inner()| < TWO_32
    }

    function HashTail(): Bytes {
      WireString(hashName) + (WireString(Inner()) + rest)
    }

    function Tail(): Bytes {
      Reserved() + HashTail()
    }

    function Body(): Bytes {
      WireString(publicKey) + (WireString(namespace) + Tail())
    }

    function Blob(): Bytes
      requires 0 <= version < TWO_32
    {
      magic + Be32(version) + Body()
    }

    function Fields(): Envelope {
      Envelope(version, namespace, hashName, sigType, sigRaw)
    }
  }

  /** Completeness: every blob laid out as an envelope parses to its fields, whatever trails. */
  lemma ParseComplete(p: Parts)
    requires p.Valid()
    ensures ParseEnvelope(p.Blob()) == Some(p.Fields())
  {
    var blob := p.Blob();
    assert blob[..|p.magic|] == p.magic;
    assert blob[3] == p.magic[3];
    assert HeaderLength(blob) == |p.magic|;
    assert blob == p.magic + Be32(p.version) + p.Body();
    ReadAfter(p.magic, Be32(p.version), p.Body());
    Be32RoundTrip(p.version);
    assert blob[|p.magic| + 4..] == p.Body();
    BodyComplete(p);
  }

  lemma InnerComplete(p: Parts)
    requires p.Valid()
    ensures ParseInner(p.version, p.namespace, p.hashName, p.Inner()) == Some(p.Fields())
  {
    TakeFront(p.sigType, WireString(p.sigRaw) + p.innerRest);
    TakeFront(p.sigRaw, p.innerRest);
  }

  /** The inner blob that the program's own signer writes. */
  method BuildSignatureBlob(sigType: Bytes, sigRaw: Bytes) returns (blob: Bytes)
    ensures blob == WireString(sigType) + WireString(sigRaw)
  {
    blob := AppendWireString([], sigType);
    blob := AppendWireString(blob, sigRaw);
  }

  /** What the signer writes, the parser reads. */
  lemma SignatureBlobReadBack(version: int, namespace: Bytes, hashName: Bytes, sigType: Bytes, sigRaw: Bytes)
    requires |sigType| < TWO_32 && |sigRaw| < TWO_32
    ensures ParseInner(version, namespace, hashName, WireString(sigType) + WireString(sigRaw))
            == Some(Envelope(version, namespace, hashName, sigType, sigRaw))
  {
    hide WireString, TakeString;
    TakeFront(sigType, WireString(sigRaw));
    assert WireString(sigRaw) + [] == WireString(sigRaw);
    TakeFront(sigRaw, []);
  }

  lemma HashComplete(p: Parts)
    requires p.Valid()
    ensures ParseHash(p.version, p.namespace, p.HashTail()) == Some(p.Fields())
  {
    TakeFront(p.hashName, WireString(p.Inner()) + p.rest);
    TakeFront(p.Inner(), p.rest);
    InnerComplete(p);
  }

  lemma TailComplete(p: Parts)
    requires p.Valid()
    ensures ParseTail(p.version, p.namespace, p.Tail()) == Some(p.Fields())
  {
    HashComplete(p);
    if p.version >= 1 {
      TakeFront(p.reserved, p.HashTail());
    } else {
      assert ([0] + p.HashTail())[1..] == p.HashTail();
    }
  }

  lemma BodyComplete(p: Parts)
    requires p.Valid()
    ensures ParseBody(p.version, p.Body()) == Some(p.Fields())
  {
    TakeFront(p.publicKey, WireString(p.namespace) + p.Tail());
    TakeFront(p.namespace, p.Tail());
    TailComplete(p);
  }

  /** Soundness: a blob that parses is laid out as an envelope with those fields. */
  lemma ParseSound(blob: Bytes) returns (p: Parts)
    requires ParseEnvelope(blob).Some?
    ensures p.Valid() && p.Blob() == blob && ParseEnvelope(blob) == Some(p.Fields())
  {
    hide WireString, TakeString, ParseBody;
    var header := HeaderLength(blob);
    var magic, word, body := blob[..header], blob[header..header + 4], blob[header + 4..];
    assert blob == magic + word + body;
    ReadAfter(magic, word, body);
    Be32Unique(word);
    p := BodySound(magic, ReadBe32(word), body);
  }

  lemma InnerSound(version: int, namespace: Bytes, hashName: Bytes, inner: Bytes)
    returns (sigType: Bytes, sigRaw: Bytes, rest: Bytes)
    requires ParseInner(version, namespace, hashName, inner).Some?
    ensures |sigType| < TWO_32 && |sigRaw| < TWO_32
    ensures inner == WireString(sigType) + (WireString(sigRaw) + rest)
    ensures ParseInner(version, namespace, hashName, inner)
            == Some(Envelope(version, namespace, hashName, sigType, sigRaw))
  {
    TakenSound(inner);
    var first := TakeString(inner).value;
    TakenSound(first.rest);
    var second := TakeString(first.rest).value;
    return first.value, second.value, second.rest;
  }

  lemma HashSound(version: int, namespace: Bytes, data: Bytes) returns (hashName: Bytes, inner: Bytes, rest: Bytes)
    requires ParseHash(version, namespace, data).Some?
    ensures |hashName| < TWO_32 && |inner| < TWO_32
    ensures data == WireString(hashName) + (WireString(inner) + rest)
    ensures ParseHash(version, namespace, data) == ParseInner(version, namespace, hashName, inner)
  {
    TakenSound(data);
    var first := TakeString(data).value;
    TakenSound(first.rest);
    var second := TakeString(first.rest).value;
    return first.value, second.value, second.rest;
  }

  lemma TailSound(version: int, namespace: Bytes, data: Bytes) returns (reserved: Bytes, rest: Bytes)
    requires version >= 0 && ParseTail(version, namespace, data).Some?
    ensures |reserved| < TWO_32 && (version == 0 ==> reserved == [])
    ensures data == (if version >= 1 then WireString(reserved) else [0]) + rest
    ensures ParseTail(version, namespace, data) == ParseHash(version, namespace, rest)
  {
    var taken := TakeReserved(version, data).value;
    if version >= 1 {
      TakenSound(data);
    } else {
      assert data == [0] + taken.rest;
    }
    return taken.value, taken.rest;
  }

  lemma NamesSound(version: int, body: Bytes) returns (publicKey: Bytes, namespace: Bytes, rest: Bytes)
    requires ParseBody(version, body).Some?
    ensures |publicKey| < TWO_32 && |namespace| < TWO_32
    ensures body == WireString(publicKey) + (WireString(namespace) + rest)
    ensures ParseBody(version, body) == ParseTail(version, namespace, rest)
  {
    TakenSound(body);
    var first := TakeString(body).value;
    TakenSound(first.rest);
    var second := TakeString(first.rest).value;
    return first.value, second.value, second.rest;
  }

  lemma BodySound(magic: Bytes, version: int, body: Bytes) returns (p: Parts)
    requires magic == MAGIC_V1 || magic == MAGIC_V0
    requires 0 <= version < TWO_32 && ParseBody(version, body).Some?
    ensures p.Valid() && p.magic == magic && p.version == version && p.Body() == body
    ensures ParseBody(version, body) == Some(p.Fields())
  {
    var publicKey, namespace, tail := NamesSound(version, body);
    var reserved, hashTail := TailSound(version, namespace, tail);
    var hashName, inner, rest := HashSound(version, namespace, hashTail);
    var sigType, sigRaw, innerRest := InnerSound(version, namespace, hashName, inner);
    p := Parts(magic, version, publicKey, namespace, reserved, hashName, sigType, sigRaw, innerRest, rest);
    assert p.Inner() == inner;
    assert p.HashTail() == hashTail;
    assert p.Tail() == tail;
  }

  /** A blob parses to given fields exactly when it is laid out as an envelope with them. */
  lemma ParsesIff(blob: Bytes, fields: Envelope)
    ensures ParseEnvelope(blob) == Some(fields)
            <==> exists p: Parts :: p.Valid() && p.Blob() == blob && p.Fields() == fields
  {
    if ParseEnvelope(blob) == Some(fields) {
      var p := ParseSound(blob);
      assert p.Valid() && p.Blob() == blob && p.Fields() == fields;
    }
    if p: Parts :| p.Valid() && p.Blob() == blob && p.Fields() == fields {
      ParseComplete(p);
    }
  }

  /** Extra bytes after the envelope are ignored. */
  lemma TrailingBytesIgnored(blob: Bytes, extra: Bytes)
    requires ParseEnvelope(blob).Some?
    ensures ParseEnvelope(blob + extra) == ParseEnvelope(blob)
  {
    var p := ParseSound(blob);
    var q := p.(rest := p.rest + extra);
    MoreRest(p, extra);
    ParseComplete(q);
  }

  lemma MoreRest(p: Parts, extra: Bytes)
    requires 0 <= p.version < TWO_32
    ensures p.(rest := p.rest + extra).Blob() == p.Blob() + extra
  {
    var q := p.(rest := p.rest + extra);
    assert WireString(p.Inner()) + (p.rest + extra) == WireString(p.Inner()) + p.rest + extra;
    assert q.HashTail() == p.HashTail() + extra;
    assert q.Tail() == p.Tail() + extra;
    assert WireString(p.namespace) + q.Tail() == WireString(p.namespace) + p.Tail() + extra;
    assert q.Body() == p.Body() + extra;
  }

  // ---------- the same, as a reader sees it ----------

  /** What the inner blob reads as. */
  function InnerRead(version: int, namespace: Bytes, hashName: Bytes, inner: Bytes): Option<Envelope> {
    var r := ReadStrings(inner, 0, 2);
    if r.ok then Some(Envelope(version, namespace, hashName, r.value[0], r.value[1])) else None
  }

  lemma TwoReads(data: Bytes, offset: nat)
    requires offset <= |data|
    ensures var r := ReadStrings(data, offset, 2);
            && r.ok == (TakeString(data[offset..]).Some? && TakeString(TakeString(data[offset..]).value.rest).Some?)
            && (r.ok ==>
                  var first := TakeString(data[offset..]).value;
                  var second := TakeString(first.rest).value;
                  r.value == [first.value, second.value] && r.offset <= |data| && second.rest == data[r.offset..])
  {
    hide TakeString, ReadStringAt;
    ReadIsTake(data, offset);
    var r := ReadStringAt(data, offset);
    if r.ok {
      ReadIsTake(data, r.offset);
    }
    assert ReadStrings(data, offset, 2).ok ==> ReadStrings(data, ReadStringAt(data, offset).offset, 1).ok;
  }

  lemma NothingBefore(values: seq<Bytes>)
    ensures [] + values == values
  {
  }

  lemma ReadNext(data: Bytes, offset: nat, n: nat)
    requires n > 0
    ensures var r := ReadStringAt(data, offset);
            var rest := ReadStrings(data, r.offset, n - 1);
            && ReadStrings(data, offset, n).ok == (r.ok && rest.ok)
            && (r.ok ==> ReadStrings(data, offset, n) == Read(rest.ok, [r.value] + rest.value, rest.offset))
  {
    hide ReadStringAt;
  }

  lemma ReadNone(data: Bytes, offset: nat)
    ensures ReadStrings(data, offset, 0) == Read(true, [], offset)
  {
  }

  lemma {:induction false} ReadSplit(data: Bytes, offset: nat, a: nat, b: nat)
    ensures var r, first := ReadStrings(data, offset, a + b), ReadStrings(data, offset, a);
            var second := ReadStrings(data, first.offset, b);
            && r.ok == (first.ok && second.ok)
            && (r.ok ==> r.value == first.value + second.value && r.offset == second.offset
                         && |first.value| == a && |second.value| == b)
    decreases a
  {
    hide ReadStringAt, ReadStrings;
    if a == 0 {
      ReadCount(data, offset, b);
      ReadNone(data, offset);
      NothingBefore(ReadStrings(data, offset, b).value);
    } else {
      var r := ReadStringAt(data, offset);
      ReadNext(data, offset, a + b);
      ReadNext(data, offset, a);
      if r.ok {
        ReadSplit(data, r.offset, a - 1, b);
        var first := ReadStrings(data, r.offset, a - 1);
        Regroup([r.value], first.value, ReadStrings(data, first.offset, b).value);
      }
    }
  }

  lemma {:induction false} ReadCount(data: Bytes, offset: nat, n: nat)
    ensures ReadStrings(data, offset, n).ok ==> |ReadStrings(data, offset, n).value| == n
    decreases n
  {
    hide ReadStringAt;
    if n > 0 {
      ReadCount(data, ReadStringAt(data, offset).offset, n - 1);
    }
  }

  lemma InnerReads(version: int, namespace: Bytes, hashName: Bytes, inner: Bytes)
    ensures ParseInner(version, namespace, hashName, inner) == InnerRead(version, namespace, hashName, inner)
  {
    hide TakeString, ReadStrings;
    TwoReads(inner, 0);
    assert inner[0..] == inner;
  }

  lemma HashReads(version: int, namespace: Bytes, data: Bytes, offset: nat)
    requires offset <= |data|
    ensures var r := ReadStrings(data, offset, 2);
            ParseHash(version, namespace, data[offset..])
            == if r.ok then InnerRead(version, namespace, r.value[0], r.value[1]) else None
  {
    hide TakeString, ReadStrings, InnerRead, ParseInner;
    TwoReads(data, offset);
    var r := ReadStrings(data, offset, 2);
    if r.ok {
      InnerReads(version, namespace, r.value[0], r.value[1]);
    }
  }

  /** For version 1 and later five strings are read; the second is the namespace, the fourth the hash name,
      and the fifth the signature blob. */
  lemma BodyReads(version: int, data: Bytes, offset: nat)
    requires offset <= |data| && version >= 1
    ensures var r := ReadStrings(data, offset, 5);
            ParseBody(version, data[offset..])
            == if r.ok then InnerRead(version, r.value[1], r.value[3], r.value[4]) else None
  {
    hide TakeString, ReadStrings, ReadStringAt, InnerRead, ParseHash;
    var first := ReadStrings(data, offset, 2);
    ReadSplit(data, offset, 2, 3);
    ReadSplit(data, first.offset, 1, 2);
    OneRead(data, first.offset);
    TwoReads(data, offset);
    if first.ok {
      var r := ReadStringAt(data, first.offset);
      ReadIsTake(data, first.offset);
      if r.ok {
        HashReads(version, first.value[1], data, r.offset);
      }
    }
  }

  lemma OneRead(data: Bytes, offset: nat)
    ensures var r, one := ReadStringAt(data, offset), ReadStrings(data, offset, 1);
            one.ok == r.ok && one.offset == r.offset && (r.ok ==> one.value == [r.value])
  {
    hide ReadStringAt;
  }

  /** For version 0 two strings are read, then a zero byte, and then two strings more. */
  lemma BodyReads0(version: int, data: Bytes, offset: nat)
    requires offset <= |data| && version < 1
    ensures var first := ReadStrings(data, offset, 2);
            var byte := ReadByteAt(data, first.offset);
            var second := ReadStrings(data, byte.offset, 2);
            ParseBody(version, data[offset..])
            == if first.ok && byte.ok && byte.value == 0 && second.ok then
                 InnerRead(version, first.value[1], second.value[0], second.value[1])
               else None
  {
    hide TakeString, ReadStrings, InnerRead, ParseHash;
    TwoReads(data, offset);
    var first := ReadStrings(data, offset, 2);
    if first.ok && first.offset < |data| {
      assert data[first.offset..][1..] == data[first.offset + 1..];
      HashReads(version, first.value[1], data, first.offset + 1);
    }
  }

  /** The header: one of the two marks, and a version of four bytes. */
  lemma HeaderReads(blob: Bytes)
    ensures var header := if |blob| >= 6 && blob[..6] == [0x53, 0x53, 0x48, 0x53, 0x49, 0x47] then 6
                          else if |blob| >= 7 && blob[..7] == [0x53, 0x53, 0x48, 0x20, 0x53, 0x49, 0x47] then 7 else 0;
            if header == 0 || |blob| < header + 4 then ParseEnvelope(blob) == None
            else ParseEnvelope(blob) == ParseBody(ReadBe32(blob[header..]), blob[header + 4..])
  {
    hide ParseBody, ReadBe32;
  }
}
