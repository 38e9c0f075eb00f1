/** The strict reader of OpenSSH signature blobs (internal/0/sshsig/sshsig.go),
    following PROTOCOL.sshsig sections 1 to 3 and the string encoding of section
    5 of RFC 4251. */
module SshSig {
  import opened Text

  type byte = b: int | 0 <= b < 256
  type bytes = seq<byte>

  /** "SSHSIG". */
  const MAGIC: bytes := [0x53, 0x53, 0x48, 0x53, 0x49, 0x47]

  /** "sha256". */
  const SHA256: bytes := [0x73, 0x68, 0x61, 0x32, 0x35, 0x36]

  /** "sha512". */
  const SHA512: bytes := [0x73, 0x68, 0x61, 0x35, 0x31, 0x32]

  const VERSION := 1
  const TWO_32 := 0x1_0000_0000

  /** The ssh package's keys: parsing, wire form, type name, and the types in use. */
  datatype Keys<!Key> = Keys(parse: bytes -> Option<Key>, marshal: Key -> bytes, kind: Key -> bytes, supported: set<bytes>)

  datatype Signature<Key> = Signature(key: Key, namespace: bytes, hash: bytes, format: bytes, blob: bytes)

  // ------------------------------------------------------------- SSH strings

  function U32(n: nat): (b: bytes)
    requires n < TWO_32
    ensures |b| == 4
  {
    [n / 0x100_0000, n / 0x1_0000 % 256, n / 256 % 256, n % 256]
  }

  function ReadU32(b: bytes): (n: nat)
    requires |b| >= 4
    ensures n < TWO_32
  {
    b[0] as int * 0x100_0000 + b[1] as int * 0x1_0000 + b[2] as int * 256 + b[3] as int
  }

  lemma U32RoundTrip(n: nat)
    requires n < TWO_32
    ensures ReadU32(U32(n)) == n
  {
    assert n == 256 * (n / 256) + n % 256;
    assert n / 256 == 256 * (n / 0x1_0000) + n / 256 % 256;
    assert n / 0x1_0000 == 256 * (n / 0x100_0000) + n / 0x1_0000 % 256;
  }

  lemma ReadU32Exact(b: bytes)
    requires |b| >= 4
    ensures U32(ReadU32(b)) == b[..4]
  {
    var n := ReadU32(b);
    assert n / 256 == b[0] as int * 0x1_0000 + b[1] as int * 256 + b[2] as int;
    assert n / 0x1_0000 == b[0] as int * 256 + b[1] as int;
    assert n / 0x100_0000 == b[0] as int;
  }

  /** appendString's bytes; the length is truncated to 32 bits. */
  function Str(s: bytes): bytes {
    U32(|s| % TWO_32) + s
  }

  function ReadString(b: bytes): (r: Option<(bytes, bytes)>)
    ensures r.Some? ==> |r.value.1| < |b|
  {
    if |b| < 4 || ReadU32(b) > |b| - 4 then None
    else Some((b[4..4 + ReadU32(b)], b[4 + ReadU32(b)..]))
  }

  lemma ReadWritten(s: bytes, rest: bytes)
    requires |s| < TWO_32
    ensures ReadString(Str(s) + rest) == Some((s, rest))
  {
    U32RoundTrip(|s|);
    hide U32;
    var b := Str(s) + rest;
    assert b[..4] == U32(|s|);
    assert ReadU32(b) == ReadU32(b[..4]);
    assert b[4..4 + |s|] == s && b[4 + |s|..] == rest;
  }

  lemma WrittenAsRead(b: bytes)
    requires ReadString(b).Some?
    ensures |ReadString(b).value.0| < TWO_32 && b == Str(ReadString(b).value.0) + ReadString(b).value.1
  {
    ReadU32Exact(b);
    hide U32;
    var n := ReadU32(b);
    assert n % TWO_32 == n;
    assert b == b[..4] + b[4..4 + n] + b[4 + n..];
  }

  function Strs(parts: seq<bytes>): bytes {
    if parts == [] then [] else Str(parts[0]) + Strs(parts[1..])
  }

  function ReadStrings(b: bytes, n: nat): Option<(seq<bytes>, bytes)>
    decreases n
  {
    if n == 0 then Some(([], b))
    else
      var first := ReadString(b);
      if first.None? then None
      else
        var others := ReadStrings(first.value.1, n - 1);
        if others.None? then None else Some(([first.value.0] + others.value.0, others.value.1))
  }

  ghost predicate Short(parts: seq<bytes>) {
    forall part | part in parts :: |part| < TWO_32
  }

  lemma {:induction false} ReadAllWritten(parts: seq<bytes>, rest: bytes)
    requires Short(parts)
    ensures ReadStrings(Strs(parts) + rest, |parts|) == Some((parts, rest))
  {
    hide Str, ReadString;
    if parts == [] {
      assert [] + rest == rest;
    } else {
      var more := Strs(parts[1..]) + rest;
      assert Strs(parts) + rest == Str(parts[0]) + more;
      ReadWritten(parts[0], more);
      ReadAllWritten(parts[1..], rest);
      assert [parts[0]] + parts[1..] == parts;
    }
  }

  lemma {:induction false} AllWrittenAsRead(b: bytes, n: nat)
    requires ReadStrings(b, n).Some?
    ensures var (parts, rest) := ReadStrings(b, n).value;
      |parts| == n && Short(parts) && b == Strs(parts) + rest
    decreases n
  {
    hide Str, ReadString;
    var (parts, rest) := ReadStrings(b, n).value;
    if n == 0 {
      assert [] + b == b;
    } else {
      WrittenAsRead(b);
      AllWrittenAsRead(ReadString(b).value.1, n - 1);
      assert parts[1..] == ReadStrings(ReadString(b).value.1, n - 1).value.0;
      assert Str(parts[0]) + (Strs(parts[1..]) + rest) == Strs(parts) + rest;
    }
  }

  // --------------------------------------------------------------------- blob

  function Parts<Key>(k: Keys<Key>, sig: Signature<Key>): seq<bytes> {
    [k.marshal(sig.key), sig.namespace, [], sig.hash, Str(sig.format) + Str(sig.blob)]
  }

  /** PROTOCOL.sshsig section 2: what a signer writes. */
  function Encode<Key>(k: Keys<Key>, sig: Signature<Key>): bytes {
    MAGIC + U32(VERSION) + Strs(Parts(k, sig))
  }

  /** The checks on the five fields, once they are read. */
  function CheckedFields<Key>(k: Keys<Key>, f: seq<bytes>): Option<Signature<Key>>
    requires |f| == 5
  {
    if f[1] == [] || f[2] != [] || (f[3] != SHA256 && f[3] != SHA512) then None
    else
      var key := k.parse(f[0]);
      if key.None? || k.marshal(key.value) != f[0] || k.kind(key.value) !in k.supported then None
      else
        var sig := ReadStrings(f[4], 2);
        if sig.None? || sig.value.1 != [] || |sig.value.0| != 2 || sig.value.0[0] != k.kind(key.value) then None
        else Some(Signature(key.value, f[1], f[3], sig.value.0[0], sig.value.0[1]))
  }

  function Parsed<Key>(k: Keys<Key>, b: bytes): Option<Signature<Key>> {
    if |b| < 10 || b[..6] != MAGIC || ReadU32(b[6..]) != VERSION then None
    else
      var fields := ReadStrings(b[10..], 5);
      if fields.None? || fields.value.1 != [] || |fields.value.0| != 5 then None
      else CheckedFields(k, fields.value.0)
  }

  method ReadStringOf(b: bytes) returns (r: Option<(bytes, bytes)>)
    ensures r == ReadString(b)
  {
    if |b| < 4 { return None; }
    var n := ReadU32(b);
    var rest := b[4..];
    if n > |rest| { return None; }
    assert rest[..n] == b[4..4 + n] && rest[n..] == b[4 + n..];
    return Some((rest[..n], rest[n..]));
  }

  lemma {:induction false} ReadOneMore(b: bytes, n: nat)
    ensures ReadStrings(b, n + 1) ==
      if ReadStrings(b, n).None? || ReadString(ReadStrings(b, n).value.1).None? then None
      else Some((ReadStrings(b, n).value.0 + [ReadString(ReadStrings(b, n).value.1).value.0],
                 ReadString(ReadStrings(b, n).value.1).value.1))
    decreases n
  {
    hide ReadString;
    var first := ReadString(b);
    if n == 0 {
      if first.Some? {
        assert ReadStrings(first.value.1, 0) == Some(([], first.value.1));
        assert [first.value.0] + [] == [] + [first.value.0];
      }
    } else if first.Some? {
      ReadOneMore(first.value.1, n - 1);
      var last := ReadStrings(first.value.1, n);
      if last.Some? {
        assert [first.value.0] + last.value.0
          == [first.value.0] + ReadStrings(first.value.1, n - 1).value.0 + [last.value.0[|last.value.0| - 1]];
      }
    }
  }

  lemma {:induction false} ReadNoMore(b: bytes, n: nat, more: nat)
    requires ReadStrings(b, n).None? && n <= more
    ensures ReadStrings(b, more).None?
    decreases more
  {
    if n < more {
      ReadOneMore(b, more - 1);
      ReadNoMore(b, n, more - 1);
    }
  }

  /** parseBlob: the fields are read one after another off the front. */
  method ParseBlob<Key>(k: Keys<Key>, blob: bytes) returns (r: Option<Signature<Key>>)
    ensures r == Parsed(k, blob)
  {
    hide ReadU32, ReadString, SHA256, SHA512;
    var b := blob;
    if |b| < 6 || b[..6] != MAGIC { return None; }
    b := b[6..];
    if |b| < 4 { return None; }
    if ReadU32(b) != VERSION { return None; }
    b := b[4..];
    assert b == blob[10..];
    var fields: seq<bytes> := [];
    for i := 0 to 5
      invariant |fields| == i && ReadStrings(blob[10..], i) == Some((fields, b))
    {
      ReadOneMore(blob[10..], i);
      var next := ReadStringOf(b);
      if next.None? {
        ReadNoMore(blob[10..], i + 1, 5);
        return None;
      }
      fields, b := fields + [next.value.0], next.value.1;
    }
    if b != [] { return None; }
    r := CheckFields(k, fields);
  }

  method CheckFields<Key>(k: Keys<Key>, f: seq<bytes>) returns (r: Option<Signature<Key>>)
    requires |f| == 5
    ensures r == CheckedFields(k, f)
  {
    hide ReadString, SHA256, SHA512;
    if f[1] == [] || f[2] != [] { return None; }
    if f[3] != SHA256 && f[3] != SHA512 { return None; }
    var key := k.parse(f[0]);
    if key.None? || k.marshal(key.value) != f[0] || k.kind(key.value) !in k.supported { return None; }
    ReadOneMore(f[4], 1);
    ReadOneMore(f[4], 0);
    var format := ReadStringOf(f[4]);
    if format.None? { return None; }
    var blob := ReadStringOf(format.value.1);
    if blob.None? || blob.value.1 != [] || format.value.0 != k.kind(key.value) { return None; }
    return Some(Signature(key.value, f[1], f[3], format.value.0, blob.value.0));
  }

  /** What PROTOCOL.sshsig lets a supported key sign, in fields that fit their
      length prefixes. */
  ghost predicate Sendable<Key>(k: Keys<Key>, sig: Signature<Key>) {
    && sig.namespace != [] && (sig.hash == SHA256 || sig.hash == SHA512)
    && k.parse(k.marshal(sig.key)) == Some(sig.key) && k.kind(sig.key) in k.supported && sig.format == k.kind(sig.key)
    && |sig.format| < TWO_32 && |sig.blob| < TWO_32 && Short(Parts(k, sig))
  }

  lemma StrsOfTwo(a: bytes, b: bytes)
    ensures Strs([a, b]) == Str(a) + Str(b)
  {
    hide Str;
    assert [a, b][1..] == [b] && [b][1..] == [];
    assert Strs([b]) == Str(b) + Strs([]) == Str(b);
  }

  lemma CheckedWritten<Key>(k: Keys<Key>, sig: Signature<Key>)
    requires Sendable(k, sig)
    ensures CheckedFields(k, Parts(k, sig)) == Some(sig)
  {
    StrsOfTwo(sig.format, sig.blob);
    ReadAllWritten([sig.format, sig.blob], []);
    hide Str, Strs, ReadStrings, SHA256, SHA512;
    assert Parts(k, sig)[4] + [] == Parts(k, sig)[4];
  }

  lemma InnerAsRead(b: bytes)
    requires ReadStrings(b, 2).Some? && ReadStrings(b, 2).value.1 == []
    ensures var two := ReadStrings(b, 2).value.0;
      |two| == 2 && Short(two) && |two[0]| < TWO_32 && |two[1]| < TWO_32 && b == Str(two[0]) + Str(two[1])
  {
    hide Str, Strs, ReadStrings;
    AllWrittenAsRead(b, 2);
    var two := ReadStrings(b, 2).value.0;
    assert two == [two[0], two[1]] && two[0] in two && two[1] in two;
    StrsOfTwo(two[0], two[1]);
    assert Strs(two) + [] == Strs(two);
  }

  lemma WrittenAsChecked<Key>(k: Keys<Key>, f: seq<bytes>)
    requires |f| == 5 && Short(f) && CheckedFields(k, f).Some?
    ensures Sendable(k, CheckedFields(k, f).value) && Parts(k, CheckedFields(k, f).value) == f
  {
    hide Str, Strs, ReadStrings, SHA256, SHA512, Short;
    InnerAsRead(f[4]);
    var parts := Parts(k, CheckedFields(k, f).value);
    assert parts[0] == f[0] && parts[1] == f[1] && parts[2] == f[2] && parts[3] == f[3] && parts[4] == f[4];
    assert parts == f;
  }

  lemma Preamble(b: bytes, rest: bytes)
    requires b == MAGIC + U32(VERSION) + rest
    ensures |b| >= 10 && b[..6] == MAGIC && ReadU32(b[6..]) == VERSION && b[10..] == rest
  {
    U32RoundTrip(VERSION);
    hide U32;
    assert b[6..][..4] == U32(VERSION);
    assert ReadU32(b[6..]) == ReadU32(b[6..][..4]);
  }

  /** Reading what a signer wrote gives its fields back. */
  lemma DecodeEncode<Key>(k: Keys<Key>, sig: Signature<Key>)
    requires Sendable(k, sig)
    ensures Parsed(k, Encode(k, sig)) == Some(sig)
  {
    var parts := Parts(k, sig);
    Preamble(Encode(k, sig), Strs(parts));
    ReadAllWritten(parts, []);
    assert Strs(parts) + [] == Strs(parts);
    CheckedWritten(k, sig);
    hide Strs, ReadStrings, CheckedFields, Encode, MAGIC, ReadU32, Parts;
  }

  lemma ParsedParts<Key>(k: Keys<Key>, b: bytes) returns (fields: seq<bytes>)
    requires Parsed(k, b).Some?
    ensures |fields| == 5 && Short(fields) && b == MAGIC + U32(VERSION) + Strs(fields)
    ensures Parsed(k, b) == CheckedFields(k, fields)
  {
    hide Strs, ReadStrings, CheckedFields, MAGIC, U32, ReadU32;
    fields := ReadStrings(b[10..], 5).value.0;
    AllWrittenAsRead(b[10..], 5);
    ReadU32Exact(b[6..]);
    assert b == b[..6] + b[6..][..4] + b[10..];
    assert Strs(fields) + [] == Strs(fields);
  }

  /** Every accepted byte string is what its result encodes to: nothing is
      accepted in two spellings. */
  lemma EncodeDecode<Key>(k: Keys<Key>, b: bytes)
    requires Parsed(k, b).Some?
    ensures Sendable(k, Parsed(k, b).value) && Encode(k, Parsed(k, b).value) == b
  {
    hide Parsed, CheckedFields, Strs, MAGIC, U32, Sendable, Parts;
    var fields := ParsedParts(k, b);
    WrittenAsChecked(k, fields);
  }

  /** The reader accepts exactly the encodings of sendable signatures. */
  lemma AcceptsExactly<Key(!new)>(k: Keys<Key>, b: bytes)
    ensures Parsed(k, b).Some? <==> exists sig :: Sendable(k, sig) && Encode(k, sig) == b
  {
    hide Parsed, Sendable, Encode;
    if Parsed(k, b).Some? {
      EncodeDecode(k, b);
    }
    if sig :| Sendable(k, sig) && Encode(k, sig) == b {
      DecodeEncode(k, sig);
    }
  }

  // --------------------------------------------------------------- signed data

  /** PROTOCOL.sshsig section 3: what is signed. */
  function SignedData(namespace: bytes, hash: bytes, digest: bytes): bytes {
    MAGIC + Strs([namespace, [], hash, digest])
  }

  lemma StrsInjective(x: seq<bytes>, y: seq<bytes>)
    requires |x| == |y| && Short(x) && Short(y) && Strs(x) == Strs(y)
    ensures x == y
  {
    hide Str, Strs, ReadStrings;
    assert Strs(x) + [] == Strs(x) && Strs(y) + [] == Strs(y);
    ReadAllWritten(x, []);
    ReadAllWritten(y, []);
  }

  /** Fields that fit their length prefixes are told apart by the data signed. */
  lemma SignedDataInjective(a: seq<bytes>, b: seq<bytes>)
    requires |a| == 3 && |b| == 3 && Short(a) && Short(b)
    requires SignedData(a[0], a[1], a[2]) == SignedData(b[0], b[1], b[2])
    ensures a == b
  {
    hide Strs;
    var x := [a[0], [], a[1], a[2]];
    var y := [b[0], [], b[1], b[2]];
    assert SignedData(a[0], a[1], a[2])[6..] == Strs(x) && SignedData(b[0], b[1], b[2])[6..] == Strs(y);
    StrsInjective(x, y);
    assert a[0] == x[0] && a[1] == x[2] && a[2] == x[3];
    assert b[0] == y[0] && b[1] == y[2] && b[2] == y[3];
  }

  /** The digests hashMessage makes: 32 bytes of sha256 or 64 of sha512. */
  predicate IsDigest(hash: bytes, digest: bytes) {
    (hash == SHA256 && |digest| == 32) || (hash == SHA512 && |digest| == 64)
  }

  lemma SignedDataShape(namespace: bytes, hash: bytes, digest: bytes)
    requires IsDigest(hash, digest)
    ensures var b := SignedData(namespace, hash, digest); var n := |namespace|; var d := |digest|;
      && |b| == 28 + n + d && b[6..10] == U32(n % TWO_32) && b[10..10 + n] == namespace && b[28 + n..] == digest
  {
    hide U32, SHA256, SHA512;
    assert |SHA256| == 6 && |SHA512| == 6 by { SixBytes(); }
    var b := SignedData(namespace, hash, digest);
    var x := [namespace, [], hash, digest];
    assert x[1..] == [[], hash, digest] && x[1..][1..] == [hash, digest] && x[1..][1..][1..] == [digest];
    assert Strs([digest]) == Str(digest) + Strs([]) == Str(digest);
    assert Strs([hash, digest]) == Str(hash) + Str(digest);
    assert Strs([[], hash, digest]) == Str([]) + (Str(hash) + Str(digest));
    assert b == MAGIC + (U32(|namespace| % TWO_32) + namespace + (U32(0) + (U32(6) + hash + (U32(|digest|) + digest))));
  }

  lemma SixBytes()
    ensures |SHA256| == 6 && |SHA512| == 6
  {
  }

  /** What Verify checks a signature against pins the namespace, the hash and the
      digest, whatever the namespace's length. */
  lemma VerifiedDataInjective(n1: bytes, h1: bytes, d1: bytes, n2: bytes, h2: bytes, d2: bytes)
    requires IsDigest(h1, d1) && IsDigest(h2, d2) && SignedData(n1, h1, d1) == SignedData(n2, h2, d2)
    ensures n1 == n2 && h1 == h2 && d1 == d2
  {
    SignedDataShape(n1, h1, d1);
    SignedDataShape(n2, h2, d2);
    U32RoundTrip(|n1| % TWO_32);
    U32RoundTrip(|n2| % TWO_32);
    hide U32, ReadU32, SignedData, SHA256, SHA512;
    assert |n1| % TWO_32 == |n2| % TWO_32;
    assert |n1| + |d1| == |n2| + |d2|;
    assert |n1| == |n2|;
  }

  /** Without that bound the data can collide: a namespace of 2^32 bytes and the
      empty one, each with some digest, sign the same bytes. */
  lemma LongFieldsCollide(hash: bytes, digest: bytes) returns (namespace: bytes, longer: bytes)
    requires |hash| < 100 && |digest| < TWO_32
    ensures |namespace| == 0x1_0000_0000 && SignedData(namespace, hash, digest) == SignedData([], hash, longer)
  {
    hide U32, MAGIC;
    var pad: bytes := seq(TWO_32 - 12 - |hash|, i => 0);
    var end := Strs([[], hash, digest]);
    EndOf(hash, digest);
    longer := pad + end;
    namespace := Strs([[], hash]) + U32(|digest|) + pad;
    StrsOfTwo([], hash);
    assert |longer| % TWO_32 == |digest|;
    EndOf(hash, longer);
    WholeIs(namespace, hash, digest);
    WholeIs([], hash, longer);
    assert U32(0) + namespace + end == U32(0) + [] + (Strs([[], hash]) + (U32(|digest|) + longer));
  }

  lemma EndOf(hash: bytes, digest: bytes)
    ensures Strs([[], hash, digest]) == Strs([[], hash]) + Str(digest)
    ensures |Strs([[], hash, digest])| == 12 + |hash| + |digest|
  {
    hide U32;
    StrsOfTwo([], hash);
    StrsOfTwo(hash, digest);
    assert [[], hash, digest][1..] == [hash, digest];
  }

  lemma WholeIs(namespace: bytes, hash: bytes, digest: bytes)
    ensures SignedData(namespace, hash, digest) == MAGIC + (U32(|namespace| % TWO_32) + namespace + Strs([[], hash, digest]))
  {
    assert [namespace, [], hash, digest][1..] == [[], hash, digest];
  }

  // -------------------------------------------------------------- byte by byte

  /** A length is four bytes, the most significant first. */
  lemma BigEndian(n: nat, b: bytes)
    requires n < 0x1_0000_0000 && |b| == 4
    ensures b == U32(n) <==> n == 16_777_216 * b[0] as int + 65_536 * b[1] as int + 256 * b[2] as int + b[3] as int
  {
    ReadU32Exact(b);
    U32RoundTrip(n);
    hide U32;
  }

  lemma SmallWords()
    ensures U32(0) == [0, 0, 0, 0] && U32(1) == [0, 0, 0, 1]
  {
    BigEndian(0, [0, 0, 0, 0]);
    BigEndian(1, [0, 0, 0, 1]);
  }

  /** A string is its length and then itself. */
  lemma StrReads(s: bytes)
    requires |s| < 0x1_0000_0000
    ensures Str(s) == U32(|s|) + s
  {
  }

  lemma StrsOfFive(a: bytes, b: bytes, c: bytes, d: bytes, e: bytes)
    ensures Strs([a, b, c, d, e]) == Str(a) + Str(b) + Str(c) + Str(d) + Str(e)
  {
    hide Str;
    StrsOfTwo(d, e);
    assert [a, b, c, d, e][1..] == [b, c, d, e] && [b, c, d, e][1..] == [c, d, e] && [c, d, e][1..] == [d, e];
    assert Strs([c, d, e]) == Str(c) + (Str(d) + Str(e));
    assert Strs([b, c, d, e]) == Str(b) + (Str(c) + (Str(d) + Str(e)));
    assert Str(a) + (Str(b) + (Str(c) + (Str(d) + Str(e)))) == Str(a) + Str(b) + Str(c) + Str(d) + Str(e);
  }

  /** The bytes accepted as a signature: "SSHSIG", version 1, the key as it is
      written, a namespace, nothing reserved, "sha256" or "sha512", and a signature
      of the key's own type, all of it present once and nothing behind it. */
  lemma AcceptedReads<Key(!new)>(k: Keys<Key>, b: bytes, sig: Signature<Key>)
    ensures Parsed(k, b) == Some(sig) <==>
      && b == [0x53, 0x53, 0x48, 0x53, 0x49, 0x47] + [0, 0, 0, 1] + (Str(k.marshal(sig.key)) + Str(sig.namespace)
           + Str([]) + Str(sig.hash) + Str(Str(sig.format) + Str(sig.blob)))
      && |sig.namespace| > 0
      && (sig.hash == [0x73, 0x68, 0x61, 0x32, 0x35, 0x36] || sig.hash == [0x73, 0x68, 0x61, 0x35, 0x31, 0x32])
      && k.parse(k.marshal(sig.key)) == Some(sig.key) && k.kind(sig.key) in k.supported && sig.format == k.kind(sig.key)
      && (forall part | part in [k.marshal(sig.key), sig.namespace, sig.format, sig.blob, Str(sig.format) + Str(sig.blob)] ::
            |part| < 0x1_0000_0000)
  {
    SmallWords();
    EncodeIs(k, sig);
    SendableIff(k, sig);
    hide U32, Str, Strs, Parsed, Sendable, Encode;
    if Parsed(k, b) == Some(sig) { EncodeDecode(k, b); }
    if Sendable(k, sig) { DecodeEncode(k, sig); }
  }

  lemma EncodeIs<Key>(k: Keys<Key>, sig: Signature<Key>)
    ensures Encode(k, sig) == [0x53, 0x53, 0x48, 0x53, 0x49, 0x47] + U32(1) + (Str(k.marshal(sig.key)) + Str(sig.namespace)
      + Str([]) + Str(sig.hash) + Str(Str(sig.format) + Str(sig.blob)))
  {
    hide U32, Str, Strs;
    StrsOfFive(k.marshal(sig.key), sig.namespace, [], sig.hash, Str(sig.format) + Str(sig.blob));
  }

  lemma SendableIff<Key>(k: Keys<Key>, sig: Signature<Key>)
    ensures Sendable(k, sig) <==>
      && |sig.namespace| > 0
      && (sig.hash == [0x73, 0x68, 0x61, 0x32, 0x35, 0x36] || sig.hash == [0x73, 0x68, 0x61, 0x35, 0x31, 0x32])
      && k.parse(k.marshal(sig.key)) == Some(sig.key) && k.kind(sig.key) in k.supported && sig.format == k.kind(sig.key)
      && (forall part | part in [k.marshal(sig.key), sig.namespace, sig.format, sig.blob, Str(sig.format) + Str(sig.blob)] ::
            |part| < 0x1_0000_0000)
  {
    SixBytes();
    var parts := Parts(k, sig);
    var shown := [k.marshal(sig.key), sig.namespace, sig.format, sig.blob, Str(sig.format) + Str(sig.blob)];
    assert SHA256 == [0x73, 0x68, 0x61, 0x32, 0x35, 0x36] && SHA512 == [0x73, 0x68, 0x61, 0x35, 0x31, 0x32];
    hide Str, SHA256, SHA512;
    assert parts[0] in parts && parts[1] in parts && parts[4] in parts;
    assert shown[0] in shown && shown[1] in shown && shown[2] in shown && shown[3] in shown && shown[4] in shown;
  }

  /** What is signed: "SSHSIG", the namespace, nothing reserved, the hash and the digest. */
  lemma SignedDataReads(namespace: bytes, hash: bytes, digest: bytes)
    ensures SignedData(namespace, hash, digest)
      == [0x53, 0x53, 0x48, 0x53, 0x49, 0x47] + (Str(namespace) + (Str([]) + (Str(hash) + Str(digest))))
  {
    hide Str;
    StrsOfTwo(hash, digest);
    var x := [namespace, [], hash, digest];
    assert x[1..] == [[], hash, digest] && x[1..][1..] == [hash, digest];
    assert Strs(x[1..]) == Str([]) + Strs([hash, digest]);
    assert Strs(x) == Str(namespace) + Strs(x[1..]);
  }

  // --------------------------------------------------------------------- armor

  /** "-----BEGIN SSH SIGNATURE-----" and its counterpart. */
  datatype Armor = Armor(begin: string, end: string, decode: string -> Option<bytes>)

  function TrimRight(s: string): (t: string)
    ensures t <= s
  {
    if s != "" && s[|s| - 1] in "\r\n" then TrimRight(s[..|s| - 1]) else s
  }

  function TrimCR(line: string): string {
    if line != "" && line[|line| - 1] == '\r' then line[..|line| - 1] else line
  }

  function TrimCRs(lines: seq<string>): (trimmed: seq<string>)
    ensures |trimmed| == |lines| && forall i | 0 <= i < |lines| :: trimmed[i] == TrimCR(lines[i])
  {
    seq(|lines|, i requires 0 <= i < |lines| => TrimCR(lines[i]))
  }

  function Concat(lines: seq<string>): string {
    if lines == [] then "" else lines[0] + Concat(lines[1..])
  }

  function Dearmored(armor: Armor, s: string): Option<bytes> {
    var lines := TrimCRs(Split(TrimRight(s), '\n'));
    if |lines| < 3 || lines[0] != armor.begin || lines[|lines| - 1] != armor.end then None
    else armor.decode(Concat(lines[1..|lines| - 1]))
  }

  method Dearmor(armor: Armor, s: string) returns (raw: Option<bytes>)
    ensures raw == Dearmored(armor, s)
  {
    hide Split, TrimRight, TrimCR;
    var parts := Split(TrimRight(s), '\n');
    var lines := new string[|parts|](i requires 0 <= i < |parts| => parts[i]);
    for i := 0 to lines.Length
      invariant forall k | 0 <= k < i :: lines[k] == TrimCR(parts[k])
      invariant forall k | i <= k < lines.Length :: lines[k] == parts[k]
    {
      lines[i] := TrimCR(lines[i]);
    }
    assert lines[..] == TrimCRs(parts);
    if lines.Length < 3 || lines[0] != armor.begin || lines[lines.Length - 1] != armor.end { return None; }
    assert lines[1..lines.Length - 1] == TrimCRs(parts)[1..|parts| - 1];
    raw := armor.decode(Concat(lines[1..lines.Length - 1]));
  }

  /** Lines each ended in LF or in CR LF. */
  function Ended(lines: seq<string>, crlf: seq<bool>): seq<string>
    requires |crlf| == |lines|
  {
    seq(|lines|, i requires 0 <= i < |lines| => if crlf[i] then lines[i] + "\r" else lines[i])
  }

  lemma {:induction false} TrimRightDrops(s: string, end: string)
    requires s != "" && s[|s| - 1] !in "\r\n" && forall c | c in end :: c in "\r\n"
    ensures TrimRight(s + end) == s
  {
    if end == "" {
      assert s + end == s;
    } else {
      assert (s + end)[..|s + end| - 1] == s + end[..|end| - 1];
      TrimRightDrops(s, end[..|end| - 1]);
    }
  }

  predicate EndsInCR(line: string) {
    line != "" && line[|line| - 1] == '\r'
  }

  lemma TrimmedEnds(lines: seq<string>, crlf: seq<bool>, last: string)
    requires |crlf| == |lines| && Free(lines + [last], '\n')
    requires (forall i | 0 <= i < |lines| :: crlf[i] || !EndsInCR(lines[i])) && !EndsInCR(last)
    ensures Free(Ended(lines, crlf) + [last], '\n') && TrimCRs(Ended(lines, crlf) + [last]) == lines + [last]
  {
    var all := lines + [last];
    var parts := Ended(lines, crlf) + [last];
    forall i | 0 <= i < |parts| ensures '\n' !in parts[i] && TrimCR(parts[i]) == all[i] {
      assert '\n' !in all[i];
    }
  }

  /** The text is the armored body: the opening line, the body's lines and the
      closing line, each before the last ended in LF or CR LF, and line ends behind. */
  ghost predicate Armors(armor: Armor, s: string, body: seq<string>, crlf: seq<bool>, end: string) {
    && body != [] && Free(body, '\n') && |crlf| == |body| + 1
    && (forall i | 0 <= i < |crlf| :: crlf[i] || !EndsInCR(([armor.begin] + body)[i]))
    && (forall c | c in end :: c in "\r\n")
    && s == Join(Ended([armor.begin] + body, crlf) + [armor.end], '\n') + end
  }

  /** Whichever line ends it was written with, and whatever line ends follow it,
      an armored signature decodes to its body. */
  lemma DearmorReads(armor: Armor, s: string, body: seq<string>, crlf: seq<bool>, end: string)
    requires '\n' !in armor.begin && '\n' !in armor.end && armor.end != "" && !EndsInCR(armor.end)
    requires Armors(armor, s, body, crlf, end)
    ensures Dearmored(armor, s) == armor.decode(Concat(body))
  {
    hide Split, Join, TrimCRs, TrimRight, Concat, Ended;
    var lines := [armor.begin] + body + [armor.end];
    var parts := Ended([armor.begin] + body, crlf) + [armor.end];
    assert Free(lines, '\n');
    TrimmedEnds([armor.begin] + body, crlf, armor.end);
    var text := Join(parts, '\n');
    JoinEnds(parts, '\n');
    assert armor.end[|armor.end| - 1] in armor.end;
    TrimRightDrops(text, end);
    SplitJoin(parts, '\n');
    assert lines[1..|lines| - 1] == body && lines[0] == armor.begin;
  }

  lemma {:induction false} TrimRightRest(s: string) returns (end: string)
    ensures s == TrimRight(s) + end && forall c | c in end :: c in "\r\n"
    ensures TrimRight(s) == "" || TrimRight(s)[|TrimRight(s)| - 1] !in "\r\n"
  {
    end := "";
    if s != "" && s[|s| - 1] in "\r\n" {
      end := TrimRightRest(s[..|s| - 1]);
      end := end + [s[|s| - 1]];
      assert s == s[..|s| - 1] + [s[|s| - 1]];
    }
  }

  lemma EndedAsRead(parts: seq<string>) returns (crlf: seq<bool>)
    ensures |crlf| == |parts| && Ended(TrimCRs(parts), crlf) == parts
    ensures forall i | 0 <= i < |parts| :: crlf[i] || !EndsInCR(TrimCR(parts[i]))
  {
    crlf := seq(|parts|, i requires 0 <= i < |parts| => EndsInCR(parts[i]));
    forall i | 0 <= i < |parts| ensures Ended(TrimCRs(parts), crlf)[i] == parts[i] {
      if crlf[i] { assert parts[i] == parts[i][..|parts[i]| - 1] + "\r"; }
    }
  }

  /** And nothing else is accepted: what decodes is such a text, and what it
      decodes to is what the body does. */
  lemma DearmorExact(armor: Armor, s: string, raw: bytes)
    requires '\n' !in armor.begin && '\n' !in armor.end && armor.end != "" && !EndsInCR(armor.end)
    ensures Dearmored(armor, s) == Some(raw) <==>
      exists body, crlf, end :: Armors(armor, s, body, crlf, end) && armor.decode(Concat(body)) == Some(raw)
  {
    hide Split, TrimRight, Concat, Armors, TrimCRs, Dearmored;
    if Dearmored(armor, s) == Some(raw) {
      var body, crlf, end := ArmorsAsRead(armor, s);
    }
    if body, crlf, end :| Armors(armor, s, body, crlf, end) && armor.decode(Concat(body)) == Some(raw) {
      DearmorReads(armor, s, body, crlf, end);
    }
  }

  lemma ArmorsAsRead(armor: Armor, s: string) returns (body: seq<string>, crlf: seq<bool>, end: string)
    requires armor.end != "" && !EndsInCR(armor.end) && Dearmored(armor, s).Some?
    ensures Armors(armor, s, body, crlf, end) && Dearmored(armor, s) == armor.decode(Concat(body))
  {
    hide Split, Join, TrimRight, Concat, Ended;
    end := TrimRightRest(s);
    var text := TrimRight(s);
    JoinSplit(text, '\n');
    var parts := Split(text, '\n');
    var lines := TrimCRs(parts);
    var n := |parts| - 1;
    if parts[n] != "" { JoinEnds(parts, '\n'); }
    assert parts[n] == armor.end;
    body := lines[1..n];
    crlf := EndedAsRead(parts[..n]);
    assert TrimCRs(parts[..n]) == [armor.begin] + body;
    assert parts == parts[..n] + [parts[n]];
    assert Free(body, '\n') by {
      forall i | 0 <= i < |body| ensures '\n' !in body[i] { assert body[i] == TrimCR(parts[i + 1]) && '\n' !in parts[i + 1]; }
    }
  }

  lemma {:induction false} JoinEnds(parts: seq<string>, sep: char)
    requires parts != [] && parts[|parts| - 1] != ""
    ensures var last := parts[|parts| - 1]; var text := Join(parts, sep);
      text != "" && text[|text| - 1] == last[|last| - 1]
  {
    if |parts| > 1 {
      JoinEnds(parts[1..], sep);
    }
  }
}
