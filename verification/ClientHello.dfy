/** A reader of TLS ClientHello messages, written from the formats alone. */
module TlsReader {
  import opened Bytes

  type Data = seq<Byte>

  const HANDSHAKE: Byte := 0x16
  const CLIENT_HELLO: Byte := 1
  const SERVER_NAME := 0
  const PADDING := 21
  const KEY_SHARE := 51

  datatype Split = Split(data: Data, rest: Data)

  /** A vector with a one-byte or two-byte length in front (section 3.4 of RFC 8446). */
  function Vector8(b: Data): Option<Split> {
    if |b| < 1 then None
    else
      var n: int := b[0];
      if |b| < 1 + n then None else Some(Split(b[1..1 + n], b[1 + n..]))
  }

  function Vector16(b: Data): Option<Split> {
    if |b| < 2 then None
    else
      var n := FromU16(b[0], b[1]);
      if |b| < 2 + n then None else Some(Split(b[2..2 + n], b[2 + n..]))
  }

  datatype Extension = Extension(kind: nat, data: Data)

  /** The extension block, to its last byte (section 4.2 of RFC 8446). */
  function Extensions(b: Data): Option<seq<Extension>>
    decreases |b|
  {
    if b == [] then Some([])
    else if |b| < 4 then None
    else
      var v := Vector16(b[2..]);
      if v.None? then None
      else
        var more := Extensions(v.value.rest);
        if more.None? then None else Some([Extension(FromU16(b[0], b[1]), v.value.data)] + more.value)
  }

  /** The names of a server_name extension (section 3 of RFC 6066): entries of type host_name, to the last byte. */
  function HostNames(b: Data): Option<seq<Data>>
    decreases |b|
  {
    if b == [] then Some([])
    else if b[0] != 0 then None
    else
      var v := Vector16(b[1..]);
      if v.None? || v.value.data == [] then None
      else
        var more := HostNames(v.value.rest);
        if more.None? then None else Some([v.value.data] + more.value)
  }

  function ServerNames(data: Data): Option<seq<Data>> {
    var v := Vector16(data);
    if v.None? || v.value.rest != [] || v.value.data == [] then None else HostNames(v.value.data)
  }

  datatype KeyShare = KeyShare(group: nat, key: Data)

  /** The one share of a key_share extension (section 4.2.8 of RFC 8446). */
  function OneKeyShare(data: Data): Option<KeyShare> {
    var list := Vector16(data);
    if list.None? || list.value.rest != [] || |list.value.data| < 2 then None
    else
      var share := list.value.data;
      var key := Vector16(share[2..]);
      if key.None? || key.value.rest != [] || key.value.data == [] then None
      else Some(KeyShare(FromU16(share[0], share[1]), key.value.data))
  }

  /** A list of two-byte values, to the last byte. */
  function Units(b: Data): Option<seq<nat>> {
    if |b| % 2 != 0 then None else Some(seq(|b| / 2, i requires 0 <= i < |b| / 2 => FromU16(b[2 * i], b[2 * i + 1])))
  }

  /** The values behind a two-byte length: groups and signature schemes (sections 4.2.7 and 4.2.3 of RFC 8446). */
  function LongList(data: Data): Option<seq<nat>> {
    var v := Vector16(data);
    if v.None? || v.value.rest != [] then None else Units(v.value.data)
  }

  /** The values behind a one-byte length: versions (section 4.2.1 of RFC 8446). */
  function ShortList(data: Data): Option<seq<nat>> {
    var v := Vector8(data);
    if v.None? || v.value.rest != [] then None else Units(v.value.data)
  }

  /** The bytes behind a one-byte length: point formats (section 5.1.2 of RFC 8422) and key exchange modes
      (section 4.2.9 of RFC 8446). */
  function ByteList(data: Data): Option<Data> {
    var v := Vector8(data);
    if v.None? || v.value.rest != [] then None else Some(v.value.data)
  }

  function ProtocolNames(b: Data): Option<seq<Data>>
    decreases |b|
  {
    if b == [] then Some([])
    else
      var v := Vector8(b);
      if v.None? || v.value.data == [] then None
      else
        var more := ProtocolNames(v.value.rest);
        if more.None? then None else Some([v.value.data] + more.value)
  }

  /** The protocols of an application_layer_protocol_negotiation extension (section 3.1 of RFC 7301). */
  function Protocols(data: Data): Option<seq<Data>> {
    var v := Vector16(data);
    if v.None? || v.value.rest != [] then None else ProtocolNames(v.value.data)
  }

  lemma UnitsAre(b: Data, values: seq<nat>)
    requires |b| == 2 * |values| && forall i | 0 <= i < |values| :: FromU16(b[2 * i], b[2 * i + 1]) == values[i]
    ensures Units(b) == Some(values)
  {
    hide FromU16;
    var read := Units(b).value;
    assert |read| == |values| && forall i | 0 <= i < |read| :: read[i] == FromU16(b[2 * i], b[2 * i + 1]);
    assert read == values;
  }

  lemma UnitsOfBoth(a: Data, b: Data)
    requires Units(a).Some? && Units(b).Some?
    ensures Units(a + b) == Some(Units(a).value + Units(b).value)
  {
    hide FromU16;
    var n, values := |a| / 2, Units(a).value + Units(b).value;
    assert |a| == 2 * n;
    forall i | 0 <= i < |values|
      ensures FromU16((a + b)[2 * i], (a + b)[2 * i + 1]) == values[i]
    {
      if i >= n {
        assert (a + b)[2 * i] == b[2 * (i - n)] && (a + b)[2 * i + 1] == b[2 * (i - n) + 1];
      }
    }
    UnitsAre(a + b, values);
  }

  datatype Hello = Hello(version: nat, random: Data, session: Data, suites: Data, compression: Data,
                         extensions: seq<Extension>)

  /** The body of a ClientHello (section 4.1.2 of RFC 8446), to its last byte. */
  function Body(b: Data): Option<Hello> {
    if |b| < 34 then None
    else
      var session := Vector8(b[34..]);
      if session.None? || |session.value.data| > 32 then None
      else
        var suites := Vector16(session.value.rest);
        if suites.None? || suites.value.data == [] || |suites.value.data| % 2 != 0 then None
        else
          var compression := Vector8(suites.value.rest);
          if compression.None? || compression.value.data == [] then None
          else
            var block := Vector16(compression.value.rest);
            if block.None? || block.value.rest != [] then None
            else
              var extensions := Extensions(block.value.data);
              if extensions.None? then None
              else Some(Hello(FromU16(b[0], b[1]), b[2..34], session.value.data, suites.value.data,
                              compression.value.data, extensions.value))
  }

  /** One record (section 5.1 of RFC 8446) holding one handshake message (section 4), and nothing after it. */
  function Message(b: Data): Option<Hello> {
    if |b| < 9 || b[0] != HANDSHAKE || b[1] != 3 || FromU16(b[3], b[4]) != |b| - 5 then None
    else if b[5] != CLIENT_HELLO || b[6] * 65536 + FromU16(b[7], b[8]) != |b| - 9 then None
    else Body(b[9..])
  }

  lemma Vector8Of(data: Data, rest: Data)
    requires |data| < 256
    ensures Vector8([|data|] + data + rest) == Some(Split(data, rest))
  {
    var b := [|data|] + data + rest;
    assert b[1..1 + |data|] == data && b[1 + |data|..] == rest;
  }

  lemma Vector16Of(data: Data, rest: Data)
    requires |data| < 65536
    ensures Vector16(U16(|data|) + data + rest) == Some(Split(data, rest))
  {
    var b := U16(|data|) + data + rest;
    U16Value(|data|);
    assert b[2..2 + |data|] == data && b[2 + |data|..] == rest;
  }

  lemma Vector16Whole(data: Data)
    requires |data| < 65536
    ensures Vector16(U16(|data|) + data) == Some(Split(data, []))
  {
    Vector16Of(data, []);
    assert U16(|data|) + data + [] == U16(|data|) + data;
  }

  lemma ServerNamesOf(name: Data)
    requires 0 < |name| < 65000
    ensures ServerNames(U16(|name| + 3) + ([0] + (U16(|name|) + name))) == Some([name])
  {
    var entry: Data := [0] + (U16(|name|) + name);
    Vector16Whole(entry);
    Vector16Whole(name);
    assert |entry| == |name| + 3;
    hide Vector16, U16;
    assert entry[1..] == U16(|name|) + name && entry != [];
    assert HostNames([]) == Some([]);
    assert [name] + [] == [name];
    assert HostNames(entry) == Some([name] + []);
    assert ServerNames(U16(|entry|) + entry) == HostNames(entry);
  }

  lemma OneKeyShareOf(group: Data, key: Data)
    requires |group| == 2 && 0 < |key| < 65000
    ensures OneKeyShare(U16(|key| + 4) + (group + (U16(|key|) + key)))
            == Some(KeyShare(FromU16(group[0], group[1]), key))
  {
    var share := group + (U16(|key|) + key);
    Vector16Whole(key);
    Vector16Whole(share);
    hide Vector16, U16, FromU16;
    assert share[2..] == U16(|key|) + key;
  }

  lemma HeadAndRest(head: Data, rest: Data)
    requires |head| == 34
    ensures (head + rest)[34..] == rest && (head + rest)[2..34] == head[2..]
    ensures (head + rest)[0] == head[0] && (head + rest)[1] == head[1]
  {
  }

  lemma BodyOf(head: Data, session: Data, suites: Data, compression: Data, block: Data)
    requires |head| == 34 && |session| <= 32 && 0 < |suites| < 65536 && |suites| % 2 == 0
    requires 0 < |compression| < 256 && |block| < 65536 && Extensions(block).Some?
    ensures Body(head + ([|session|] + session
              + (U16(|suites|) + suites + ([|compression|] + compression + (U16(|block|) + block)))))
            == Some(Hello(FromU16(head[0], head[1]), head[2..], session, suites, compression, Extensions(block).value))
  {
    hide *;
    var atBlock := U16(|block|) + block;
    var atCompression := [|compression|] + compression + atBlock;
    var atSuites := U16(|suites|) + suites + atCompression;
    var b := head + ([|session|] + session + atSuites);
    Vector8Of(session, atSuites);
    Vector16Of(suites, atCompression);
    Vector8Of(compression, atBlock);
    Vector16Whole(block);
    HeadAndRest(head, [|session|] + session + atSuites);
    BodyFrom(b, Split(session, atSuites), Split(suites, atCompression), Split(compression, atBlock), Split(block, []));
  }

  /** Reading the fields one after the other. */
  lemma BodyFrom(b: Data, session: Split, suites: Split, compression: Split, block: Split)
    requires |b| >= 34 && Vector8(b[34..]) == Some(session) && |session.data| <= 32
    requires Vector16(session.rest) == Some(suites) && suites.data != [] && |suites.data| % 2 == 0
    requires Vector8(suites.rest) == Some(compression) && compression.data != []
    requires Vector16(compression.rest) == Some(block) && block.rest == [] && Extensions(block.data).Some?
    ensures Body(b) == Some(Hello(FromU16(b[0], b[1]), b[2..34], session.data, suites.data, compression.data,
                                  Extensions(block.data).value))
  {
    hide Vector8, Vector16, Extensions, FromU16;
  }

  /** One extension as it stands in a block. */
  predicate Whole(raw: Data) {
    |raw| >= 4 && FromU16(raw[2], raw[3]) == |raw| - 4
  }

  function Read(raw: Data): Extension
    requires Whole(raw)
  {
    Extension(FromU16(raw[0], raw[1]), raw[4..])
  }

  lemma ExtensionsStep(raw: Data, rest: Data)
    requires Whole(raw) && Extensions(rest).Some?
    ensures Extensions(raw + rest) == Some([Read(raw)] + Extensions(rest).value)
  {
    var b := raw + rest;
    assert b[2..][2..|raw| - 2] == raw[4..] && b[2..][|raw| - 2..] == rest;
  }

  lemma {:induction false} ConcatCons(part: Data, parts: seq<Data>)
    ensures Concat([part] + parts) == part + Concat(parts)
  {
    if parts == [] {
      assert [part] + parts == [part];
      assert [part][..0] == [];
      assert Concat([part]) == [] + part == part + [];
    } else {
      var n := |parts| - 1;
      ConcatCons(part, parts[..n]);
      assert ([part] + parts)[..n + 1] == [part] + parts[..n];
    }
  }

  predicate AllWhole(raws: seq<Data>) {
    forall i | 0 <= i < |raws| :: Whole(raws[i])
  }

  function ReadAll(raws: seq<Data>): (r: seq<Extension>)
    requires AllWhole(raws)
    ensures |r| == |raws| && forall i | 0 <= i < |r| :: r[i] == Read(raws[i])
  {
    if raws == [] then [] else [Read(raws[0])] + ReadAll(raws[1..])
  }

  /** A block laid out extension by extension is read as those extensions. */
  lemma {:induction false} ExtensionsOf(raws: seq<Data>)
    requires AllWhole(raws)
    ensures Extensions(Concat(raws)) == Some(ReadAll(raws))
  {
    if raws != [] {
      hide Extensions, Whole, Read, Concat;
      ExtensionsOf(raws[1..]);
      assert raws == [raws[0]] + raws[1..];
      ConcatCons(raws[0], raws[1..]);
      ExtensionsStep(raws[0], Concat(raws[1..]));
    }
  }
}

/** The ClientHello built to be seen: fixed in size, naming one domain. */
module SniHello {
  import opened Bytes
  import opened TlsReader

  const HELLO_SIZE := 517
  const MAX_SNI := 219
  const LENGTH_AT := 125

  const PREFIX: Data := [0x16, 0x03, 0x01, 0x02, 0x00, 0x01, 0x00, 0x01, 0xfc, 0x03, 0x03]

  const SUITES: Data := [
    0x13, 0x02, 0x13, 0x03, 0x13, 0x01, 0xc0, 0x2c, 0xc0, 0x30, 0xc0, 0x2b, 0xc0, 0x2f, 0xcc, 0xa9, 0xcc, 0xa8,
    0xc0, 0x24, 0xc0, 0x28, 0xc0, 0x23, 0xc0, 0x27, 0x00, 0x9f, 0x00, 0x9e, 0x00, 0x6b, 0x00, 0x67, 0x00, 0xff]

  // The cipher suites, the compression methods, the length of the extension block and the first extension type.
  const MIDDLE: Data := [0x00, 0x24] + SUITES + [0x01, 0x00] + [0x01, 0x8f] + [0x00, 0x00]

  // The block after the server name, extension by extension.
  const POINT_FORMATS: Data := [0x00, 0x0b, 0x00, 0x04, 0x03, 0x00, 0x01, 0x02]
  const GROUP_LIST: Data := [
    0x00, 0x1d, 0x00, 0x17, 0x00, 0x1e, 0x00, 0x19, 0x00, 0x18,
    0x01, 0x00, 0x01, 0x01, 0x01, 0x02, 0x01, 0x03, 0x01, 0x04]
  const GROUPS: Data := [0x00, 0x0a, 0x00, 0x16, 0x00, 0x14] + GROUP_LIST
  const TICKET: Data := [0x00, 0x23, 0x00, 0x00]
  const H2: Data := [0x68, 0x32]
  const HTTP_1_1: Data := [0x68, 0x74, 0x74, 0x70, 0x2f, 0x31, 0x2e, 0x31]
  const PROTOCOL_LIST: Data := [0x02] + H2 + ([0x08] + HTTP_1_1)
  const ALPN: Data := [0x00, 0x10, 0x00, 0x0e, 0x00, 0x0c] + PROTOCOL_LIST
  const ENCRYPT_THEN_MAC: Data := [0x00, 0x16, 0x00, 0x00]
  const MASTER_SECRET: Data := [0x00, 0x17, 0x00, 0x00]
  const NEWER_SIGNATURES: Data := [
    0x04, 0x03, 0x05, 0x03, 0x06, 0x03, 0x08, 0x07, 0x08, 0x08, 0x08, 0x09, 0x08, 0x0a, 0x08, 0x0b, 0x08, 0x04,
    0x08, 0x05]
  const OLDER_SIGNATURES: Data := [
    0x08, 0x06, 0x04, 0x01, 0x05, 0x01, 0x06, 0x01, 0x03, 0x03, 0x03, 0x01, 0x03, 0x02, 0x04, 0x02, 0x05, 0x02,
    0x06, 0x02]
  const SIGNATURE_LIST: Data := NEWER_SIGNATURES + OLDER_SIGNATURES
  const SIGNATURES: Data := [0x00, 0x0d, 0x00, 0x2a, 0x00, 0x28] + SIGNATURE_LIST
  const VERSIONS: Data := [0x00, 0x2b, 0x00, 0x05, 0x04, 0x03, 0x04, 0x03, 0x03]
  const PSK_MODES: Data := [0x00, 0x2d, 0x00, 0x02, 0x01, 0x01]
  const KEY_SHARE_HEAD: Data := [0x00, 0x33, 0x00, 0x26, 0x00, 0x24, 0x00, 0x1d, 0x00, 0x20]

  const SUFFIX: Data := POINT_FORMATS + GROUPS + TICKET + ALPN + ENCRYPT_THEN_MAC + MASTER_SECRET + SIGNATURES
                        + VERSIONS + PSK_MODES + KEY_SHARE_HEAD

  datatype Failure = NoDomain | TooLong | WrongSize

  datatype Built = Built(bytes: Data) | Failed(why: Failure)

  /** The random blocks of one hello. */
  datatype Blocks = Blocks(random: Data, session: Data, key: Data)

  predicate ValidBlocks(b: Blocks) {
    |b.random| == |b.session| == |b.key| == 32
  }

  function Zeros(n: nat): (z: Data)
    ensures |z| == n && forall i | 0 <= i < n :: z[i] == 0
  {
    seq(n, i => 0)
  }

  /** Builds the hello that names a domain; `blocks` are the random bytes that go into it. */
  method BuildHello(sni: Data, blocks: Blocks) returns (r: Built)
    requires ValidBlocks(blocks)
    ensures sni == [] ==> r == Failed(NoDomain)
    ensures |sni| > 219 ==> r == Failed(TooLong)
    ensures 1 <= |sni| <= 219 ==> r.Built? && |r.bytes| == 517 && r.bytes == Laid(sni, blocks)
  {
    if sni == [] {
      return Failed(NoDomain);
    }
    if |sni| > MAX_SNI {
      return Failed(TooLong);
    }
    var out := PREFIX;
    out := out + blocks.random;
    out := out + [0x20];
    out := out + blocks.session;
    out := out + MIDDLE;

    out := out + U16(|sni| + 5);
    out := out + U16(|sni| + 3);
    out := out + [0x00];
    out := out + U16(|sni|);
    out := out + sni;

    out := out + SUFFIX;
    out := out + blocks.key;

    out := out + [0x00, 0x15];
    var pad := MAX_SNI - |sni|;
    out := out + U16(pad);
    out := out + Zeros(pad);
    SuffixSize();
    if |out| != HELLO_SIZE {
      return Failed(WrongSize);
    }
    return Built(out);
  }

  function Laid(sni: Data, blocks: Blocks): Data
    requires |sni| <= MAX_SNI
  {
    PREFIX + blocks.random + [0x20] + blocks.session + MIDDLE + U16(|sni| + 5) + U16(|sni| + 3) + [0x00] + U16(|sni|) + sni
    + SUFFIX + blocks.key + [0x00, 0x15] + U16(MAX_SNI - |sni|) + Zeros(MAX_SNI - |sni|)
  }

  lemma SuffixSize()
    ensures |SUFFIX| == 135
  {
  }

  function SniExtension(sni: Data): Data
    requires |sni| <= MAX_SNI
  {
    [0x00, 0x00] + U16(|sni| + 5) + U16(|sni| + 3) + [0x00] + U16(|sni|) + sni
  }

  function PaddingExtension(n: nat): Data {
    [0x00, 0x15] + U16(n) + Zeros(n)
  }

  function Parts(sni: Data, blocks: Blocks): seq<Data>
    requires |sni| <= MAX_SNI
  {
    [SniExtension(sni), POINT_FORMATS, GROUPS, TICKET, ALPN, ENCRYPT_THEN_MAC, MASTER_SECRET, SIGNATURES, VERSIONS,
     PSK_MODES, KEY_SHARE_HEAD + blocks.key, PaddingExtension(MAX_SNI - |sni|)]
  }

  function BodyHead(blocks: Blocks): Data {
    [0x03, 0x03] + blocks.random + [0x20] + blocks.session + [0x00, 0x24] + SUITES + [0x01, 0x00] + [0x01, 0x8f]
  }

  function Block(sni: Data, blocks: Blocks): Data
    requires |sni| <= MAX_SNI
  {
    SniExtension(sni) + SUFFIX + blocks.key + PaddingExtension(MAX_SNI - |sni|)
  }

  lemma Regrouped(sni: Data, blocks: Blocks)
    requires |sni| <= MAX_SNI && ValidBlocks(blocks)
    ensures Laid(sni, blocks) == PREFIX[..9] + BodyHead(blocks) + Block(sni, blocks)
  {
    SuffixSize();
    hide U16, SUFFIX, SUITES;
  }

  lemma ConcatTake(parts: seq<Data>, n: nat)
    requires n < |parts|
    ensures Concat(parts[..n + 1]) == Concat(parts[..n]) + parts[n]
  {
    assert parts[..n + 1][..n] == parts[..n];
  }

  lemma ConcatSix(p: seq<Data>)
    requires |p| >= 6
    ensures Concat(p[..6]) == p[0] + p[1] + p[2] + p[3] + p[4] + p[5]
  {
    assert p[..0] == [] && Concat(p[..0]) == [];
    hide *;
    ConcatTake(p, 0);
    ConcatTake(p, 1);
    ConcatTake(p, 2);
    ConcatTake(p, 3);
    ConcatTake(p, 4);
    ConcatTake(p, 5);
    assert [] + p[0] == p[0];
  }

  lemma ConcatTwelve(p: seq<Data>)
    requires |p| == 12
    ensures Concat(p) == p[0] + p[1] + p[2] + p[3] + p[4] + p[5] + p[6] + p[7] + p[8] + p[9] + p[10] + p[11]
  {
    hide *;
    ConcatSix(p);
    ConcatTake(p, 6);
    ConcatTake(p, 7);
    ConcatTake(p, 8);
    ConcatTake(p, 9);
    ConcatTake(p, 10);
    ConcatTake(p, 11);
    assert p[..12] == p;
  }

  lemma Regroup(p: seq<Data>, head: Data, key: Data)
    requires |p| == 12 && p[10] == head + key
    ensures p[0] + p[1] + p[2] + p[3] + p[4] + p[5] + p[6] + p[7] + p[8] + p[9] + p[10] + p[11] ==
            p[0] + (p[1] + p[2] + p[3] + p[4] + p[5] + p[6] + p[7] + p[8] + p[9] + head) + key + p[11]
  {
  }

  lemma BlockParts(sni: Data, blocks: Blocks)
    requires |sni| <= MAX_SNI && ValidBlocks(blocks)
    ensures Block(sni, blocks) == Concat(Parts(sni, blocks))
  {
    var p := Parts(sni, blocks);
    ConcatTwelve(p);
    Regroup(p, KEY_SHARE_HEAD, blocks.key);
    hide Concat, U16;
  }

  lemma BlockSize(sni: Data, blocks: Blocks)
    requires |sni| <= MAX_SNI && ValidBlocks(blocks)
    ensures |Block(sni, blocks)| == 399
  {
    SuffixSize();
    hide SUFFIX, U16;
  }

  /** The body is read back as what was put into it. */
  lemma BodyRead(blocks: Blocks, block: Data)
    requires ValidBlocks(blocks) && |block| == 399 && Extensions(block).Some?
    ensures Body(BodyHead(blocks) + block) ==
            Some(Hello(0x0303, blocks.random, blocks.session, SUITES, [0x00], Extensions(block).value))
  {
    var head := [0x03, 0x03] + blocks.random;
    BodyOf(head, blocks.session, SUITES, [0x00], block);
    assert head[2..] == blocks.random;
    BodyRegrouped(blocks, block);
    hide Body, Extensions;
  }

  lemma BodyRegrouped(blocks: Blocks, block: Data)
    requires ValidBlocks(blocks) && |block| == 399
    ensures BodyHead(blocks) + block == [0x03, 0x03] + blocks.random + ([|blocks.session|] + blocks.session
              + (U16(|SUITES|) + SUITES + ([|[0x00]|] + [0x00] + (U16(|block|) + block))))
  {
    assert U16(399) == [0x01, 0x8f] && U16(36) == [0x00, 0x24];
    hide U16, SUITES;
  }

  lemma ConstantsWhole()
    ensures Whole(POINT_FORMATS) && Whole(GROUPS) && Whole(TICKET) && Whole(ALPN) && Whole(ENCRYPT_THEN_MAC)
    ensures Whole(MASTER_SECRET) && Whole(SIGNATURES) && Whole(VERSIONS) && Whole(PSK_MODES)
  {
  }

  lemma PartsWhole(sni: Data, blocks: Blocks)
    requires 1 <= |sni| <= MAX_SNI && ValidBlocks(blocks)
    ensures AllWhole(Parts(sni, blocks))
  {
    ConstantsWhole();
    SaysName(sni);
    SaysKey(blocks.key);
    SaysPadding(MAX_SNI - |sni|);
    hide Whole, SniExtension, PaddingExtension, Read, ServerNames, OneKeyShare;
  }

  /** Every hello is one well-formed ClientHello in one record of 517 bytes, with all its lengths in agreement
      and the random blocks in their places. */
  lemma {:induction false} HelloIsWellFormed(sni: Data, blocks: Blocks)
    requires 1 <= |sni| <= MAX_SNI && ValidBlocks(blocks)
    ensures AllWhole(Parts(sni, blocks)) && |Laid(sni, blocks)| == HELLO_SIZE
    ensures Message(Laid(sni, blocks)) ==
            Some(Hello(0x0303, blocks.random, blocks.session, SUITES, [0x00], ReadAll(Parts(sni, blocks))))
  {
    PartsWhole(sni, blocks);
    ExtensionsOf(Parts(sni, blocks));
    BlockParts(sni, blocks);
    BlockSize(sni, blocks);
    BodyRead(blocks, Block(sni, blocks));
    Regrouped(sni, blocks);
    HeaderRead(blocks, Block(sni, blocks));
  }

  lemma HeaderRead(blocks: Blocks, block: Data)
    requires ValidBlocks(blocks) && |block| == 399
    ensures |PREFIX[..9] + BodyHead(blocks) + block| == HELLO_SIZE
    ensures Message(PREFIX[..9] + BodyHead(blocks) + block) == Body(BodyHead(blocks) + block)
  {
    var b := PREFIX[..9] + BodyHead(blocks) + block;
    assert |BodyHead(blocks)| == 109;
    hide Body, BodyHead, Message;
    assert b[9..] == BodyHead(blocks) + block;
    assert b[..9] == PREFIX[..9];
    HeaderOnly(b);
  }

  lemma HeaderOnly(b: Data)
    requires |b| == HELLO_SIZE && b[..9] == PREFIX[..9]
    ensures Message(b) == Body(b[9..])
  {
    hide Body;
    assert b[0] == b[..9][0] && b[1] == b[..9][1] && b[3] == b[..9][3] && b[4] == b[..9][4];
    assert b[5] == b[..9][5] && b[6] == b[..9][6] && b[7] == b[..9][7] && b[8] == b[..9][8];
  }

  /** What its extensions say: the one name is the domain, the key share is the key drawn, the padding is
      zeros, and no extension is there twice. */
  lemma {:induction false} HelloSays(sni: Data, blocks: Blocks)
    requires 1 <= |sni| <= MAX_SNI && ValidBlocks(blocks)
    ensures Message(Laid(sni, blocks)).Some? && |Message(Laid(sni, blocks)).value.extensions| == 12
    ensures var x := Message(Laid(sni, blocks)).value.extensions;
            && x[0].kind == SERVER_NAME && ServerNames(x[0].data) == Some([sni])
            && x[10].kind == KEY_SHARE && OneKeyShare(x[10].data) == Some(KeyShare(0x1d, blocks.key))
            && x[11] == Extension(PADDING, Zeros(MAX_SNI - |sni|))
            && Kinds(x) == [0, 11, 10, 35, 16, 22, 23, 13, 43, 45, 51, 21]
  {
    HelloIsWellFormed(sni, blocks);
    hide Message, Laid, Kinds;
    SaysName(sni);
    SaysKey(blocks.key);
    SaysPadding(MAX_SNI - |sni|);
    KindsOfParts(sni, blocks);
    hide Read, SniExtension, PaddingExtension, ServerNames, OneKeyShare, ReadAll, AllWhole;
  }

  /** What a reader finds in the constant parts: the point formats, groups, protocols, signature schemes, versions
      and key exchange modes on offer, and the suites. */
  lemma PointFormatsSay()
    ensures Whole(POINT_FORMATS) && ByteList(Read(POINT_FORMATS).data) == Some([0, 1, 2])
  {
    Vector8Of([0, 1, 2], []);
    assert POINT_FORMATS[4..] == [|[0, 1, 2]|] + [0, 1, 2] + [];
  }

  lemma GroupUnits()
    ensures Units(GROUP_LIST) == Some([0x1d, 0x17, 0x1e, 0x19, 0x18, 0x100, 0x101, 0x102, 0x103, 0x104])
  {
    UnitsAre(GROUP_LIST, [0x1d, 0x17, 0x1e, 0x19, 0x18, 0x100, 0x101, 0x102, 0x103, 0x104]);
  }

  lemma GroupBytes()
    ensures Whole(GROUPS) && Read(GROUPS).data == U16(|GROUP_LIST|) + GROUP_LIST
  {
    assert GROUPS[4..] == U16(|GROUP_LIST|) + GROUP_LIST;
  }

  lemma GroupsSay()
    ensures Whole(GROUPS)
    ensures LongList(Read(GROUPS).data) == Some([0x1d, 0x17, 0x1e, 0x19, 0x18, 0x100, 0x101, 0x102, 0x103, 0x104])
  {
    GroupBytes();
    GroupUnits();
    Vector16Whole(GROUP_LIST);
    hide Units, Vector16, Whole, Read, GROUPS, U16;
  }

  lemma TicketSays()
    ensures Whole(TICKET) && Read(TICKET).data == []
  {
    assert TICKET[4..] == [];
  }

  lemma EncryptThenMacSays()
    ensures Whole(ENCRYPT_THEN_MAC) && Read(ENCRYPT_THEN_MAC).data == []
  {
    assert ENCRYPT_THEN_MAC[4..] == [];
  }

  lemma MasterSecretSays()
    ensures Whole(MASTER_SECRET) && Read(MASTER_SECRET).data == []
  {
    assert MASTER_SECRET[4..] == [];
  }

  lemma VersionsSay()
    ensures Whole(VERSIONS) && ShortList(Read(VERSIONS).data) == Some([0x304, 0x303])
  {
    var list: Data := [3, 4, 3, 3];
    assert VERSIONS[4..] == [|list|] + list + [];
    Vector8Of(list, []);
    UnitsAre(list, [0x304, 0x303]);
  }

  lemma ModesSay()
    ensures Whole(PSK_MODES) && ByteList(Read(PSK_MODES).data) == Some([1])
  {
    Vector8Of([1], []);
    assert PSK_MODES[4..] == [|[1]|] + [1] + [];
  }

  lemma NewerSignatures()
    ensures Units(NEWER_SIGNATURES) == Some([0x403, 0x503, 0x603, 0x807, 0x808, 0x809, 0x80a, 0x80b, 0x804, 0x805])
  {
    UnitsAre(NEWER_SIGNATURES, [0x403, 0x503, 0x603, 0x807, 0x808, 0x809, 0x80a, 0x80b, 0x804, 0x805]);
  }

  lemma OlderSignatures()
    ensures Units(OLDER_SIGNATURES) == Some([0x806, 0x401, 0x501, 0x601, 0x303, 0x301, 0x302, 0x402, 0x502, 0x602])
  {
    UnitsAre(OLDER_SIGNATURES, [0x806, 0x401, 0x501, 0x601, 0x303, 0x301, 0x302, 0x402, 0x502, 0x602]);
  }

  lemma SignatureBytes()
    ensures Whole(SIGNATURES) && Read(SIGNATURES).data == U16(|SIGNATURE_LIST|) + SIGNATURE_LIST
  {
    assert SIGNATURES[4..] == U16(|SIGNATURE_LIST|) + SIGNATURE_LIST;
  }

  lemma SignaturesSay()
    ensures Whole(SIGNATURES)
    ensures LongList(Read(SIGNATURES).data) ==
              Some([0x403, 0x503, 0x603, 0x807, 0x808, 0x809, 0x80a, 0x80b, 0x804, 0x805]
                   + [0x806, 0x401, 0x501, 0x601, 0x303, 0x301, 0x302, 0x402, 0x502, 0x602])
  {
    SignatureBytes();
    Vector16Whole(SIGNATURE_LIST);
    NewerSignatures();
    OlderSignatures();
    hide Units, Vector16, Whole, Read, SIGNATURES, U16;
    UnitsOfBoth(NEWER_SIGNATURES, OLDER_SIGNATURES);
  }

  lemma ProtocolsRead()
    ensures ProtocolNames(PROTOCOL_LIST) == Some([H2] + ([HTTP_1_1] + []))
  {
    var second: Data := [0x08] + HTTP_1_1;
    Vector8Of(H2, second);
    Vector8Of(HTTP_1_1, []);
    assert second + [] == second;
    assert ProtocolNames([]) == Some([]);
    hide Vector8;
    assert ProtocolNames(second) == Some([HTTP_1_1] + []);
  }

  lemma ProtocolBytes()
    ensures Whole(ALPN) && Read(ALPN).data == U16(|PROTOCOL_LIST|) + PROTOCOL_LIST
  {
    assert ALPN[4..] == U16(|PROTOCOL_LIST|) + PROTOCOL_LIST;
  }

  lemma ProtocolsSay()
    ensures Whole(ALPN) && Protocols(Read(ALPN).data) == Some([H2, HTTP_1_1])
  {
    ProtocolBytes();
    ProtocolsRead();
    Vector16Whole(PROTOCOL_LIST);
    hide Vector16, Whole, Read, ALPN, PROTOCOL_LIST, U16, ProtocolNames, H2, HTTP_1_1;
    assert [H2] + ([HTTP_1_1] + []) == [H2, HTTP_1_1];
  }

  lemma SuitesSay()
    ensures Units(SUITES) ==
              Some([0x1302, 0x1303, 0x1301, 0xc02c, 0xc030, 0xc02b, 0xc02f, 0xcca9, 0xcca8, 0xc024, 0xc028, 0xc023, 0xc027,
                    0x9f, 0x9e, 0x6b, 0x67, 0xff])
  {
    UnitsAre(SUITES,
             [0x1302, 0x1303, 0x1301, 0xc02c, 0xc030, 0xc02b, 0xc02f, 0xcca9, 0xcca8, 0xc024, 0xc028, 0xc023, 0xc027,
              0x9f, 0x9e, 0x6b, 0x67, 0xff]);
  }

  /** What a hello offers besides, as a reader finds it in its extensions and its suites. */
  lemma {:induction false} HelloOffers(sni: Data, blocks: Blocks)
    requires 1 <= |sni| <= MAX_SNI && ValidBlocks(blocks)
    ensures Message(Laid(sni, blocks)).Some? && |Message(Laid(sni, blocks)).value.extensions| == 12
    ensures var hello := Message(Laid(sni, blocks)).value;
            var x := hello.extensions;
            && hello.version == 0x303 && hello.random == blocks.random && hello.session == blocks.session
            && Units(hello.suites) ==
                 Some([0x1302, 0x1303, 0x1301, 0xc02c, 0xc030, 0xc02b, 0xc02f, 0xcca9, 0xcca8, 0xc024, 0xc028, 0xc023,
                       0xc027, 0x9f, 0x9e, 0x6b, 0x67, 0xff])
            && ByteList(x[1].data) == Some([0, 1, 2])
            && LongList(x[2].data) == Some([0x1d, 0x17, 0x1e, 0x19, 0x18, 0x100, 0x101, 0x102, 0x103, 0x104])
            && x[3].data == x[5].data == x[6].data == []
            && Protocols(x[4].data) == Some([H2, HTTP_1_1])
            && LongList(x[7].data) ==
                 Some([0x403, 0x503, 0x603, 0x807, 0x808, 0x809, 0x80a, 0x80b, 0x804, 0x805]
                      + [0x806, 0x401, 0x501, 0x601, 0x303, 0x301, 0x302, 0x402, 0x502, 0x602])
            && ShortList(x[8].data) == Some([0x304, 0x303])
            && ByteList(x[9].data) == Some([1])
  {
    HelloIsWellFormed(sni, blocks);
    PartsAre(sni, blocks);
    hide *;
    ReadsParts(Parts(sni, blocks), ReadAll(Parts(sni, blocks)));
    PointFormatsSay();
    GroupsSay();
    TicketSays();
    ProtocolsSay();
    EncryptThenMacSays();
    MasterSecretSays();
    SignaturesSay();
    VersionsSay();
    ModesSay();
    SuitesSay();
  }

  lemma PartsAre(sni: Data, blocks: Blocks)
    requires |sni| <= MAX_SNI
    ensures var p := Parts(sni, blocks);
            && |p| == 12 && p[1] == POINT_FORMATS && p[2] == GROUPS && p[3] == TICKET && p[4] == ALPN
            && p[5] == ENCRYPT_THEN_MAC && p[6] == MASTER_SECRET && p[7] == SIGNATURES && p[8] == VERSIONS && p[9] == PSK_MODES
  {
    hide SniExtension, PaddingExtension;
  }

  lemma ReadsParts(p: seq<Data>, x: seq<Extension>)
    requires |p| == 12 && AllWhole(p) && x == ReadAll(p)
    ensures |x| == 12 && forall i | 0 <= i < 12 :: Whole(p[i]) && x[i] == Read(p[i])
  {
    hide Whole, Read, ReadAll;
  }

  function Kinds(extensions: seq<Extension>): seq<nat> {
    if extensions == [] then [] else Kinds(extensions[..|extensions| - 1]) + [extensions[|extensions| - 1].kind]
  }

  lemma {:induction false} KindsAt(extensions: seq<Extension>)
    ensures |Kinds(extensions)| == |extensions|
    ensures forall i | 0 <= i < |extensions| :: Kinds(extensions)[i] == extensions[i].kind
  {
    if extensions != [] {
      KindsAt(extensions[..|extensions| - 1]);
    }
  }

  lemma KindOf(raw: Data, kind: Byte)
    requires Whole(raw) && raw[0] == 0 && raw[1] == kind
    ensures Read(raw).kind == kind
  {
  }

  lemma KindsOfParts(sni: Data, blocks: Blocks)
    requires 1 <= |sni| <= MAX_SNI && ValidBlocks(blocks) && AllWhole(Parts(sni, blocks))
    ensures Kinds(ReadAll(Parts(sni, blocks))) == [0, 11, 10, 35, 16, 22, 23, 13, 43, 45, 51, 21]
  {
    var p := Parts(sni, blocks);
    var x := ReadAll(p);
    FirstAndLast(sni, blocks);
    KindsAt(x);
    assert forall i | 0 <= i < 12 :: Whole(p[i]) && x[i] == Read(p[i]);
    hide Whole, Read, ReadAll, AllWhole, SniExtension, PaddingExtension, Kinds;
    KindOf(p[0], 0);
    KindOf(p[1], 11);
    KindOf(p[2], 10);
    KindOf(p[3], 35);
    KindOf(p[4], 16);
    KindOf(p[5], 22);
    KindOf(p[6], 23);
    KindOf(p[7], 13);
    KindOf(p[8], 43);
    KindOf(p[9], 45);
    KindOf(p[10], 51);
    KindOf(p[11], 21);
  }

  lemma FirstAndLast(sni: Data, blocks: Blocks)
    requires |sni| <= MAX_SNI
    ensures var first := SniExtension(sni); |first| >= 4 && first[0] == 0 && first[1] == 0
    ensures var last := PaddingExtension(MAX_SNI - |sni|); |last| >= 4 && last[0] == 0 && last[1] == 21
  {
  }

  lemma SaysName(sni: Data)
    requires 1 <= |sni| <= MAX_SNI
    ensures Whole(SniExtension(sni)) && Read(SniExtension(sni)).kind == SERVER_NAME
    ensures ServerNames(Read(SniExtension(sni)).data) == Some([sni])
  {
    ServerNamesOf(sni);
    SniExtensionTail(sni);
    hide ServerNames, SniExtension, U16;
  }

  lemma SniExtensionTail(sni: Data)
    requires |sni| <= MAX_SNI
    ensures SniExtension(sni)[4..] == U16(|sni| + 3) + ([0] + (U16(|sni|) + sni))
    ensures Whole(SniExtension(sni)) && SniExtension(sni)[0] == 0 && SniExtension(sni)[1] == 0
  {
    U16Value(|sni| + 5);
    hide U16;
    assert SniExtension(sni)[2..4] == U16(|sni| + 5);
  }

  lemma SaysKey(key: Data)
    requires |key| == 32
    ensures Whole(KEY_SHARE_HEAD + key) && Read(KEY_SHARE_HEAD + key).kind == KEY_SHARE
    ensures OneKeyShare(Read(KEY_SHARE_HEAD + key).data) == Some(KeyShare(0x1d, key))
  {
    hide OneKeyShare, U16;
    OneKeyShareOf([0x00, 0x1d], key);
    KeyShareTail(key);
    var raw := KEY_SHARE_HEAD + key;
    assert raw[0] == 0x00 && raw[1] == 0x33 && raw[2] == 0x00 && raw[3] == 0x26;
    hide KEY_SHARE_HEAD;
  }

  lemma KeyShareTail(key: Data)
    ensures (KEY_SHARE_HEAD + key)[4..] == U16(36) + ([0x00, 0x1d] + (U16(32) + key))
  {
    assert U16(32) == [0x00, 0x20] && U16(36) == [0x00, 0x24];
    hide U16;
  }

  lemma SaysPadding(n: nat)
    requires n <= MAX_SNI
    ensures Whole(PaddingExtension(n)) && Read(PaddingExtension(n)) == Extension(PADDING, Zeros(n))
  {
    U16Value(n);
    assert PaddingExtension(n)[4..] == Zeros(n);
  }

  // ---- Reading the domain back ----

  method SniOf(hello: Data) returns (name: Data, ok: bool)
    ensures ok <==> |hello| >= HELLO_SIZE
                    && LENGTH_AT + 2 + FromU16(hello[LENGTH_AT], hello[LENGTH_AT + 1]) <= |hello|
    ensures ok ==> Named(hello, name)
    ensures !ok ==> name == []
  {
    if |hello| < HELLO_SIZE {
      return [], false;
    }
    var n := FromU16(hello[LENGTH_AT], hello[LENGTH_AT + 1]);
    if LENGTH_AT + 2 + n > |hello| {
      return [], false;
    }
    return hello[LENGTH_AT + 2..LENGTH_AT + 2 + n], true;
  }

  /** The name stands, behind its length, where a hello carries it. */
  predicate Named(hello: Data, name: Data) {
    |name| < 65536 && LENGTH_AT + 2 + |name| <= |hello|
    && hello[LENGTH_AT..LENGTH_AT + 2 + |name|] == U16(|name|) + name
  }

  predicate LooksLikeHello(p: Data) {
    |p| == HELLO_SIZE && p[0] == 0x16 && p[1] == 0x03 && p[2] == 0x01 && p[5] == 0x01
  }

  /** Whatever a hello is built for, it looks like one and reading the name from its fixed place gives the
      domain, and no other name can be read there. */
  lemma NameIsRead(sni: Data, blocks: Blocks, name: Data)
    requires 1 <= |sni| <= MAX_SNI && ValidBlocks(blocks)
    ensures LooksLikeHello(Laid(sni, blocks))
    ensures Named(Laid(sni, blocks), name) <==> name == sni
  {
    hide Laid, U16, LooksLikeHello;
    var hello := Laid(sni, blocks);
    NamePlaced(sni, blocks);
    if Named(hello, name) {
      NamedParts(hello, name);
      hide *;
      U16Injective(|name|, |sni|);
    }
  }

  lemma NamedParts(hello: Data, name: Data)
    requires Named(hello, name)
    ensures hello[LENGTH_AT..LENGTH_AT + 2] == U16(|name|)
    ensures hello[LENGTH_AT + 2..LENGTH_AT + 2 + |name|] == name
  {
    hide U16;
    var whole := hello[LENGTH_AT..LENGTH_AT + 2 + |name|];
    assert whole[..2] == hello[LENGTH_AT..LENGTH_AT + 2] && whole[2..] == hello[LENGTH_AT + 2..LENGTH_AT + 2 + |name|];
  }

  lemma NamePlaced(sni: Data, blocks: Blocks)
    requires 1 <= |sni| <= MAX_SNI && ValidBlocks(blocks)
    ensures var hello := Laid(sni, blocks);
            && |hello| == HELLO_SIZE && LooksLikeHello(hello)
            && hello[LENGTH_AT..LENGTH_AT + 2] == U16(|sni|)
            && hello[LENGTH_AT + 2..LENGTH_AT + 2 + |sni|] == sni
            && hello[LENGTH_AT..LENGTH_AT + 2 + |sni|] == U16(|sni|) + sni
  {
    SuffixSize();
    var hello := Laid(sni, blocks);
    hide U16, SUFFIX;
    assert hello[LENGTH_AT..LENGTH_AT + 2] == U16(|sni|);
    assert hello[LENGTH_AT + 2..LENGTH_AT + 2 + |sni|] == sni;
    hide Laid;
    assert hello[LENGTH_AT..LENGTH_AT + 2 + |sni|] ==
           hello[LENGTH_AT..LENGTH_AT + 2] + hello[LENGTH_AT + 2..LENGTH_AT + 2 + |sni|];
  }
}
