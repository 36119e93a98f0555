/**
 What the server answers a control claim with, as it packs it and the client unpacks it, and the mux
 version each end settles on.
 */
module Handshake {
  import opened Bytes

  const SG_CHAN: Byte := 1
  const SG_CHAN_V2: Byte := 7
  const SG_POOL: Byte := 8
  const SG_REFUSED: Byte := 9

  const NONCE_HEX_LEN := 64
  const DIGIT_ZERO: Byte := 48
  const MUX_VERSION_AUTO := 0

  datatype Decoded = Decoded(token: seq<Byte>, nonce: seq<Byte>, version: nat)

  datatype Answer = Answer(ack: seq<Byte>, nonce: seq<Byte>, promised: nat)

  predicate IsControlSignal(sig: Byte) {
    sig == SG_CHAN || sig == SG_CHAN_V2
  }

  function EncodeControlAck(token: seq<Byte>, nonce: seq<Byte>, version: nat): (ack: seq<Byte>)
    requires version <= 9
  {
    nonce + [DIGIT_ZERO + version] + token
  }

  /** The digit is subtracted in a byte, so anything below '0' wraps round to more than 9. */
  function DecodeControlAck(ack: seq<Byte>): (d: Decoded) {
    if |ack| < NONCE_HEX_LEN + 1 then Decoded([], [], 0)
    else
      var v := (ack[NONCE_HEX_LEN] - DIGIT_ZERO) % 256;
      if v > 9 then Decoded([], [], 0)
      else Decoded(ack[NONCE_HEX_LEN + 1..], ack[..NONCE_HEX_LEN], v)
  }

  predicate WellFormedAck(ack: seq<Byte>) {
    |ack| >= NONCE_HEX_LEN + 1 && DIGIT_ZERO <= ack[NONCE_HEX_LEN] <= DIGIT_ZERO + 9
  }

  /** Every token comes back, whatever bytes it holds: nothing in it can be taken for a separator. */
  lemma DecodeInvertsEncode(token: seq<Byte>, nonce: seq<Byte>, version: nat)
    requires |nonce| == 64 && version <= 9
    ensures WellFormedAck(EncodeControlAck(token, nonce, version))
    ensures DecodeControlAck(EncodeControlAck(token, nonce, version)) == Decoded(token, nonce, version)
  {
    var ack := EncodeControlAck(token, nonce, version);
    assert ack[..NONCE_HEX_LEN] == nonce && ack[NONCE_HEX_LEN + 1..] == token;
  }

  /** And every answer is either packed from what it decodes to, or rejected whole. */
  lemma EncodeInvertsDecode(ack: seq<Byte>)
    ensures var d := DecodeControlAck(ack);
            if WellFormedAck(ack)
            then |d.nonce| == NONCE_HEX_LEN && d.version <= 9 && EncodeControlAck(d.token, d.nonce, d.version) == ack
            else d == Decoded([], [], 0)
  {
    if WellFormedAck(ack) {
      assert ack == ack[..NONCE_HEX_LEN] + [ack[NONCE_HEX_LEN]] + ack[NONCE_HEX_LEN + 1..];
    }
  }

  /** What the server answers, given the nonce it drew; a legacy handshake gets neither nonce nor version. */
  function ControlAck(sig: Byte, token: seq<Byte>, version: nat, nonce: seq<Byte>): (a: Answer)
    requires version <= 9
  {
    if sig != SG_CHAN_V2 then Answer(token, [], 0)
    else Answer(EncodeControlAck(token, nonce, version), nonce, version)
  }

  function ReadControlAck(ack: seq<Byte>, signal: Byte): (d: Decoded) {
    if signal != SG_CHAN_V2 then Decoded(ack, [], 0) else DecodeControlAck(ack)
  }

  /** The client reads out of the answer exactly what the server recorded when it gave it. */
  lemma AnswerIsUnderstood(sig: Byte, token: seq<Byte>, version: nat, nonce: seq<Byte>)
    requires |nonce| == NONCE_HEX_LEN && version <= 9
    ensures var a := ControlAck(sig, token, version, nonce);
            ReadControlAck(a.ack, sig) == Decoded(token, a.nonce, a.promised)
    ensures ControlAck(sig, token, version, nonce).nonce == [] <==> sig != SG_CHAN_V2
  {
    DecodeInvertsEncode(token, nonce, version);
  }

  function ResolveMuxVersion(configured: int): (v: nat)
    ensures v == 1 || v == 2
    ensures v == 1 <==> configured == 1
  {
    if configured == 1 || configured == 2 then configured else 2
  }

  /** setMuxVersion on the server: nothing negotiated and nothing configured means version 1. */
  function ServerVersion(configured: int, negotiated: nat): (v: nat)
    ensures v == 1 || v == 2
    ensures v == 1 <==> negotiated == 1 || (negotiated != 2 && configured in {0, 1})
  {
    if negotiated == 1 || negotiated == 2 then negotiated
    else if configured == MUX_VERSION_AUTO then 1
    else ResolveMuxVersion(configured)
  }

  /** setMuxVersion on the client. */
  function ClientVersion(configured: int, negotiated: nat): (v: nat)
    ensures v == 1 || v == 2
    ensures v == 2 <==> negotiated == 2 || (negotiated != 1 && configured == 2)
  {
    if negotiated == 1 || negotiated == 2 then negotiated
    else if configured == 1 || configured == 2 then configured
    else 1
  }

  /** smuxCfg: version 2 only when exactly that was stored. */
  function SessionVersion(stored: nat): (v: nat)
    ensures v == 1 || v == 2
    ensures v == 2 <==> stored == 2
  {
    if stored == 2 then 2 else 1
  }

  /** Without negotiation each end falls back on its own file; they land on the same version
      exactly when the server's file leaves it open or says 1 and the client's does not say 2,
      or the other way about. */
  lemma LegacyVersionsAgreeIff(server: int, client: int)
    ensures ServerVersion(server, 0) == ClientVersion(client, 0) <==>
            ((server == MUX_VERSION_AUTO || server == 1) <==> client != 2)
  {
  }

  /** A server told to use 2 and a client left to choose end up on 2 and 1. */
  lemma LegacyVersionsMayDiffer()
    ensures ServerVersion(2, 0) == 2 && ClientVersion(MUX_VERSION_AUTO, 0) == 1
  {
  }
}
