/**
 One run of a server transport: every accepted connection is admitted in a goroutine of its own,
 while another goroutine waits for the control channel and publishes it. Each action below is one
 access to a shared variable or channel, so a run is an arbitrary interleaving of them.

 `muxed` selects between the plain TCP transport and the multiplexed one, which alone stores a mux
 version between the nonce and the control channel, and builds each session with the stored one.
 */
module Admission {
  import opened Bytes
  import opened Handshake

  type ConnId = nat

  datatype Config = Config(token: seq<Byte>, muxed: bool, serverMux: int, poolSize: nat) {
    /** The version controlAck is offered; plain TCP has none to settle. */
    function OfferedVersion(): (v: nat)
      ensures v <= 2
    {
      if muxed then ResolveMuxVersion(serverMux) else 0
    }
  }

  /** A connection that proved it holds the token; `signal` is the handshake it spoke. */
  datatype Candidate = Candidate(conn: ConnId, signal: Byte, nonce: seq<Byte>, promised: nat)

  /** Where channelHandshake is. */
  datatype Publisher =
    | Waiting
    | Took(k: Candidate)
    | NonceSet(k: Candidate)
    | VersionSet(k: Candidate)
    | Published(k: Candidate)
    | GaveUp

  /** How far the run has been torn down. */
  datatype Phase = Live | Cancelled | ControlCleared | NonceCleared

  /** What got a connection into the pool. */
  datatype Credential = SourceAddress | Presented(nonce: seq<Byte>)

  /** Where a connection's goroutine is in admitTunnelConn. `settled` records whether the mux
      version had been stored when the session was built. */
  datatype Pc =
    | Accepted
    | SawControl
    | ByAddress
    | Listening
    | Announced(signal: Byte, payload: seq<Byte>)
    | Claiming(signal: Byte, payload: seq<Byte>)
    | Answering(signal: Byte)
    | Answered(k: Candidate)
    | Presenting(payload: seq<Byte>)
    | Admitted(credential: Credential)
    | Wrapped(credential: Credential, version: nat, settled: bool)
    | Offered
    | Pooled
    | Closed

  datatype Reply = Reply(payload: seq<Byte>, signal: Byte)

  datatype Conn = Conn(host: string, pc: Pc, reply: Option<Reply>)

  datatype PoolEntry = PoolEntry(conn: ConnId, credential: Credential, version: nat, settled: bool, phase: Phase)

  /** What a client that took a connection as its control channel stored. */
  datatype Adopted = Adopted(nonce: seq<Byte>, signal: Byte, version: nat)

  datatype State = State(
    nonce: seq<Byte>,
    control: Option<ConnId>,
    muxVersion: nat,
    handshakes: Option<Candidate>,   // the channel of capacity one
    publisher: Publisher,
    phase: Phase,
    conns: map<ConnId, Conn>,
    pool: seq<PoolEntry>,            // everything ever put on the tunnel channel
    waiting: nat,                    // how many of those nobody has taken yet
    adopted: map<ConnId, Adopted>
  )

  const REFUSED_IN_USE: seq<Byte> := [105, 110, 45, 117, 115, 101]
  const REFUSED_BAD_TOKEN: seq<Byte> := [116, 111, 107, 101, 110]

  datatype Action =
    | Accept(c: ConnId, host: string)
    | Drop(c: ConnId)                     // a failed stealth handshake, or no announcement in time
    | LookAtControl(c: ConnId)
    | LookAtNonce(c: ConnId)
    | CompareHosts(c: ConnId)
    | Announce(c: ConnId, signal: Byte, payload: seq<Byte>)
    | Dispatch(c: ConnId)
    | CheckInUse(c: ConnId)
    | AnswerClaim(c: ConnId, nonce: seq<Byte>, sent: bool)
    | Offer(c: ConnId)
    | Verify(c: ConnId)
    | Wrap(c: ConnId)
    | Deliver(c: ConnId)
    | TakeFromPool
    | Receive
    | SetNonce
    | SetVersion
    | SetControl
    | StopWaiting
    | Cancel
    | ClearControl
    | ClearNonce
    | Adopt(c: ConnId, clientMux: int)
  {
    predicate Looks() {
      Drop? || LookAtControl? || LookAtNonce? || Dispatch?
    }

    predicate Admits() {
      CompareHosts? || Verify? || Wrap?
    }

    predicate OfPublisher() {
      Receive? || SetNonce? || SetVersion? || SetControl? || StopWaiting?
    }
  }

  function Init(): State {
    State([], None, 0, None, Waiting, Live, map[], [], 0, map[])
  }

  predicate Enabled(cfg: Config, s: State, a: Action) {
    match a
    case Accept(c, _) => c !in s.conns
    case Drop(c) => c in s.conns && (s.conns[c].pc.Accepted? || s.conns[c].pc.Listening?)
    case LookAtControl(c) => c in s.conns && s.conns[c].pc.Accepted?
    case LookAtNonce(c) => c in s.conns && s.conns[c].pc.SawControl?
    case CompareHosts(c) => c in s.conns && s.conns[c].pc.ByAddress? && (s.control.Some? ==> s.control.value in s.conns)
    case Announce(c, _, _) => c in s.conns && s.conns[c].pc.Listening?
    case Dispatch(c) => c in s.conns && s.conns[c].pc.Announced?
    case CheckInUse(c) => c in s.conns && s.conns[c].pc.Claiming?
    case AnswerClaim(c, nonce, _) => c in s.conns && s.conns[c].pc.Answering? && |nonce| == NONCE_HEX_LEN
    case Offer(c) => c in s.conns && s.conns[c].pc.Answered?
    case Verify(c) => c in s.conns && s.conns[c].pc.Presenting?
    case Wrap(c) => c in s.conns && s.conns[c].pc.Admitted?
    case Deliver(c) => c in s.conns && s.conns[c].pc.Wrapped?
    case TakeFromPool => s.waiting > 0
    case Receive => s.publisher.Waiting? && s.handshakes.Some? && s.phase in {Live, Cancelled}
    case SetNonce => s.publisher.Took?
    case SetVersion => s.publisher.NonceSet? && cfg.muxed
    case SetControl => s.publisher.VersionSet? || (s.publisher.NonceSet? && !cfg.muxed)
    case StopWaiting => s.publisher.Waiting? && s.phase != Live
    case Cancel => s.phase == Live
    case ClearControl => s.phase == Cancelled && (s.publisher.Published? || s.publisher.GaveUp?)
    case ClearNonce => s.phase == ControlCleared
    case Adopt(c, _) =>
      && c in s.conns && c !in s.adopted && s.conns[c].reply.Some?
      && s.conns[c].reply.value.signal != SG_REFUSED
      && ReadControlAck(s.conns[c].reply.value.payload, s.conns[c].reply.value.signal).token == cfg.token
  }

  function Goto(s: State, c: ConnId, pc: Pc): State
    requires c in s.conns
  {
    s.(conns := s.conns[c := s.conns[c].(pc := pc)])
  }

  function Refuse(s: State, c: ConnId, reason: seq<Byte>): State
    requires c in s.conns
  {
    s.(conns := s.conns[c := s.conns[c].(pc := Closed, reply := Some(Reply(reason, SG_REFUSED)))])
  }

  function AnswerStep(cfg: Config, s: State, c: ConnId, nonce: seq<Byte>, sent: bool): State
    requires Enabled(cfg, s, AnswerClaim(c, nonce, sent))
  {
    var signal := s.conns[c].pc.signal;
    var answer := ControlAck(signal, cfg.token, cfg.OfferedVersion(), nonce);
    if !sent then Goto(s, c, Closed)
    else s.(conns := s.conns[c := s.conns[c].(pc := Answered(Candidate(c, signal, answer.nonce, answer.promised)),
                                              reply := Some(Reply(answer.ack, signal)))])
  }

  function DeliverStep(cfg: Config, s: State, c: ConnId): State
    requires Enabled(cfg, s, Deliver(c))
  {
    var pc := s.conns[c].pc;
    if s.waiting < cfg.poolSize then
      Goto(s, c, Pooled).(pool := s.pool + [PoolEntry(c, pc.credential, pc.version, pc.settled, s.phase)],
                          waiting := s.waiting + 1)
    else Goto(s, c, Closed)
  }

  function PublisherStep(cfg: Config, s: State, a: Action): State
    requires Enabled(cfg, s, a) && a.OfPublisher()
  {
    match a
    case Receive => s.(publisher := Took(s.handshakes.value), handshakes := None)
    case SetNonce => s.(publisher := NonceSet(s.publisher.k), nonce := s.publisher.k.nonce)
    case SetVersion => s.(publisher := VersionSet(s.publisher.k), muxVersion := ServerVersion(cfg.serverMux, s.publisher.k.promised))
    case SetControl => s.(publisher := Published(s.publisher.k), control := Some(s.publisher.k.conn))
    case StopWaiting => s.(publisher := GaveUp)
  }

  function ConnStep(cfg: Config, s: State, c: ConnId, a: Action): State
    requires Enabled(cfg, s, a)
    requires (a.Looks() || a.Admits() || a.Offer? || a.CheckInUse?) && a.c == c
  {
    var pc := s.conns[c].pc;
    match a
    case Drop(_) => Goto(s, c, Closed)
    case LookAtControl(_) => Goto(s, c, if s.control.Some? then SawControl else Listening)
    case LookAtNonce(_) => Goto(s, c, if s.nonce == [] then ByAddress else Listening)
    case CompareHosts(_) =>
      if s.control.Some? && s.conns[s.control.value].host != s.conns[c].host then Goto(s, c, Closed)
      else Goto(s, c, Admitted(SourceAddress))
    case Dispatch(_) =>
      if IsControlSignal(pc.signal) then Goto(s, c, Claiming(pc.signal, pc.payload))
      else if pc.signal == SG_POOL then Goto(s, c, Presenting(pc.payload))
      else Goto(s, c, Closed)
    case CheckInUse(_) =>
      if s.control.Some? then Refuse(s, c, REFUSED_IN_USE)
      else if pc.payload != cfg.token then Refuse(s, c, REFUSED_BAD_TOKEN)
      else Goto(s, c, Answering(pc.signal))
    case Offer(_) =>
      if s.handshakes.None? then Goto(s, c, Offered).(handshakes := Some(pc.k)) else Goto(s, c, Closed)
    case Verify(_) =>
      Goto(s, c, if s.nonce != [] && pc.payload == s.nonce then Admitted(Presented(pc.payload)) else Closed)
    case Wrap(_) => Goto(s, c, Wrapped(pc.credential, SessionVersion(s.muxVersion), s.muxVersion != 0))
  }

  function Next(cfg: Config, s: State, a: Action): State
    requires Enabled(cfg, s, a)
  {
    match a
    case Accept(c, host) => s.(conns := s.conns[c := Conn(host, Accepted, None)])
    case Announce(c, signal, payload) => Goto(s, c, Announced(signal, payload))
    case AnswerClaim(c, nonce, sent) => AnswerStep(cfg, s, c, nonce, sent)
    case Deliver(c) => DeliverStep(cfg, s, c)
    case TakeFromPool => s.(waiting := s.waiting - 1)
    case Cancel => s.(phase := Cancelled)
    case ClearControl => s.(phase := ControlCleared, control := None)
    case ClearNonce => s.(phase := NonceCleared, nonce := [])
    case Adopt(c, clientMux) =>
      var reply := s.conns[c].reply.value;
      var read := ReadControlAck(reply.payload, reply.signal);
      s.(adopted := s.adopted[c := Adopted(read.nonce, reply.signal, ClientVersion(clientMux, read.version))])
    case Receive => PublisherStep(cfg, s, a)
    case SetNonce => PublisherStep(cfg, s, a)
    case SetVersion => PublisherStep(cfg, s, a)
    case SetControl => PublisherStep(cfg, s, a)
    case StopWaiting => PublisherStep(cfg, s, a)
    case _ => ConnStep(cfg, s, a.c, a)
  }

  // The invariant.

  /** Only a claim that got its answer, or its refusal, was written to. */
  predicate MayHaveReply(pc: Pc) {
    pc.Answered? || pc.Offered? || pc.Closed?
  }

  predicate NonceUp(p: Publisher) {
    p.NonceSet? || p.VersionSet? || p.Published?
  }

  predicate VersionUp(cfg: Config, p: Publisher) {
    cfg.muxed && (p.VersionSet? || p.Published?)
  }

  predicate HasCandidate(p: Publisher) {
    p.Took? || NonceUp(p)
  }

  /** What was recorded for a candidate is what its connection was answered. */
  predicate CandidateInv(cfg: Config, s: State, k: Candidate) {
    && k.conn in s.conns && IsControlSignal(k.signal)
    && (k.signal == SG_CHAN_V2 ==> |k.nonce| == NONCE_HEX_LEN && k.promised == cfg.OfferedVersion())
    && (k.signal == SG_CHAN ==> k.nonce == [] && k.promised == 0)
    && s.conns[k.conn].reply == Some(Reply(ControlAck(k.signal, cfg.token, cfg.OfferedVersion(), k.nonce).ack, k.signal))
    && MayHaveReply(s.conns[k.conn].pc)
  }

  predicate SharedInv(cfg: Config, s: State) {
    && s.nonce == (if NonceUp(s.publisher) && s.phase != NonceCleared then s.publisher.k.nonce else [])
    && s.control == (if s.publisher.Published? && s.phase in {Live, Cancelled} then Some(s.publisher.k.conn) else None)
    && s.muxVersion == (if VersionUp(cfg, s.publisher) then ServerVersion(cfg.serverMux, s.publisher.k.promised) else 0)
    && (s.phase in {ControlCleared, NonceCleared} ==> s.publisher.Published? || s.publisher.GaveUp?)
    && (s.publisher.VersionSet? ==> cfg.muxed)
    && (HasCandidate(s.publisher) ==> CandidateInv(cfg, s, s.publisher.k))
    && (s.handshakes.Some? ==> CandidateInv(cfg, s, s.handshakes.value))
  }

  /** What a credential says about the run, for a connection that holds it in the given phase. */
  predicate CredentialInv(s: State, c: ConnId, credential: Credential, phase: Phase) {
    match credential
    case Presented(n) => NonceUp(s.publisher) && n != [] && n == s.publisher.k.nonce
    case SourceAddress =>
      && s.publisher.Published?
      && (phase == NonceCleared || s.publisher.k.nonce == [])
      && (phase in {Live, Cancelled} ==>
            c in s.conns && s.publisher.k.conn in s.conns && s.conns[c].host == s.conns[s.publisher.k.conn].host)
  }

  /** The session was built with the settled version, or with 1 because none was stored yet. */
  predicate VersionInv(cfg: Config, s: State, version: nat, settled: bool) {
    && (settled ==> VersionUp(cfg, s.publisher) && version == ServerVersion(cfg.serverMux, s.publisher.k.promised))
    && (!settled ==> version == 1)
  }

  predicate ConnInv(cfg: Config, s: State, c: ConnId)
    requires c in s.conns
  {
    match s.conns[c].pc
    case SawControl => s.publisher.Published?
    case ByAddress => s.publisher.Published? && (s.phase == NonceCleared || s.publisher.k.nonce == [])
    case Claiming(signal, _) => IsControlSignal(signal)
    case Answering(signal) => IsControlSignal(signal)
    case Answered(k) => k.conn == c && CandidateInv(cfg, s, k)
    case Admitted(credential) => CredentialInv(s, c, credential, s.phase)
    case Wrapped(credential, version, settled) =>
      CredentialInv(s, c, credential, s.phase) && VersionInv(cfg, s, version, settled)
      && (credential.SourceAddress? ==> settled == cfg.muxed)
    case _ => true
  }

  predicate EntryInv(cfg: Config, s: State, e: PoolEntry) {
    && CredentialInv(s, e.conn, e.credential, e.phase)
    && VersionInv(cfg, s, e.version, e.settled)
    && (e.credential.SourceAddress? ==> e.settled == cfg.muxed)
  }

  predicate AdoptedInv(cfg: Config, s: State, c: ConnId)
    requires c in s.adopted
  {
    && c in s.conns && s.conns[c].reply.Some?
    && MayHaveReply(s.conns[c].pc)
    && (var reply := s.conns[c].reply.value;
        var read := ReadControlAck(reply.payload, reply.signal);
        var mine := s.adopted[c];
        && mine.nonce == read.nonce && mine.signal == reply.signal
        && (read.version in {1, 2} ==> mine.version == read.version))
  }

  ghost predicate Inv(cfg: Config, s: State) {
    && SharedInv(cfg, s)
    && (forall c <- s.conns :: ConnInv(cfg, s, c))
    && (forall c <- s.conns :: s.conns[c].reply.Some? ==> MayHaveReply(s.conns[c].pc))
    && (forall e <- s.pool :: EntryInv(cfg, s, e))
    && (forall c <- s.adopted :: AdoptedInv(cfg, s, c))
  }

  lemma InitInv(cfg: Config)
    ensures Inv(cfg, Init())
  {
  }

  /** A step of c's goroutine that changes no shared variable but the two channels. */
  predicate OnlyTouches(s: State, s': State, c: ConnId) {
    && c in s.conns && c in s'.conns
    && s'.conns == s.conns[c := s'.conns[c]] && s'.conns[c].host == s.conns[c].host
    && s'.nonce == s.nonce && s'.control == s.control && s'.muxVersion == s.muxVersion
    && s'.publisher == s.publisher && s'.phase == s.phase && s'.adopted == s.adopted
    && (s.conns[c].reply.Some? ==> s'.conns[c].reply == s.conns[c].reply)
    && (s'.conns[c].reply.Some? ==> MayHaveReply(s'.conns[c].pc))
  }

  /** It leaves what was recorded about everything else in place. */
  lemma OthersKept(cfg: Config, s: State, s': State, c: ConnId)
    requires Inv(cfg, s) && OnlyTouches(s, s', c)
    ensures forall k :: CandidateInv(cfg, s, k) ==> CandidateInv(cfg, s', k)
    ensures forall d, cr, ph :: CredentialInv(s, d, cr, ph) ==> CredentialInv(s', d, cr, ph)
    ensures forall d <- s.conns | d != c :: ConnInv(cfg, s', d)
    ensures forall d <- s'.conns :: s'.conns[d].reply.Some? ==> MayHaveReply(s'.conns[d].pc)
    ensures forall e <- s.pool :: EntryInv(cfg, s', e)
    ensures forall d <- s.adopted :: AdoptedInv(cfg, s', d)
  {
    hide ReadControlAck, ControlAck;
    forall d <- s.conns | d != c
      ensures ConnInv(cfg, s', d)
    {
      assert ConnInv(cfg, s, d);
    }
    forall e <- s.pool
      ensures EntryInv(cfg, s', e)
    {
      assert EntryInv(cfg, s, e);
    }
    forall d <- s.adopted
      ensures AdoptedInv(cfg, s', d)
    {
      assert AdoptedInv(cfg, s, d);
    }
  }

  /** So it keeps the invariant if c itself, and what it put on a channel, are in order. */
  lemma TouchKeepsInv(cfg: Config, s: State, s': State, c: ConnId)
    requires Inv(cfg, s) && OnlyTouches(s, s', c) && ConnInv(cfg, s', c)
    requires s'.handshakes == s.handshakes || (s'.handshakes.Some? && CandidateInv(cfg, s', s'.handshakes.value))
    requires forall e <- s'.pool :: e in s.pool || EntryInv(cfg, s', e)
    ensures Inv(cfg, s')
  {
    hide CandidateInv, CredentialInv, ConnInv, EntryInv, AdoptedInv;
    OthersKept(cfg, s, s', c);
  }

  lemma ConnStepKeepsInv(cfg: Config, s: State, c: ConnId, a: Action)
    requires Inv(cfg, s) && Enabled(cfg, s, a)
    requires (a.Looks() || a.Admits() || a.Offer? || a.CheckInUse?) && a.c == c
    ensures Inv(cfg, Next(cfg, s, a))
  {
    hide CandidateInv, CredentialInv, VersionInv, ConnInv, SharedInv, EntryInv, AdoptedInv;
    var s' := ConnStep(cfg, s, c, a);
    assert Next(cfg, s, a) == s';
    assert OnlyTouches(s, s', c) && s'.pool == s.pool;
    assert ConnInv(cfg, s, c);
    if a.Offer? {
      OfferLocal(cfg, s, c);
    } else if a.CheckInUse? {
      RefuseLocal(cfg, s, c);
    } else if a.Admits() {
      AdmitLocal(cfg, s, c, a);
    } else {
      LookLocal(cfg, s, c, a);
    }
    TouchKeepsInv(cfg, s, s', c);
  }

  lemma LookLocal(cfg: Config, s: State, c: ConnId, a: Action)
    requires SharedInv(cfg, s) && c in s.conns && ConnInv(cfg, s, c) && Enabled(cfg, s, a)
    requires a.Looks() && a.c == c
    ensures var s' := ConnStep(cfg, s, c, a); c in s'.conns && ConnInv(cfg, s', c) && s'.handshakes == s.handshakes
  {
    hide CandidateInv, CredentialInv, VersionInv, EntryInv, AdoptedInv, ControlAck, ReadControlAck, ServerVersion;
  }

  lemma RefuseLocal(cfg: Config, s: State, c: ConnId)
    requires c in s.conns && ConnInv(cfg, s, c) && Enabled(cfg, s, CheckInUse(c))
    ensures var s' := ConnStep(cfg, s, c, CheckInUse(c)); c in s'.conns && ConnInv(cfg, s', c) && s'.handshakes == s.handshakes
  {
    hide CandidateInv, CredentialInv, VersionInv;
  }

  lemma AdmitLocal(cfg: Config, s: State, c: ConnId, a: Action)
    requires SharedInv(cfg, s) && c in s.conns && ConnInv(cfg, s, c) && Enabled(cfg, s, a)
    requires a.Admits() && a.c == c
    ensures var s' := ConnStep(cfg, s, c, a); c in s'.conns && ConnInv(cfg, s', c) && s'.handshakes == s.handshakes
  {
    hide ControlAck, EntryInv, AdoptedInv;
  }

  lemma OfferLocal(cfg: Config, s: State, c: ConnId)
    requires SharedInv(cfg, s) && c in s.conns && ConnInv(cfg, s, c) && Enabled(cfg, s, Offer(c))
    ensures var s' := ConnStep(cfg, s, c, Offer(c));
            && c in s'.conns && ConnInv(cfg, s', c)
            && (s'.handshakes == s.handshakes || (s'.handshakes.Some? && CandidateInv(cfg, s', s'.handshakes.value)))
  {
    hide ControlAck, CredentialInv, VersionInv, EntryInv, AdoptedInv;
  }

  lemma ClaimKeepsInv(cfg: Config, s: State, c: ConnId, a: Action)
    requires Inv(cfg, s) && Enabled(cfg, s, a)
    requires (a.AnswerClaim? || a.Announce? || a.Deliver?) && a.c == c
    ensures Inv(cfg, Next(cfg, s, a))
  {
    hide CandidateInv, CredentialInv, VersionInv, ConnInv, SharedInv, EntryInv, AdoptedInv, ControlAck;
    var s' := Next(cfg, s, a);
    assert OnlyTouches(s, s', c) && s'.handshakes == s.handshakes;
    assert ConnInv(cfg, s, c);
    if a.Deliver? {
      DeliverLocal(cfg, s, c);
    } else if a.AnswerClaim? {
      AnswerLocal(cfg, s, c, a.nonce, a.sent);
    } else {
      AnnouncedIsFree(cfg, s', c);
    }
    TouchKeepsInv(cfg, s, s', c);
  }

  lemma AnnouncedIsFree(cfg: Config, s: State, c: ConnId)
    requires c in s.conns && s.conns[c].pc.Announced?
    ensures ConnInv(cfg, s, c)
  {
  }

  lemma AnswerLocal(cfg: Config, s: State, c: ConnId, nonce: seq<Byte>, sent: bool)
    requires SharedInv(cfg, s) && c in s.conns && ConnInv(cfg, s, c) && Enabled(cfg, s, AnswerClaim(c, nonce, sent))
    ensures var s' := AnswerStep(cfg, s, c, nonce, sent); c in s'.conns && ConnInv(cfg, s', c) && s'.pool == s.pool
  {
    hide CredentialInv, VersionInv, EntryInv, AdoptedInv, SharedInv;
  }

  lemma DeliverLocal(cfg: Config, s: State, c: ConnId)
    requires SharedInv(cfg, s) && c in s.conns && ConnInv(cfg, s, c) && Enabled(cfg, s, Deliver(c))
    ensures var s' := DeliverStep(cfg, s, c);
            && c in s'.conns && ConnInv(cfg, s', c)
            && forall e <- s'.pool :: e in s.pool || EntryInv(cfg, s', e)
  {
    hide CandidateInv, AdoptedInv;
  }

  lemma AcceptKeepsInv(cfg: Config, s: State, c: ConnId, host: string)
    requires Inv(cfg, s) && c !in s.conns
    ensures Inv(cfg, Next(cfg, s, Accept(c, host)))
  {
    var s' := Next(cfg, s, Accept(c, host));
    forall d <- s'.conns
      ensures ConnInv(cfg, s', d)
    {
      if d != c {
        assert ConnInv(cfg, s, d);
      }
    }
    forall e <- s'.pool
      ensures EntryInv(cfg, s', e)
    {
      assert EntryInv(cfg, s, e);
    }
    forall d <- s'.adopted
      ensures AdoptedInv(cfg, s', d)
    {
      assert AdoptedInv(cfg, s, d);
    }
  }

  predicate TearsDown(a: Action) {
    a.TakeFromPool? || a.Cancel? || a.ClearControl? || a.ClearNonce?
  }

  lemma CandidateKept(cfg: Config, s: State, s': State, k: Candidate)
    requires CandidateInv(cfg, s, k) && s'.conns == s.conns
    ensures CandidateInv(cfg, s', k)
  {
  }

  lemma SharedKept(cfg: Config, s: State, a: Action)
    requires SharedInv(cfg, s) && Enabled(cfg, s, a) && (a.OfPublisher() || TearsDown(a))
    ensures SharedInv(cfg, Next(cfg, s, a))
  {
    hide CandidateInv, ServerVersion;
    var s' := Next(cfg, s, a);
    if s.handshakes.Some? {
      CandidateKept(cfg, s, s', s.handshakes.value);
    }
    if HasCandidate(s.publisher) {
      CandidateKept(cfg, s, s', s.publisher.k);
    }
  }

  lemma ConnKept(cfg: Config, s: State, a: Action, d: ConnId)
    requires SharedInv(cfg, s) && Enabled(cfg, s, a) && (a.OfPublisher() || TearsDown(a))
    requires d in s.conns && ConnInv(cfg, s, d)
    ensures d in Next(cfg, s, a).conns && ConnInv(cfg, Next(cfg, s, a), d)
  {
    hide CandidateInv, ServerVersion, EntryInv, AdoptedInv;
    WritesShared(cfg, s, a);
    if s.conns[d].pc.Answered? {
      CandidateKept(cfg, s, Next(cfg, s, a), s.conns[d].pc.k);
    }
  }

  lemma EntryKept(cfg: Config, s: State, a: Action, e: PoolEntry)
    requires SharedInv(cfg, s) && Enabled(cfg, s, a) && (a.OfPublisher() || TearsDown(a))
    requires EntryInv(cfg, s, e)
    ensures EntryInv(cfg, Next(cfg, s, a), e)
  {
    hide ControlAck, ReadControlAck, ServerVersion, CandidateInv, ConnInv, AdoptedInv;
  }

  /** The publisher and the teardown write only the shared variables. */
  lemma WritesShared(cfg: Config, s: State, a: Action)
    requires Enabled(cfg, s, a) && (a.OfPublisher() || TearsDown(a))
    ensures var s' := Next(cfg, s, a); s'.conns == s.conns && s'.pool == s.pool && s'.adopted == s.adopted
  {
    hide ServerVersion;
  }

  lemma SharedStepKeepsInv(cfg: Config, s: State, a: Action)
    requires Inv(cfg, s) && Enabled(cfg, s, a) && (a.OfPublisher() || TearsDown(a))
    ensures Inv(cfg, Next(cfg, s, a))
  {
    hide Next, Enabled, SharedInv, ConnInv, EntryInv, CandidateInv, AdoptedInv, TearsDown;
    var s' := Next(cfg, s, a);
    WritesShared(cfg, s, a);
    SharedKept(cfg, s, a);
    forall d <- s'.conns
      ensures ConnInv(cfg, s', d)
    {
      ConnKept(cfg, s, a, d);
    }
    forall e <- s'.pool
      ensures EntryInv(cfg, s', e)
    {
      EntryKept(cfg, s, a, e);
    }
    forall d <- s'.adopted
      ensures AdoptedInv(cfg, s', d)
    {
      AdoptedKept(cfg, s, s', d);
    }
  }

  lemma AdoptedKept(cfg: Config, s: State, s': State, d: ConnId)
    requires d in s.adopted && AdoptedInv(cfg, s, d) && s'.conns == s.conns
    requires d in s'.adopted && s'.adopted[d] == s.adopted[d]
    ensures AdoptedInv(cfg, s', d)
  {
  }

  lemma AdoptKeepsInv(cfg: Config, s: State, c: ConnId, clientMux: int)
    requires Inv(cfg, s) && Enabled(cfg, s, Adopt(c, clientMux))
    ensures Inv(cfg, Next(cfg, s, Adopt(c, clientMux)))
  {
    hide ControlAck, ReadControlAck;
    var s' := Next(cfg, s, Adopt(c, clientMux));
    forall d <- s'.conns
      ensures ConnInv(cfg, s', d)
    {
      assert ConnInv(cfg, s, d);
    }
    forall e <- s'.pool
      ensures EntryInv(cfg, s', e)
    {
      assert EntryInv(cfg, s, e);
    }
    forall d <- s'.adopted
      ensures AdoptedInv(cfg, s', d)
    {
      if d in s.adopted {
        assert AdoptedInv(cfg, s, d);
      }
    }
  }

  lemma {:induction false} StepKeepsInv(cfg: Config, s: State, a: Action)
    requires Inv(cfg, s) && Enabled(cfg, s, a)
    ensures Inv(cfg, Next(cfg, s, a))
  {
    match a
    case Accept(c, host) => AcceptKeepsInv(cfg, s, c, host);
    case Announce(c, _, _) => ClaimKeepsInv(cfg, s, c, a);
    case AnswerClaim(c, _, _) => ClaimKeepsInv(cfg, s, c, a);
    case Deliver(c) => ClaimKeepsInv(cfg, s, c, a);
    case Drop(c) => ConnStepKeepsInv(cfg, s, c, a);
    case LookAtControl(c) => ConnStepKeepsInv(cfg, s, c, a);
    case LookAtNonce(c) => ConnStepKeepsInv(cfg, s, c, a);
    case CompareHosts(c) => ConnStepKeepsInv(cfg, s, c, a);
    case Dispatch(c) => ConnStepKeepsInv(cfg, s, c, a);
    case CheckInUse(c) => ConnStepKeepsInv(cfg, s, c, a);
    case Offer(c) => ConnStepKeepsInv(cfg, s, c, a);
    case Verify(c) => ConnStepKeepsInv(cfg, s, c, a);
    case Wrap(c) => ConnStepKeepsInv(cfg, s, c, a);
    case Adopt(c, clientMux) => AdoptKeepsInv(cfg, s, c, clientMux);
    case _ => SharedStepKeepsInv(cfg, s, a);
  }

  // Whole runs.

  predicate Step(cfg: Config, s: State, a: Action, s': State) {
    Enabled(cfg, s, a) && s' == Next(cfg, s, a)
  }

  predicate Run(cfg: Config, states: seq<State>, acts: seq<Action>) {
    && |states| == |acts| + 1
    && states[0] == Init()
    && forall i | 0 <= i < |acts| :: Step(cfg, states[i], acts[i], states[i + 1])
  }

  lemma {:induction false} RunKeepsInv(cfg: Config, states: seq<State>, acts: seq<Action>)
    requires Run(cfg, states, acts)
    ensures forall s <- states :: Inv(cfg, s)
  {
    hide Inv, Init, Enabled, Next;
    if acts == [] {
      InitInv(cfg);
    } else {
      var n := |acts| - 1;
      RunKeepsInv(cfg, states[..n + 1], acts[..n]);
      assert Step(cfg, states[n], acts[n], states[n + 1]);
      assert states[n] in states[..n + 1];
      StepKeepsInv(cfg, states[n], acts[n]);
      assert states == states[..n + 1] + [states[n + 1]];
    }
  }

  /** Once a candidate is being published no other ever is. */
  lemma {:induction false} OneCandidatePerRun(cfg: Config, states: seq<State>, acts: seq<Action>, i: nat, j: nat)
    requires Run(cfg, states, acts) && i <= j <= |acts| && HasCandidate(states[i].publisher)
    ensures HasCandidate(states[j].publisher) && states[j].publisher.k == states[i].publisher.k
    ensures states[i].publisher.Published? ==> states[j].publisher.Published?
    decreases j - i
  {
    if i < j {
      OneCandidatePerRun(cfg, states, acts, i, j - 1);
      assert Step(cfg, states[j - 1], acts[j - 1], states[j]);
    }
  }

  /** And once the run was cancelled before any was taken, none ever is. */
  lemma {:induction false} GivenUpStays(cfg: Config, states: seq<State>, acts: seq<Action>, i: nat, j: nat)
    requires Run(cfg, states, acts) && i < j <= |acts| && acts[i].StopWaiting?
    ensures !HasCandidate(states[j].publisher)
    ensures states[j].publisher.GaveUp?
    decreases j
  {
    assert Step(cfg, states[j - 1], acts[j - 1], states[j]);
    if i < j - 1 {
      GivenUpStays(cfg, states, acts, i, j - 1);
    }
  }

  /** Whenever the published connection is one a client adopted, both ends hold the same nonce, it
      is empty exactly when the handshake was the legacy one, and, where versions are negotiated,
      both stored the same version whatever their files say; plain TCP promises none. */
  lemma EndsAgree(cfg: Config, states: seq<State>, acts: seq<Action>, s: State)
    requires Run(cfg, states, acts) && s in states
    requires s.publisher.Published? && s.publisher.k.conn in s.adopted
    ensures var mine := s.adopted[s.publisher.k.conn];
            && mine.nonce == s.publisher.k.nonce && mine.signal == s.publisher.k.signal
            && (s.phase != NonceCleared ==> mine.nonce == s.nonce)
            && (mine.nonce == [] <==> mine.signal == SG_CHAN)
            && (cfg.muxed && mine.signal == SG_CHAN_V2 ==>
                  mine.version == s.muxVersion == ResolveMuxVersion(cfg.serverMux))
            && (!cfg.muxed ==> s.muxVersion == 0 && s.publisher.k.promised == 0)
  {
    RunKeepsInv(cfg, states, acts);
    var k := s.publisher.k;
    assert CandidateInv(cfg, s, k) && AdoptedInv(cfg, s, k.conn);
    if k.signal == SG_CHAN_V2 {
      AnswerIsUnderstood(k.signal, cfg.token, cfg.OfferedVersion(), k.nonce);
    }
  }

  // When the shared variables were written, read off the actions before step j.

  predicate NonceWasSet(acts: seq<Action>, j: nat)
    requires j <= |acts|
  {
    exists i | 0 <= i < j :: acts[i].SetNonce?
  }

  predicate NonceWasCleared(acts: seq<Action>, j: nat)
    requires j <= |acts|
  {
    exists i | 0 <= i < j :: acts[i].ClearNonce?
  }

  predicate WasCancelled(acts: seq<Action>, j: nat)
    requires j <= |acts|
  {
    exists i | 0 <= i < j :: acts[i].Cancel?
  }

  predicate VersionWasSet(acts: seq<Action>, j: nat)
    requires j <= |acts|
  {
    exists i | 0 <= i < j :: acts[i].SetVersion?
  }

  predicate ControlWasSet(acts: seq<Action>, j: nat)
    requires j <= |acts|
  {
    exists i | 0 <= i < j :: acts[i].SetControl?
  }

  predicate ControlWasCleared(acts: seq<Action>, j: nat)
    requires j <= |acts|
  {
    exists i | 0 <= i < j :: acts[i].ClearControl?
  }

  lemma {:induction false} WritesSoFar(cfg: Config, states: seq<State>, acts: seq<Action>, j: nat)
    requires Run(cfg, states, acts) && j <= |acts|
    ensures NonceUp(states[j].publisher) <==> NonceWasSet(acts, j)
    ensures states[j].phase == NonceCleared <==> NonceWasCleared(acts, j)
    ensures states[j].publisher.Published? <==> ControlWasSet(acts, j)
    ensures states[j].phase in {ControlCleared, NonceCleared} <==> ControlWasCleared(acts, j)
    ensures states[j].phase != Live <==> WasCancelled(acts, j)
  {
    if j > 0 {
      WritesSoFar(cfg, states, acts, j - 1);
      assert Step(cfg, states[j - 1], acts[j - 1], states[j]);
      hide *;
      StepWrites(cfg, states[j - 1], acts[j - 1], states[j]);
      WritesStep(acts, j - 1);
    }
  }

  lemma StepWrites(cfg: Config, s: State, a: Action, s': State)
    requires Step(cfg, s, a, s')
    ensures NonceUp(s'.publisher) <==> NonceUp(s.publisher) || a.SetNonce?
    ensures s'.phase == NonceCleared <==> s.phase == NonceCleared || a.ClearNonce?
    ensures s'.publisher.Published? <==> s.publisher.Published? || a.SetControl?
    ensures s'.phase in {ControlCleared, NonceCleared} <==> s.phase in {ControlCleared, NonceCleared} || a.ClearControl?
    ensures s'.phase != Live <==> s.phase != Live || a.Cancel?
  {
    hide ControlAck, ReadControlAck, ServerVersion;
  }

  lemma WritesStep(acts: seq<Action>, j: nat)
    requires j < |acts|
    ensures NonceWasSet(acts, j + 1) <==> NonceWasSet(acts, j) || acts[j].SetNonce?
    ensures NonceWasCleared(acts, j + 1) <==> NonceWasCleared(acts, j) || acts[j].ClearNonce?
    ensures ControlWasSet(acts, j + 1) <==> ControlWasSet(acts, j) || acts[j].SetControl?
    ensures ControlWasCleared(acts, j + 1) <==> ControlWasCleared(acts, j) || acts[j].ClearControl?
    ensures WasCancelled(acts, j + 1) <==> WasCancelled(acts, j) || acts[j].Cancel?
  {
  }

  /** Step j decides how the server goes on with connection c: it reads an announcement from it, or
      goes by its source address. */
  predicate Routes(states: seq<State>, acts: seq<Action>, c: ConnId, j: nat) {
    && |states| == |acts| + 1 && j < |acts|
    && (acts[j] == LookAtControl(c) || acts[j] == LookAtNonce(c))
    && c in states[j + 1].conns && (states[j + 1].conns[c].pc.Listening? || states[j + 1].conns[c].pc.ByAddress?)
  }

  /** At step j at the latest, c looked for a control channel, and none had been set. */
  predicate LookedTooEarly(acts: seq<Action>, c: ConnId, j: nat)
    requires j < |acts|
  {
    exists look | 0 <= look <= j :: acts[look] == LookAtControl(c) && !ControlWasSet(acts, look)
  }

  /** A connection looks only once. */
  lemma {:induction false} LooksOnce(cfg: Config, states: seq<State>, acts: seq<Action>, c: ConnId, look: nat, j: nat)
    requires Run(cfg, states, acts) && look < j <= |acts| && acts[look] == LookAtControl(c)
    ensures c in states[j].conns && !states[j].conns[c].pc.Accepted?
    decreases j
  {
    assert Step(cfg, states[j - 1], acts[j - 1], states[j]);
    if look < j - 1 {
      LooksOnce(cfg, states, acts, c, look, j - 1);
    }
  }

  /** Whoever goes on to the nonce looked when the control channel was there. */
  lemma {:induction false} SawControlBefore(cfg: Config, states: seq<State>, acts: seq<Action>, c: ConnId, j: nat)
    returns (look: nat)
    requires Run(cfg, states, acts) && j <= |acts| && c in states[j].conns && states[j].conns[c].pc.SawControl?
    ensures look < j && acts[look] == LookAtControl(c) && states[look].control.Some?
  {
    assert Step(cfg, states[j - 1], acts[j - 1], states[j]);
    if acts[j - 1] == LookAtControl(c) {
      look := j - 1;
    } else {
      look := SawControlBefore(cfg, states, acts, c, j - 1);
    }
  }

  lemma LookedInTime(cfg: Config, states: seq<State>, acts: seq<Action>, c: ConnId, j: nat)
    requires Run(cfg, states, acts) && j < |acts| && acts[j] == LookAtNonce(c)
    ensures !LookedTooEarly(acts, c, j) && ControlWasSet(acts, j)
  {
    assert Step(cfg, states[j], acts[j], states[j + 1]);
    var look := SawControlBefore(cfg, states, acts, c, j);
    RunKeepsInv(cfg, states, acts);
    assert states[look] in states;
    WritesSoFar(cfg, states, acts, look);
    assert ControlWasSet(acts, look);
    forall other | 0 <= other <= j && acts[other] == LookAtControl(c)
      ensures ControlWasSet(acts, other)
    {
      assert Step(cfg, states[other], acts[other], states[other + 1]);
      assert Step(cfg, states[look], acts[look], states[look + 1]);
      if other < look {
        LooksOnce(cfg, states, acts, c, other, look);
      } else if look < other {
        LooksOnce(cfg, states, acts, c, look, other);
      }
    }
  }

  /** How a run routes its connections. While the control channel is not torn down: in a legacy run the
      server reads an announcement from exactly those that looked before the control channel was set;
      in a current one, from all. */
  lemma RoutedIff(cfg: Config, states: seq<State>, acts: seq<Action>, c: ConnId, j: nat)
    requires Run(cfg, states, acts) && HasCandidate(states[|acts|].publisher)
    requires Routes(states, acts, c, j) && !ControlWasCleared(acts, j)
    ensures states[j + 1].conns[c].pc.Listening? <==>
            states[|acts|].publisher.k.signal == SG_CHAN_V2 || LookedTooEarly(acts, c, j)
  {
    var s, k := states[j], states[|acts|].publisher.k;
    RunKeepsInv(cfg, states, acts);
    assert s in states && states[|acts|] in states;
    assert CandidateInv(cfg, states[|acts|], k);
    WritesSoFar(cfg, states, acts, j);
    assert Step(cfg, s, acts[j], states[j + 1]);
    if HasCandidate(s.publisher) {
      OneCandidatePerRun(cfg, states, acts, j, |acts|);
    }
    hide Inv, Run, CandidateInv;
    if acts[j] == LookAtNonce(c) {
      LookedInTime(cfg, states, acts, c, j);
    } else {
      assert s.control.None?;
      assert LookedTooEarly(acts, c, j);
    }
  }

  /** A connection that found the control channel set goes by its source address exactly when the handshake was
      the legacy one or the nonce has been taken back; otherwise it has to announce itself. */
  lemma ByAddressIff(cfg: Config, states: seq<State>, acts: seq<Action>, c: ConnId, j: nat)
    requires Run(cfg, states, acts) && j < |acts| && acts[j] == LookAtNonce(c)
    ensures c in states[j + 1].conns && HasCandidate(states[j].publisher)
    ensures states[j + 1].conns[c].pc ==
            if states[j].publisher.k.signal == SG_CHAN || NonceWasCleared(acts, j) then ByAddress else Listening
  {
    var s := states[j];
    RunKeepsInv(cfg, states, acts);
    assert s in states;
    WritesSoFar(cfg, states, acts, j);
    assert Step(cfg, s, acts[j], states[j + 1]);
    LookedInTime(cfg, states, acts, c, j);
    assert CandidateInv(cfg, s, s.publisher.k);
  }

  /** What a connection finds when it looks for the control channel. */
  lemma LooksIff(cfg: Config, states: seq<State>, acts: seq<Action>, c: ConnId, j: nat)
    requires Run(cfg, states, acts) && j < |acts| && acts[j] == LookAtControl(c)
    ensures c in states[j + 1].conns
    ensures states[j + 1].conns[c].pc ==
            if ControlWasSet(acts, j) && !ControlWasCleared(acts, j) then SawControl else Listening
  {
    RunKeepsInv(cfg, states, acts);
    assert states[j] in states;
    WritesSoFar(cfg, states, acts, j);
    assert Step(cfg, states[j], acts[j], states[j + 1]);
    hide Run, CandidateInv, ControlWasSet, ControlWasCleared;
  }

  /** The client announces a pool connection when it holds a nonce. The server reads an announcement from
      it in exactly the same runs, but for one gap: in a legacy run it also reads from a connection that
      looked before the control channel was set, and there each end waits for the other. */
  lemma AnnouncesIffRead(cfg: Config, states: seq<State>, acts: seq<Action>, c: ConnId, j: nat)
    requires Run(cfg, states, acts) && states[|acts|].publisher.Published?
    requires states[|acts|].publisher.k.conn in states[|acts|].adopted
    requires Routes(states, acts, c, j) && !ControlWasCleared(acts, j)
    ensures var s := states[|acts|];
            var announces := s.adopted[s.publisher.k.conn].nonce != [];
            (states[j + 1].conns[c].pc.Listening? <==> announces)
            <==> s.publisher.k.signal == SG_CHAN_V2 || !LookedTooEarly(acts, c, j)
  {
    RoutedIff(cfg, states, acts, c, j);
    assert states[|acts|] in states;
    EndsAgree(cfg, states, acts, states[|acts|]);
    RunKeepsInv(cfg, states, acts);
    assert CandidateInv(cfg, states[|acts|], states[|acts|].publisher.k);
    hide Inv, Run, CandidateInv, LookedTooEarly, Routes;
  }

  // The gaps, as concrete runs.

  lemma RunExtends(cfg: Config, states: seq<State>, acts: seq<Action>, a: Action, s': State)
    requires Run(cfg, states, acts) && Step(cfg, states[|acts|], a, s')
    ensures Run(cfg, states + [s'], acts + [a])
    ensures |states| == |acts| + 1
  {
    hide Enabled, Next, Init;
    forall i | 0 <= i <= |acts|
      ensures Step(cfg, (states + [s'])[i], (acts + [a])[i], (states + [s'])[i + 1])
    {
      assert i < |acts| ==> Step(cfg, states[i], acts[i], states[i + 1]);
    }
  }

  /** Connection 0 claims the control channel with the token. */
  lemma TokenAccepted(cfg: Config, signal: Byte) returns (states: seq<State>, acts: seq<Action>)
    requires IsControlSignal(signal)
    ensures Run(cfg, states, acts) && |states| == |acts| + 1
    ensures states[|acts|] == Init().(conns := map[0 := Conn("a", Answering(signal), None)])
  {
    hide Run, ControlAck, ReadControlAck;
    states, acts := [Init()], [];
    assert Run(cfg, states, acts) by { RunStarts(cfg); }
    var s := Init().(conns := map[0 := Conn("a", Accepted, None)]);
    RunExtends(cfg, states, acts, Accept(0, "a"), s);
    states, acts := states + [s], acts + [Accept(0, "a")];
    s := s.(conns := map[0 := Conn("a", Listening, None)]);
    RunExtends(cfg, states, acts, LookAtControl(0), s);
    states, acts := states + [s], acts + [LookAtControl(0)];
    s := s.(conns := map[0 := Conn("a", Announced(signal, cfg.token), None)]);
    RunExtends(cfg, states, acts, Announce(0, signal, cfg.token), s);
    states, acts := states + [s], acts + [Announce(0, signal, cfg.token)];
    s := s.(conns := map[0 := Conn("a", Claiming(signal, cfg.token), None)]);
    RunExtends(cfg, states, acts, Dispatch(0), s);
    states, acts := states + [s], acts + [Dispatch(0)];
    s := s.(conns := map[0 := Conn("a", Answering(signal), None)]);
    RunExtends(cfg, states, acts, CheckInUse(0), s);
    states, acts := states + [s], acts + [CheckInUse(0)];
  }

  lemma RunStarts(cfg: Config)
    ensures Run(cfg, [Init()], [])
  {
  }

  function ControlReply(cfg: Config, nonce: seq<Byte>): Reply {
    Reply(ControlAck(SG_CHAN_V2, cfg.token, cfg.OfferedVersion(), nonce).ack, SG_CHAN_V2)
  }

  /** It is answered and taken, and its nonce is published. */
  lemma NonceInPlace(cfg: Config, nonce: seq<Byte>) returns (states: seq<State>, acts: seq<Action>)
    requires |nonce| == NONCE_HEX_LEN
    ensures Run(cfg, states, acts) && |states| == |acts| + 1
    ensures states[|acts|] == Init().(nonce := nonce,
              publisher := NonceSet(Candidate(0, SG_CHAN_V2, nonce, cfg.OfferedVersion())),
              conns := map[0 := Conn("a", Offered, Some(ControlReply(cfg, nonce)))])
  {
    hide Run;
    states, acts := TokenAccepted(cfg, SG_CHAN_V2);
    var k := Candidate(0, SG_CHAN_V2, nonce, cfg.OfferedVersion());
    var s := Init().(conns := map[0 := Conn("a", Answered(k), Some(ControlReply(cfg, nonce)))]);
    RunExtends(cfg, states, acts, AnswerClaim(0, nonce, true), s);
    states, acts := states + [s], acts + [AnswerClaim(0, nonce, true)];
    s := s.(conns := map[0 := Conn("a", Offered, Some(ControlReply(cfg, nonce)))], handshakes := Some(k));
    RunExtends(cfg, states, acts, Offer(0), s);
    states, acts := states + [s], acts + [Offer(0)];
    s := s.(handshakes := None, publisher := Took(k));
    RunExtends(cfg, states, acts, Receive, s);
    states, acts := states + [s], acts + [Receive];
    s := s.(nonce := nonce, publisher := NonceSet(k));
    RunExtends(cfg, states, acts, SetNonce, s);
    states, acts := states + [s], acts + [SetNonce];
  }

  /** Before the publisher goes on, connection 1 presents the nonce. */
  lemma NoncePresented(cfg: Config, nonce: seq<Byte>) returns (states: seq<State>, acts: seq<Action>)
    requires |nonce| == NONCE_HEX_LEN
    ensures Run(cfg, states, acts) && |states| == |acts| + 1
    ensures states[|acts|] == Init().(nonce := nonce,
              publisher := NonceSet(Candidate(0, SG_CHAN_V2, nonce, cfg.OfferedVersion())),
              conns := map[0 := Conn("a", Offered, Some(ControlReply(cfg, nonce))), 1 := Conn("b", Presenting(nonce), None)])
  {
    hide Run, ControlReply;
    states, acts := NonceInPlace(cfg, nonce);
    var zero := Conn("a", Offered, Some(ControlReply(cfg, nonce)));
    var s := states[|acts|].(conns := map[0 := zero, 1 := Conn("b", Accepted, None)]);
    RunExtends(cfg, states, acts, Accept(1, "b"), s);
    states, acts := states + [s], acts + [Accept(1, "b")];
    s := s.(conns := map[0 := zero, 1 := Conn("b", Listening, None)]);
    RunExtends(cfg, states, acts, LookAtControl(1), s);
    states, acts := states + [s], acts + [LookAtControl(1)];
    s := s.(conns := map[0 := zero, 1 := Conn("b", Announced(SG_POOL, nonce), None)]);
    RunExtends(cfg, states, acts, Announce(1, SG_POOL, nonce), s);
    states, acts := states + [s], acts + [Announce(1, SG_POOL, nonce)];
    s := s.(conns := map[0 := zero, 1 := Conn("b", Presenting(nonce), None)]);
    RunExtends(cfg, states, acts, Dispatch(1), s);
    states, acts := states + [s], acts + [Dispatch(1)];
  }

  lemma PooledBeforeVersion(cfg: Config, nonce: seq<Byte>) returns (states: seq<State>, acts: seq<Action>)
    requires |nonce| == NONCE_HEX_LEN && cfg.poolSize > 0
    ensures Run(cfg, states, acts) && |states| == |acts| + 1
    ensures states[|acts|] == Init().(nonce := nonce, waiting := 1,
              publisher := NonceSet(Candidate(0, SG_CHAN_V2, nonce, cfg.OfferedVersion())),
              conns := map[0 := Conn("a", Offered, Some(ControlReply(cfg, nonce))), 1 := Conn("b", Pooled, None)],
              pool := [PoolEntry(1, Presented(nonce), 1, false, Live)])
  {
    hide Run, ControlReply;
    states, acts := NoncePresented(cfg, nonce);
    var zero := Conn("a", Offered, Some(ControlReply(cfg, nonce)));
    var s := states[|acts|].(conns := map[0 := zero, 1 := Conn("b", Admitted(Presented(nonce)), None)]);
    RunExtends(cfg, states, acts, Verify(1), s);
    states, acts := states + [s], acts + [Verify(1)];
    s := s.(conns := map[0 := zero, 1 := Conn("b", Wrapped(Presented(nonce), 1, false), None)]);
    RunExtends(cfg, states, acts, Wrap(1), s);
    states, acts := states + [s], acts + [Wrap(1)];
    s := s.(conns := map[0 := zero, 1 := Conn("b", Pooled, None)], waiting := 1,
            pool := [PoolEntry(1, Presented(nonce), 1, false, Live)]);
    RunExtends(cfg, states, acts, Deliver(1), s);
    states, acts := states + [s], acts + [Deliver(1)];
  }

  /** The client's answer arrives before the server has published anything, so its pool connection
      can present the nonce in that gap: the session is then built with version 1 in a run where
      both ends store version 2. */
  lemma SessionMayMissTheVersion(cfg: Config, nonce: seq<Byte>, clientMux: int)
    returns (states: seq<State>, acts: seq<Action>, e: PoolEntry)
    requires cfg.muxed && ResolveMuxVersion(cfg.serverMux) == 2 && cfg.poolSize > 0 && |nonce| == NONCE_HEX_LEN
    ensures Run(cfg, states, acts) && |states| == |acts| + 1
    ensures var s := states[|acts|];
            && s.publisher.Published? && s.muxVersion == 2
            && s.publisher.k.conn in s.adopted && s.adopted[s.publisher.k.conn].version == 2
            && e in s.pool && e.phase == Live && e.credential == Presented(nonce) && e.version == 1
  {
    hide Run;
    states, acts := PooledBeforeVersion(cfg, nonce);
    var k := Candidate(0, SG_CHAN_V2, nonce, 2);
    var s := states[|acts|].(publisher := VersionSet(k), muxVersion := 2);
    RunExtends(cfg, states, acts, SetVersion, s);
    states, acts := states + [s], acts + [SetVersion];
    s := s.(publisher := Published(k), control := Some(0));
    RunExtends(cfg, states, acts, SetControl, s);
    states, acts := states + [s], acts + [SetControl];
    AnswerIsUnderstood(SG_CHAN_V2, cfg.token, 2, nonce);
    s := s.(adopted := map[0 := Adopted(nonce, SG_CHAN_V2, 2)]);
    RunExtends(cfg, states, acts, Adopt(0, clientMux), s);
    states, acts := states + [s], acts + [Adopt(0, clientMux)];
    e := PoolEntry(1, Presented(nonce), 1, false, Live);
    assert s.pool[0] == e;
  }

  /** In a legacy run connection 0 has its answer, and connection 1 looked before anything was set. */
  lemma LookedBeforeControl(cfg: Config, nonce: seq<Byte>) returns (states: seq<State>, acts: seq<Action>, look: nat)
    requires |nonce| == NONCE_HEX_LEN
    ensures Run(cfg, states, acts) && |states| == |acts| + 1
    ensures look + 1 == |acts| && acts[look] == LookAtControl(1)
    ensures states[|acts|] == Init().(
              conns := map[0 := Conn("a", Answered(Candidate(0, SG_CHAN, [], 0)), Some(Reply(cfg.token, SG_CHAN))),
                           1 := Conn("a", Listening, None)])
  {
    hide Run;
    states, acts := TokenAccepted(cfg, SG_CHAN);
    var zero := Conn("a", Answered(Candidate(0, SG_CHAN, [], 0)), Some(Reply(cfg.token, SG_CHAN)));
    var s := Init().(conns := map[0 := zero]);
    RunExtends(cfg, states, acts, AnswerClaim(0, nonce, true), s);
    states, acts := states + [s], acts + [AnswerClaim(0, nonce, true)];
    s := s.(conns := map[0 := zero, 1 := Conn("a", Accepted, None)]);
    RunExtends(cfg, states, acts, Accept(1, "a"), s);
    states, acts := states + [s], acts + [Accept(1, "a")];
    s := s.(conns := map[0 := zero, 1 := Conn("a", Listening, None)]);
    RunExtends(cfg, states, acts, LookAtControl(1), s);
    states, acts := states + [s], acts + [LookAtControl(1)];
    look := |acts| - 1;
  }

  /** Then the server takes the claim. */
  lemma TakenAfterLook(cfg: Config, nonce: seq<Byte>) returns (states: seq<State>, acts: seq<Action>, look: nat)
    requires |nonce| == NONCE_HEX_LEN
    ensures Run(cfg, states, acts) && |states| == |acts| + 1
    ensures look < |acts| && acts[look] == LookAtControl(1)
    ensures states[look + 1].publisher.Waiting? && 1 in states[look + 1].conns && states[look + 1].conns[1].pc == Listening
    ensures states[|acts|] == Init().(publisher := Took(Candidate(0, SG_CHAN, [], 0)),
              conns := map[0 := Conn("a", Offered, Some(Reply(cfg.token, SG_CHAN))), 1 := Conn("a", Listening, None)])
  {
    hide Run;
    states, acts, look := LookedBeforeControl(cfg, nonce);
    var k, reply := Candidate(0, SG_CHAN, [], 0), Some(Reply(cfg.token, SG_CHAN));
    var s := Init().(handshakes := Some(k), conns := map[0 := Conn("a", Offered, reply), 1 := Conn("a", Listening, None)]);
    RunExtends(cfg, states, acts, Offer(0), s);
    states, acts := states + [s], acts + [Offer(0)];
    s := s.(handshakes := None, publisher := Took(k));
    RunExtends(cfg, states, acts, Receive, s);
    states, acts := states + [s], acts + [Receive];
  }

  /** A legacy client dials its pool as soon as it has its answer. A connection that arrives before the
      server has set the control channel is then listened to, in a run whose client never announces. */
  lemma LegacyConnMayBeListenedTo(cfg: Config, nonce: seq<Byte>, clientMux: int)
    returns (states: seq<State>, acts: seq<Action>, look: nat)
    requires !cfg.muxed && |nonce| == NONCE_HEX_LEN
    ensures Run(cfg, states, acts) && Routes(states, acts, 1, look) && LookedTooEarly(acts, 1, look)
    ensures var s := states[|acts|];
            && s.publisher.Published? && s.phase == Live && s.publisher.k.signal == SG_CHAN
            && s.publisher.k.conn in s.adopted && s.adopted[s.publisher.k.conn].nonce == []
            && 1 in s.conns && s.conns[1].pc == Listening
  {
    hide Run, LookedTooEarly;
    states, acts, look := TakenAfterLook(cfg, nonce);
    var k := Candidate(0, SG_CHAN, [], 0);
    var s := states[|acts|].(publisher := NonceSet(k));
    RunExtends(cfg, states, acts, SetNonce, s);
    states, acts := states + [s], acts + [SetNonce];
    s := s.(publisher := Published(k), control := Some(0));
    RunExtends(cfg, states, acts, SetControl, s);
    states, acts := states + [s], acts + [SetControl];
    s := s.(adopted := map[0 := Adopted([], SG_CHAN, ClientVersion(clientMux, 0))]);
    RunExtends(cfg, states, acts, Adopt(0, clientMux), s);
    states, acts := states + [s], acts + [Adopt(0, clientMux)];
    NotYetSet(cfg, states, acts, look);
  }

  /** Nobody has set a control channel while the publisher waits. */
  lemma NotYetSet(cfg: Config, states: seq<State>, acts: seq<Action>, look: nat)
    requires Run(cfg, states, acts) && look < |acts| && acts[look] == LookAtControl(1)
    requires states[look + 1].publisher.Waiting?
    ensures LookedTooEarly(acts, 1, look)
  {
    WritesSoFar(cfg, states, acts, look + 1);
    WritesStep(acts, look);
  }

  /** Connection 0 has its answer and has told its nonce, which connection 1 presents at once. */
  lemma PresentedAtOnce(cfg: Config, nonce: seq<Byte>) returns (states: seq<State>, acts: seq<Action>)
    requires |nonce| == NONCE_HEX_LEN
    ensures Run(cfg, states, acts) && |states| == |acts| + 1
    ensures var k := Candidate(0, SG_CHAN_V2, nonce, cfg.OfferedVersion());
            states[|acts|] == Init().(conns := map[0 := Conn("a", Answered(k), Some(ControlReply(cfg, nonce))),
                                                   1 := Conn("b", Presenting(nonce), None)])
  {
    hide Run;
    states, acts := TokenAccepted(cfg, SG_CHAN_V2);
    var zero := Conn("a", Answered(Candidate(0, SG_CHAN_V2, nonce, cfg.OfferedVersion())), Some(ControlReply(cfg, nonce)));
    var s := Init().(conns := map[0 := zero]);
    RunExtends(cfg, states, acts, AnswerClaim(0, nonce, true), s);
    states, acts := states + [s], acts + [AnswerClaim(0, nonce, true)];
    hide ControlReply;
    s := s.(conns := map[0 := zero, 1 := Conn("b", Accepted, None)]);
    RunExtends(cfg, states, acts, Accept(1, "b"), s);
    states, acts := states + [s], acts + [Accept(1, "b")];
    s := s.(conns := map[0 := zero, 1 := Conn("b", Listening, None)]);
    RunExtends(cfg, states, acts, LookAtControl(1), s);
    states, acts := states + [s], acts + [LookAtControl(1)];
    s := s.(conns := map[0 := zero, 1 := Conn("b", Announced(SG_POOL, nonce), None)]);
    RunExtends(cfg, states, acts, Announce(1, SG_POOL, nonce), s);
    states, acts := states + [s], acts + [Announce(1, SG_POOL, nonce)];
    s := s.(conns := map[0 := zero, 1 := Conn("b", Presenting(nonce), None)]);
    RunExtends(cfg, states, acts, Dispatch(1), s);
    states, acts := states + [s], acts + [Dispatch(1)];
  }

  /** The answer is sent before its nonce is published, so a pool connection can present the very nonce of
      the run and be turned away. */
  lemma NonceMayBeRefused(cfg: Config, nonce: seq<Byte>) returns (states: seq<State>, acts: seq<Action>, j: nat)
    requires |nonce| == NONCE_HEX_LEN
    ensures Run(cfg, states, acts) && j < |acts| && acts[j] == Verify(1)
    ensures 1 in states[j].conns && states[j].conns[1].pc == Presenting(nonce)
    ensures var s := states[|acts|];
            NonceUp(s.publisher) && s.publisher.k.nonce == s.nonce == nonce && 1 in s.conns && s.conns[1].pc == Closed
  {
    hide Run, ControlReply;
    states, acts := PresentedAtOnce(cfg, nonce);
    j := |acts|;
    var k, reply := Candidate(0, SG_CHAN_V2, nonce, cfg.OfferedVersion()), Some(ControlReply(cfg, nonce));
    var s := Init().(conns := map[0 := Conn("a", Answered(k), reply), 1 := Conn("b", Closed, None)]);
    RunExtends(cfg, states, acts, Verify(1), s);
    states, acts := states + [s], acts + [Verify(1)];
    s := s.(conns := map[0 := Conn("a", Offered, reply), 1 := Conn("b", Closed, None)], handshakes := Some(k));
    RunExtends(cfg, states, acts, Offer(0), s);
    states, acts := states + [s], acts + [Offer(0)];
    s := s.(handshakes := None, publisher := Took(k));
    RunExtends(cfg, states, acts, Receive, s);
    states, acts := states + [s], acts + [Receive];
    s := s.(nonce := nonce, publisher := NonceSet(k));
    RunExtends(cfg, states, acts, SetNonce, s);
    states, acts := states + [s], acts + [SetNonce];
  }
}
