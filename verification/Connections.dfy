/**
 What becomes of one connection over a whole run of Admission, told by what was done and said in the run:
 what it announced, from which host it came, when its session was built and when it was put into the pool.
 */
module Connections {
  import opened Bytes
  import opened Handshake
  import opened Admission

  /** Step d put c on the tunnel channel, as e. */
  predicate PooledAt(states: seq<State>, acts: seq<Action>, c: ConnId, d: nat, e: PoolEntry) {
    && |states| == |acts| + 1 && d < |acts| && acts[d] == Deliver(c)
    && states[d + 1].pool == states[d].pool + [e] && e.conn == c
  }

  lemma {:induction false} VersionSoFar(cfg: Config, states: seq<State>, acts: seq<Action>, j: nat)
    requires Run(cfg, states, acts) && j <= |acts|
    ensures states[j].muxVersion != 0 <==> VersionWasSet(acts, j)
  {
    if j > 0 {
      VersionSoFar(cfg, states, acts, j - 1);
      assert Step(cfg, states[j - 1], acts[j - 1], states[j]);
      hide *;
      VersionStep(cfg, states[j - 1], acts[j - 1], states[j]);
      VersionStepOf(acts, j - 1);
    }
  }

  lemma VersionStep(cfg: Config, s: State, a: Action, s': State)
    requires Step(cfg, s, a, s')
    ensures s'.muxVersion != 0 <==> s.muxVersion != 0 || a.SetVersion?
  {
    hide ControlAck, ReadControlAck, ServerVersion;
  }

  lemma VersionStepOf(acts: seq<Action>, j: nat)
    requires j < |acts|
    ensures VersionWasSet(acts, j + 1) <==> VersionWasSet(acts, j) || acts[j].SetVersion?
  {
  }

  /** c's session was built, with this flag, and is on its way to the pool, in it, or gone. */
  predicate Built(s: State, c: ConnId, settled: bool) {
    && c in s.conns
    && (s.conns[c].pc.Wrapped? || s.conns[c].pc.Pooled? || s.conns[c].pc.Closed?)
    && (s.conns[c].pc.Wrapped? ==> s.conns[c].pc.settled == settled)
    && (forall e <- s.pool :: e.conn == c ==> e.settled == settled)
  }

  /** Only connections that got there are in the pool. */
  predicate PoolInv(s: State) {
    forall e <- s.pool :: e.conn in s.conns && s.conns[e.conn].pc.Pooled?
  }

  /** The entry takes over what the session was built with. */
  predicate Delivers(pc: Pc, c: ConnId, e: PoolEntry)
    requires pc.Wrapped?
  {
    e.conn == c && e.credential == pc.credential && e.version == pc.version && e.settled == pc.settled
  }

  lemma PoolMoves(cfg: Config, s: State, a: Action, s': State)
    requires Step(cfg, s, a, s')
    ensures s'.pool == s.pool
         || (a.Deliver? && a.c in s.conns && s.conns[a.c].pc.Wrapped? && a.c in s'.conns && s'.conns[a.c].pc.Pooled?
             && exists e :: s'.pool == s.pool + [e] && Delivers(s.conns[a.c].pc, a.c, e))
  {
    hide ControlAck, ReadControlAck, ServerVersion;
    if a.Deliver? && s'.pool != s.pool {
      var pc := s.conns[a.c].pc;
      var e := PoolEntry(a.c, pc.credential, pc.version, pc.settled, s.phase);
      assert s'.pool == s.pool + [e] && Delivers(pc, a.c, e);
    }
  }

  /** The step is one of connection c's own. */
  predicate Own(a: Action, c: ConnId) {
    !a.OfPublisher() && !TearsDown(a) && a.c == c
  }

  lemma OthersStayConn(cfg: Config, s: State, a: Action, d: ConnId, c: ConnId)
    requires Enabled(cfg, s, a) && (a.Looks() || a.Admits() || a.Offer? || a.CheckInUse?) && a.c == d
    requires c in s.conns && c != d
    ensures var s' := ConnStep(cfg, s, d, a); c in s'.conns && s'.conns[c] == s.conns[c]
  {
  }

  lemma OthersStay(cfg: Config, s: State, a: Action, s': State, c: ConnId)
    requires Step(cfg, s, a, s') && c in s.conns && !Own(a, c)
    ensures c in s'.conns && s'.conns[c] == s.conns[c]
  {
    if a.OfPublisher() || TearsDown(a) {
      WritesShared(cfg, s, a);
    } else if a.Looks() || a.Admits() || a.Offer? || a.CheckInUse? {
      OthersStayConn(cfg, s, a, a.c, c);
    }
    hide ControlAck, ReadControlAck, ServerVersion, ConnStep, PublisherStep;
  }

  /** Once a session is built its connection can only be delivered, into the pool or not. */
  lemma PcAfter(cfg: Config, s: State, a: Action, s': State, c: ConnId)
    requires Step(cfg, s, a, s') && c in s.conns
    requires s.conns[c].pc.Wrapped? || s.conns[c].pc.Pooled? || s.conns[c].pc.Closed?
    ensures c in s'.conns
    ensures || s'.conns[c].pc == s.conns[c].pc
            || (s.conns[c].pc.Wrapped? && (s'.conns[c].pc.Pooled? || s'.conns[c].pc.Closed?))
  {
    if Own(a, c) {
      assert a.Deliver? || a.Adopt?;
      hide ControlAck, ReadControlAck, ServerVersion, ConnStep, AnswerStep, PublisherStep;
    } else {
      OthersStay(cfg, s, a, s', c);
      hide Step;
    }
  }

  lemma PoolStep(cfg: Config, s: State, a: Action, s': State)
    requires Step(cfg, s, a, s') && PoolInv(s)
    ensures PoolInv(s')
  {
    PoolMoves(cfg, s, a, s');
    hide Step;
    forall e <- s'.pool
      ensures e.conn in s'.conns && s'.conns[e.conn].pc.Pooled?
    {
      if e in s.pool {
        PcAfter(cfg, s, a, s', e.conn);
      }
    }
  }

  lemma {:induction false} PoolHolds(cfg: Config, states: seq<State>, acts: seq<Action>, j: nat)
    requires Run(cfg, states, acts) && j <= |acts|
    ensures PoolInv(states[j])
  {
    if j > 0 {
      PoolHolds(cfg, states, acts, j - 1);
      assert Step(cfg, states[j - 1], acts[j - 1], states[j]);
      hide *;
      PoolStep(cfg, states[j - 1], acts[j - 1], states[j]);
    }
  }

  lemma BuiltStep(cfg: Config, s: State, a: Action, s': State, c: ConnId, settled: bool)
    requires Step(cfg, s, a, s') && Built(s, c, settled)
    ensures Built(s', c, settled)
  {
    hide Step;
    PoolMoves(cfg, s, a, s');
    PcAfter(cfg, s, a, s', c);
  }

  lemma WrapBuilds(cfg: Config, s: State, s': State, c: ConnId)
    requires Step(cfg, s, Wrap(c), s') && PoolInv(s)
    ensures Built(s', c, s.muxVersion != 0)
  {
  }

  /** A connection's session is built once, and keeps what it was built with. */
  lemma {:induction false} BuiltSince(cfg: Config, states: seq<State>, acts: seq<Action>, c: ConnId, j: nat, n: nat)
    requires Run(cfg, states, acts) && j < n <= |acts| && acts[j] == Wrap(c)
    ensures Built(states[n], c, VersionWasSet(acts, j))
    decreases n
  {
    assert Step(cfg, states[n - 1], acts[n - 1], states[n]);
    hide *;
    if j == n - 1 {
      PoolHolds(cfg, states, acts, j);
      VersionSoFar(cfg, states, acts, j);
      WrapBuilds(cfg, states[j], states[n], c);
    } else {
      BuiltSince(cfg, states, acts, c, j, n - 1);
      BuiltStep(cfg, states[n - 1], acts[n - 1], states[n], c, VersionWasSet(acts, j));
    }
  }

  /** Whatever is in the pool had its session built. */
  predicate WasWrapped(acts: seq<Action>, c: ConnId, n: nat)
    requires n <= |acts|
  {
    exists j | 0 <= j < n :: acts[j] == Wrap(c)
  }

  predicate Past(s: State, c: ConnId) {
    (c in s.conns && s.conns[c].pc.Wrapped?) || exists e :: e in s.pool && e.conn == c
  }

  lemma PastStep(cfg: Config, s: State, a: Action, s': State, c: ConnId)
    requires Step(cfg, s, a, s') && Past(s', c) && a != Wrap(c)
    ensures Past(s, c)
  {
    hide ControlAck, ReadControlAck, ServerVersion;
    if e :| e in s'.pool && e.conn == c {
      assert e in s.pool || (a.Deliver? && a.c == c);
    }
  }

  lemma {:induction false} PooledWasWrapped(cfg: Config, states: seq<State>, acts: seq<Action>, c: ConnId, n: nat)
    requires Run(cfg, states, acts) && n <= |acts| && Past(states[n], c)
    ensures WasWrapped(acts, c, n)
  {
    if n > 0 {
      assert Step(cfg, states[n - 1], acts[n - 1], states[n]);
      if acts[n - 1] != Wrap(c) {
        PastStep(cfg, states[n - 1], acts[n - 1], states[n], c);
        PooledWasWrapped(cfg, states, acts, c, n - 1);
      }
    }
  }

  /** What a pooled connection had when it was put there, at a step before the nonce was taken back. */
  lemma PooledHad(cfg: Config, states: seq<State>, acts: seq<Action>, c: ConnId, d: nat, e: PoolEntry)
    requires Run(cfg, states, acts) && PooledAt(states, acts, c, d, e)
    ensures var s := states[d];
            && Inv(cfg, s) && c in s.conns && s.conns[c].pc.Wrapped? && ConnInv(cfg, s, c)
            && Delivers(s.conns[c].pc, c, e)
            && (s.phase == NonceCleared <==> NonceWasCleared(acts, d))
            && (s.phase in {ControlCleared, NonceCleared} <==> ControlWasCleared(acts, d))
            && (HasCandidate(s.publisher) ==> CandidateInv(cfg, s, s.publisher.k))
  {
    RunKeepsInv(cfg, states, acts);
    assert states[d] in states;
    WritesSoFar(cfg, states, acts, d);
    assert Step(cfg, states[d], acts[d], states[d + 1]);
    PoolMoves(cfg, states[d], acts[d], states[d + 1]);
    assert states[d + 1].pool[|states[d].pool|] == e;
    hide Step, Run, CandidateInv, CredentialInv, VersionInv, NonceWasCleared, ControlWasCleared;
  }

  /** A session pooled before teardown was built at one step of the run, and carries the version the run
      settled on exactly when that version is 1 or had been stored before that step. */
  lemma SessionVersionIff(cfg: Config, states: seq<State>, acts: seq<Action>, c: ConnId, d: nat, e: PoolEntry)
    returns (j: nat)
    requires Run(cfg, states, acts) && cfg.muxed && PooledAt(states, acts, c, d, e) && !NonceWasCleared(acts, d)
    ensures j < d && acts[j] == Wrap(c)
    ensures NonceUp(states[d].publisher)
    ensures var settled := ServerVersion(cfg.serverMux, states[d].publisher.k.promised);
            e.version == settled <==> VersionWasSet(acts, j) || settled == 1
    ensures e.credential == SourceAddress ==> VersionWasSet(acts, j)
  {
    PooledHad(cfg, states, acts, c, d, e);
    assert Past(states[d], c);
    PooledWasWrapped(cfg, states, acts, c, d);
    j :| 0 <= j < d && acts[j] == Wrap(c);
    BuiltSince(cfg, states, acts, c, j, d);
    hide Run, Inv, VersionWasSet;
  }

  // ---- What it announced ----

  /** The server is, with a connection that announced this, no further than the announcement allows. */
  predicate PcHeard(cfg: Config, pc: Pc, signal: Byte, payload: seq<Byte>) {
    match pc
    case Announced(x, y) => x == signal && y == payload
    case Claiming(x, y) => IsControlSignal(signal) && x == signal && y == payload
    case Answering(x) => IsControlSignal(signal) && x == signal && payload == cfg.token
    case Answered(k) => IsControlSignal(signal) && k.signal == signal && payload == cfg.token
    case Offered => IsControlSignal(signal) && payload == cfg.token
    case Presenting(y) => signal == SG_POOL && y == payload
    case Admitted(credential) => signal == SG_POOL && credential == Presented(payload)
    case Wrapped(credential, _, _) => signal == SG_POOL && credential == Presented(payload)
    case Pooled => signal == SG_POOL
    case Closed => true
    case _ => false
  }

  /** And has answered it only as that. */
  predicate ConnHeard(cfg: Config, conn: Conn, signal: Byte, payload: seq<Byte>) {
    && PcHeard(cfg, conn.pc, signal, payload)
    && (conn.reply.Some? && conn.reply.value.signal != SG_REFUSED ==>
          conn.reply.value.signal == signal && payload == cfg.token)
  }

  /** And has pooled it only as that. */
  predicate Heard(cfg: Config, s: State, c: ConnId, signal: Byte, payload: seq<Byte>) {
    && c in s.conns && ConnHeard(cfg, s.conns[c], signal, payload)
    && forall e <- s.pool :: e.conn == c ==> signal == SG_POOL && e.credential == Presented(payload)
  }

  lemma HeardGoesOn(cfg: Config, s: State, a: Action, c: ConnId, signal: Byte, payload: seq<Byte>)
    requires Enabled(cfg, s, a) && (a.Looks() || a.Admits() || a.Offer? || a.CheckInUse?) && a.c == c
    requires c in s.conns && ConnHeard(cfg, s.conns[c], signal, payload)
    ensures var s' := ConnStep(cfg, s, c, a); c in s'.conns && ConnHeard(cfg, s'.conns[c], signal, payload)
  {
    hide SessionVersion;
  }

  /** A step of its own takes a connection no further than its announcement allows. */
  lemma HeardOwn(cfg: Config, s: State, a: Action, s': State, c: ConnId, signal: Byte, payload: seq<Byte>)
    requires Step(cfg, s, a, s') && Heard(cfg, s, c, signal, payload) && Own(a, c)
    ensures c in s'.conns && ConnHeard(cfg, s'.conns[c], signal, payload)
  {
    if a.Looks() || a.Admits() || a.Offer? || a.CheckInUse? {
      HeardGoesOn(cfg, s, a, c, signal, payload);
    }
    hide ConnStep, ControlAck, ReadControlAck, ServerVersion;
  }

  lemma HeardStep(cfg: Config, s: State, a: Action, s': State, c: ConnId, signal: Byte, payload: seq<Byte>)
    requires Step(cfg, s, a, s') && Heard(cfg, s, c, signal, payload)
    ensures Heard(cfg, s', c, signal, payload)
  {
    PoolMoves(cfg, s, a, s');
    if Own(a, c) {
      HeardOwn(cfg, s, a, s', c, signal, payload);
    } else {
      OthersStay(cfg, s, a, s', c);
    }
    hide Step;
  }

  lemma HeardFirst(cfg: Config, s: State, s': State, c: ConnId, signal: Byte, payload: seq<Byte>)
    requires Inv(cfg, s) && PoolInv(s) && Step(cfg, s, Announce(c, signal, payload), s')
    ensures Heard(cfg, s', c, signal, payload)
  {
    hide CandidateInv, SharedInv, ConnInv, EntryInv, AdoptedInv;
  }

  /** From its announcement on the server treats a connection as what it announced. */
  lemma {:induction false} HeardSince(cfg: Config, states: seq<State>, acts: seq<Action>, c: ConnId, signal: Byte,
                                      payload: seq<Byte>, i: nat, n: nat)
    requires Run(cfg, states, acts) && i < n <= |acts| && acts[i] == Announce(c, signal, payload)
    ensures Heard(cfg, states[n], c, signal, payload)
    decreases n
  {
    assert Step(cfg, states[n - 1], acts[n - 1], states[n]);
    RunKeepsInv(cfg, states, acts);
    assert states[n - 1] in states;
    hide *;
    if i == n - 1 {
      PoolHolds(cfg, states, acts, i);
      HeardFirst(cfg, states[i], states[n], c, signal, payload);
    } else {
      HeardSince(cfg, states, acts, c, signal, payload, i, n - 1);
      HeardStep(cfg, states[n - 1], acts[n - 1], states[n], c, signal, payload);
    }
  }

  /** The server can only have got this far with c by reading an announcement. */
  predicate Spoke(s: State, c: ConnId) {
    && c in s.conns
    && match s.conns[c].pc
       case Accepted => s.conns[c].reply.Some?
       case SawControl => s.conns[c].reply.Some?
       case ByAddress => s.conns[c].reply.Some?
       case Listening => s.conns[c].reply.Some?
       case Admitted(credential) => credential.Presented? || s.conns[c].reply.Some?
       case Wrapped(credential, _, _) => credential.Presented? || s.conns[c].reply.Some?
       case Pooled => s.conns[c].reply.Some?
       case Closed => s.conns[c].reply.Some?
       case _ => true
  }

  predicate Announces(a: Action, c: ConnId) {
    a.Announce? && a.c == c
  }

  lemma SpokeOwn(cfg: Config, s: State, a: Action, s': State, c: ConnId)
    requires Step(cfg, s, a, s') && Spoke(s', c) && Own(a, c) && !Announces(a, c)
    ensures Spoke(s, c)
  {
    hide ControlAck, ReadControlAck, ServerVersion;
  }

  lemma ConnsStay(cfg: Config, s: State, a: Action, s': State, c: ConnId)
    requires Step(cfg, s, a, s') && c in s'.conns && !(a.Accept? && a.c == c)
    ensures c in s.conns
  {
    hide ControlAck, ReadControlAck, ServerVersion;
  }

  lemma SpokeStep(cfg: Config, s: State, a: Action, s': State, c: ConnId)
    requires Step(cfg, s, a, s') && Spoke(s', c) && !Announces(a, c)
    ensures Spoke(s, c)
  {
    if Own(a, c) {
      SpokeOwn(cfg, s, a, s', c);
    } else {
      ConnsStay(cfg, s, a, s', c);
      OthersStay(cfg, s, a, s', c);
      hide Step;
    }
  }

  lemma RunStep(cfg: Config, states: seq<State>, acts: seq<Action>, i: nat)
    requires Run(cfg, states, acts) && i < |acts|
    ensures |states| == |acts| + 1 && Step(cfg, states[i], acts[i], states[i + 1])
  {
    hide Step;
  }

  lemma NobodyAtStart(cfg: Config, states: seq<State>, acts: seq<Action>)
    requires Run(cfg, states, acts)
    ensures |states| == |acts| + 1 && states[0].conns == map[]
  {
    hide Step;
  }

  lemma {:induction false} SpokeBefore(cfg: Config, states: seq<State>, acts: seq<Action>, c: ConnId, n: nat)
    returns (j: nat)
    requires Run(cfg, states, acts) && n <= |acts| && Spoke(states[n], c)
    ensures j < n && Announces(acts[j], c)
  {
    NobodyAtStart(cfg, states, acts);
    assert n > 0;
    hide *;
    RunStep(cfg, states, acts, n - 1);
    if Announces(acts[n - 1], c) {
      j := n - 1;
    } else {
      SpokeStep(cfg, states[n - 1], acts[n - 1], states[n], c);
      j := SpokeBefore(cfg, states, acts, c, n - 1);
    }
  }

  /** An announcement is taken as a claim, as a nonce or as nothing, by its signal alone. */
  lemma SignalDecides(cfg: Config, states: seq<State>, acts: seq<Action>, c: ConnId, signal: Byte, payload: seq<Byte>,
                      i: nat, j: nat)
    requires Run(cfg, states, acts) && i < j < |acts|
    requires acts[i] == Announce(c, signal, payload) && acts[j] == Dispatch(c)
    ensures c in states[j + 1].conns
    ensures states[j + 1].conns[c].pc ==
            if signal == 1 || signal == 7 then Claiming(signal, payload)
            else if signal == 8 then Presenting(payload)
            else Closed
  {
    HeardSince(cfg, states, acts, c, signal, payload, i, j);
    assert Step(cfg, states[j], acts[j], states[j + 1]);
    hide Run;
  }

  /** Whoever got an answer that is not a refusal announced the token, with the signal it was answered with. */
  lemma AnswerNeedsTheToken(cfg: Config, states: seq<State>, acts: seq<Action>, c: ConnId, n: nat) returns (j: nat)
    requires Run(cfg, states, acts) && n <= |acts| && c in states[n].conns
    requires states[n].conns[c].reply.Some? && states[n].conns[c].reply.value.signal != SG_REFUSED
    ensures j < n && acts[j] == Announce(c, states[n].conns[c].reply.value.signal, cfg.token)
  {
    j := SpokeBefore(cfg, states, acts, c, n);
    HeardSince(cfg, states, acts, c, acts[j].signal, acts[j].payload, j, n);
  }

  /** So did whatever is published as the control channel, or about to be. */
  lemma CandidateNeedsTheToken(cfg: Config, states: seq<State>, acts: seq<Action>, n: nat) returns (j: nat)
    requires Run(cfg, states, acts) && n <= |acts| && HasCandidate(states[n].publisher)
    ensures var k := states[n].publisher.k; j < n && acts[j] == Announce(k.conn, k.signal, cfg.token)
  {
    RunKeepsInv(cfg, states, acts);
    assert states[n] in states;
    var k := states[n].publisher.k;
    assert CandidateInv(cfg, states[n], k);
    hide Inv, Run, ControlAck;
    j := AnswerNeedsTheToken(cfg, states, acts, k.conn, n);
  }

  /** A claim goes on exactly when no control channel is set and it came with the token; otherwise it is
      refused, as in use or for the token, in that order. */
  lemma ClaimGoesOnIff(cfg: Config, states: seq<State>, acts: seq<Action>, c: ConnId, signal: Byte, payload: seq<Byte>,
                       i: nat, j: nat)
    requires Run(cfg, states, acts) && i < j < |acts|
    requires acts[i] == Announce(c, signal, payload) && acts[j] == CheckInUse(c)
    ensures c in states[j + 1].conns && IsControlSignal(signal)
    ensures var conn := states[j + 1].conns[c];
            var inUse := ControlWasSet(acts, j) && !ControlWasCleared(acts, j);
            && (conn.pc == Answering(signal) <==> !inUse && payload == cfg.token)
            && (conn.pc == Closed && conn.reply == Some(Reply(Text("in-use"), 9)) <==> inUse)
            && (conn.pc == Closed && conn.reply == Some(Reply(Text("token"), 9)) <==> !inUse && payload != cfg.token)
  {
    HeardSince(cfg, states, acts, c, signal, payload, i, j);
    RunKeepsInv(cfg, states, acts);
    assert states[j] in states;
    WritesSoFar(cfg, states, acts, j);
    assert Step(cfg, states[j], acts[j], states[j + 1]);
    assert Text("in-use") == REFUSED_IN_USE && Text("token") == REFUSED_BAD_TOKEN;
    hide Inv, Run, ControlWasSet, ControlWasCleared, Text, REFUSED_IN_USE, REFUSED_BAD_TOKEN;
  }

  /** A claim that goes on is answered with the token, and in the current handshake with a nonce and a version in
      front of it; it becomes a candidate with what it was told if and only if the answer could be sent. */
  lemma AnsweredIff(cfg: Config, states: seq<State>, acts: seq<Action>, c: ConnId, signal: Byte, payload: seq<Byte>,
                    nonce: seq<Byte>, sent: bool, i: nat, j: nat)
    requires Run(cfg, states, acts) && i < j < |acts|
    requires acts[i] == Announce(c, signal, payload) && acts[j] == AnswerClaim(c, nonce, sent)
    ensures c in states[j + 1].conns && IsControlSignal(signal) && payload == cfg.token
    ensures var conn, v := states[j + 1].conns[c], cfg.OfferedVersion();
            if !sent then conn.pc == Closed && conn.reply == None
            else if signal == 7 then
              && conn.pc == Answered(Candidate(c, signal, nonce, v))
              && conn.reply == Some(Reply(nonce + [48 + v] + cfg.token, signal))
            else conn.pc == Answered(Candidate(c, signal, [], 0)) && conn.reply == Some(Reply(cfg.token, signal))
  {
    HeardSince(cfg, states, acts, c, signal, payload, i, j);
    RunKeepsInv(cfg, states, acts);
    assert states[j] in states;
    assert Step(cfg, states[j], acts[j], states[j + 1]);
    hide Run, SharedInv, ConnInv, EntryInv, AdoptedInv;
  }

  /** A text of single bytes. */
  function Text(s: string): seq<Byte> {
    seq(|s|, i requires 0 <= i < |s| => s[i] as int % 256)
  }

  /** A pool connection is let in exactly when what it announced is the nonce of the run, presented after it
      was published, which the client may not wait for, and before it is taken back. */
  lemma NonceIsVerifiedIff(cfg: Config, states: seq<State>, acts: seq<Action>, c: ConnId, signal: Byte,
                           payload: seq<Byte>, i: nat, j: nat)
    requires Run(cfg, states, acts) && HasCandidate(states[|acts|].publisher)
    requires states[|acts|].publisher.k.signal == SG_CHAN_V2
    requires i < j < |acts| && acts[i] == Announce(c, signal, payload) && acts[j] == Verify(c)
    ensures c in states[j + 1].conns && signal == SG_POOL
    ensures var pc := states[j + 1].conns[c].pc;
            && (pc == Admitted(Presented(payload)) <==>
                  payload == states[|acts|].publisher.k.nonce && NonceWasSet(acts, j) && !NonceWasCleared(acts, j))
            && (pc == Closed <==> pc != Admitted(Presented(payload)))
  {
    var s, k := states[j], states[|acts|].publisher.k;
    HeardSince(cfg, states, acts, c, signal, payload, i, j);
    RunKeepsInv(cfg, states, acts);
    assert s in states && states[|acts|] in states;
    assert CandidateInv(cfg, states[|acts|], k);
    WritesSoFar(cfg, states, acts, j);
    assert Step(cfg, s, acts[j], states[j + 1]);
    if HasCandidate(s.publisher) {
      OneCandidatePerRun(cfg, states, acts, j, |acts|);
    }
    hide Run, NonceWasSet, NonceWasCleared, CandidateInv, ConnInv, EntryInv, AdoptedInv;
  }

  /** In a run whose control channel was opened with the current handshake, every connection put on the
      tunnel channel before the nonce was taken back had announced that run's nonce; nothing at all is put
      there before the nonce is in place. */
  lemma PoolPresentedTheNonce(cfg: Config, states: seq<State>, acts: seq<Action>, c: ConnId, d: nat, e: PoolEntry)
    returns (j: nat)
    requires Run(cfg, states, acts) && PooledAt(states, acts, c, d, e) && !NonceWasCleared(acts, d)
    ensures HasCandidate(states[d].publisher) && NonceWasSet(acts, d)
    ensures states[d].publisher.k.signal == SG_CHAN_V2 ==>
              j < d && acts[j] == Announce(c, SG_POOL, states[d].publisher.k.nonce)
  {
    PooledHad(cfg, states, acts, c, d, e);
    WritesSoFar(cfg, states, acts, d);
    j := 0;
    if states[d].publisher.k.signal == SG_CHAN_V2 {
      assert states[d].conns[c].pc.credential == Presented(states[d].publisher.k.nonce);
      j := SpokeBefore(cfg, states, acts, c, d);
      HeardSince(cfg, states, acts, c, acts[j].signal, acts[j].payload, j, d);
    }
  }

  // ---- Where it came from ----

  lemma {:induction false} HostIsAccepted(cfg: Config, states: seq<State>, acts: seq<Action>, c: ConnId, n: nat)
    returns (j: nat)
    requires Run(cfg, states, acts) && n <= |acts| && c in states[n].conns
    ensures j < n && acts[j] == Accept(c, states[n].conns[c].host)
  {
    NobodyAtStart(cfg, states, acts);
    assert n > 0;
    RunStep(cfg, states, acts, n - 1);
    hide Run;
    if acts[n - 1].Accept? && acts[n - 1].c == c {
      j := n - 1;
    } else {
      hide *;
      HostStays(cfg, states[n - 1], acts[n - 1], states[n], c);
      j := HostIsAccepted(cfg, states, acts, c, n - 1);
    }
  }

  lemma HostStays(cfg: Config, s: State, a: Action, s': State, c: ConnId)
    requires Step(cfg, s, a, s') && c in s'.conns && !(a.Accept? && a.c == c)
    ensures c in s.conns && s'.conns[c].host == s.conns[c].host
  {
    hide ControlAck, ReadControlAck, ServerVersion;
  }

  /** In a legacy run every connection pooled while the run was up came from the host of the control channel. */
  lemma LegacyPoolSharesTheHost(cfg: Config, states: seq<State>, acts: seq<Action>, c: ConnId, d: nat, e: PoolEntry)
    returns (i: nat, j: nat)
    requires Run(cfg, states, acts) && PooledAt(states, acts, c, d, e) && !ControlWasCleared(acts, d)
    requires HasCandidate(states[d].publisher) && states[d].publisher.k.signal == SG_CHAN
    ensures i < d && j < d && acts[i].Accept? && acts[i].c == c
    ensures acts[j] == Accept(states[d].publisher.k.conn, acts[i].host)
  {
    PooledHad(cfg, states, acts, c, d, e);
    assert states[d].phase in {Live, Cancelled};
    i := HostIsAccepted(cfg, states, acts, c, d);
    j := HostIsAccepted(cfg, states, acts, states[d].publisher.k.conn, d);
  }

  /** A connection taken by its source address is let in exactly when it comes from the host of the control
      channel, or no control channel is set any more. */
  lemma HostDecidesIff(cfg: Config, states: seq<State>, acts: seq<Action>, c: ConnId, j: nat) returns (i: nat, m: nat)
    requires Run(cfg, states, acts) && j < |acts| && acts[j] == CompareHosts(c)
    ensures i < j && acts[i].Accept? && acts[i].c == c && c in states[j + 1].conns
    ensures HasCandidate(states[j].publisher)
    ensures m < j && acts[m].Accept? && acts[m].c == states[j].publisher.k.conn
    ensures var pc := states[j + 1].conns[c].pc;
            && (pc == Admitted(SourceAddress) <==> ControlWasCleared(acts, j) || acts[i].host == acts[m].host)
            && (pc == Closed <==> pc != Admitted(SourceAddress))
  {
    RunKeepsInv(cfg, states, acts);
    assert states[j] in states;
    WritesSoFar(cfg, states, acts, j);
    assert Step(cfg, states[j], acts[j], states[j + 1]);
    assert ConnInv(cfg, states[j], c);
    i := HostIsAccepted(cfg, states, acts, c, j);
    m := HostIsAccepted(cfg, states, acts, states[j].publisher.k.conn, j);
  }

  /** A connection that was dropped, or closed for any other reason, is not used again. */
  lemma {:induction false} ClosedStays(cfg: Config, states: seq<State>, acts: seq<Action>, c: ConnId, j: nat, n: nat)
    requires Run(cfg, states, acts) && j < n <= |acts| && c in states[j].conns
    requires acts[j] == Drop(c) || states[j].conns[c].pc.Closed?
    ensures c in states[n].conns && states[n].conns[c].pc.Closed?
    decreases n
  {
    assert Step(cfg, states[n - 1], acts[n - 1], states[n]);
    hide Run, Step;
    if j < n - 1 {
      ClosedStays(cfg, states, acts, c, j, n - 1);
    }
    ClosedStep(cfg, states[n - 1], acts[n - 1], states[n], c);
  }

  lemma ClosedStep(cfg: Config, s: State, a: Action, s': State, c: ConnId)
    requires Step(cfg, s, a, s') && c in s.conns && (a == Drop(c) || s.conns[c].pc.Closed?)
    ensures c in s'.conns && s'.conns[c].pc.Closed?
  {
    if s.conns[c].pc.Closed? {
      PcAfter(cfg, s, a, s', c);
      hide Step;
    }
  }

  // ---- The two channels ----

  /** How often somebody has taken a connection from the tunnel channel. */
  function Taken(acts: seq<Action>, n: nat): nat
    requires n <= |acts|
  {
    if n == 0 then 0 else Taken(acts, n - 1) + if acts[n - 1].TakeFromPool? then 1 else 0
  }

  lemma WaitingStep(cfg: Config, s: State, a: Action, s': State)
    requires Step(cfg, s, a, s')
    ensures s'.waiting - |s'.pool| == s.waiting - |s.pool| - (if a.TakeFromPool? then 1 else 0)
  {
    hide ControlAck, ReadControlAck, ServerVersion;
  }

  lemma {:induction false} WaitingIs(cfg: Config, states: seq<State>, acts: seq<Action>, n: nat)
    requires Run(cfg, states, acts) && n <= |acts|
    ensures states[n].waiting == |states[n].pool| - Taken(acts, n)
  {
    if n > 0 {
      WaitingIs(cfg, states, acts, n - 1);
      assert Step(cfg, states[n - 1], acts[n - 1], states[n]);
      hide Step, Run;
      WaitingStep(cfg, states[n - 1], acts[n - 1], states[n]);
    }
  }

  /** An admitted connection is pooled exactly when the tunnel channel has room, and closed otherwise. */
  lemma PooledIff(cfg: Config, states: seq<State>, acts: seq<Action>, c: ConnId, d: nat)
    requires Run(cfg, states, acts) && d < |acts| && acts[d] == Deliver(c)
    ensures c in states[d + 1].conns
    ensures (exists e :: PooledAt(states, acts, c, d, e)) <==> |states[d].pool| - Taken(acts, d) < cfg.poolSize
    ensures states[d + 1].conns[c].pc == if |states[d].pool| - Taken(acts, d) < cfg.poolSize then Pooled else Closed
  {
    WaitingIs(cfg, states, acts, d);
    assert Step(cfg, states[d], acts[d], states[d + 1]);
    PoolMoves(cfg, states[d], acts[d], states[d + 1]);
    hide Run, Taken;
    if states[d + 1].pool != states[d].pool {
      var e :| states[d + 1].pool == states[d].pool + [e] && e.conn == c;
      assert PooledAt(states, acts, c, d, e);
    }
  }

  /** At step i a candidate was put on the handshake channel. */
  predicate OfferedAt(states: seq<State>, acts: seq<Action>, i: nat) {
    && |states| == |acts| + 1 && i < |acts| && acts[i].Offer?
    && acts[i].c in states[i + 1].conns && states[i + 1].conns[acts[i].c].pc.Offered?
  }

  predicate PendingFrom(states: seq<State>, acts: seq<Action>, i: nat, n: nat)
    requires n <= |acts|
  {
    OfferedAt(states, acts, i) && !ReceivedSince(acts, i, n)
  }

  /** Before step n one was, and nobody has received it. */
  predicate OfferPending(states: seq<State>, acts: seq<Action>, n: nat)
    requires n <= |acts|
  {
    exists i | 0 <= i < n :: PendingFrom(states, acts, i, n)
  }

  predicate ReceivedSince(acts: seq<Action>, i: nat, n: nat)
    requires n <= |acts|
  {
    exists m | i < m < n :: acts[m].Receive?
  }

  lemma ReceivedOneMore(acts: seq<Action>, i: nat, n: nat)
    requires i <= n < |acts|
    ensures ReceivedSince(acts, i, n + 1) <==> i < n && (ReceivedSince(acts, i, n) || acts[n].Receive?)
  {
  }

  lemma PendingFromOneMore(states: seq<State>, acts: seq<Action>, i: nat, n: nat)
    requires |states| == |acts| + 1 && i <= n < |acts|
    ensures PendingFrom(states, acts, i, n + 1) <==>
            if i == n then OfferedAt(states, acts, n) else PendingFrom(states, acts, i, n) && !acts[n].Receive?
  {
    hide OfferedAt, ReceivedSince;
    ReceivedOneMore(acts, i, n);
  }

  lemma PendingOneMore(states: seq<State>, acts: seq<Action>, n: nat)
    requires |states| == |acts| + 1 && n < |acts|
    ensures OfferPending(states, acts, n + 1) <==>
            (OfferPending(states, acts, n) && !acts[n].Receive?) || OfferedAt(states, acts, n)
  {
    hide OfferedAt, PendingFrom;
    PendingFromOneMore(states, acts, n, n);
    if OfferPending(states, acts, n) {
      var i :| 0 <= i < n && PendingFrom(states, acts, i, n);
      PendingFromOneMore(states, acts, i, n);
    }
    if OfferPending(states, acts, n + 1) {
      var i :| 0 <= i < n + 1 && PendingFrom(states, acts, i, n + 1);
      PendingFromOneMore(states, acts, i, n);
    }
  }

  lemma PendingStep(cfg: Config, s: State, a: Action, s': State)
    requires Step(cfg, s, a, s')
    ensures s'.handshakes.Some? <==>
            || (s.handshakes.Some? && !a.Receive?)
            || (a.Offer? && a.c in s'.conns && s'.conns[a.c].pc.Offered?)
  {
    hide ControlAck, ReadControlAck, ServerVersion;
  }

  lemma {:induction false} PendingIs(cfg: Config, states: seq<State>, acts: seq<Action>, n: nat)
    requires Run(cfg, states, acts) && n <= |acts|
    ensures states[n].handshakes.Some? <==> OfferPending(states, acts, n)
  {
    if n > 0 {
      PendingIs(cfg, states, acts, n - 1);
      assert Step(cfg, states[n - 1], acts[n - 1], states[n]);
      hide Step, Run, OfferPending;
      PendingStep(cfg, states[n - 1], acts[n - 1], states[n]);
      PendingOneMore(states, acts, n - 1);
    }
  }

  /** A candidate is kept exactly when the one before it, if any, has been received, and closed otherwise. */
  lemma OfferedIff(cfg: Config, states: seq<State>, acts: seq<Action>, c: ConnId, j: nat)
    requires Run(cfg, states, acts) && j < |acts| && acts[j] == Offer(c)
    ensures c in states[j + 1].conns
    ensures states[j + 1].conns[c].pc == if OfferPending(states, acts, j) then Closed else Offered
  {
    PendingIs(cfg, states, acts, j);
    assert Step(cfg, states[j], acts[j], states[j + 1]);
    hide OfferPending, Run;
  }
}
