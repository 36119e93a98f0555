/**
 The connection limit of one server run: every local connection, TCP or a UDP flow, takes a slot
 when it is accepted and gives it back when its transfer ends or nobody claimed it. Accepting
 goroutines, handle loops and transfers interleave at every access to the counter and the queue.
 `quic` selects the QUIC loop, which differs from the TCP one in when it looks at the clock and in
 what it does with a connection it is pairing when the run ends.
 */
module Slots {

  type ConnId = nat
  type LoopId = nat

  const PAIRING_TIMEOUT_MS := 3000

  datatype Config = Config(maxConns: int, queueSize: nat, loops: nat, quic: bool)

  datatype Phase =
    | Arriving                 // accepted, about to ask for a slot
    | Overshot                 // its increment went past the limit and is to be rolled back
    | Granted                  // has a slot, about to be queued
    | Queued(created: int)
    | Held(created: int)       // a handle loop has it
    | Relaying
    | Abandoned                // left behind by a handle loop that ended with the run
    | Refused                  // no slot
    | Dropped                  // the queue was full
    | TimedOut
    | Finished
    | ReturnedAtEnd            // given up by a handle loop that ended with the run, slot returned
  {
    /** The counter includes this connection. */
    predicate Counted() {
      Overshot? || HasSlot()
    }

    predicate HasSlot() {
      Granted? || Queued? || Held? || Relaying? || Abandoned?
    }

    predicate Ended() {
      Abandoned? || Refused? || Dropped? || TimedOut? || Finished? || ReturnedAtEnd?
    }
  }

  datatype Loop = Idle | ToCheck(c: ConnId) | Pairing(c: ConnId) | Exited

  datatype State = State(
    active: int,
    lost: nat,                       // what earlier runs left in the counter for good
    conns: map<ConnId, Phase>,
    queue: seq<ConnId>,
    loops: seq<Loop>,
    cancelled: bool,
    pairings: seq<ConnId>
  )

  datatype Action =
    | Arrive(c: ConnId)
    | Add(c: ConnId)
    | RollBack(c: ConnId)
    | Enqueue(c: ConnId, now: int)
    | Dequeue(l: LoopId)
    | CheckClock(l: LoopId, now: int)
    | TakeTunnelConn(l: LoopId, sent: bool)
    | SeeRunEnd(l: LoopId)
    | TransferEnds(c: ConnId)
    | Cancel

  function Init(cfg: Config, lost: nat): State {
    State(lost, lost, map[], [], seq(cfg.loops, _ => Idle), false, [])
  }

  /** What a counter can hold between runs. */
  predicate CanStart(cfg: Config, lost: nat) {
    if cfg.maxConns > 0 then lost <= cfg.maxConns else lost == 0
  }

  predicate LoopHas(s: State, l: LoopId, c: ConnId) {
    l < |s.loops| && (s.loops[l] == ToCheck(c) || s.loops[l] == Pairing(c))
  }

  predicate Enabled(s: State, a: Action) {
    match a
    case Arrive(c) => c !in s.conns
    case Add(c) => c in s.conns && s.conns[c].Arriving?
    case RollBack(c) => c in s.conns && s.conns[c].Overshot?
    case Enqueue(c, _) => c in s.conns && s.conns[c].Granted?
    case Dequeue(l) => l < |s.loops| && s.loops[l].Idle? && s.queue != [] && s.queue[0] in s.conns && s.conns[s.queue[0]].Queued?
    case CheckClock(l, _) => l < |s.loops| && s.loops[l].ToCheck? && s.loops[l].c in s.conns && s.conns[s.loops[l].c].Held?
    case TakeTunnelConn(l, _) => l < |s.loops| && s.loops[l].Pairing? && s.loops[l].c in s.conns && s.conns[s.loops[l].c].Held?
    case SeeRunEnd(l) => s.cancelled && l < |s.loops| && (s.loops[l].Idle? || s.loops[l].Pairing?)
    case TransferEnds(c) => c in s.conns && s.conns[c].Relaying?
    case Cancel => !s.cancelled
  }

  /** What one slot is worth to the counter: without a limit the counter is never touched. */
  function Unit(cfg: Config): int {
    if cfg.maxConns <= 0 then 0 else 1
  }

  function Move(s: State, c: ConnId, phase: Phase, active: int): State {
    s.(conns := s.conns[c := phase], active := active)
  }

  function CheckClockStep(cfg: Config, s: State, l: LoopId, now: int): State
    requires Enabled(s, CheckClock(l, now))
  {
    var c := s.loops[l].c;
    if now - s.conns[c].created > PAIRING_TIMEOUT_MS then
      Move(s, c, TimedOut, s.active - Unit(cfg)).(loops := s.loops[l := Idle])
    else
      s.(loops := s.loops[l := Pairing(c)])
  }

  function TakeStep(cfg: Config, s: State, l: LoopId, sent: bool): State
    requires Enabled(s, TakeTunnelConn(l, sent))
  {
    var c := s.loops[l].c;
    if sent then
      Move(s, c, Relaying, s.active).(loops := s.loops[l := Idle], pairings := s.pairings + [c])
    else
      s.(loops := s.loops[l := if cfg.quic then Pairing(c) else ToCheck(c)])
  }

  function SeeRunEndStep(cfg: Config, s: State, l: LoopId): State
    requires Enabled(s, SeeRunEnd(l))
  {
    match s.loops[l]
    case Pairing(c) =>
      if cfg.quic then Move(s, c, ReturnedAtEnd, s.active - Unit(cfg)).(loops := s.loops[l := Idle])
      else Move(s, c, Abandoned, s.active).(loops := s.loops[l := Exited])
    case _ => s.(loops := s.loops[l := Exited])
  }

  function Next(cfg: Config, s: State, a: Action): State
    requires Enabled(s, a)
  {
    match a
    case Arrive(c) => Move(s, c, Arriving, s.active)
    case Add(c) =>
      if cfg.maxConns <= 0 then Move(s, c, Granted, s.active)
      else if s.active + 1 > cfg.maxConns then Move(s, c, Overshot, s.active + 1)
      else Move(s, c, Granted, s.active + 1)
    case RollBack(c) => Move(s, c, Refused, s.active - 1)
    case Enqueue(c, now) =>
      if |s.queue| < cfg.queueSize then Move(s, c, Queued(now), s.active).(queue := s.queue + [c])
      else Move(s, c, Dropped, s.active - Unit(cfg))
    case Dequeue(l) =>
      var c := s.queue[0];
      Move(s, c, Held(s.conns[c].created), s.active).(
        queue := s.queue[1..], loops := s.loops[l := ToCheck(c)])
    case CheckClock(l, now) => CheckClockStep(cfg, s, l, now)
    case TakeTunnelConn(l, sent) => TakeStep(cfg, s, l, sent)
    case SeeRunEnd(l) => SeeRunEndStep(cfg, s, l)
    case TransferEnds(c) => Move(s, c, Finished, s.active - Unit(cfg))
    case Cancel => s.(cancelled := true)
  }

  // The invariant.

  /** The connections the counter includes. */
  ghost function Holders(conns: map<ConnId, Phase>): set<ConnId> {
    set c | c in conns && conns[c].Counted()
  }

  /** Those that were really given a slot. */
  ghost function SlotHolders(conns: map<ConnId, Phase>): set<ConnId> {
    set c | c in conns && conns[c].HasSlot()
  }

  ghost predicate QueueInv(s: State) {
    && (forall i, j | 0 <= i < j < |s.queue| :: s.queue[i] != s.queue[j])
    && (forall c <- s.conns :: s.conns[c].Queued? <==> c in s.queue)
    && (forall c <- s.queue :: c in s.conns)
  }

  /** Loops and held connections match one to one. */
  ghost predicate LoopInv(s: State) {
    && (forall l: nat, c | LoopHas(s, l, c) :: c in s.conns && s.conns[c].Held?)
    && (forall l: nat, m: nat, c | LoopHas(s, l, c) && LoopHas(s, m, c) :: l == m)
    && (forall c <- s.conns :: s.conns[c].Held? ==> exists l :: LoopHas(s, l, c))
  }

  ghost predicate CountInv(cfg: Config, s: State) {
    && (cfg.maxConns > 0 ==> s.active == s.lost + |Holders(s.conns)| && s.lost + |SlotHolders(s.conns)| <= cfg.maxConns)
    && (cfg.maxConns <= 0 ==> s.active == 0 && forall c <- s.conns :: !s.conns[c].Overshot?)
  }

  ghost predicate PairInv(s: State) {
    && (forall i, j | 0 <= i < j < |s.pairings| :: s.pairings[i] != s.pairings[j])
    && (forall c <- s.conns :: (s.conns[c].Relaying? || s.conns[c].Finished?) <==> c in s.pairings)
    && (forall c <- s.pairings :: c in s.conns)
  }

  predicate AbandonInv(cfg: Config, s: State) {
    forall c <- s.conns :: s.conns[c].Abandoned? ==> s.cancelled && !cfg.quic
  }

  ghost predicate Inv(cfg: Config, s: State) {
    && QueueInv(s) && LoopInv(s) && CountInv(cfg, s) && PairInv(s)
    && AbandonInv(cfg, s)
  }

  lemma SubsetSize(a: set<ConnId>, b: set<ConnId>)
    requires a <= b
    ensures |a| <= |b|
  {
    assert b == a + (b - a);
  }

  /** One connection changing phase changes the holders by at most itself. */
  lemma HoldersMove(conns: map<ConnId, Phase>, c: ConnId, phase: Phase)
    ensures |Holders(conns[c := phase])| ==
            |Holders(conns)| + (if phase.Counted() then 1 else 0) - (if c in Holders(conns) then 1 else 0)
  {
    var now := conns[c := phase];
    if phase.Counted() {
      assert Holders(now) == Holders(conns) + {c};
    } else {
      assert Holders(now) == Holders(conns) - {c};
    }
  }

  lemma SlotHoldersMove(conns: map<ConnId, Phase>, c: ConnId, phase: Phase)
    ensures |SlotHolders(conns[c := phase])| ==
            |SlotHolders(conns)| + (if phase.HasSlot() then 1 else 0) - (if c in SlotHolders(conns) then 1 else 0)
  {
    var now := conns[c := phase];
    if phase.HasSlot() {
      assert SlotHolders(now) == SlotHolders(conns) + {c};
    } else {
      assert SlotHolders(now) == SlotHolders(conns) - {c};
    }
  }

  /** The connection a step moves, if it moves one. */
  function Moved(s: State, a: Action): ConnId
    requires Enabled(s, a)
  {
    match a
    case Arrive(c) => c
    case Add(c) => c
    case RollBack(c) => c
    case Enqueue(c, _) => c
    case Dequeue(_) => s.queue[0]
    case CheckClock(l, _) => s.loops[l].c
    case TakeTunnelConn(l, _) => s.loops[l].c
    case SeeRunEnd(l) => if s.loops[l].Pairing? then s.loops[l].c else 0
    case TransferEnds(c) => c
    case Cancel => 0
  }

  /** A loop that is about to act on a connection has it. */
  lemma HeldByLoop(s: State, a: Action)
    requires LoopInv(s) && Enabled(s, a)
    ensures (a.CheckClock? || a.TakeTunnelConn? || (a.SeeRunEnd? && s.loops[a.l].Pairing?)) ==>
              LoopHas(s, a.l, s.loops[a.l].c) && s.loops[a.l].c in s.conns && s.conns[s.loops[a.l].c].Held?
  {
    if a.CheckClock? || a.TakeTunnelConn? || (a.SeeRunEnd? && s.loops[a.l].Pairing?) {
      assert LoopHas(s, a.l, s.loops[a.l].c);
    }
  }

  lemma LoopMovesOne(cfg: Config, s: State, a: Action)
    requires LoopInv(s) && Enabled(s, a) && (a.CheckClock? || a.TakeTunnelConn? || a.SeeRunEnd?)
    ensures var s', c := Next(cfg, s, a), Moved(s, a);
            && s'.lost == s.lost
            && if c in s'.conns then s'.conns == s.conns[c := s'.conns[c]]
               else s'.conns == s.conns && s'.active == s.active
  {
    HeldByLoop(s, a);
    hide LoopInv, LoopHas;
  }

  /** A step moves one connection at most. */
  lemma MovesOne(cfg: Config, s: State, a: Action)
    requires LoopInv(s) && Enabled(s, a)
    ensures var s', c := Next(cfg, s, a), Moved(s, a);
            && s'.lost == s.lost
            && if c in s'.conns then s'.conns == s.conns[c := s'.conns[c]]
               else s'.conns == s.conns && s'.active == s.active
  {
    if a.CheckClock? || a.TakeTunnelConn? || a.SeeRunEnd? {
      LoopMovesOne(cfg, s, a);
      hide Next, Moved, Enabled;
    } else {
      hide LoopInv, LoopHas, CheckClockStep, TakeStep, SeeRunEndStep;
    }
  }

  lemma StepKeepsCount(cfg: Config, s: State, a: Action)
    requires Inv(cfg, s) && Enabled(s, a)
    ensures CountInv(cfg, Next(cfg, s, a))
  {
    var s', c := Next(cfg, s, a), Moved(s, a);
    MovesOne(cfg, s, a);
    if c in s'.conns {
      MovedCounts(cfg, s, a);
    }
    hide Next, Enabled, Moved, QueueInv, LoopInv, PairInv, AbandonInv, LoopHas;
    if c in s'.conns {
      HoldersMove(s.conns, c, s'.conns[c]);
      SlotHoldersMove(s.conns, c, s'.conns[c]);
      SubsetSize(SlotHolders(s'.conns), Holders(s'.conns));
    }
  }

  predicate CountedIn(conns: map<ConnId, Phase>, c: ConnId) {
    c in conns && conns[c].Counted()
  }

  predicate HasSlotIn(conns: map<ConnId, Phase>, c: ConnId) {
    c in conns && conns[c].HasSlot()
  }

  /** The counter moves with the connection. */
  lemma MovedCounts(cfg: Config, s: State, a: Action)
    requires LoopInv(s) && Enabled(s, a) && Moved(s, a) in Next(cfg, s, a).conns
    requires cfg.maxConns <= 0 ==> forall c <- s.conns :: !s.conns[c].Overshot?
    ensures var s', c := Next(cfg, s, a), Moved(s, a);
            && (cfg.maxConns > 0 ==>
                  s'.active == s.active + (if CountedIn(s'.conns, c) then 1 else 0) - (if CountedIn(s.conns, c) then 1 else 0))
            && (cfg.maxConns > 0 && HasSlotIn(s'.conns, c) && !HasSlotIn(s.conns, c) ==> s'.active <= cfg.maxConns)
            && (cfg.maxConns <= 0 ==> s'.active == s.active && !s'.conns[c].Overshot?)
  {
    HeldByLoop(s, a);
    hide LoopInv, LoopHas;
  }

  lemma TailElements(q: seq<ConnId>, c: ConnId)
    requires q != [] && forall i, j | 0 <= i < j < |q| :: q[i] != q[j]
    ensures c in q[1..] <==> c in q && c != q[0]
  {
  }

  lemma StepKeepsQueue(cfg: Config, s: State, a: Action)
    requires QueueInv(s) && LoopInv(s) && Enabled(s, a)
    ensures QueueInv(Next(cfg, s, a))
  {
    HeldByLoop(s, a);
    hide LoopInv, LoopHas;
    if a.Dequeue? {
      DequeueKeepsQueue(cfg, s, a.l);
    } else if a.Enqueue? {
      EnqueueKeepsQueue(cfg, s, a.c, a.now);
    } else {
      assert Next(cfg, s, a).queue == s.queue;
    }
  }

  lemma DequeueKeepsQueue(cfg: Config, s: State, l: LoopId)
    requires QueueInv(s) && Enabled(s, Dequeue(l))
    ensures QueueInv(Next(cfg, s, Dequeue(l)))
  {
    var s' := Next(cfg, s, Dequeue(l));
    forall c <- s'.conns
      ensures s'.conns[c].Queued? <==> c in s'.queue
    {
      TailElements(s.queue, c);
    }
  }

  lemma EnqueueKeepsQueue(cfg: Config, s: State, c: ConnId, now: int)
    requires QueueInv(s) && Enabled(s, Enqueue(c, now))
    ensures QueueInv(Next(cfg, s, Enqueue(c, now)))
  {
    assert c !in s.queue;
  }

  /** A loop that has a connection after the step had it before, or has just taken it off the queue. */
  lemma LoopsHeld(cfg: Config, s: State, a: Action, l: nat, c: ConnId)
    requires QueueInv(s) && LoopInv(s) && Enabled(s, a) && LoopHas(Next(cfg, s, a), l, c)
    ensures LoopHas(s, l, c) || (a == Dequeue(l) && c == s.queue[0])
    ensures c in Next(cfg, s, a).conns && Next(cfg, s, a).conns[c].Held?
  {
    HeldByLoop(s, a);
    assert Next(cfg, s, a).loops[l] == s.loops[l] ==> LoopHas(s, l, c);
  }

  lemma LoopsUnique(cfg: Config, s: State, a: Action, l: nat, m: nat, c: ConnId)
    requires QueueInv(s) && LoopInv(s) && Enabled(s, a) && LoopHas(Next(cfg, s, a), l, c) && LoopHas(Next(cfg, s, a), m, c)
    ensures l == m
  {
    LoopsHeld(cfg, s, a, l, c);
    LoopsHeld(cfg, s, a, m, c);
    hide Next;
  }

  /** A loop keeps its connection while that stays held. */
  lemma LoopKept(cfg: Config, s: State, a: Action, l: nat, c: ConnId)
    requires LoopInv(s) && Enabled(s, a) && LoopHas(s, l, c)
    requires c in Next(cfg, s, a).conns && Next(cfg, s, a).conns[c].Held?
    ensures LoopHas(Next(cfg, s, a), l, c)
  {
    hide LoopInv;
  }

  lemma LoopsCover(cfg: Config, s: State, a: Action, c: ConnId) returns (l: nat)
    requires QueueInv(s) && LoopInv(s) && Enabled(s, a)
    requires c in Next(cfg, s, a).conns && Next(cfg, s, a).conns[c].Held?
    ensures LoopHas(Next(cfg, s, a), l, c)
  {
    if c in s.conns && s.conns[c].Held? {
      l :| LoopHas(s, l, c);
      LoopKept(cfg, s, a, l, c);
    } else {
      HeldByLoop(s, a);
      hide LoopInv;
      l := a.l;
    }
  }

  lemma StepKeepsLoops(cfg: Config, s: State, a: Action)
    requires QueueInv(s) && LoopInv(s) && Enabled(s, a)
    ensures LoopInv(Next(cfg, s, a))
  {
    hide Next, LoopHas, QueueInv;
    var s' := Next(cfg, s, a);
    forall l: nat, c | LoopHas(s', l, c)
      ensures c in s'.conns && s'.conns[c].Held?
    {
      LoopsHeld(cfg, s, a, l, c);
    }
    forall l: nat, m: nat, c | LoopHas(s', l, c) && LoopHas(s', m, c)
      ensures l == m
    {
      LoopsUnique(cfg, s, a, l, m, c);
    }
    forall c <- s'.conns | s'.conns[c].Held?
      ensures exists l :: LoopHas(s', l, c)
    {
      var l := LoopsCover(cfg, s, a, c);
    }
  }

  lemma PairingKeepsPairs(cfg: Config, s: State, l: LoopId, sent: bool)
    requires PairInv(s) && LoopInv(s) && Enabled(s, TakeTunnelConn(l, sent))
    ensures PairInv(Next(cfg, s, TakeTunnelConn(l, sent)))
  {
    HeldByLoop(s, TakeTunnelConn(l, sent));
    hide LoopInv, LoopHas;
  }

  /** Nothing else begins a pairing or ends one but as a transfer. */
  lemma OtherSteps(cfg: Config, s: State, a: Action)
    requires LoopInv(s) && Enabled(s, a) && !a.TakeTunnelConn?
    ensures var s', c := Next(cfg, s, a), Moved(s, a);
            && s'.pairings == s.pairings
            && (c in s'.conns ==>
                  ((s'.conns[c].Relaying? || s'.conns[c].Finished?) <==>
                   (c in s.conns && (s.conns[c].Relaying? || s.conns[c].Finished?))))
  {
    HeldByLoop(s, a);
    hide LoopInv, LoopHas;
  }

  lemma StepKeepsPairs(cfg: Config, s: State, a: Action)
    requires PairInv(s) && LoopInv(s) && Enabled(s, a)
    ensures PairInv(Next(cfg, s, a))
  {
    if a.TakeTunnelConn? {
      PairingKeepsPairs(cfg, s, a.l, a.sent);
    } else {
      var s', c := Next(cfg, s, a), Moved(s, a);
      MovesOne(cfg, s, a);
      OtherSteps(cfg, s, a);
      hide Next, Enabled, Moved, LoopInv, LoopHas;
      assert c !in s'.conns ==> s'.conns == s.conns;
    }
  }

  lemma InitInv(cfg: Config, lost: nat)
    requires CanStart(cfg, lost)
    ensures Inv(cfg, Init(cfg, lost))
  {
    assert Holders(map[]) == {} && SlotHolders(map[]) == {};
  }

  lemma StepKeepsInv(cfg: Config, s: State, a: Action)
    requires Inv(cfg, s) && Enabled(s, a)
    ensures Inv(cfg, Next(cfg, s, a))
  {
    StepKeepsCount(cfg, s, a);
    StepKeepsQueue(cfg, s, a);
    StepKeepsLoops(cfg, s, a);
    StepKeepsPairs(cfg, s, a);
    AbandonStep(cfg, s, a);
    hide Next, QueueInv, LoopInv, CountInv, PairInv;
  }

  lemma AbandonStep(cfg: Config, s: State, a: Action)
    requires AbandonInv(cfg, s) && Enabled(s, a)
    ensures AbandonInv(cfg, Next(cfg, s, a))
  {
  }

  // Whole runs.

  predicate Step(cfg: Config, s: State, a: Action, s': State) {
    Enabled(s, a) && s' == Next(cfg, s, a)
  }

  predicate Run(cfg: Config, states: seq<State>, acts: seq<Action>) {
    && |states| == |acts| + 1
    && CanStart(cfg, states[0].lost) && states[0] == Init(cfg, states[0].lost)
    && forall i | 0 <= i < |acts| :: Step(cfg, states[i], acts[i], states[i + 1])
  }

  lemma {:induction false} RunKeepsInv(cfg: Config, states: seq<State>, acts: seq<Action>)
    requires Run(cfg, states, acts)
    ensures forall s <- states :: Inv(cfg, s)
  {
    hide Inv, Next, Enabled, Init;
    if acts == [] {
      InitInv(cfg, states[0].lost);
    } else {
      var n := |acts| - 1;
      RunKeepsInv(cfg, states[..n + 1], acts[..n]);
      assert Step(cfg, states[n], acts[n], states[n + 1]);
      assert states[n] in states[..n + 1];
      StepKeepsInv(cfg, states[n], acts[n]);
      assert states == states[..n + 1] + [states[n + 1]];
    }
  }

  /** Never more slots are out than the limit, whatever increments are still to be rolled back. */
  lemma LimitHolds(cfg: Config, states: seq<State>, acts: seq<Action>, s: State)
    requires Run(cfg, states, acts) && s in states && cfg.maxConns > 0
    ensures s.lost + |SlotHolders(s.conns)| <= cfg.maxConns && s.lost + |SlotHolders(s.conns)| <= s.active
  {
    RunKeepsInv(cfg, states, acts);
    SubsetSize(SlotHolders(s.conns), Holders(s.conns));
  }

  ghost function BeingQueued(s: State): set<ConnId> { set c | c in s.conns && s.conns[c].Granted? }
  ghost function BeingRefused(s: State): set<ConnId> { set c | c in s.conns && s.conns[c].Overshot? }
  ghost function Waiting(s: State): set<ConnId> { set c | c in s.conns && s.conns[c].Queued? }
  ghost function InLoops(s: State): set<ConnId> { set c | c in s.conns && s.conns[c].Held? }
  ghost function BeingRelayed(s: State): set<ConnId> { set c | c in s.conns && s.conns[c].Relaying? }
  ghost function LeftBehind(s: State): set<ConnId> { set c | c in s.conns && s.conns[c].Abandoned? }

  function Elements(q: seq<ConnId>): set<ConnId> {
    set c | c in q
  }

  lemma {:induction false} DistinctSize(q: seq<ConnId>)
    requires forall i, j | 0 <= i < j < |q| :: q[i] != q[j]
    ensures |Elements(q)| == |q|
  {
    if q == [] {
      assert Elements(q) == {};
    } else {
      var front, last := q[..|q| - 1], q[|q| - 1];
      DistinctSize(front);
      assert q == front + [last];
      assert Elements(q) == Elements(front) + {last};
    }
  }

  lemma DisjointSize(a: set<ConnId>, b: set<ConnId>)
    requires a !! b
    ensures |a + b| == |a| + |b|
  {
  }

  /** Every phase the counter includes is one of these six. */
  lemma HoldersSplit(s: State)
    ensures |Holders(s.conns)| == |BeingRefused(s)| + |BeingQueued(s)| + |Waiting(s)| + |InLoops(s)| + |BeingRelayed(s)| + |LeftBehind(s)|
  {
    var arriving := BeingRefused(s) + BeingQueued(s);
    var held := Waiting(s) + InLoops(s);
    var leaving := BeingRelayed(s) + LeftBehind(s);
    assert Holders(s.conns) == arriving + held + leaving;
    assert BeingRefused(s) !! BeingQueued(s) && Waiting(s) !! InLoops(s) && BeingRelayed(s) !! LeftBehind(s);
    assert arriving !! held && arriving + held !! leaving;
    hide BeingRefused, BeingQueued, Waiting, InLoops, BeingRelayed, LeftBehind, Holders;
    DisjointSize(BeingRefused(s), BeingQueued(s));
    DisjointSize(Waiting(s), InLoops(s));
    DisjointSize(BeingRelayed(s), LeftBehind(s));
    DisjointSize(arriving, held);
    DisjointSize(arriving + held, leaving);
  }

  /** The counter is accounted for to the last slot: what earlier runs lost, those being given or rolled back this moment,
      the queue, what the handle loops hold, and the transfers; and, once the run is cancelled, what
      a loop left behind. */
  lemma SlotsAreConserved(cfg: Config, states: seq<State>, acts: seq<Action>, s: State)
    requires Run(cfg, states, acts) && s in states && cfg.maxConns > 0
    ensures s.active == s.lost + |BeingRefused(s)| + |BeingQueued(s)| + |s.queue| + |InLoops(s)| + |BeingRelayed(s)|
                        + |LeftBehind(s)|
    ensures !s.cancelled || cfg.quic ==> LeftBehind(s) == {}
    ensures forall c <- InLoops(s) :: exists l :: LoopHas(s, l, c)
    ensures forall l: nat, m: nat, c | LoopHas(s, l, c) && LoopHas(s, m, c) :: l == m
  {
    RunKeepsInv(cfg, states, acts);
    HoldersSplit(s);
    DistinctSize(s.queue);
    assert Elements(s.queue) == Waiting(s);
  }

  /** A slot is refused exactly when those taken and those about to be given back after an earlier refusal
      fill the limit. */
  lemma RefusedIff(cfg: Config, states: seq<State>, acts: seq<Action>, j: nat)
    requires Run(cfg, states, acts) && j < |acts| && acts[j].Add? && cfg.maxConns > 0
    ensures acts[j].c in states[j + 1].conns
    ensures states[j + 1].conns[acts[j].c].Overshot? <==>
            states[j].lost + |SlotHolders(states[j].conns)| + |BeingRefused(states[j])| >= cfg.maxConns
  {
    var s := states[j];
    RunKeepsInv(cfg, states, acts);
    assert s in states;
    assert Step(cfg, s, acts[j], states[j + 1]);
    assert Holders(s.conns) == SlotHolders(s.conns) + BeingRefused(s);
    assert SlotHolders(s.conns) !! BeingRefused(s);
    hide Run, QueueInv, LoopInv, PairInv, AbandonInv, Holders, SlotHolders, BeingRefused;
    DisjointSize(SlotHolders(s.conns), BeingRefused(s));
  }

  /** A connection that ended stays as it ended. */
  lemma {:induction false} EndsAreFinal(cfg: Config, states: seq<State>, acts: seq<Action>, c: ConnId, i: nat, j: nat)
    requires Run(cfg, states, acts) && i <= j <= |acts|
    requires c in states[i].conns && states[i].conns[c].Ended()
    ensures c in states[j].conns && states[j].conns[c] == states[i].conns[c]
    decreases j - i
  {
    hide QueueInv, CountInv, LoopInv, LoopHas;
    if i < j {
      EndsAreFinal(cfg, states, acts, c, i, j - 1);
      RunKeepsInv(cfg, states, acts);
      assert states[j - 1] in states;
      assert Step(cfg, states[j - 1], acts[j - 1], states[j]);
      HeldByLoop(states[j - 1], acts[j - 1]);
    }
  }

  /** What can have become of a connection a handle loop took. */
  predicate OnceDequeued(s: State, c: ConnId) {
    && c in s.conns
    && (var phase := s.conns[c];
        && (phase.Held? || phase.TimedOut? || phase.Relaying? || phase.Finished? || phase.Abandoned? || phase.ReturnedAtEnd?)
        && (phase.Abandoned? || phase.ReturnedAtEnd? ==> s.cancelled)
        && (c in s.pairings <==> phase.Relaying? || phase.Finished?))
  }

  lemma PairingsGrow(cfg: Config, s: State, a: Action)
    requires Enabled(s, a)
    ensures var s' := Next(cfg, s, a);
            && (s.cancelled ==> s'.cancelled)
            && (s'.pairings == s.pairings || (a.TakeTunnelConn? && s'.pairings == s.pairings + [Moved(s, a)]))
  {
  }

  lemma DequeuedMoves(cfg: Config, s: State, a: Action, c: ConnId)
    requires LoopInv(s) && Enabled(s, a) && OnceDequeued(s, c) && Moved(s, a) == c
    ensures OnceDequeued(Next(cfg, s, a), c)
  {
    HeldByLoop(s, a);
    hide LoopInv, LoopHas;
  }

  lemma DequeuedStep(cfg: Config, s: State, a: Action, c: ConnId)
    requires LoopInv(s) && Enabled(s, a) && OnceDequeued(s, c)
    ensures OnceDequeued(Next(cfg, s, a), c)
  {
    if Moved(s, a) == c {
      DequeuedMoves(cfg, s, a, c);
    } else {
      MovesOne(cfg, s, a);
      PairingsGrow(cfg, s, a);
      hide Next, Moved, Enabled, LoopInv;
    }
  }

  /** A connection a handle loop took is still held, timed out, was paired, or ended with the run; and it
      is paired at most once. */
  lemma {:induction false} DequeuedEndsOneWay(cfg: Config, states: seq<State>, acts: seq<Action>, c: ConnId, i: nat, j: nat)
    requires Run(cfg, states, acts) && i <= j <= |acts|
    requires c in states[i].conns && states[i].conns[c].Held?
    ensures OnceDequeued(states[j], c)
    ensures forall m, n | 0 <= m < n < |states[j].pairings| :: states[j].pairings[m] != states[j].pairings[n]
    decreases j - i
  {
    hide QueueInv, CountInv, LoopInv, OnceDequeued, Enabled, Next;
    RunKeepsInv(cfg, states, acts);
    assert states[j] in states && PairInv(states[j]);
    if i < j {
      DequeuedEndsOneWay(cfg, states, acts, c, i, j - 1);
      assert states[j - 1] in states;
      assert Step(cfg, states[j - 1], acts[j - 1], states[j]);
      hide Run, PairInv, AbandonInv;
      DequeuedStep(cfg, states[j - 1], acts[j - 1], c);
    } else {
      HeldIsDequeued(states[j], c);
    }
  }

  lemma HeldIsDequeued(s: State, c: ConnId)
    requires PairInv(s) && c in s.conns && s.conns[c].Held?
    ensures OnceDequeued(s, c)
  {
  }

  /** c was queued at this time. */
  predicate QueuedWhen(s: State, c: ConnId, created: int) {
    && c in s.conns
    && match s.conns[c]
       case Queued(t) => t == created
       case Held(t) => t == created
       case Arriving => false
       case Overshot => false
       case Granted => false
       case Refused => false
       case _ => true
  }

  lemma QueuedMoves(cfg: Config, s: State, a: Action, c: ConnId, created: int)
    requires LoopInv(s) && Enabled(s, a) && QueuedWhen(s, c, created) && Moved(s, a) == c
    ensures QueuedWhen(Next(cfg, s, a), c, created)
  {
    HeldByLoop(s, a);
    hide LoopInv, LoopHas;
  }

  lemma QueuedStep(cfg: Config, s: State, a: Action, c: ConnId, created: int)
    requires LoopInv(s) && Enabled(s, a) && QueuedWhen(s, c, created)
    ensures QueuedWhen(Next(cfg, s, a), c, created)
  {
    if Moved(s, a) == c {
      QueuedMoves(cfg, s, a, c, created);
    } else {
      MovesOne(cfg, s, a);
      hide Next, Moved, Enabled, LoopInv;
    }
  }

  /** A connection keeps the time it was queued at. */
  lemma {:induction false} QueuedSince(cfg: Config, states: seq<State>, acts: seq<Action>, c: ConnId, created: int,
                                       e: nat, n: nat)
    requires Run(cfg, states, acts) && e < n <= |acts| && acts[e] == Enqueue(c, created)
    ensures QueuedWhen(states[n], c, created)
    decreases n
  {
    hide QueueInv, CountInv, PairInv, AbandonInv, LoopInv, Next, QueuedWhen;
    RunKeepsInv(cfg, states, acts);
    assert states[n - 1] in states;
    assert Step(cfg, states[n - 1], acts[n - 1], states[n]);
    if e == n - 1 {
      QueuedFirst(cfg, states[e], c, created);
    } else {
      QueuedSince(cfg, states, acts, c, created, e, n - 1);
      QueuedStep(cfg, states[n - 1], acts[n - 1], c, created);
    }
  }

  lemma QueuedFirst(cfg: Config, s: State, c: ConnId, created: int)
    requires Enabled(s, Enqueue(c, created))
    ensures QueuedWhen(Next(cfg, s, Enqueue(c, created)), c, created)
  {
  }

  /** A handle loop gives a connection up exactly when more than three seconds have passed since it was queued;
      otherwise it goes on to pair it. */
  lemma TimedOutIff(cfg: Config, states: seq<State>, acts: seq<Action>, c: ConnId, created: int, e: nat, l: LoopId,
                    now: int, j: nat)
    requires Run(cfg, states, acts) && e < j < |acts| && acts[e] == Enqueue(c, created)
    requires acts[j] == CheckClock(l, now) && l < |states[j].loops| && states[j].loops[l] == ToCheck(c)
    ensures var s' := states[j + 1];
            && c in s'.conns && l < |s'.loops|
            && (s'.conns[c] == TimedOut <==> now - created > 3000)
            && (s'.conns[c] != TimedOut ==> s'.conns[c] == Held(created))
            && s'.loops[l] == if now - created > 3000 then Idle else Pairing(c)
  {
    QueuedSince(cfg, states, acts, c, created, e, j);
    assert Step(cfg, states[j], acts[j], states[j + 1]);
    hide Run;
  }

  /** Step j handed c to a tunnel connection. */
  predicate PairsAt(states: seq<State>, acts: seq<Action>, c: ConnId, j: nat)
    requires |states| == |acts| + 1 && j < |acts|
  {
    && acts[j].TakeTunnelConn? && acts[j].sent
    && acts[j].l < |states[j].loops| && states[j].loops[acts[j].l] == Pairing(c)
  }

  predicate EverPaired(states: seq<State>, acts: seq<Action>, c: ConnId, n: nat)
    requires |states| == |acts| + 1 && n <= |acts|
  {
    exists j | 0 <= j < n :: PairsAt(states, acts, c, j)
  }

  lemma PairedOneMore(states: seq<State>, acts: seq<Action>, c: ConnId, n: nat)
    requires |states| == |acts| + 1 && n < |acts|
    ensures EverPaired(states, acts, c, n + 1) <==> EverPaired(states, acts, c, n) || PairsAt(states, acts, c, n)
  {
    hide PairsAt;
  }

  lemma PairedStep(cfg: Config, s: State, a: Action, c: ConnId)
    requires Enabled(s, a)
    ensures c in Next(cfg, s, a).pairings <==>
            c in s.pairings || (a.TakeTunnelConn? && a.sent && s.loops[a.l] == Pairing(c))
  {
  }

  /** A connection has been paired exactly when a loop that was pairing it got the request through to a tunnel
      connection. */
  lemma {:induction false} PairedIff(cfg: Config, states: seq<State>, acts: seq<Action>, c: ConnId, n: nat)
    requires Run(cfg, states, acts) && n <= |acts|
    ensures c in states[n].pairings <==> EverPaired(states, acts, c, n)
  {
    if n > 0 {
      PairedIff(cfg, states, acts, c, n - 1);
      assert Step(cfg, states[n - 1], acts[n - 1], states[n]);
      PairedStep(cfg, states[n - 1], acts[n - 1], c);
      PairedOneMore(states, acts, c, n - 1);
      hide Run, Next, EverPaired;
    }
  }

  /** A tunnel connection that fails is no end: the loop keeps the connection and tries another one, the TCP loop
      after looking at the clock again. */
  lemma RetryKeeps(cfg: Config, states: seq<State>, acts: seq<Action>, c: ConnId, l: LoopId, j: nat)
    requires Run(cfg, states, acts) && j < |acts| && acts[j] == TakeTunnelConn(l, false)
    requires l < |states[j].loops| && states[j].loops[l] == Pairing(c)
    ensures c in states[j].conns && states[j + 1].conns == states[j].conns && states[j + 1].active == states[j].active
    ensures states[j + 1].loops == states[j].loops[l := if cfg.quic then Pairing(c) else ToCheck(c)]
  {
    assert Step(cfg, states[j], acts[j], states[j + 1]);
  }

  predicate Did(acts: seq<Action>, a: Action, n: nat)
    requires n <= |acts|
  {
    exists j | 0 <= j < n :: acts[j] == a
  }

  lemma DidOneMore(acts: seq<Action>, a: Action, n: nat)
    requires n < |acts|
    ensures Did(acts, a, n + 1) <==> Did(acts, a, n) || acts[n] == a
  {
  }

  lemma EndedStep(cfg: Config, s: State, a: Action, c: ConnId)
    requires LoopInv(s) && Enabled(s, a)
    ensures var s' := Next(cfg, s, a);
            && ((c in s'.conns && s'.conns[c].Refused?) <==> (c in s.conns && s.conns[c].Refused?) || a == RollBack(c))
            && ((c in s'.conns && s'.conns[c].Finished?) <==> (c in s.conns && s.conns[c].Finished?) || a == TransferEnds(c))
  {
    HeldByLoop(s, a);
    hide LoopInv, LoopHas;
  }

  /** A connection counts as refused exactly when its increment was rolled back, and as finished exactly when its
      transfer ended. */
  lemma {:induction false} EndedIff(cfg: Config, states: seq<State>, acts: seq<Action>, c: ConnId, n: nat)
    requires Run(cfg, states, acts) && n <= |acts|
    ensures (c in states[n].conns && states[n].conns[c].Refused?) <==> Did(acts, RollBack(c), n)
    ensures (c in states[n].conns && states[n].conns[c].Finished?) <==> Did(acts, TransferEnds(c), n)
  {
    if n > 0 {
      EndedIff(cfg, states, acts, c, n - 1);
      RunKeepsInv(cfg, states, acts);
      assert states[n - 1] in states;
      assert Step(cfg, states[n - 1], acts[n - 1], states[n]);
      hide Run, Next, Enabled, Did, LoopInv, QueueInv, CountInv, PairInv, AbandonInv;
      EndedStep(cfg, states[n - 1], acts[n - 1], c);
      DidOneMore(acts, RollBack(c), n - 1);
      DidOneMore(acts, TransferEnds(c), n - 1);
    }
  }

  /** At step j loop l saw the run end: when it was idle, or, on TCP, while it was pairing a connection. */
  predicate LeavesAtEnd(cfg: Config, states: seq<State>, acts: seq<Action>, l: LoopId, j: nat)
    requires |states| == |acts| + 1 && j < |acts|
  {
    acts[j] == SeeRunEnd(l) && l < |states[j].loops| && (states[j].loops[l].Idle? || !cfg.quic)
  }

  predicate EverLeft(cfg: Config, states: seq<State>, acts: seq<Action>, l: LoopId, n: nat)
    requires |states| == |acts| + 1 && n <= |acts|
  {
    exists j | 0 <= j < n :: LeavesAtEnd(cfg, states, acts, l, j)
  }

  lemma EverLeftOneMore(cfg: Config, states: seq<State>, acts: seq<Action>, l: LoopId, n: nat)
    requires |states| == |acts| + 1 && n < |acts|
    ensures EverLeft(cfg, states, acts, l, n + 1) <==>
            EverLeft(cfg, states, acts, l, n) || LeavesAtEnd(cfg, states, acts, l, n)
  {
    hide LeavesAtEnd;
  }

  lemma ExitStep(cfg: Config, s: State, a: Action, l: LoopId)
    requires Enabled(s, a) && l < |s.loops|
    ensures |Next(cfg, s, a).loops| == |s.loops|
    ensures Next(cfg, s, a).loops[l].Exited? <==>
            s.loops[l].Exited? || (a == SeeRunEnd(l) && (s.loops[l].Idle? || !cfg.quic))
  {
  }

  /** A handle loop goes on for ever, taking one connection after another, but for the end of the run. */
  lemma {:induction false} ExitedIff(cfg: Config, states: seq<State>, acts: seq<Action>, l: LoopId, n: nat)
    requires Run(cfg, states, acts) && n <= |acts| && l < cfg.loops
    ensures |states[n].loops| == cfg.loops
    ensures states[n].loops[l].Exited? <==> EverLeft(cfg, states, acts, l, n)
  {
    if n > 0 {
      ExitedIff(cfg, states, acts, l, n - 1);
      assert Step(cfg, states[n - 1], acts[n - 1], states[n]);
      ExitStep(cfg, states[n - 1], acts[n - 1], l);
      EverLeftOneMore(cfg, states, acts, l, n - 1);
      hide Run, Next, EverLeft;
    }
  }

  // ---- The order of the queue ----

  /** Who a step put into the queue, and who a handle loop had of it afterwards. */
  function JoinsAt(states: seq<State>, acts: seq<Action>, n: nat): seq<ConnId>
    requires |states| == |acts| + 1 && n < |acts|
  {
    var s' := states[n + 1];
    if acts[n].Enqueue? && acts[n].c in s'.conns && s'.conns[acts[n].c].Queued? then [acts[n].c] else []
  }

  function LeavesAt(states: seq<State>, acts: seq<Action>, n: nat): seq<ConnId>
    requires |states| == |acts| + 1 && n < |acts|
  {
    var s' := states[n + 1];
    if acts[n].Dequeue? && acts[n].l < |s'.loops| && s'.loops[acts[n].l].ToCheck? then [s'.loops[acts[n].l].c] else []
  }

  function Joined(states: seq<State>, acts: seq<Action>, n: nat): seq<ConnId>
    requires |states| == |acts| + 1 && n <= |acts|
  {
    if n == 0 then [] else Joined(states, acts, n - 1) + JoinsAt(states, acts, n - 1)
  }

  function Left(states: seq<State>, acts: seq<Action>, n: nat): seq<ConnId>
    requires |states| == |acts| + 1 && n <= |acts|
  {
    if n == 0 then [] else Left(states, acts, n - 1) + LeavesAt(states, acts, n - 1)
  }

  lemma QueueStep(cfg: Config, states: seq<State>, acts: seq<Action>, n: nat)
    requires |states| == |acts| + 1 && n < |acts| && Step(cfg, states[n], acts[n], states[n + 1])
    ensures states[n].queue + JoinsAt(states, acts, n) == LeavesAt(states, acts, n) + states[n + 1].queue
  {
    var s, s' := states[n], states[n + 1];
    assert acts[n].Dequeue? ==> s.queue == [s.queue[0]] + s.queue[1..];
    assert s.queue + [] == s.queue && [] + s'.queue == s'.queue;
  }

  lemma MovesAlong(joined: seq<ConnId>, left: seq<ConnId>, q: seq<ConnId>, j: seq<ConnId>, l: seq<ConnId>,
                   next: seq<ConnId>)
    requires joined == left + q && q + j == l + next
    ensures joined + j == left + l + next
  {
    assert joined + j == left + (q + j);
    assert left + l + next == left + (l + next);
  }

  /** First come, first served: who has joined the queue is who has left it, in the same order, and then who is
      still in it. */
  lemma {:induction false} QueueIsFifo(cfg: Config, states: seq<State>, acts: seq<Action>, n: nat)
    requires Run(cfg, states, acts) && n <= |acts|
    ensures Joined(states, acts, n) == Left(states, acts, n) + states[n].queue
  {
    if n > 0 {
      QueueIsFifo(cfg, states, acts, n - 1);
      assert Step(cfg, states[n - 1], acts[n - 1], states[n]);
      QueueStep(cfg, states, acts, n - 1);
      hide Run, Step, JoinsAt, LeavesAt;
      MovesAlong(Joined(states, acts, n - 1), Left(states, acts, n - 1), states[n - 1].queue,
                 JoinsAt(states, acts, n - 1), LeavesAt(states, acts, n - 1), states[n].queue);
    }
  }

  /** A connection with a slot is dropped exactly when as many are waiting as the queue holds. */
  lemma DroppedIff(cfg: Config, states: seq<State>, acts: seq<Action>, j: nat)
    requires Run(cfg, states, acts) && j < |acts| && acts[j].Enqueue?
    ensures acts[j].c in states[j + 1].conns
    ensures states[j + 1].conns[acts[j].c] ==
            if |Joined(states, acts, j)| - |Left(states, acts, j)| < cfg.queueSize then Queued(acts[j].now) else Dropped
  {
    QueueIsFifo(cfg, states, acts, j);
    assert Step(cfg, states[j], acts[j], states[j + 1]);
    hide Run, Joined, Left;
  }

  /** The run is over: nobody is left to act on any of its connections. */
  predicate Over(s: State) {
    && s.cancelled
    && (forall l | 0 <= l < |s.loops| :: s.loops[l].Exited?)
    && (forall c <- s.conns :: s.conns[c].Queued? || s.conns[c].Ended())
  }

  /** At step j a handle loop of the TCP transport saw the run end while it was pairing c. */
  predicate EndedWhilePairing(states: seq<State>, acts: seq<Action>, c: ConnId, j: nat)
    requires j < |acts| && |states| == |acts| + 1
  {
    acts[j].SeeRunEnd? && acts[j].l < |states[j].loops| && states[j].loops[acts[j].l] == Pairing(c)
  }

  lemma AbandonedStep(cfg: Config, s: State, a: Action, c: ConnId)
    requires Inv(cfg, s) && Enabled(s, a) && !cfg.quic
    ensures c in Next(cfg, s, a).conns && Next(cfg, s, a).conns[c].Abandoned? <==>
            || (c in s.conns && s.conns[c].Abandoned?)
            || (a.SeeRunEnd? && s.loops[a.l] == Pairing(c))
  {
    HeldByLoop(s, a);
    hide LoopInv, CountInv, PairInv, LoopHas;
  }

  /** That happened before step n. */
  predicate EverEndedWhilePairing(states: seq<State>, acts: seq<Action>, c: ConnId, n: nat)
    requires |states| == |acts| + 1 && n <= |acts|
  {
    exists j | 0 <= j < n :: EndedWhilePairing(states, acts, c, j)
  }

  lemma EndedOneMore(states: seq<State>, acts: seq<Action>, c: ConnId, n: nat)
    requires |states| == |acts| + 1 && n < |acts|
    ensures EverEndedWhilePairing(states, acts, c, n + 1) <==>
            EverEndedWhilePairing(states, acts, c, n) || EndedWhilePairing(states, acts, c, n)
  {
    hide EndedWhilePairing;
  }

  lemma LeftBehindAt(cfg: Config, states: seq<State>, acts: seq<Action>, c: ConnId, j: nat)
    requires Run(cfg, states, acts) && j < |acts| && !cfg.quic
    ensures c in LeftBehind(states[j + 1]) <==> c in LeftBehind(states[j]) || EndedWhilePairing(states, acts, c, j)
  {
    RunKeepsInv(cfg, states, acts);
    assert states[j] in states;
    assert Step(cfg, states[j], acts[j], states[j + 1]);
    AbandonedStep(cfg, states[j], acts[j], c);
    hide Inv, Next, Run;
  }

  /** A connection is left behind exactly when a TCP handle loop saw the run end while pairing it. */
  lemma {:induction false} LeftBehindIff(cfg: Config, states: seq<State>, acts: seq<Action>, c: ConnId, n: nat)
    requires Run(cfg, states, acts) && n <= |acts| && !cfg.quic
    ensures c in LeftBehind(states[n]) <==> EverEndedWhilePairing(states, acts, c, n)
  {
    if n == 0 {
      assert !EverEndedWhilePairing(states, acts, c, 0);
    } else {
      LeftBehindIff(cfg, states, acts, c, n - 1);
      LeftBehindAt(cfg, states, acts, c, n - 1);
      EndedOneMore(states, acts, c, n - 1);
      hide Run, LeftBehind, EverEndedWhilePairing, EndedWhilePairing;
    }
  }

  lemma {:induction false} LostStays(cfg: Config, states: seq<State>, acts: seq<Action>, n: nat)
    requires Run(cfg, states, acts) && n <= |acts|
    ensures states[n].lost == states[0].lost
  {
    if n > 0 {
      LostStays(cfg, states, acts, n - 1);
      assert Step(cfg, states[n - 1], acts[n - 1], states[n]);
    }
  }

  /** The limiter outlives the run. A run that is over has given back every slot it took exactly when
      nothing was queued and no TCP handle loop saw the end while it was pairing a connection. */
  lemma SlotsReturnIff(cfg: Config, states: seq<State>, acts: seq<Action>, n: nat)
    requires Run(cfg, states, acts) && n <= |acts| && cfg.maxConns > 0 && Over(states[n])
    ensures states[n].active == states[0].lost + |states[n].queue| + |LeftBehind(states[n])|
    ensures states[n].active == states[0].active <==>
            && states[n].queue == []
            && (cfg.quic || forall j, c | 0 <= j < n :: !EndedWhilePairing(states, acts, c, j))
  {
    var s := states[n];
    RunKeepsInv(cfg, states, acts);
    assert s in states;
    SlotsAreConserved(cfg, states, acts, s);
    LostStays(cfg, states, acts, n);
    assert BeingRefused(s) == {} && BeingQueued(s) == {} && BeingRelayed(s) == {} && InLoops(s) == {};
    hide Run, Inv, EndedWhilePairing, Over, BeingRefused, BeingQueued, BeingRelayed, InLoops, LeftBehind;
    if !cfg.quic {
      NobodyLeftBehind(cfg, states, acts, n);
    }
  }

  lemma NobodyLeftBehind(cfg: Config, states: seq<State>, acts: seq<Action>, n: nat)
    requires Run(cfg, states, acts) && n <= |acts| && !cfg.quic
    ensures LeftBehind(states[n]) == {} <==> forall j, c | 0 <= j < n :: !EndedWhilePairing(states, acts, c, j)
  {
    assert |states| == |acts| + 1;
    hide Run, EndedWhilePairing, LeftBehind;
    forall j, c | 0 <= j < n && EndedWhilePairing(states, acts, c, j)
      ensures c in LeftBehind(states[n])
    {
      LeftBehindIff(cfg, states, acts, c, n);
    }
    if c :| c in LeftBehind(states[n]) {
      LeftBehindIff(cfg, states, acts, c, n);
    }
  }

  // One limiter over a sequence of runs.

  datatype Generation = Generation(states: seq<State>, acts: seq<Action>)

  function Final(g: Generation): State
    requires g.states != []
  {
    g.states[|g.states| - 1]
  }

  /** Each run starts with the counter the one before it left, and only once that one is over. */
  predicate Generations(cfg: Config, gens: seq<Generation>) {
    && gens != []
    && (var g := gens[|gens| - 1];
        && Run(cfg, g.states, g.acts)
        && if |gens| == 1 then g.states[0].lost == 0
           else
             && Generations(cfg, gens[..|gens| - 1])
             && gens[|gens| - 2].states != []
             && Over(Final(gens[|gens| - 2])) && g.states[0].lost == Final(gens[|gens| - 2]).active)
  }

  /** What the runs leave behind between them. */
  ghost function LostBy(gens: seq<Generation>): nat {
    if gens == [] then 0
    else
      var g := gens[|gens| - 1];
      LostBy(gens[..|gens| - 1]) + if g.states == [] then 0 else |Final(g).queue| + |LeftBehind(Final(g))|
  }

  /** However many runs share the limiter: the counter is what the earlier runs lost and what the current
      one holds, and only the rest of the limit is left to give out. */
  lemma {:induction false} CapacityShrinks(cfg: Config, gens: seq<Generation>)
    requires cfg.maxConns > 0 && Generations(cfg, gens)
    ensures var s, lost := Final(gens[|gens| - 1]), LostBy(gens[..|gens| - 1]);
            && s.lost == lost && s.active == lost + |Holders(s.conns)|
            && |SlotHolders(s.conns)| <= cfg.maxConns - lost
  {
    var n := |gens| - 1;
    var g := gens[n];
    RunKeepsInv(cfg, g.states, g.acts);
    assert Final(g) in g.states;
    LostStays(cfg, g.states, g.acts, |g.acts|);
    if n > 0 {
      var before := gens[..n];
      CapacityShrinks(cfg, before);
      var h := before[n - 1];
      SlotsReturnIff(cfg, h.states, h.acts, |h.acts|);
      LostStays(cfg, h.states, h.acts, |h.acts|);
    }
  }

  // The gaps, as concrete runs.

  lemma RunExtends(cfg: Config, states: seq<State>, acts: seq<Action>, a: Action, s': State)
    requires Run(cfg, states, acts) && Step(cfg, states[|acts|], a, s')
    ensures Run(cfg, states + [s'], acts + [a])
    ensures |states| == |acts| + 1
  {
    hide Step, CanStart, Init;
    forall i | 0 <= i <= |acts|
      ensures Step(cfg, (states + [s'])[i], (acts + [a])[i], (states + [s'])[i + 1])
    {
      assert i < |acts| ==> Step(cfg, states[i], acts[i], states[i + 1]);
    }
  }

  /** Connection 0 has been given a slot. */
  lemma OneGranted(cfg: Config) returns (states: seq<State>, acts: seq<Action>)
    requires cfg.maxConns > 0 && cfg.loops == 1
    ensures Run(cfg, states, acts) && |states| == |acts| + 1
    ensures states[|acts|] == State(1, 0, map[0 := Granted], [], [Idle], false, [])
  {
    var s := Init(cfg, 0);
    assert s.loops == [Idle];
    states, acts := [s], [];
    assert Run(cfg, states, acts);
    hide Run;
    s := s.(conns := map[0 := Arriving]);
    RunExtends(cfg, states, acts, Arrive(0), s);
    states, acts := states + [s], acts + [Arrive(0)];
    s := s.(conns := map[0 := Granted], active := 1);
    RunExtends(cfg, states, acts, Add(0), s);
    states, acts := states + [s], acts + [Add(0)];
  }

  /** One client queued when the run is cancelled keeps its slot for good. */
  lemma SlotMayOutliveRun(cfg: Config) returns (states: seq<State>, acts: seq<Action>)
    requires cfg.maxConns > 0 && cfg.queueSize > 0 && cfg.loops == 1
    ensures Run(cfg, states, acts) && |states| == |acts| + 1
    ensures Over(states[|acts|]) && states[|acts|].active == 1
  {
    hide Run;
    states, acts := OneGranted(cfg);
    var s := states[|acts|].(conns := map[0 := Queued(0)], queue := [0]);
    RunExtends(cfg, states, acts, Enqueue(0, 0), s);
    states, acts := states + [s], acts + [Enqueue(0, 0)];
    s := s.(cancelled := true);
    RunExtends(cfg, states, acts, Cancel, s);
    states, acts := states + [s], acts + [Cancel];
    s := s.(loops := [Exited]);
    RunExtends(cfg, states, acts, SeeRunEnd(0), s);
    states, acts := states + [s], acts + [SeeRunEnd(0)];
  }

  /** Connection 0 has the only slot and is queued; connection 1 is refused, which is still to be rolled back. */
  lemma RefusalPending(cfg: Config) returns (states: seq<State>, acts: seq<Action>)
    requires cfg.maxConns == 1 && cfg.queueSize > 0 && cfg.loops == 1
    ensures Run(cfg, states, acts) && |states| == |acts| + 1
    ensures states[|acts|] == State(2, 0, map[0 := Queued(0), 1 := Overshot], [0], [Idle], false, [])
  {
    hide Run;
    states, acts := OneGranted(cfg);
    var s := states[|acts|].(conns := map[0 := Granted, 1 := Arriving]);
    RunExtends(cfg, states, acts, Arrive(1), s);
    states, acts := states + [s], acts + [Arrive(1)];
    s := s.(conns := map[0 := Granted, 1 := Overshot], active := 2);
    RunExtends(cfg, states, acts, Add(1), s);
    states, acts := states + [s], acts + [Add(1)];
    s := s.(conns := map[0 := Queued(0), 1 := Overshot], queue := [0]);
    RunExtends(cfg, states, acts, Enqueue(0, 0), s);
    states, acts := states + [s], acts + [Enqueue(0, 0)];
  }

  /** Connection 0 then times out, and connection 2 is refused although nobody has the slot. */
  lemma FreeSlotMayBeRefused(cfg: Config) returns (states: seq<State>, acts: seq<Action>)
    requires cfg.maxConns == 1 && cfg.queueSize > 0 && cfg.loops == 1
    ensures Run(cfg, states, acts) && |states| == |acts| + 1 && acts != [] && acts[|acts| - 1] == Add(2)
    ensures var s := states[|acts| - 1];
            SlotHolders(s.conns) == {} && s.lost == 0 && 2 in states[|acts|].conns && states[|acts|].conns[2].Overshot?
  {
    hide Run;
    states, acts := RefusalPending(cfg);
    var s := states[|acts|].(conns := map[0 := Held(0), 1 := Overshot], queue := [], loops := [ToCheck(0)]);
    RunExtends(cfg, states, acts, Dequeue(0), s);
    states, acts := states + [s], acts + [Dequeue(0)];
    s := s.(conns := map[0 := TimedOut, 1 := Overshot], active := 1, loops := [Idle]);
    RunExtends(cfg, states, acts, CheckClock(0, 3001), s);
    states, acts := states + [s], acts + [CheckClock(0, 3001)];
    s := s.(conns := map[0 := TimedOut, 1 := Overshot, 2 := Arriving]);
    RunExtends(cfg, states, acts, Arrive(2), s);
    states, acts := states + [s], acts + [Arrive(2)];
    s := s.(conns := map[0 := TimedOut, 1 := Overshot, 2 := Overshot], active := 2);
    RunExtends(cfg, states, acts, Add(2), s);
    states, acts := states + [s], acts + [Add(2)];
  }
}
