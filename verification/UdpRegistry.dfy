/**
 The flows of one forwarded UDP port: one goroutine files datagrams under their source address and
 offers new flows to the transport, while the reaper, the shutdown and the flows' own handlers
 close flows at any time. Closing takes two steps, the done channel first and the registry after.
 */
module UdpRegistry {
  import opened Bytes

  type FlowId = nat
  type Payload = seq<Byte>

  /** `done` is the closed channel; `forgotten` says that Close has finished with the registry. */
  datatype Flow = Flow(key: string, done: bool, forgotten: bool)

  /** Where the goroutine in run is. */
  datatype Runner =
    | Reading
    | Delivering(f: FlowId, known: bool, payload: Payload)
    | Offering(f: FlowId)
    | Refusing(f: FlowId)
    | Stopped

  datatype Closer = NotCalled | ClosingAll(todo: set<FlowId>) | AllClosed

  /** A datagram handed to a flow. */
  datatype Delivery = Delivery(f: FlowId, payload: Payload)

  datatype State = State(
    flows: map<string, FlowId>,
    all: seq<Flow>,
    closed: bool,
    runner: Runner,
    closer: Closer,
    admitted: set<FlowId>,
    offers: seq<FlowId>,
    delivered: seq<Delivery>    // history
  )

  datatype Action =
    | Datagram(key: string, payload: Payload)
    | Deliver
    | Offer(accepted: bool)
    | RefusalReturns
    | ReadFails
    | CloseDone(f: FlowId)
    | Forget(f: FlowId)
    | BeginClose
    | CloseReturns

  function Init(): State {
    State(map[], [], false, Reading, NotCalled, {}, [], [])
  }

  predicate Enabled(s: State, a: Action) {
    match a
    case Datagram(_, _) => s.runner.Reading?
    case Deliver => s.runner.Delivering?
    case Offer(_) => s.runner.Offering?
    case RefusalReturns => s.runner.Refusing? && s.runner.f < |s.all| && s.all[s.runner.f].forgotten
    case ReadFails => s.runner.Reading? && s.closed
    case CloseDone(f) => f < |s.all| && !s.all[f].done
    case Forget(f) => f < |s.all| && s.all[f].done && !s.all[f].forgotten
    case BeginClose => s.closer.NotCalled?
    case CloseReturns => s.closer.ClosingAll? && forall f <- s.closer.todo :: f < |s.all| && s.all[f].forgotten
  }

  /** The locked section of run, and what follows from it. */
  function Filed(s: State, key: string, payload: Payload): State {
    if key in s.flows then
      s.(runner := Delivering(s.flows[key], true, payload))
    else if !s.closed then
      s.(flows := s.flows[key := |s.all|], all := s.all + [Flow(key, false, false)],
         runner := Delivering(|s.all|, false, payload))
    else
      s.(runner := Stopped)
  }

  function Next(s: State, a: Action): State
    requires Enabled(s, a)
  {
    match a
    case Datagram(key, payload) => Filed(s, key, payload)
    case Deliver =>
      s.(delivered := s.delivered + [Delivery(s.runner.f, s.runner.payload)],
         runner := if s.runner.known then Reading else Offering(s.runner.f))
    case Offer(accepted) =>
      s.(offers := s.offers + [s.runner.f],
         admitted := if accepted then s.admitted + {s.runner.f} else s.admitted,
         runner := if accepted then Reading else Refusing(s.runner.f))
    case RefusalReturns => s.(runner := Reading)
    case ReadFails => s.(runner := Stopped)
    case CloseDone(f) => s.(all := s.all[f := s.all[f].(done := true)])
    case Forget(f) =>
      var key := s.all[f].key;
      s.(all := s.all[f := s.all[f].(forgotten := true)],
         flows := if key in s.flows && s.flows[key] == f then s.flows - {key} else s.flows)
    case BeginClose => s.(closed := true, closer := ClosingAll(s.flows.Values))
    case CloseReturns => s.(closer := AllClosed)
  }

  /** The runner is still deciding what becomes of flow f. */
  predicate InHand(s: State, f: FlowId) {
    (s.runner.Delivering? && !s.runner.known && s.runner.f == f) || s.runner == Offering(f) || s.runner == Refusing(f)
  }

  predicate FlowInv(s: State, f: FlowId)
    requires f < |s.all|
  {
    var flow := s.all[f];
    && (flow.forgotten ==> flow.done)
    && (!flow.forgotten ==> flow.key in s.flows && s.flows[flow.key] == f)
    && (flow.forgotten && flow.key in s.flows ==> s.flows[flow.key] != f)
    && (f in s.admitted || InHand(s, f) || flow.forgotten)
  }

  /** f is the only flow its source can have in the registry. */
  predicate Newest(s: State, f: FlowId) {
    f < |s.all| && (s.all[f].key in s.flows ==> s.flows[s.all[f].key] == f)
  }

  predicate RunnerInv(s: State) {
    match s.runner
    case Delivering(f, known, _) => f < |s.all| && (!known ==> Newest(s, f))
    case Offering(f) => Newest(s, f)
    case Refusing(f) => Newest(s, f)
    case _ => true
  }

  ghost predicate Inv(s: State) {
    && (forall key <- s.flows :: s.flows[key] < |s.all| && s.all[s.flows[key]].key == key)
    && (forall f: nat | f < |s.all| :: FlowInv(s, f))
    && RunnerInv(s)
    && (s.closer.NotCalled? <==> !s.closed)
    && (s.closer.ClosingAll? ==> forall f: nat | f < |s.all| && !s.all[f].forgotten :: f in s.closer.todo)
    && (s.closer.AllClosed? ==> forall f: nat | f < |s.all| :: s.all[f].forgotten)
  }

  lemma FlowsKeepInv(s: State, a: Action)
    requires Inv(s) && Enabled(s, a)
    ensures forall f: nat | f < |Next(s, a).all| :: FlowInv(Next(s, a), f)
  {
    var s' := Next(s, a);
    forall f: nat | f < |s'.all|
      ensures FlowInv(s', f)
    {
      if f < |s.all| {
        assert FlowInv(s, f);
      }
      if a.Forget? {
        assert FlowInv(s, a.f);
      }
    }
  }

  lemma RegistryKept(s: State, a: Action)
    requires Inv(s) && Enabled(s, a)
    ensures var s' := Next(s, a);
            forall key <- s'.flows :: s'.flows[key] < |s'.all| && s'.all[s'.flows[key]].key == key
  {
    hide FlowInv, RunnerInv, InHand;
  }

  lemma RunnerKept(s: State, a: Action)
    requires Inv(s) && Enabled(s, a)
    ensures RunnerInv(Next(s, a))
  {
    hide FlowInv, InHand;
  }

  lemma CloserKept(s: State, a: Action)
    requires Inv(s) && Enabled(s, a)
    ensures var s' := Next(s, a);
            && (s'.closer.NotCalled? <==> !s'.closed)
            && (s'.closer.ClosingAll? ==> forall f: nat | f < |s'.all| && !s'.all[f].forgotten :: f in s'.closer.todo)
            && (s'.closer.AllClosed? ==> forall f: nat | f < |s'.all| :: s'.all[f].forgotten)
  {
    hide RunnerInv, InHand, Newest;
    if a.BeginClose? {
      forall f: nat | f < |s.all| && !s.all[f].forgotten
        ensures f in s.flows.Values
      {
        assert FlowInv(s, f);
        assert s.all[f].key in s.flows;
      }
    }
  }

  lemma StepKeepsInv(s: State, a: Action)
    requires Inv(s) && Enabled(s, a)
    ensures Inv(Next(s, a))
  {
    FlowsKeepInv(s, a);
    RegistryKept(s, a);
    RunnerKept(s, a);
    CloserKept(s, a);
    hide Next, Enabled, FlowInv, RunnerInv;
  }

  // Whole runs.

  predicate Run(states: seq<State>, acts: seq<Action>) {
    && |states| == |acts| + 1
    && states[0] == Init()
    && forall i | 0 <= i < |acts| :: Enabled(states[i], acts[i]) && states[i + 1] == Next(states[i], acts[i])
  }

  lemma {:induction false} RunKeepsInv(states: seq<State>, acts: seq<Action>)
    requires Run(states, acts)
    ensures forall s <- states :: Inv(s)
  {
    if acts != [] {
      var n := |acts| - 1;
      RunKeepsInv(states[..n + 1], acts[..n]);
      assert states[n] in states[..n + 1];
      StepKeepsInv(states[n], acts[n]);
      assert states == states[..n + 1] + [states[n + 1]];
    }
  }

  /** Each source address has at most one unclosed flow, and it is the one the registry names. */
  lemma OneOpenFlowPerSource(states: seq<State>, acts: seq<Action>, s: State, f: FlowId, g: FlowId)
    requires Run(states, acts) && s in states
    requires f < |s.all| && g < |s.all| && !s.all[f].done && !s.all[g].done && s.all[f].key == s.all[g].key
    ensures f == g && s.all[f].key in s.flows && s.flows[s.all[f].key] == f
  {
    RunKeepsInv(states, acts);
    assert FlowInv(s, f) && FlowInv(s, g);
  }

  /** No flow is stranded: whichever flow the registry names was taken by the transport, is still in
      the runner's hands, or is already being closed. */
  lemma NoStrandedFlow(states: seq<State>, acts: seq<Action>, s: State, key: string)
    requires Run(states, acts) && s in states && key in s.flows
    ensures s.flows[key] < |s.all| && s.all[s.flows[key]].key == key
    ensures s.flows[key] in s.admitted || InHand(s, s.flows[key])
  {
    RunKeepsInv(states, acts);
    assert FlowInv(s, s.flows[key]);
  }

  /** Finishing with one flow leaves every other entry of the registry in place, newer ones for the
      same source included. */
  lemma ForgetSparesOthers(states: seq<State>, acts: seq<Action>, i: nat, key: string)
    requires Run(states, acts) && i < |acts| && acts[i].Forget?
    requires key in states[i].flows && states[i].flows[key] != acts[i].f
    ensures key in states[i + 1].flows && states[i + 1].flows[key] == states[i].flows[key]
  {
    assert states[i + 1] == Next(states[i], acts[i]);
  }

  /** No datagram from key was read at the steps from i up to j. */
  predicate Quiet(acts: seq<Action>, key: string, i: nat, j: nat)
    requires i <= j <= |acts|
  {
    forall n | i <= n < j :: !(acts[n].Datagram? && acts[n].key == key)
  }

  /** Only a datagram from a source can put a flow under it. */
  lemma {:induction false} AbsentUntilDatagram(states: seq<State>, acts: seq<Action>, key: string, i: nat, j: nat)
    requires Run(states, acts) && i <= j <= |acts| && Quiet(acts, key, i, j)
    requires key !in states[i].flows
    ensures key !in states[j].flows
    decreases j - i
  {
    if i < j {
      AbsentUntilDatagram(states, acts, key, i, j - 1);
      assert !(acts[j - 1].Datagram? && acts[j - 1].key == key);
      assert states[j] == Next(states[j - 1], acts[j - 1]);
    }
  }

  /** A refused flow is gone when its refusal returns: another datagram of its source starts a new
      flow, which is offered again. */
  lemma RefusedSourceTriesAgain(states: seq<State>, acts: seq<Action>, i: nat, j: nat, key: string)
    requires Run(states, acts) && i < j < |acts|
    requires acts[i].RefusalReturns? && states[i].runner.f < |states[i].all|
    requires key == states[i].all[states[i].runner.f].key
    requires Quiet(acts, key, i + 1, j) && acts[j].Datagram? && acts[j].key == key && !states[j].closed
    ensures key !in states[i + 1].flows && states[i + 1].runner.Reading?
    ensures states[j + 1].runner == Delivering(|states[j].all|, false, acts[j].payload)
    ensures key in states[j + 1].flows && states[j + 1].flows[key] == |states[j].all|
  {
    RunKeepsInv(states, acts);
    assert states[i] in states;
    assert FlowInv(states[i], states[i].runner.f);
    assert states[i + 1] == Next(states[i], acts[i]);
    AbsentUntilDatagram(states, acts, key, i + 1, j);
    assert states[j + 1] == Next(states[j], acts[j]);
  }

  /** Nothing is filed once the forwarder is closed, and when close returns every flow is closed. */
  lemma NothingAfterClose(states: seq<State>, acts: seq<Action>, i: nat)
    requires Run(states, acts) && i < |acts| && states[i].closed
    ensures states[i + 1].closed && |states[i + 1].all| == |states[i].all|
    ensures states[i + 1].flows.Keys <= states[i].flows.Keys
    ensures states[i].closer.AllClosed? ==> forall f: nat | f < |states[i].all| :: states[i].all[f].done
  {
    RunKeepsInv(states, acts);
    assert states[i] in states;
    assert states[i + 1] == Next(states[i], acts[i]);
    if states[i].closer.AllClosed? {
      forall f: nat | f < |states[i].all|
        ensures states[i].all[f].done
      {
        assert FlowInv(states[i], f);
      }
    }
  }

  // ---- Where a datagram goes ----

  /** A datagram goes to the flow its own source has in the registry, a new one when it has none; only a source
      without a flow, once the forwarder is closed, ends the runner instead. */
  lemma DatagramGoesHome(states: seq<State>, acts: seq<Action>, j: nat, key: string, payload: Payload)
    requires Run(states, acts) && j < |acts| && acts[j] == Datagram(key, payload)
    ensures var s, s' := states[j], states[j + 1];
            && (s'.runner.Stopped? <==> key !in s.flows && s.closed)
            && (!s'.runner.Stopped? ==>
                  && s'.runner.Delivering? && s'.runner.payload == payload
                  && s'.runner.f < |s'.all| && s'.all[s'.runner.f].key == key
                  && key in s'.flows && s'.flows[key] == s'.runner.f
                  && (s'.runner.known <==> key in s.flows)
                  && (key in s.flows ==> s'.runner.f == s.flows[key])
                  && (key !in s.flows ==> s'.runner.f == |s.all|))
  {
    RunKeepsInv(states, acts);
    assert states[j] in states && states[j + 1] in states;
    assert states[j + 1] == Next(states[j], acts[j]);
  }

  /** What a flow has been handed. */
  function Got(log: seq<Delivery>, f: FlowId): seq<Payload> {
    if log == [] then []
    else
      var last := log[|log| - 1];
      Got(log[..|log| - 1], f) + if last.f == f then [last.payload] else []
  }

  /** And what is about to be handed to it. */
  function Coming(s: State, f: FlowId): seq<Payload> {
    if s.runner.Delivering? && s.runner.f == f then [s.runner.payload] else []
  }

  /** Step n read a datagram of the source of flow f, which the registry names for it. */
  predicate ReadFor(states: seq<State>, acts: seq<Action>, f: FlowId, n: nat)
    requires |states| == |acts| + 1 && n < |acts|
  {
    && acts[n].Datagram? && f < |states[n + 1].all| && states[n + 1].all[f].key == acts[n].key
    && acts[n].key in states[n + 1].flows && states[n + 1].flows[acts[n].key] == f
  }

  /** The datagrams read for a flow, in the order they were read. */
  function AllReadFor(states: seq<State>, acts: seq<Action>, f: FlowId, n: nat): seq<Payload>
    requires |states| == |acts| + 1 && n <= |acts|
  {
    if n == 0 then []
    else AllReadFor(states, acts, f, n - 1) + if ReadFor(states, acts, f, n - 1) then [acts[n - 1].payload] else []
  }

  lemma GotOneMore(log: seq<Delivery>, d: Delivery, f: FlowId)
    ensures Got(log + [d], f) == Got(log, f) + if d.f == f then [d.payload] else []
  {
    assert (log + [d])[..|log|] == log;
  }

  lemma ComingStep(s: State, a: Action, f: FlowId)
    requires Inv(s) && Enabled(s, a)
    ensures var s' := Next(s, a);
            Got(s'.delivered, f) + Coming(s', f) ==
            Got(s.delivered, f) + Coming(s, f) +
            (if a.Datagram? && s'.runner.Delivering? && s'.runner.f == f then [a.payload] else [])
  {
    hide Got;
    if a.Deliver? {
      GotOneMore(s.delivered, Delivery(s.runner.f, s.runner.payload), f);
    }
  }

  lemma ReadForIff(states: seq<State>, acts: seq<Action>, f: FlowId, n: nat)
    requires Run(states, acts) && n < |acts|
    ensures ReadFor(states, acts, f, n) <==>
            acts[n].Datagram? && states[n + 1].runner.Delivering? && states[n + 1].runner.f == f
  {
    if acts[n].Datagram? {
      DatagramGoesHome(states, acts, n, acts[n].key, acts[n].payload);
      RunKeepsInv(states, acts);
      assert states[n] in states;
      assert states[n + 1] == Next(states[n], acts[n]);
      hide Run, FlowInv, RunnerInv;
    }
  }

  /** A flow gets exactly the datagrams of its own source that were read while the registry named it, in the order
      they came, but for the one the runner still has in hand. */
  lemma {:induction false} FlowGetsItsOwn(states: seq<State>, acts: seq<Action>, f: FlowId, n: nat)
    requires Run(states, acts) && n <= |acts|
    ensures Got(states[n].delivered, f) + Coming(states[n], f) == AllReadFor(states, acts, f, n)
  {
    if n > 0 {
      FlowGetsItsOwn(states, acts, f, n - 1);
      RunKeepsInv(states, acts);
      assert states[n - 1] in states;
      assert Enabled(states[n - 1], acts[n - 1]) && states[n] == Next(states[n - 1], acts[n - 1]);
      ReadForIff(states, acts, f, n - 1);
      hide Run, Next, Enabled, Inv, Got, Coming, ReadFor;
      ComingStep(states[n - 1], acts[n - 1], f);
    }
  }

  // ---- What has been done, and what that means ----

  /** The action was among those before step n. */
  predicate Did(acts: seq<Action>, a: Action, n: nat)
    requires n <= |acts|
  {
    exists j | 0 <= j < n :: acts[j] == a
  }

  lemma DidOneMore(acts: seq<Action>, a: Action, n: nat)
    requires n < |acts|
    ensures Did(acts, a, n + 1) <==> Did(acts, a, n) || acts[n] == a
  {
  }

  lemma FlowMarks(s: State, a: Action, f: FlowId)
    requires Enabled(s, a) && f < |Next(s, a).all|
    ensures f < |s.all| || !(a.CloseDone? && a.f == f)
    ensures Next(s, a).all[f].done <==> (f < |s.all| && s.all[f].done) || a == CloseDone(f)
    ensures Next(s, a).all[f].forgotten <==> (f < |s.all| && s.all[f].forgotten) || a == Forget(f)
  {
  }

  /** A flow is done exactly when it was closed, and out of the registry's hands exactly when that close got there;
      a flow that is not there yet was not closed. */
  lemma {:induction false} DoneIff(states: seq<State>, acts: seq<Action>, f: FlowId, n: nat)
    requires Run(states, acts) && n <= |acts|
    ensures (f < |states[n].all| && states[n].all[f].done) <==> Did(acts, CloseDone(f), n)
    ensures (f < |states[n].all| && states[n].all[f].forgotten) <==> Did(acts, Forget(f), n)
  {
    if n > 0 {
      DoneIff(states, acts, f, n - 1);
      var s, a := states[n - 1], acts[n - 1];
      assert Enabled(s, a) && states[n] == Next(s, a);
      assert |s.all| <= |states[n].all|;
      DidOneMore(acts, CloseDone(f), n - 1);
      DidOneMore(acts, Forget(f), n - 1);
      assert f >= |s.all| ==> a != CloseDone(f) && a != Forget(f);
      hide Run, Next, Did;
      if f < |states[n].all| {
        FlowMarks(s, a, f);
      }
    }
  }

  /** Step n ended the runner: its socket was closed, or a datagram came for a new flow after the forwarder closed. */
  predicate EndsRunner(s: State, a: Action) {
    a.ReadFails? || (a.Datagram? && s.closed && a.key !in s.flows)
  }

  predicate EverEnded(states: seq<State>, acts: seq<Action>, n: nat)
    requires n <= |acts| && |states| == |acts| + 1
  {
    exists j | 0 <= j < n :: EndsRunner(states[j], acts[j])
  }

  lemma EndedOneMore(states: seq<State>, acts: seq<Action>, n: nat)
    requires n < |acts| && |states| == |acts| + 1
    ensures EverEnded(states, acts, n + 1) <==> EverEnded(states, acts, n) || EndsRunner(states[n], acts[n])
  {
    hide EndsRunner;
  }

  lemma PhasesStep(s: State, a: Action)
    requires Enabled(s, a)
    ensures Next(s, a).closed <==> s.closed || a.BeginClose?
    ensures Next(s, a).closer.AllClosed? <==> s.closer.AllClosed? || a.CloseReturns?
    ensures Next(s, a).runner.Stopped? <==> s.runner.Stopped? || EndsRunner(s, a)
    ensures EndsRunner(s, a) ==> s.closed
  {
  }

  /** The forwarder is closed, has finished closing, or has stopped reading, exactly when one of its own steps made
      it so; and the runner stops only after a close. */
  lemma {:induction false} PhasesIff(states: seq<State>, acts: seq<Action>, n: nat)
    requires Run(states, acts) && n <= |acts|
    ensures states[n].closed <==> Did(acts, BeginClose, n)
    ensures states[n].closer.AllClosed? <==> Did(acts, CloseReturns, n)
    ensures states[n].runner.Stopped? <==> EverEnded(states, acts, n)
    ensures states[n].runner.Stopped? ==> states[n].closed
  {
    if n > 0 {
      PhasesIff(states, acts, n - 1);
      assert Enabled(states[n - 1], acts[n - 1]) && states[n] == Next(states[n - 1], acts[n - 1]);
      hide Run, Next, Did, EverEnded, EndsRunner;
      DidOneMore(acts, BeginClose, n - 1);
      DidOneMore(acts, CloseReturns, n - 1);
      EndedOneMore(states, acts, n - 1);
      PhasesStep(states[n - 1], acts[n - 1]);
    }
  }

  /** What the transport answered to the offers so far. */
  function OfferAnswers(acts: seq<Action>, n: nat): seq<bool>
    requires n <= |acts|
  {
    if n == 0 then []
    else OfferAnswers(acts, n - 1) + if acts[n - 1].Offer? then [acts[n - 1].accepted] else []
  }

  /** The newest flow is still to be offered. */
  predicate ToOffer(s: State) {
    (s.runner.Delivering? && !s.runner.known) || s.runner.Offering?
  }

  ghost predicate OfferInv(s: State, answers: seq<bool>) {
    && |s.all| == |answers| + (if ToOffer(s) then 1 else 0)
    && (ToOffer(s) ==> s.runner.f == |answers|)
    && |s.offers| == |answers| && (forall i | 0 <= i < |answers| :: s.offers[i] == i)
    && (forall f: nat :: f in s.admitted <==> f < |answers| && answers[f])
    && (s.runner.Refusing? ==> answers != [] && s.runner.f == |answers| - 1 && !answers[s.runner.f])
  }

  lemma OfferStep(s: State, a: Action, answers: seq<bool>)
    requires Enabled(s, a) && OfferInv(s, answers)
    ensures OfferInv(Next(s, a), if a.Offer? then answers + [a.accepted] else answers)
  {
  }

  /** Every flow is offered to the transport once, in the order the flows were made and before the next datagram is
      read; it is taken exactly when that offer was accepted, and refused exactly when not. */
  lemma {:induction false} OfferedOnce(states: seq<State>, acts: seq<Action>, n: nat)
    requires Run(states, acts) && n <= |acts|
    ensures OfferInv(states[n], OfferAnswers(acts, n))
  {
    if n > 0 {
      OfferedOnce(states, acts, n - 1);
      assert Enabled(states[n - 1], acts[n - 1]) && states[n] == Next(states[n - 1], acts[n - 1]);
      hide Run, Next, OfferInv;
      OfferStep(states[n - 1], acts[n - 1], OfferAnswers(acts, n - 1));
      assert OfferAnswers(acts, n - 1) + [] == OfferAnswers(acts, n - 1);
    }
  }
}
