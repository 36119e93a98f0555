/**
 The lock-free record of failing dials to the local service. Any number of reports run at once, each one
 loading the shared pointer, making a new record and swapping it in if the pointer has not moved.
 */
module DialFailures {
  import opened Bytes

  datatype Report = Failure(addr: string, why: string) | Success

  /** What the pointer points to. Records are never changed once made. */
  datatype Service = Service(addr: string, why: string, failures: nat, since: int)

  /** A report taking effect. */
  datatype Event = Event(call: nat, report: Report, at: int)

  /** Where a call stands. `from` is how many reports had taken effect when it began. */
  datatype Call =
    | Begun(report: Report, from: nat)
    | Loaded(report: Report, from: nat, seen: Option<nat>, now: int)
    | Ended(report: Report, from: nat, entry: nat)

  /** The records made so far, the pointer, the calls, and the reports in the order they took effect. */
  datatype State = State(made: seq<Service>, pointer: Option<nat>, calls: map<nat, Call>, log: seq<Event>)

  datatype Action =
    | Begin(call: nat, report: Report)
    | Load(call: nat, now: int)
    | Finish(call: nat)

  const START := State([], None, map[], [])

  predicate Enabled(s: State, a: Action) {
    match a
    case Begin(c, _) => c !in s.calls
    case Load(c, _) => c in s.calls && s.calls[c].Begun?
    case Finish(c) => c in s.calls && s.calls[c].Loaded?
  }

  function Held(s: State, pointer: Option<nat>): Option<Service>
    requires pointer.Some? ==> pointer.value < |s.made|
  {
    if pointer.None? then None else Some(s.made[pointer.value])
  }

  /** The record a failing call makes from what it loaded. */
  function Made(prior: Option<Service>, addr: string, why: string, now: int): Service {
    if prior.Some? && prior.value.addr == addr && prior.value.why == why then
      Service(addr, why, prior.value.failures + 1, prior.value.since)
    else Service(addr, why, 1, now)
  }

  function TakeEffect(s: State, c: nat, report: Report, from: nat, at: int): State {
    s.(log := s.log + [Event(c, report, at)], calls := s.calls[c := Ended(report, from, |s.log|)])
  }

  predicate PointersKnown(s: State) {
    && (s.pointer.Some? ==> s.pointer.value < |s.made|)
    && forall c | c in s.calls && s.calls[c].Loaded? && s.calls[c].seen.Some? :: s.calls[c].seen.value < |s.made|
  }

  function Next(s: State, a: Action): State
    requires PointersKnown(s) && Enabled(s, a)
  {
    match a
    case Begin(c, report) => s.(calls := s.calls[c := Begun(report, |s.log|)])
    case Load(c, now) =>
      var call := s.calls[c];
      if call.report.Success? && s.pointer.None? then TakeEffect(s, c, Success, call.from, now)
      else s.(calls := s.calls[c := Loaded(call.report, call.from, s.pointer, now)])
    case Finish(c) =>
      var call := s.calls[c];
      match call.report
      case Success => TakeEffect(s.(pointer := None), c, Success, call.from, call.now)
      case Failure(addr, why) =>
        if s.pointer != call.seen then s.(calls := s.calls[c := Begun(call.report, call.from)])
        else
          var record := Made(Held(s, call.seen), addr, why, call.now);
          TakeEffect(s.(made := s.made + [record], pointer := Some(|s.made|)), c, call.report, call.from, call.now)
  }

  /** What reports taken one at a time, in this order, leave behind. */
  function InOrder(log: seq<Event>): Option<Service> {
    if log == [] then None
    else
      var last := log[|log| - 1];
      match last.report
      case Success => None
      case Failure(addr, why) => Some(Made(InOrder(log[..|log| - 1]), addr, why, last.at))
  }

  /** Every report that took effect is the only one of its call, and took effect while the call ran. */
  predicate Linked(s: State) {
    && (forall i | 0 <= i < |s.log| ::
          s.log[i].call in s.calls && s.calls[s.log[i].call] == Ended(s.log[i].report, s.calls[s.log[i].call].from, i))
    && (forall c | c in s.calls ::
          && s.calls[c].from <= |s.log|
          && (s.calls[c].Ended? ==>
                s.calls[c].from <= s.calls[c].entry < |s.log| && s.log[s.calls[c].entry].call == c))
  }

  predicate Inv(s: State) {
    PointersKnown(s) && Linked(s) && Held(s, s.pointer) == InOrder(s.log)
  }

  predicate Run(states: seq<State>, actions: seq<Action>) {
    && |states| == |actions| + 1
    && states[0] == START
    && forall i | 0 <= i < |actions| ::
         PointersKnown(states[i]) && Enabled(states[i], actions[i]) && states[i + 1] == Next(states[i], actions[i])
  }

  lemma PointersStay(s: State, a: Action)
    requires PointersKnown(s) && Enabled(s, a)
    ensures PointersKnown(Next(s, a))
  {
  }

  /** A call that takes effect is linked to its entry, and nothing else changes. */
  lemma EffectLinks(s: State, c: nat, report: Report, from: nat, at: int)
    requires Linked(s) && c in s.calls && !s.calls[c].Ended? && from <= |s.log|
    ensures Linked(TakeEffect(s, c, report, from, at))
  {
  }

  /** A call that has taken no effect yet may move on without any. */
  lemma MoveLinks(s: State, s': State, c: nat, call: Call)
    requires Linked(s) && s'.log == s.log && s'.calls == s.calls[c := call]
    requires !call.Ended? && call.from <= |s.log| && (c in s.calls ==> !s.calls[c].Ended?)
    ensures Linked(s')
  {
  }

  lemma LinksStay(s: State, a: Action)
    requires PointersKnown(s) && Linked(s) && Enabled(s, a)
    ensures Linked(Next(s, a))
  {
    var s' := Next(s, a);
    assert a.call in s.calls ==> s.calls[a.call].from <= |s.log|;
    if a.call in s'.calls && s'.calls[a.call].Ended? {
      var call := s.calls[a.call];
      EffectLinks(s, a.call, call.report, call.from, if a.Load? then a.now else call.now);
      hide TakeEffect, Made;
    } else {
      MoveLinks(s, s', a.call, s'.calls[a.call]);
    }
  }

  /** What a step does to the pointer, the records and the order of effect. */
  lemma StepShape(s: State, a: Action)
    requires PointersKnown(s) && Enabled(s, a)
    ensures var next := Next(s, a);
            || (next.log == s.log && next.pointer == s.pointer && next.made == s.made)
            || (exists at :: next.log == s.log + [Event(a.call, Success, at)] && next.pointer == None && next.made == s.made)
            || (exists addr, why, at ::
                  && next.log == s.log + [Event(a.call, Failure(addr, why), at)]
                  && next.made == s.made + [Made(Held(s, s.pointer), addr, why, at)]
                  && next.pointer == Some(|s.made|))
  {
    hide Made;
    var next := Next(s, a);
    if next.log != s.log {
      var call := s.calls[a.call];
      var at := if a.Load? then a.now else call.now;
      if call.report.Success? {
        assert next.log == s.log + [Event(a.call, Success, at)];
      } else {
        assert next.log == s.log + [Event(a.call, Failure(call.report.addr, call.report.why), at)];
      }
    }
  }

  lemma OrderStays(s: State, a: Action)
    requires Inv(s) && Enabled(s, a)
    ensures PointersKnown(Next(s, a)) && Held(Next(s, a), Next(s, a).pointer) == InOrder(Next(s, a).log)
  {
    PointersStay(s, a);
    StepShape(s, a);
    var next := Next(s, a);
    hide Next, Enabled, Linked, InOrder, Made;
    if next.log != s.log {
      InOrderSnoc(s.log, next.log[|s.log|]);
    }
  }

  lemma InOrderSnoc(log: seq<Event>, e: Event)
    ensures InOrder(log + [e]) ==
              match e.report
              case Success => None
              case Failure(addr, why) => Some(Made(InOrder(log), addr, why, e.at))
  {
    assert (log + [e])[..|log|] == log;
  }

  lemma {:induction false} RunKeeps(states: seq<State>, actions: seq<Action>, i: nat)
    requires Run(states, actions) && i <= |actions|
    ensures Inv(states[i])
  {
    if i > 0 {
      RunKeeps(states, actions, i - 1);
      var s, a := states[i - 1], actions[i - 1];
      assert states[i - 1 + 1] == Next(s, a);
      hide Next, Linked, PointersKnown, Enabled, InOrder;
      PointersStay(s, a);
      LinksStay(s, a);
      OrderStays(s, a);
    }
  }

  /** The longest run of identical failures a log ends with, and when it began. */
  predicate EndsInRun(log: seq<Event>, addr: string, why: string, n: nat, since: int) {
    && 1 <= n <= |log|
    && (forall i | |log| - n <= i < |log| :: log[i].report == Failure(addr, why))
    && (n < |log| ==> log[|log| - n - 1].report != Failure(addr, why))
    && log[|log| - n].at == since
  }

  lemma {:induction false} InOrderIsLastRun(log: seq<Event>)
    ensures InOrder(log).None? <==> log == [] || log[|log| - 1].report.Success?
    ensures InOrder(log).Some? ==>
              var s := InOrder(log).value; EndsInRun(log, s.addr, s.why, s.failures, s.since)
  {
    if log != [] {
      InOrderIsLastRun(log[..|log| - 1]);
    }
  }

  /** However the reports interleave, the pointer shows exactly the failures of one kind since the last
      report that was not of that kind: how many there were, and when the first of them was. */
  lemma PointerShowsCurrentRun(states: seq<State>, actions: seq<Action>)
    requires Run(states, actions)
    ensures var s := states[|actions|];
            && PointersKnown(s)
            && (s.pointer.None? <==> s.log == [] || s.log[|s.log| - 1].report.Success?)
            && (s.pointer.Some? ==>
                  var r := s.made[s.pointer.value]; EndsInRun(s.log, r.addr, r.why, r.failures, r.since))
  {
    RunKeeps(states, actions, |actions|);
    InOrderIsLastRun(states[|actions|].log);
  }

  /** No report is lost and none counts twice: a call that ended took effect once, as what it reported. */
  lemma EveryReportCountsOnce(states: seq<State>, actions: seq<Action>, c: nat)
    requires Run(states, actions)
    requires c in states[|actions|].calls
    ensures var s := states[|actions|];
            var call := s.calls[c];
            && (call.Ended? ==>
                  && call.entry < |s.log| && s.log[call.entry].call == c && s.log[call.entry].report == call.report
                  && forall i | 0 <= i < |s.log| && s.log[i].call == c :: i == call.entry)
            && (!call.Ended? ==> forall i | 0 <= i < |s.log| :: s.log[i].call != c)
  {
    RunKeeps(states, actions, |actions|);
  }

  predicate Grew(s: State, t: State) {
    && s.log <= t.log
    && (forall c | c in s.calls :: c in t.calls)
    && (forall c | c in s.calls && s.calls[c].Ended? :: t.calls[c] == s.calls[c])
    && (forall c | c in t.calls && c !in s.calls :: t.calls[c].from >= |s.log|)
    && (forall c | c in t.calls && c in s.calls :: t.calls[c].from == s.calls[c].from)
  }

  lemma StepGrows(s: State, a: Action)
    requires PointersKnown(s) && Enabled(s, a)
    ensures Grew(s, Next(s, a))
  {
  }

  lemma GrewNot(s: State)
    ensures Grew(s, s)
  {
  }

  lemma GrewOn(s: State, t: State, u: State)
    requires Grew(s, t) && Grew(t, u)
    ensures Grew(s, u)
  {
  }

  lemma {:induction false} RunGrows(states: seq<State>, actions: seq<Action>, i: nat, j: nat)
    requires Run(states, actions) && i <= j <= |actions|
    ensures Grew(states[i], states[j])
    decreases j
  {
    if i == j {
      GrewNot(states[i]);
    } else {
      RunGrows(states, actions, i, j - 1);
      assert PointersKnown(states[j - 1]) && Enabled(states[j - 1], actions[j - 1]);
      assert states[j - 1 + 1] == Next(states[j - 1], actions[j - 1]);
      hide *;
      StepGrows(states[j - 1], actions[j - 1]);
      GrewOn(states[i], states[j - 1], states[j]);
    }
  }

  /** The order of effect respects real time: a call that ended before another began took effect before it. */
  lemma EffectFollowsRealTime(states: seq<State>, actions: seq<Action>, i: nat, j: nat, a: nat, b: nat)
    requires Run(states, actions) && i <= j <= |actions|
    requires a in states[i].calls && states[i].calls[a].Ended? && b !in states[i].calls
    requires b in states[j].calls && states[j].calls[b].Ended?
    ensures a in states[j].calls && states[j].calls[a].Ended?
    ensures states[j].calls[a].entry < states[j].calls[b].entry
  {
    RunKeeps(states, actions, i);
    RunKeeps(states, actions, j);
    RunGrows(states, actions, i, j);
    hide Run, Next, InOrder;
  }

  // ---- When a call ends ----

  /** No step from i up to j is one of this call. */
  predicate Idle(actions: seq<Action>, c: nat, i: nat, j: nat)
    requires i <= j <= |actions|
  {
    forall k | i <= k < j :: actions[k].call != c
  }

  lemma OthersKeep(s: State, a: Action, c: nat)
    requires PointersKnown(s) && Enabled(s, a) && c in s.calls && a.call != c
    ensures c in Next(s, a).calls && Next(s, a).calls[c] == s.calls[c]
  {
    hide Made;
  }

  lemma {:induction false} IdleKeeps(states: seq<State>, actions: seq<Action>, c: nat, i: nat, j: nat)
    requires Run(states, actions) && i <= j <= |actions| && Idle(actions, c, i, j) && c in states[i].calls
    ensures c in states[j].calls && states[j].calls[c] == states[i].calls[c]
    decreases j
  {
    if i < j {
      IdleKeeps(states, actions, c, i, j - 1);
      assert PointersKnown(states[j - 1]) && Enabled(states[j - 1], actions[j - 1]);
      assert states[j - 1 + 1] == Next(states[j - 1], actions[j - 1]);
      hide Run, Next, Enabled, PointersKnown;
      OthersKeep(states[j - 1], actions[j - 1], c);
    }
  }

  /** A load ends its call at once exactly when it reports a success and there is no run of failures to end. */
  lemma LoadEndsIff(states: seq<State>, actions: seq<Action>, c: nat, j: nat)
    requires Run(states, actions) && j < |actions| && actions[j].Load? && actions[j].call == c
    ensures c in states[j].calls && !states[j].calls[c].Ended? && c in states[j + 1].calls
    ensures states[j + 1].calls[c].Ended? <==>
            && states[j].calls[c].report.Success?
            && (states[j].log == [] || states[j].log[|states[j].log| - 1].report.Success?)
    ensures !states[j + 1].calls[c].Ended? ==>
              states[j + 1].calls[c] ==
              Loaded(states[j].calls[c].report, states[j].calls[c].from, states[j].pointer, actions[j].now)
    ensures states[j + 1].pointer == states[j].pointer
  {
    RunKeeps(states, actions, j);
    InOrderIsLastRun(states[j].log);
    assert states[j + 1] == Next(states[j], actions[j]);
    hide Run, InOrder, Linked;
  }

  /** A swap goes through exactly when the pointer is what the call had loaded, or the call clears it; so a call has to
      start over only because another one took effect since it loaded. */
  lemma FinishEndsIff(states: seq<State>, actions: seq<Action>, c: nat, i: nat, j: nat)
    requires Run(states, actions) && i < j < |actions| && Idle(actions, c, i + 1, j)
    requires actions[i].Load? && actions[i].call == c && actions[j] == Finish(c)
    ensures c in states[j].calls && states[j].calls[c].Loaded? && c in states[j + 1].calls
    ensures states[j + 1].calls[c].Ended? <==>
            states[j].calls[c].report.Success? || states[j].pointer == states[i].pointer
    ensures !states[j + 1].calls[c].Ended? ==> states[j + 1].calls[c].Begun? && |states[i].log| < |states[j].log|
  {
    assert states[i + 1] == Next(states[i], actions[i]) && states[j + 1] == Next(states[j], actions[j]);
    assert Enabled(states[i], actions[i]) && Enabled(states[j], actions[j]);
    IdleKeeps(states, actions, c, i + 1, j);
    PointerMoves(states, actions, i, j);
    hide Run, Made;
  }

  /** The pointer only moves when a report takes effect. */
  lemma {:induction false} PointerMoves(states: seq<State>, actions: seq<Action>, i: nat, j: nat)
    requires Run(states, actions) && i <= j <= |actions|
    ensures |states[i].log| <= |states[j].log|
    ensures states[i].pointer != states[j].pointer ==> |states[i].log| < |states[j].log|
    decreases j
  {
    if i < j {
      PointerMoves(states, actions, i, j - 1);
      assert PointersKnown(states[j - 1]) && Enabled(states[j - 1], actions[j - 1]);
      assert states[j - 1 + 1] == Next(states[j - 1], actions[j - 1]);
      hide Run, Next, Enabled, PointersKnown, Made;
      StepShape(states[j - 1], actions[j - 1]);
    }
  }
}
