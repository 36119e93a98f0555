/**
 The size of the client's connection pool: the ticker loop that moves the target and the control-channel
 handler that answers the server's requests, working on one channel of shrink tokens.
 */
module PoolController {
  const GROWTH_LIMIT := 4
  const MBPS_PER_CONN := 12
  const TOKENS := 100

  /** The pool as configured. */
  datatype Config = Config(size: int, aggressive: bool)

  // ---- When the pool grows and shrinks ----

  predicate CanGrow(size: int, configured: int) {
    configured > 0 && size < configured * GROWTH_LIMIT
  }

  /** Integer division as Go does it, towards zero. */
  function Quotient(a: int, b: int): int
    requires b != 0
  {
    if a >= 0 then a / b else -((-a) / b)
  }

  predicate WantsMore(mbps: int, live: int, size: int, configured: int) {
    mbps > 0 && live > 0 && CanGrow(size, configured) && Quotient(mbps, live) >= MBPS_PER_CONN
  }

  /** Throughput asks for another connection exactly when every live one carries its share and there is room. */
  lemma WantsMoreIff(mbps: int, live: int, size: int, configured: int)
    ensures WantsMore(mbps, live, size, configured) <==>
            live > 0 && mbps >= MBPS_PER_CONN * live && CanGrow(size, configured)
  {
  }

  /** What one load tick sees: requests and live connections averaged over ten seconds, and throughput. */
  datatype Reading = Reading(load: int, average: int, mbps: int)

  predicate Grows(c: Config, target: int, r: Reading) {
    var (a, b) := if c.aggressive then (1, 2) else (4, 5);
    (r.load + a > r.average * b && CanGrow(target, c.size)) || WantsMore(r.mbps, r.average, target, c.size)
  }

  predicate Shrinks(c: Config, target: int, r: Reading) {
    var (x, y) := if c.aggressive then (0, 0.75) else (3, 4.0);
    !Grows(c, target, r) && (r.load + x) as real < r.average as real * y && target > c.size
  }

  // ---- The two goroutines ----

  datatype Maintainer =
    | Filling(started: nat)    // opening the first connections
    | Waiting
    | Sending                  // holding a shrink token the channel has no room for yet

  /** `dials` and `requests` count what was ever done: tunnel dials launched, requests handled. */
  datatype State = State(maintainer: Maintainer, target: int, tokens: nat, dials: nat, requests: nat)

  datatype Step =
    | Fill                     // one of the first dials, or the end of them
    | LoadTick(reading: Reading)
    | SendToken
    | Request                  // an SG_Chan signal

  function Start(c: Config): State {
    State(Filling(0), c.size, 0, 0, 0)
  }

  predicate Enabled(c: Config, s: State, step: Step) {
    match step
    case Fill => s.maintainer.Filling?
    case LoadTick(_) => s.maintainer.Waiting?
    case SendToken => s.maintainer.Sending? && s.tokens < TOKENS
    case Request => true
  }

  function Next(c: Config, s: State, step: Step): State
    requires Enabled(c, s, step)
  {
    match step
    case Fill =>
      var i := s.maintainer.started;
      if i < c.size then s.(maintainer := Filling(i + 1), dials := s.dials + 1) else s.(maintainer := Waiting)
    case LoadTick(r) =>
      if Grows(c, s.target, r) then s.(target := s.target + 1, dials := s.dials + 1)
      else if Shrinks(c, s.target, r) then s.(target := s.target - 1, maintainer := Sending)
      else s
    case SendToken => s.(maintainer := Waiting, tokens := s.tokens + 1)
    case Request =>
      if s.tokens > 0 then s.(tokens := s.tokens - 1, requests := s.requests + 1)
      else s.(dials := s.dials + 1, requests := s.requests + 1)
  }

  /** When a load tick makes the pool grow: the requests outrun the connections, by as much as the mode says, or
      every live connection carries 12 Mbit/s; and there is room below four times the configured size. */
  lemma GrowsIff(c: Config, s: State, r: Reading)
    requires Enabled(c, s, LoadTick(r))
    ensures var s' := Next(c, s, LoadTick(r));
            s'.target == s.target + 1 && s'.dials == s.dials + 1 && s'.maintainer == s.maintainer <==>
            && c.size > 0 && s.target < 4 * c.size
            && (|| (if c.aggressive then r.load + 1 > 2 * r.average else r.load + 4 > 5 * r.average)
                || (r.average > 0 && r.mbps >= 12 * r.average))
  {
    WantsMoreIff(r.mbps, r.average, s.target, c.size);
    hide WantsMore;
  }

  /** And when it makes the pool shrink: it does not grow, the connections outrun the requests by as much as the
      mode says, and the pool is larger than configured. */
  lemma ShrinksIff(c: Config, s: State, r: Reading)
    requires Enabled(c, s, LoadTick(r))
    ensures var s' := Next(c, s, LoadTick(r));
            s'.target == s.target - 1 && s'.maintainer == Sending && s'.dials == s.dials <==>
            && s.target > c.size && !Grows(c, s.target, r)
            && if c.aggressive then 4 * r.load < 3 * r.average else r.load + 3 < 4 * r.average
  {
    hide Grows;
  }

  predicate Run(c: Config, states: seq<State>, steps: seq<Step>) {
    && |states| == |steps| + 1
    && states[0] == Start(c)
    && forall i | 0 <= i < |steps| :: Enabled(c, states[i], steps[i]) && states[i + 1] == Next(c, states[i], steps[i])
  }

  /** Shrink tokens made and not yet used up, in the channel or on their way into it. */
  function Outstanding(s: State): nat {
    s.tokens + if s.maintainer.Sending? then 1 else 0
  }

  /** How many of the first dials have not been made yet. */
  function Missing(c: Config, s: State): int {
    if s.maintainer.Filling? then c.size - s.maintainer.started else 0
  }

  predicate Inv(c: Config, s: State) {
    && c.size <= s.target <= GROWTH_LIMIT * c.size
    && s.tokens <= TOKENS
    && (s.maintainer.Filling? ==> s.maintainer.started <= c.size)
    && s.dials + Missing(c, s) == s.requests + s.target + Outstanding(s)
  }

  lemma StepKeeps(c: Config, s: State, step: Step)
    requires c.size >= 1 && Inv(c, s) && Enabled(c, s, step)
    ensures Inv(c, Next(c, s, step))
  {
    match step
    case LoadTick(r) =>
      assert Grows(c, s.target, r) ==> CanGrow(s.target, c.size);
      hide Grows, WantsMore, Quotient;
    case _ =>
  }

  lemma {:induction false} RunKeeps(c: Config, states: seq<State>, steps: seq<Step>, i: nat)
    requires c.size >= 1 && Run(c, states, steps) && i <= |steps|
    ensures Inv(c, states[i])
  {
    if i > 0 {
      RunKeeps(c, states, steps, i - 1);
      hide Inv, Next, Enabled;
      assert states[i - 1 + 1] == Next(c, states[i - 1], steps[i - 1]);
      StepKeeps(c, states[i - 1], steps[i - 1]);
    } else {
      assert Inv(c, Start(c));
    }
  }

  /** Over any run the target stays between the configured size and four times it, and every dial is
      accounted for: one for each request handled, one for each place in the target, and one for each
      shrink token that still stands for a dial a request will not make. */
  lemma DialsAreAccountedFor(c: Config, states: seq<State>, steps: seq<Step>)
    requires c.size >= 1 && Run(c, states, steps)
    ensures var s := states[|steps|];
            && c.size <= s.target <= 4 * c.size
            && s.tokens <= 100
            && (!s.maintainer.Filling? ==> s.dials == s.requests + s.target + Outstanding(s))
            && (s.maintainer.Filling? ==> s.dials == s.requests + s.maintainer.started + Outstanding(s)
                                          && s.target == c.size && Outstanding(s) == 0)
  {
    RunKeeps(c, states, steps, |steps|);
    FillingIsFresh(c, states, steps, |steps|);
  }

  lemma {:induction false} FillingIsFresh(c: Config, states: seq<State>, steps: seq<Step>, i: nat)
    requires Run(c, states, steps) && i <= |steps|
    ensures states[i].maintainer.Filling? ==> states[i].target == c.size && states[i].tokens == 0
  {
    if i > 0 {
      FillingIsFresh(c, states, steps, i - 1);
      assert states[i - 1 + 1] == Next(c, states[i - 1], steps[i - 1]);
      hide Grows, Shrinks;
    }
  }

  /** So the dials launched for nothing but the pool itself are bounded, whatever the load does. */
  lemma SpareDialsAreBounded(c: Config, states: seq<State>, steps: seq<Step>)
    requires c.size >= 1 && Run(c, states, steps) && !states[|steps|].maintainer.Filling?
    ensures var s := states[|steps|];
            c.size <= s.dials - s.requests <= 4 * c.size + 101
  {
    DialsAreAccountedFor(c, states, steps);
  }

  // ---- What each goroutine has done ----

  /** The shrink tokens put into the channel, and the requests that dialled nothing. */
  function TokensSent(steps: seq<Step>, n: nat): nat
    requires n <= |steps|
  {
    if n == 0 then 0 else TokensSent(steps, n - 1) + if steps[n - 1].SendToken? then 1 else 0
  }

  predicate DialsNothing(states: seq<State>, steps: seq<Step>, n: nat)
    requires |states| == |steps| + 1 && n < |steps|
  {
    steps[n].Request? && states[n + 1].dials == states[n].dials
  }

  function RequestsSpared(states: seq<State>, steps: seq<Step>, n: nat): nat
    requires |states| == |steps| + 1 && n <= |steps|
  {
    if n == 0 then 0 else RequestsSpared(states, steps, n - 1) + if DialsNothing(states, steps, n - 1) then 1 else 0
  }

  lemma {:induction false} TokensAre(c: Config, states: seq<State>, steps: seq<Step>, n: nat)
    requires Run(c, states, steps) && n <= |steps|
    ensures states[n].tokens == TokensSent(steps, n) - RequestsSpared(states, steps, n)
  {
    if n > 0 {
      TokensAre(c, states, steps, n - 1);
      assert Enabled(c, states[n - 1], steps[n - 1]) && states[n - 1 + 1] == Next(c, states[n - 1], steps[n - 1]);
      hide Run, Grows, Shrinks;
    }
  }

  /** Each shrink token spares exactly one dial: a request dials nothing if and only if a token has been sent that no
      earlier request used; otherwise it dials once. */
  lemma RequestDialsIff(c: Config, states: seq<State>, steps: seq<Step>, n: nat)
    requires Run(c, states, steps) && n < |steps| && steps[n].Request?
    ensures states[n + 1].requests == states[n].requests + 1
    ensures DialsNothing(states, steps, n) <==> TokensSent(steps, n) > RequestsSpared(states, steps, n)
    ensures !DialsNothing(states, steps, n) ==> states[n + 1].dials == states[n].dials + 1
  {
    TokensAre(c, states, steps, n);
    assert Enabled(c, states[n], steps[n]) && states[n + 1] == Next(c, states[n], steps[n]);
  }

  function Fills(steps: seq<Step>, n: nat): nat
    requires n <= |steps|
  {
    if n == 0 then 0 else Fills(steps, n - 1) + if steps[n - 1].Fill? then 1 else 0
  }

  /** The maintainer goes over to watching the load once it has opened as many connections as configured. */
  lemma {:induction false} FillingIff(c: Config, states: seq<State>, steps: seq<Step>, n: nat)
    requires c.size >= 1 && Run(c, states, steps) && n <= |steps|
    ensures states[n].maintainer.Filling? <==> Fills(steps, n) <= c.size
    ensures states[n].maintainer.Filling? ==> states[n].maintainer.started == Fills(steps, n)
  {
    if n > 0 {
      FillingIff(c, states, steps, n - 1);
      assert Enabled(c, states[n - 1], steps[n - 1]) && states[n - 1 + 1] == Next(c, states[n - 1], steps[n - 1]);
      hide Run, Grows, Shrinks;
    }
  }
}
