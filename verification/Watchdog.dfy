/**
 The watchdog: restarts a tunnel that is running but not connected, and reports the restarts without
 repeating itself while a tunnel keeps failing. Times are nanoseconds of one monotone clock.
 */
module Watchdog {
  import opened Bytes

  const SECOND := 1_000_000_000
  const WD_THRESHOLD := 2
  const WD_COOLDOWN := 180 * SECOND
  const FLAP_WINDOW := 3600 * SECOND
  const FLAP_THRESHOLD := 4

  /** One look at one tunnel. An unhealthy look reads the clock twice: for the cooldown, and again
      once the restart it may have asked for has returned. */
  datatype Look = Inactive | Healthy | Unhealthy(checked: int, stamped: int)

  datatype Alert = Individual | Flapping | Silent

  /** A restart, the look that caused it, and what was reported. */
  datatype Restart = Restart(at: int, look: nat, alert: Alert)

  /** Everything remembered about one tunnel. */
  datatype Tunnel = Tunnel(fails: nat, lastRestart: Option<int>, restarts: seq<int>, lastFlap: Option<int>,
                           seenHealthy: bool)

  const NEW_TUNNEL := Tunnel(0, None, [], None, false)

  function Recent(prev: seq<int>, now: int): (r: seq<int>) {
    if prev == [] then []
    else if now - prev[0] < FLAP_WINDOW then [prev[0]] + Recent(prev[1..], now)
    else Recent(prev[1..], now)
  }

  function AlertFor(count: nat, lastFlap: Option<int>, now: int): Alert {
    if count < FLAP_THRESHOLD then Individual
    else if lastFlap.Some? && now - lastFlap.value < FLAP_WINDOW then Silent
    else Flapping
  }

  predicate CooledDown(last: Option<int>, now: int) {
    last.None? || now - last.value > WD_COOLDOWN
  }

  function AlertAt(t: Tunnel, now: int): Alert {
    AlertFor(|Recent(t.restarts, now)| + 1, t.lastFlap, now)
  }

  function Restarted(t: Tunnel, now: int): Tunnel {
    Tunnel(0, Some(now), Recent(t.restarts, now) + [now], if AlertAt(t, now) == Flapping then Some(now) else t.lastFlap,
           t.seenHealthy)
  }

  predicate Triggers(t: Tunnel, o: Look) {
    o.Unhealthy? && t.seenHealthy && t.fails + 1 >= WD_THRESHOLD && CooledDown(t.lastRestart, o.checked)
  }

  function Observe(t: Tunnel, o: Look): Tunnel {
    match o
    case Inactive => t.(fails := 0)
    case Healthy => t.(fails := 0, seenHealthy := true)
    case Unhealthy(_, stamped) =>
      if Triggers(t, o) then Restarted(t, stamped)
      else if t.seenHealthy then t.(fails := t.fails + 1)
      else t
  }

  function ObserveAll(t: Tunnel, looks: seq<Look>): Tunnel {
    if looks == [] then t else Observe(ObserveAll(t, looks[..|looks| - 1]), looks[|looks| - 1])
  }

  datatype Sighting = Sighting(name: string, look: Look)

  /** The looks at one tunnel among everything seen in a round. */
  function LooksAt(name: string, round: seq<Sighting>): seq<Look> {
    if round == [] then []
    else
      var last := round[|round| - 1];
      LooksAt(name, round[..|round| - 1]) + if last.name == name then [last.look] else []
  }

  function Get<V>(m: map<string, V>, name: string, zero: V): V {
    if name in m then m[name] else zero
  }

  class Watch {
    var fails: map<string, nat>
    var lastRestart: map<string, int>
    var restarts: map<string, seq<int>>
    var lastFlapReport: map<string, int>
    var seenHealthy: map<string, bool>

    function Lookup(m: map<string, int>, name: string): Option<int> {
      if name in m then Some(m[name]) else None
    }

    function Of(name: string): Tunnel
      reads this
    {
      Tunnel(Get(fails, name, 0), Lookup(lastRestart, name), Get(restarts, name, []), Lookup(lastFlapReport, name),
             Get(seenHealthy, name, false))
    }

    constructor ()
      ensures forall name :: Of(name) == NEW_TUNNEL
    {
      fails, lastRestart, restarts, lastFlapReport, seenHealthy := map[], map[], map[], map[], map[];
    }

    method RecentRestarts(prev: seq<int>, now: int) returns (out: seq<int>)
      ensures out == Recent(prev, now) + [now]
    {
      out := [];
      for i := 0 to |prev|
        invariant out + Recent(prev[i..], now) == Recent(prev, now)
      {
        assert prev[i..][1..] == prev[i + 1..];
        if now - prev[i] < FLAP_WINDOW {
          out := out + [prev[i]];
        }
      }
      out := out + [now];
    }

    method ReportRestart(name: string, count: nat, now: int) returns (alert: Alert)
      modifies `lastFlapReport
      ensures alert == AlertFor(count, old(Lookup(lastFlapReport, name)), now)
      ensures lastFlapReport == if alert == Flapping then old(lastFlapReport)[name := now] else old(lastFlapReport)
    {
      if count < FLAP_THRESHOLD {
        return Individual;
      }
      if name in lastFlapReport && now - lastFlapReport[name] < FLAP_WINDOW {
        return Silent;
      }
      lastFlapReport := lastFlapReport[name := now];
      return Flapping;
    }

    /** A service found running but not connected: counted, and restarted once it has been so often enough. */
    method CountUnhealthy(name: string, checked: int, stamped: int) returns (alert: Option<Alert>)
      modifies this
      ensures Of(name) == Observe(old(Of(name)), Unhealthy(checked, stamped))
      ensures forall other | other != name :: Of(other) == old(Of(other))
      ensures alert == if Triggers(old(Of(name)), Unhealthy(checked, stamped)) then Some(AlertAt(old(Of(name)), stamped))
                       else None
    {
      hide Recent, ObserveAll, AlertFor;
      alert := None;
      if Get(seenHealthy, name, false) {
        fails := fails[name := Get(fails, name, 0) + 1];
        if fails[name] >= WD_THRESHOLD && (name !in lastRestart || checked - lastRestart[name] > WD_COOLDOWN) {
          lastRestart := lastRestart[name := stamped];
          var recent := RecentRestarts(Get(restarts, name, []), stamped);
          restarts := restarts[name := recent];
          var said := ReportRestart(name, |recent|, stamped);
          alert := Some(said);
          fails := fails[name := 0];
        }
      }
    }

    method LookAt(name: string, look: Look) returns (alert: Option<Alert>)
      modifies this
      ensures Of(name) == Observe(old(Of(name)), look)
      ensures forall other | other != name :: Of(other) == old(Of(other))
      ensures alert == if Triggers(old(Of(name)), look) then Some(AlertAt(old(Of(name)), look.stamped)) else None
    {
      hide Recent, ObserveAll, Restarted, AlertAt;
      alert := None;
      match look {
        case Inactive =>
          fails := fails[name := 0];
        case Healthy =>
          fails := fails[name := 0];
          seenHealthy := seenHealthy[name := true];
        case Unhealthy(checked, stamped) =>
          alert := CountUnhealthy(name, checked, stamped);
      }
    }

    /** One tick: every listed tunnel is looked at in turn. */
    method Tick(round: seq<Sighting>)
      modifies this
      ensures forall name :: Of(name) == ObserveAll(old(Of(name)), LooksAt(name, round))
    {
      for i := 0 to |round|
        invariant forall name :: Of(name) == ObserveAll(old(Of(name)), LooksAt(name, round[..i]))
      {
        var _ := LookAt(round[i].name, round[i].look);
        LooksAtStep(round, i);
        assert forall name | name != round[i].name :: LooksAt(name, round[..i + 1]) == LooksAt(name, round[..i]);
        assert ObserveAll(old(Of(round[i].name)), LooksAt(round[i].name, round[..i + 1]))
            == Observe(ObserveAll(old(Of(round[i].name)), LooksAt(round[i].name, round[..i])), round[i].look);
      }
      assert round[..|round|] == round;
    }
  }

  lemma LooksAtStep(round: seq<Sighting>, i: nat)
    requires i < |round|
    ensures forall name :: LooksAt(name, round[..i + 1]) ==
                           LooksAt(name, round[..i]) + if round[i].name == name then [round[i].look] else []
  {
    assert round[..i + 1][..i] == round[..i];
  }

  // ---- What a run of looks at one tunnel does ----

  /** The clock never runs backwards between two readings. */
  predicate Monotone(looks: seq<Look>) {
    && (forall i | 0 <= i < |looks| && looks[i].Unhealthy? :: looks[i].checked <= looks[i].stamped)
    && (forall i, j | 0 <= i < j < |looks| && looks[i].Unhealthy? && looks[j].Unhealthy? ::
          looks[i].stamped <= looks[j].checked)
  }

  function After(looks: seq<Look>): Tunnel {
    ObserveAll(NEW_TUNNEL, looks)
  }

  /** Every restart of the run, with what was reported. */
  function Log(looks: seq<Look>): seq<Restart> {
    if looks == [] then []
    else
      var n := |looks| - 1;
      var before, o := After(looks[..n]), looks[n];
      Log(looks[..n]) + if Triggers(before, o) then [Restart(o.stamped, n, AlertAt(before, o.stamped))] else []
  }

  function Ats(log: seq<Restart>): (ats: seq<int>)
    ensures |ats| == |log| && forall i | 0 <= i < |ats| :: ats[i] == log[i].at
  {
    if log == [] then [] else Ats(log[..|log| - 1]) + [log[|log| - 1].at]
  }

  predicate Ascending(ats: seq<int>) {
    forall i, j | 0 <= i < j < |ats| :: ats[i] <= ats[j]
  }

  lemma {:induction false} RecentSnoc(s: seq<int>, x: int, now: int)
    ensures Recent(s + [x], now) == Recent(s, now) + if now - x < FLAP_WINDOW then [x] else []
  {
    if s == [] {
      assert s + [x] == [x];
      assert Recent([x], now) == if now - x < FLAP_WINDOW then [x] else [];
    } else {
      assert (s + [x])[1..] == s[1..] + [x];
      RecentSnoc(s[1..], x, now);
    }
  }

  /** Forgetting twice is forgetting once, as time moves on. */
  lemma {:induction false} RecentTwice(s: seq<int>, then_: int, now: int)
    requires then_ <= now
    ensures Recent(Recent(s, then_), now) == Recent(s, now)
  {
    if s != [] {
      RecentTwice(s[1..], then_, now);
      if then_ - s[0] < FLAP_WINDOW {
        assert ([s[0]] + Recent(s[1..], then_))[1..] == Recent(s[1..], then_);
      }
    }
  }

  /** The remembered window is a suffix: everything before it is at least an hour old. */
  lemma {:induction false} RecentIsSuffix(s: seq<int>, now: int) returns (k: nat)
    requires Ascending(s)
    ensures k <= |s| && Recent(s, now) == s[k..]
    ensures forall i | 0 <= i < |s| :: now - s[i] < FLAP_WINDOW <==> k <= i
  {
    if s == [] {
      k := 0;
    } else {
      var rest := RecentIsSuffix(s[1..], now);
      assert forall i | 1 <= i < |s| :: s[i] == s[1..][i - 1];
      if now - s[0] < FLAP_WINDOW {
        k := 0;
        assert rest == 0 by { if |s| > 1 { assert s[1] == s[1..][0]; } }
        assert s == [s[0]] + s[1..];
      } else {
        k := rest + 1;
        assert s[1..][rest..] == s[k..];
      }
    }
  }

  lemma ObserveAllSnoc(looks: seq<Look>, o: Look)
    ensures After(looks + [o]) == Observe(After(looks), o)
  {
    hide Recent, Observe;
    assert (looks + [o])[..|looks|] == looks;
  }

  /** How the log and the remembered state grow with one more look. */
  lemma LogGrows(looks: seq<Look>, o: Look)
    ensures After(looks + [o]) == Observe(After(looks), o)
    ensures o.Unhealthy? || !Triggers(After(looks), o)
    ensures Log(looks + [o]) == if Triggers(After(looks), o) then Log(looks) + [Caused(looks, o)] else Log(looks)
  {
    hide Recent, Observe, ObserveAll;
    assert (looks + [o])[..|looks|] == looks;
    ObserveAllSnoc(looks, o);
  }

  function Caused(looks: seq<Look>, o: Look): Restart
    requires o.Unhealthy?
  {
    Restart(o.stamped, |looks|, AlertAt(After(looks), o.stamped))
  }

  lemma MonotonePrefix(looks: seq<Look>, n: nat)
    requires n <= |looks| && Monotone(looks)
    ensures Monotone(looks[..n])
  {
  }

  /** What the counters mean in terms of the looks themselves. */
  predicate CountersMean(looks: seq<Look>, t: Tunnel, log: seq<Restart>) {
    && (t.seenHealthy <==> exists h :: 0 <= h < |looks| && looks[h].Healthy?)
    && (t.fails > 0 <==> |looks| > 0 && looks[|looks| - 1].Unhealthy? && t.seenHealthy
                         && (log == [] || log[|log| - 1].look != |looks| - 1))
    && (forall k | 0 <= k < |log| :: log[k].look < |looks|)
    && (t.lastRestart == if log == [] then None else Some(log[|log| - 1].at))
  }

  lemma {:induction false} CountersHold(looks: seq<Look>)
    ensures CountersMean(looks, After(looks), Log(looks))
  {
    if looks != [] {
      var n := |looks| - 1;
      var before, o := looks[..n], looks[n];
      CountersHold(before);
      assert looks == before + [o];
      LogGrows(before, o);
      hide Recent, ObserveAll, After, Log, AlertAt, CountersMean, Observe;
      CountersStep(before, o, After(before), Log(before));
    }
  }

  lemma CountersStep(looks: seq<Look>, o: Look, t: Tunnel, log: seq<Restart>)
    requires CountersMean(looks, t, log)
    ensures CountersMean(looks + [o], Observe(t, o),
              if Triggers(t, o) then log + [Restart(o.stamped, |looks|, AlertAt(t, o.stamped))] else log)
  {
    hide Recent, ObserveAll, AlertAt;
    var next := Observe(t, o);
    var all := looks + [o];
    assert all[|looks|] == o;
    assert next.seenHealthy <==> (t.seenHealthy || o.Healthy?);
    if t.seenHealthy {
      var h :| 0 <= h < |looks| && looks[h].Healthy?;
      assert all[h].Healthy?;
    }
    if h :| 0 <= h < |all| && all[h].Healthy? {
      assert h < |looks| ==> looks[h].Healthy?;
    }
  }

  predicate SeenHealthy(looks: seq<Look>) {
    exists h :: 0 <= h < |looks| && looks[h].Healthy?
  }

  /** The unhealthy looks in a row, since the tunnel was first seen healthy, that a run ends with and that led to no
      restart. */
  function Failing(looks: seq<Look>): nat {
    if looks == [] then 0
    else
      var before, o := looks[..|looks| - 1], looks[|looks| - 1];
      if o.Unhealthy? && SeenHealthy(before) && Log(looks) == Log(before) then Failing(before) + 1 else 0
  }

  lemma {:induction false} FailsAreCounted(looks: seq<Look>)
    ensures After(looks).fails == Failing(looks)
  {
    if looks != [] {
      var before, o := looks[..|looks| - 1], looks[|looks| - 1];
      FailsAreCounted(before);
      assert looks == before + [o];
      LogGrows(before, o);
      CountersHold(before);
      hide Recent, ObserveAll, After, Log, AlertAt;
    }
  }

  /** A look restarts the tunnel exactly when it is the second unhealthy one in a row, of a tunnel
      once seen healthy, with no restart at the look before and none within the cooldown. */
  lemma RestartIff(looks: seq<Look>, o: Look)
    ensures Log(looks + [o]) != Log(looks) <==>
            && o.Unhealthy?
            && |looks| > 0 && looks[|looks| - 1].Unhealthy?
            && (exists h :: 0 <= h < |looks| && looks[h].Healthy?)
            && (Log(looks) != [] ==>
                  var last := Log(looks)[|Log(looks)| - 1];
                  last.look != |looks| - 1 && o.checked - last.at > 180_000_000_000)
  {
    hide ObserveAll, Recent, Log;
    LogGrows(looks, o);
    CountersHold(looks);
  }

  /** Any two restarts are more than the cooldown apart. */
  predicate FarApart(log: seq<Restart>) {
    forall i, j | 0 <= i < j < |log| :: log[j].at - log[i].at > WD_COOLDOWN
  }

  /** Every restart was caused by an unhealthy look, and they are spaced out. */
  predicate Spaced(looks: seq<Look>, log: seq<Restart>) {
    && (forall k | 0 <= k < |log| :: log[k].look < |looks| && looks[log[k].look].Unhealthy?
                                     && log[k].at == looks[log[k].look].stamped)
    && FarApart(log)
  }

  /** Successive restarts of one tunnel are more than the cooldown apart. */
  lemma {:induction false} RestartsKeepCooldown(looks: seq<Look>)
    requires Monotone(looks)
    ensures Spaced(looks, Log(looks))
  {
    if looks != [] {
      var n := |looks| - 1;
      var before, o := looks[..n], looks[n];
      MonotonePrefix(looks, n);
      RestartsKeepCooldown(before);
      assert looks == before + [o];
      LogGrows(before, o);
      CountersHold(before);
      hide Log, After, Recent, AlertAt, Spaced, Observe;
      if Triggers(After(before), o) {
        SpacedStep(before, o, Log(before), AlertAt(After(before), o.stamped));
      } else {
        SpacedStill(before, o, Log(before));
      }
    }
  }

  lemma SpacedStill(looks: seq<Look>, o: Look, log: seq<Restart>)
    requires Spaced(looks, log)
    ensures Spaced(looks + [o], log)
  {
    hide FarApart;
    var all := looks + [o];
    forall k | 0 <= k < |log|
      ensures log[k].look < |all| && all[log[k].look].Unhealthy? && log[k].at == all[log[k].look].stamped
    {
    }
  }

  lemma SpacedStep(looks: seq<Look>, o: Look, log: seq<Restart>, alert: Alert)
    requires o.Unhealthy? && o.checked <= o.stamped
    requires Spaced(looks, log)
    requires log != [] ==> o.checked - log[|log| - 1].at > WD_COOLDOWN
    ensures Spaced(looks + [o], log + [Restart(o.stamped, |looks|, alert)])
  {
    var next := log + [Restart(o.stamped, |looks|, alert)];
    forall i, j | 0 <= i < j < |next|
      ensures next[j].at - next[i].at > WD_COOLDOWN
    {
      if j == |log| && i < |log| - 1 {
        assert log[|log| - 1].at - log[i].at > WD_COOLDOWN;
      }
    }
    var all := looks + [o];
    forall k | 0 <= k < |next|
      ensures next[k].look < |all| && all[next[k].look].Unhealthy? && next[k].at == all[next[k].look].stamped
    {
    }
  }

  lemma RestartIsLater(log: seq<Restart>, r: Restart)
    requires FarApart(log + [r])
    ensures log != [] ==> log[|log| - 1].at <= r.at
  {
    var next := log + [r];
    if log != [] {
      assert next[|log| - 1] == log[|log| - 1] && next[|log|] == r;
    }
  }

  /** So a stretch of restarts takes the cooldown of 180 seconds for every one of them. */
  lemma {:induction false} Apart(log: seq<Restart>, i: nat, j: nat)
    requires FarApart(log) && i < j < |log|
    ensures log[j].at - log[i].at > 180_000_000_000 * (j - i)
    decreases j
  {
    if i < j - 1 {
      Apart(log, i, j - 1);
      assert log[j].at - log[j - 1].at > WD_COOLDOWN;
    }
  }

  lemma SpacedAscends(log: seq<Restart>)
    requires FarApart(log)
    ensures Ascending(Ats(log))
  {
    hide Ats;
    forall i, j | 0 <= i < j < |log|
      ensures Ats(log)[i] <= Ats(log)[j]
    {
      assert log[j].at - log[i].at > WD_COOLDOWN;
    }
  }

  lemma WindowStep(r: seq<int>, ats: seq<int>, stamped: int, now: int)
    requires stamped <= now && Recent(r, now) == Recent(ats, now)
    ensures Recent(Recent(r, stamped) + [stamped], now) == Recent(ats + [stamped], now)
  {
    RecentSnoc(Recent(r, stamped), stamped, now);
    RecentTwice(r, stamped, now);
    RecentSnoc(ats, stamped, now);
  }

  lemma AtsSnoc(log: seq<Restart>, r: Restart)
    ensures Ats(log + [r]) == Ats(log) + [r.at]
  {
    assert (log + [r])[..|log|] == log;
  }

  /** The bounded list refines the full log: looked at from any later time, it shows the same last hour. */
  lemma {:induction false} WindowRefinesLog(looks: seq<Look>, now: int)
    requires Monotone(looks)
    requires Log(looks) != [] ==> Log(looks)[|Log(looks)| - 1].at <= now
    ensures Recent(After(looks).restarts, now) == Recent(Ats(Log(looks)), now)
  {
    if looks != [] {
      var n := |looks| - 1;
      var before, o := looks[..n], looks[n];
      MonotonePrefix(looks, n);
      assert looks == before + [o];
      LogGrows(before, o);
      if Triggers(After(before), o) {
        RestartsKeepCooldown(looks);
        WindowOnRestart(before, o);
        WindowRefinesLog(before, now);
        hide *;
        WindowStep(After(before).restarts, Ats(Log(before)), o.stamped, now);
        AtsSnoc(Log(before), Caused(before, o));
        CausedAt(before, o);
      } else {
        NoRestart(After(before), o);
        WindowRefinesLog(before, now);
      }
    }
  }

  lemma NoRestart(t: Tunnel, o: Look)
    requires !Triggers(t, o)
    ensures Observe(t, o).restarts == t.restarts
  {
  }

  lemma WindowOnRestart(looks: seq<Look>, o: Look)
    requires o.Unhealthy? && Triggers(After(looks), o)
    requires Spaced(looks + [o], Log(looks) + [Caused(looks, o)])
    ensures Log(looks) != [] ==> Log(looks)[|Log(looks)| - 1].at <= o.stamped
    ensures After(looks + [o]).restarts == Recent(After(looks).restarts, o.stamped) + [o.stamped]
  {
    ObserveAllSnoc(looks, o);
    hide Recent, After, Log, AlertAt;
    SpacedIsFar(looks + [o], Log(looks) + [Caused(looks, o)]);
    RestartIsLater(Log(looks), Caused(looks, o));
  }

  lemma SpacedIsFar(looks: seq<Look>, log: seq<Restart>)
    requires Spaced(looks, log)
    ensures FarApart(log)
  {
  }

  /** What the list holds: exactly the restarts of the hour before the latest one. */
  lemma {:induction false} WindowHolds(looks: seq<Look>)
    requires Monotone(looks)
    ensures After(looks).restarts == LastHour(Log(looks))
  {
    if looks != [] {
      var n := |looks| - 1;
      var before, o := looks[..n], looks[n];
      MonotonePrefix(looks, n);
      assert looks == before + [o];
      LogGrows(before, o);
      if Triggers(After(before), o) {
        RestartsKeepCooldown(looks);
        WindowOnRestart(before, o);
        WindowRefinesLog(before, o.stamped);
        hide *;
        LastHourSnoc(Log(before), Caused(before, o));
        CausedAt(before, o);
      } else {
        NoRestart(After(before), o);
        WindowHolds(before);
      }
    }
  }

  lemma CausedAt(looks: seq<Look>, o: Look)
    requires o.Unhealthy?
    ensures Caused(looks, o).at == o.stamped
  {
  }

  function LastHour(log: seq<Restart>): seq<int> {
    if log == [] then [] else Recent(Ats(log), log[|log| - 1].at)
  }

  lemma LastHourSnoc(log: seq<Restart>, r: Restart)
    ensures LastHour(log + [r]) == Recent(Ats(log), r.at) + [r.at]
  {
    AtsSnoc(log, r);
    RecentSnoc(Ats(log), r.at, r.at);
  }

  /** It never holds more than twenty. */
  lemma WindowIsBounded(looks: seq<Look>)
    requires Monotone(looks)
    ensures |After(looks).restarts| <= 20
  {
    WindowHolds(looks);
    RestartsKeepCooldown(looks);
    hide Log, After, Monotone, LastHour;
    LastHourIsBounded(Log(looks));
  }

  lemma LastHourIsBounded(log: seq<Restart>)
    requires FarApart(log)
    ensures |LastHour(log)| <= 20
  {
    if log == [] {
      return;
    }
    SpacedAscends(log);
    var n := |log| - 1;
    var k := RecentIsSuffix(Ats(log), log[n].at);
    hide Recent, Ats;
    if k < n {
      Apart(log, k, n);
      assert log[n].at - Ats(log)[k] < FLAP_WINDOW;
    }
  }

  function LastFlap(log: seq<Restart>): Option<int> {
    if log == [] then None
    else if log[|log| - 1].alert == Flapping then Some(log[|log| - 1].at)
    else LastFlap(log[..|log| - 1])
  }

  lemma {:induction false} LastFlapHolds(looks: seq<Look>)
    ensures After(looks).lastFlap == LastFlap(Log(looks))
  {
    if looks != [] {
      var n := |looks| - 1;
      LastFlapHolds(looks[..n]);
      assert looks == looks[..n] + [looks[n]];
      LogGrows(looks[..n], looks[n]);
      hide Recent, Log, After, AlertAt;
      assert Log(looks) != Log(looks[..n]) ==> Log(looks)[..|Log(looks)| - 1] == Log(looks[..n]);
    }
  }

  predicate FlapWithinHour(log: seq<Restart>, now: int) {
    exists f :: 0 <= f < |log| && log[f].alert == Flapping && now - log[f].at < 3_600_000_000_000
  }

  lemma {:induction false} LastFlapWithinHour(log: seq<Restart>, now: int)
    requires FarApart(log)
    ensures FlapWithinHour(log, now) <==> LastFlap(log).Some? && now - LastFlap(log).value < FLAP_WINDOW
  {
    if log != [] {
      var n := |log| - 1;
      var before := log[..n];
      LastFlapWithinHour(before, now);
      if log[n].alert == Flapping {
        hide FlapWithinHour;
        FlapIsLatest(log, now);
      } else {
        assert FlapWithinHour(log, now) <==> FlapWithinHour(before, now) by {
          hide LastFlap, FarApart;
          if f :| 0 <= f < |log| && log[f].alert == Flapping && now - log[f].at < FLAP_WINDOW {
            assert before[f] == log[f];
          }
          if f :| 0 <= f < |before| && before[f].alert == Flapping && now - before[f].at < FLAP_WINDOW {
            assert log[f] == before[f];
          }
        }
      }
    }
  }

  lemma FlapIsLatest(log: seq<Restart>, now: int)
    requires log != [] && FarApart(log) && log[|log| - 1].alert == Flapping
    ensures FlapWithinHour(log, now) <==> now - log[|log| - 1].at < FLAP_WINDOW
  {
    if f :| 0 <= f < |log| && log[f].alert == Flapping && now - log[f].at < FLAP_WINDOW {
      assert f < |log| - 1 ==> log[|log| - 1].at - log[f].at > WD_COOLDOWN;
    }
  }

  /** What ought to be reported of restart l, from the restarts and reports before it. */
  function DueAlert(log: seq<Restart>, l: nat): Alert
    requires l < |log|
  {
    if l < 3 || log[l].at - log[l - 3].at >= 3_600_000_000_000 then Individual
    else if FlapWithinHour(log[..l], log[l].at) then Silent
    else Flapping
  }

  lemma AlertIsDue(looks: seq<Look>, o: Look)
    requires Monotone(looks) && o.Unhealthy?
    requires Log(looks) != [] ==> Log(looks)[|Log(looks)| - 1].at <= Caused(looks, o).at
    ensures Caused(looks, o).alert == DueAlert(Log(looks) + [Caused(looks, o)], |Log(looks)|)
  {
    var log, now := Log(looks), o.stamped;
    assert (log + [Caused(looks, o)])[..|log|] == log;
    WindowRefinesLog(looks, now);
    RestartsKeepCooldown(looks);
    SpacedIsFar(looks, log);
    SpacedAscends(log);
    LastFlapHolds(looks);
    LastFlapWithinHour(log, now);
    var k := RecentIsSuffix(Ats(log), now);
    hide Recent, Log, After, LastFlap, Monotone, Spaced, FarApart, FlapWithinHour;
    assert |log| >= 3 ==> (now - Ats(log)[|log| - 3] < FLAP_WINDOW <==> k <= |log| - 3);
  }

  /** Every restart is reported by itself unless the third before it was within the hour; then it is
      reported as flapping unless such a report was made within the hour. */
  lemma {:induction false} AlertsAreDue(looks: seq<Look>, l: nat)
    requires Monotone(looks) && l < |Log(looks)|
    ensures Log(looks)[l].alert == DueAlert(Log(looks), l)
  {
    var n := |looks| - 1;
    var before, o := looks[..n], looks[n];
    MonotonePrefix(looks, n);
    assert looks == before + [o];
    LogGrows(before, o);
    hide *;
    if l < |Log(before)| {
      AlertsAreDue(before, l);
      DuePrefix(Log(before), Log(looks), l);
    } else {
      assert Log(looks) == Log(before) + [Caused(before, o)];
      RestartsKeepCooldown(looks);
      SpacedIsFar(looks, Log(looks));
      RestartIsLater(Log(before), Caused(before, o));
      AlertIsDue(before, o);
    }
  }

  lemma DuePrefix(log: seq<Restart>, all: seq<Restart>, l: nat)
    requires log <= all && l < |log|
    ensures DueAlert(log, l) == DueAlert(all, l)
  {
    assert log[..l] == all[..l];
  }

  /** Within any hour a tunnel is reported at most three times by itself... */
  lemma IndividualAlertsAreRare(looks: seq<Look>, i: nat, l: nat)
    requires Monotone(looks)
    requires i + 3 <= l < |Log(looks)| && Log(looks)[l].alert == Individual
    ensures Log(looks)[l].at - Log(looks)[i].at >= FLAP_WINDOW
  {
    hide *;
    AlertsAreDue(looks, l);
    RestartsKeepCooldown(looks);
    SpacedIsFar(looks, Log(looks));
    DueIndividual(Log(looks), i, l);
  }

  lemma DueIndividual(log: seq<Restart>, i: nat, l: nat)
    requires FarApart(log) && i + 3 <= l < |log| && DueAlert(log, l) == Individual
    ensures log[l].at - log[i].at >= FLAP_WINDOW
  {
    assert i < l - 3 ==> log[l - 3].at - log[i].at > WD_COOLDOWN;
  }

  /** ...and once as flapping. */
  lemma FlapAlertsAreRare(looks: seq<Look>, f: nat, g: nat)
    requires Monotone(looks) && f < g < |Log(looks)|
    requires Log(looks)[f].alert == Flapping && Log(looks)[g].alert == Flapping
    ensures Log(looks)[g].at - Log(looks)[f].at >= FLAP_WINDOW
  {
    hide *;
    AlertsAreDue(looks, g);
    DueFlapping(Log(looks), f, g);
  }

  lemma DueFlapping(log: seq<Restart>, f: nat, g: nat)
    requires f < g < |log| && log[f].alert == Flapping && DueAlert(log, g) == Flapping
    ensures log[g].at - log[f].at >= FLAP_WINDOW
  {
    assert log[..g][f] == log[f];
  }
}
