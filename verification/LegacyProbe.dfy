/**
 The client's guess about the server's age: which handshake to open the next control channel with.
 */
module LegacyProbes {
  import opened Bytes
  import opened Handshake

  const LEGACY_MISS_THRESHOLD := 2

  /** What happened to the probe: an answer with its signal, a handshake that got no answer with
      the signal it sent, or a restart of the client. */
  datatype Event = Ack(signal: Byte) | Miss(sent: Byte) | Reset

  datatype Probe = Probe(legacy: bool, answered: bool, misses: nat, warned: bool, warnings: nat)

  const NEW_PROBE := Probe(false, false, 0, false, 0)

  function AfterAck(p: Probe, signal: Byte): Probe {
    if signal == SG_CHAN_V2 then p.(misses := 0, answered := true, legacy := false) else p.(misses := 0)
  }

  function AfterMiss(p: Probe, sent: Byte): Probe {
    if sent != SG_CHAN_V2 || p.answered then p
    else if p.misses + 1 < LEGACY_MISS_THRESHOLD then p.(misses := p.misses + 1)
    else if p.legacy then p.(misses := p.misses + 1)
    else if p.warned then p.(misses := p.misses + 1, legacy := true)
    else p.(misses := p.misses + 1, legacy := true, warned := true, warnings := p.warnings + 1)
  }

  function AfterReset(p: Probe): Probe {
    p.(legacy := false, misses := 0)
  }

  function After(history: seq<Event>): Probe {
    if history == [] then NEW_PROBE
    else
      var p := After(history[..|history| - 1]);
      match history[|history| - 1]
      case Ack(signal) => AfterAck(p, signal)
      case Miss(sent) => AfterMiss(p, sent)
      case Reset => AfterReset(p)
  }

  predicate NoneAnswered(h: seq<Event>, from: nat, to: nat)
    requires to <= |h|
  {
    forall k | from <= k < to :: !h[k].Ack?
  }

  predicate NoneReset(h: seq<Event>, from: nat)
  {
    forall k | from <= k < |h| :: h[k] != Reset
  }

  predicate MissPair(h: seq<Event>, i: nat, j: nat) {
    && i < j < |h| && h[i] == h[j] == Miss(SG_CHAN_V2)
    && NoneAnswered(h, i + 1, j) && NoneReset(h, i + 1)
  }

  predicate OpenMiss(h: seq<Event>, i: nat) {
    i < |h| && h[i] == Miss(SG_CHAN_V2) && NoneAnswered(h, i + 1, |h|) && NoneReset(h, i + 1)
  }

  /** Since the last restart, two current-handshake attempts missed with no answer of any kind between. */
  ghost predicate MissedTwice(history: seq<Event>) {
    exists i, j :: MissPair(history, i, j)
  }

  /** Since the last restart a current attempt missed, and nothing was answered after it. */
  ghost predicate JustMissed(history: seq<Event>) {
    exists i :: OpenMiss(history, i)
  }

  lemma NoneStep(h: seq<Event>, e: Event, from: nat, to: nat)
    requires from <= |h| && to <= |h|
    ensures NoneAnswered(h + [e], from, to) <==> NoneAnswered(h, from, to)
    ensures NoneAnswered(h + [e], from, |h| + 1) <==> NoneAnswered(h, from, |h|) && !e.Ack?
    ensures NoneReset(h + [e], from) <==> NoneReset(h, from) && e != Reset
  {
    var g := h + [e];
    assert g[|h|] == e && forall k | 0 <= k < |h| :: h[k] == g[k];
  }

  lemma MissPairStep(h: seq<Event>, e: Event, i: nat, j: nat)
    ensures MissPair(h + [e], i, j) <==>
            e != Reset && (MissPair(h, i, j) || (j == |h| && e == Miss(SG_CHAN_V2) && OpenMiss(h, i)))
  {
    if i < j <= |h| {
      NoneStep(h, e, i + 1, j);
    }
  }

  lemma OpenMissStep(h: seq<Event>, e: Event, i: nat)
    ensures OpenMiss(h + [e], i) <==>
            (i == |h| && e == Miss(SG_CHAN_V2)) || (OpenMiss(h, i) && !e.Ack? && e != Reset)
  {
    if i < |h| {
      NoneStep(h, e, i + 1, |h|);
    }
  }

  lemma MissedTwiceStep(h: seq<Event>, e: Event)
    ensures MissedTwice(h + [e]) <==>
            e != Reset && (MissedTwice(h) || (e == Miss(SG_CHAN_V2) && JustMissed(h)))
  {
    forall i: nat, j: nat
      ensures MissPair(h + [e], i, j) <==>
              e != Reset && (MissPair(h, i, j) || (j == |h| && e == Miss(SG_CHAN_V2) && OpenMiss(h, i)))
    {
      MissPairStep(h, e, i, j);
    }
    if e == Miss(SG_CHAN_V2) && JustMissed(h) {
      var i :| OpenMiss(h, i);
      assert MissPair(h + [e], i, |h|);
    }
  }

  lemma JustMissedStep(h: seq<Event>, e: Event)
    ensures JustMissed(h + [e]) <==> e == Miss(SG_CHAN_V2) || (JustMissed(h) && !e.Ack? && e != Reset)
  {
    forall i: nat
      ensures OpenMiss(h + [e], i) <==>
              (i == |h| && e == Miss(SG_CHAN_V2)) || (OpenMiss(h, i) && !e.Ack? && e != Reset)
    {
      OpenMissStep(h, e, i);
    }
    if e == Miss(SG_CHAN_V2) {
      assert OpenMiss(h + [e], |h|);
    }
  }

  /** The probe's whole state, read off the history. */
  lemma {:induction false} StateOfHistory(history: seq<Event>)
    ensures var p := After(history);
            && (p.answered <==> Ack(SG_CHAN_V2) in history)
            && (p.legacy <==> Ack(SG_CHAN_V2) !in history && MissedTwice(history))
            && (!p.answered ==> (p.misses > 0 <==> JustMissed(history)))
            && p.warnings == (if p.warned then 1 else 0)
  {
    if history != [] {
      var h, e := history[..|history| - 1], history[|history| - 1];
      assert history == h + [e];
      StateOfHistory(h);
      MissedTwiceStep(h, e);
      JustMissedStep(h, e);
    }
  }

  /** The client opens with the legacy handshake exactly when no server ever answered the current
      one and, since its last restart, two current attempts missed with no answer between them. */
  lemma FallsBackIff(history: seq<Event>)
    ensures After(history).legacy <==> Ack(SG_CHAN_V2) !in history && MissedTwice(history)
  {
    StateOfHistory(history);
  }

  /** Once the current handshake has been answered, nothing that happens later falls back. */
  lemma AnsweredNeverFallsBack(before: seq<Event>, after: seq<Event>)
    requires Ack(SG_CHAN_V2) in before
    ensures !After(before + after).legacy
  {
    StateOfHistory(before + after);
  }

  lemma WarnsAtMostOnce(history: seq<Event>)
    ensures After(history).warnings <= 1
  {
    StateOfHistory(history);
  }

  /** The history ever made the client fall back. */
  predicate EverFellBack(history: seq<Event>) {
    exists k | 0 <= k <= |history| :: After(history[..k]).legacy
  }

  lemma EverFellBackStep(h: seq<Event>, e: Event)
    ensures EverFellBack(h + [e]) <==> EverFellBack(h) || After(h + [e]).legacy
  {
    hide After;
    var g := h + [e];
    assert g[..|g|] == g;
    forall k | 0 <= k <= |h|
      ensures g[..k] == h[..k]
    {
    }
    if EverFellBack(h) {
      var k :| 0 <= k <= |h| && After(h[..k]).legacy;
      assert After(g[..k]).legacy;
    }
  }

  /** The warning is logged, and then once, exactly when the client has ever fallen back. */
  lemma {:induction false} WarnedIff(history: seq<Event>)
    ensures After(history).warnings == if EverFellBack(history) then 1 else 0
    ensures After(history).warned <==> EverFellBack(history)
  {
    if history == [] {
      assert history[..0] == [];
    } else {
      var h, e := history[..|history| - 1], history[|history| - 1];
      assert history == h + [e];
      WarnedIff(h);
      EverFellBackStep(h, e);
      FellBackNow(h);
      hide EverFellBack;
    }
  }

  lemma FellBackNow(h: seq<Event>)
    ensures After(h).legacy ==> EverFellBack(h)
  {
    hide After;
    assert h[..|h|] == h;
  }

  /** The current attempts that missed since the last answer of any kind or restart, as long as none was answered. */
  function Misses(history: seq<Event>): nat {
    if history == [] then 0
    else
      var h := history[..|history| - 1];
      match history[|history| - 1]
      case Miss(sent) => Misses(h) + if sent == SG_CHAN_V2 && Ack(SG_CHAN_V2) !in h then 1 else 0
      case _ => 0
  }

  lemma {:induction false} MissesAreCounted(history: seq<Event>)
    ensures After(history).misses == Misses(history)
  {
    if history != [] {
      MissesAreCounted(history[..|history| - 1]);
      StateOfHistory(history[..|history| - 1]);
    }
  }

  /** Each miss was of the signal the probe itself chose. */
  predicate DialerDriven(history: seq<Event>) {
    history == [] ||
    (var h := history[..|history| - 1];
     && DialerDriven(h)
     && (history[|history| - 1].Miss? ==>
           history[|history| - 1].sent == if After(h).legacy then SG_CHAN else SG_CHAN_V2))
  }

  /** Driven by the dialer, the miss counter stops at the threshold, so its 32 bits never wrap. */
  lemma {:induction false} MissesStayBounded(history: seq<Event>)
    requires DialerDriven(history)
    ensures var p := After(history); p.misses <= LEGACY_MISS_THRESHOLD && (p.misses == LEGACY_MISS_THRESHOLD ==> p.legacy)
  {
    if history != [] {
      MissesStayBounded(history[..|history| - 1]);
    }
  }

  class LegacyProbe {
    var legacy: bool
    var answered: bool
    var misses: nat
    var warned: bool
    // How often the warning has been logged.
    var warnings: nat
    // Everything that has happened to the probe.
    ghost var history: seq<Event>

    function State(): Probe
      reads this
    {
      Probe(legacy, answered, misses, warned, warnings)
    }

    /** The fields are what the history makes of them. */
    ghost predicate Valid()
      reads this
    {
      State() == After(history)
    }

    constructor ()
      ensures Valid() && history == []
    {
      legacy, answered, misses, warned, warnings := false, false, 0, false, 0;
      history := [];
    }

    /** The handshake to open with: the legacy one exactly when no server ever answered the current one
        and two current attempts missed since the last restart with no answer between them. */
    method Signal() returns (sig: Byte)
      requires Valid()
      ensures sig == SG_CHAN || sig == SG_CHAN_V2
      ensures sig == SG_CHAN <==> Event.Ack(SG_CHAN_V2) !in history && MissedTwice(history)
    {
      FallsBackIff(history);
      return if legacy then SG_CHAN else SG_CHAN_V2;
    }

    method Ack(signal: Byte)
      requires Valid()
      modifies this
      ensures Valid() && history == old(history) + [Event.Ack(signal)]
    {
      misses := 0;
      if signal == SG_CHAN_V2 {
        answered := true;
        legacy := false;
      }
      history := history + [Event.Ack(signal)];
      assert history[..|history| - 1] == old(history);
    }

    method Miss(sent: Byte)
      requires Valid()
      modifies this
      ensures Valid() && history == old(history) + [Event.Miss(sent)]
    {
      CountMiss(sent);
      history := history + [Event.Miss(sent)];
      assert history[..|history| - 1] == old(history);
    }

    method CountMiss(sent: Byte)
      modifies `legacy, `misses, `warned, `warnings
      ensures State() == AfterMiss(old(State()), sent)
    {
      if sent != SG_CHAN_V2 {
        return;
      }
      if answered {
        return;
      }
      misses := misses + 1;
      if misses < LEGACY_MISS_THRESHOLD {
        return;
      }
      var wasLegacy := legacy;
      legacy := true;
      if wasLegacy {
        return;
      }
      var wasWarned := warned;
      warned := true;
      if wasWarned {
        return;
      }
      warnings := warnings + 1;
    }

    method Reset()
      requires Valid()
      modifies this
      ensures Valid() && history == old(history) + [Event.Reset]
    {
      legacy := false;
      misses := 0;
      history := history + [Event.Reset];
      assert history[..|history| - 1] == old(history);
    }
  }
}
