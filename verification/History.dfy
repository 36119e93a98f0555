/**
 The month-long record of every tunnel: five-minute samples for a day and hourly buckets for thirty days,
 both of them bounded views of everything ever recorded.
 */
module History {
  const KEEP_RECENT := 288
  const KEEP_HOURLY := 720
  const HOUR := 3600

  /** One reading; `at` is in Unix seconds. */
  datatype Sample = Sample(at: int, bytesIn: nat, bytesOut: nat, up: bool)

  datatype Bucket = Bucket(start: int, bytesIn: nat, bytesOut: nat, upN: nat, n: nat)

  /** What the store keeps for one tunnel. */
  datatype Kept = Kept(recent: seq<Sample>, hourly: seq<Bucket>)

  function HourOf(at: int): int {
    at - at % HOUR
  }

  function Last<T>(n: nat, s: seq<T>): (r: seq<T>) {
    if |s| > n then s[|s| - n..] else s
  }

  /** The readings cut wherever the hour changes. */
  function Groups(log: seq<Sample>): (g: seq<seq<Sample>>)
    ensures forall i | 0 <= i < |g| :: g[i] != []
  {
    if log == [] then []
    else
      var before, s := Groups(log[..|log| - 1]), log[|log| - 1];
      if before != [] && HourOf(before[|before| - 1][0].at) == HourOf(s.at) then
        before[|before| - 1 := before[|before| - 1] + [s]]
      else before + [[s]]
  }

  function CountUp(group: seq<Sample>): (n: nat)
    ensures n <= |group|
  {
    if group == [] then 0 else CountUp(group[..|group| - 1]) + if group[|group| - 1].up then 1 else 0
  }

  /** What an hour of readings comes to. The byte counts are cumulative, so the last ones stand for the hour. */
  function Summary(group: seq<Sample>): Bucket
    requires group != []
  {
    var last := group[|group| - 1];
    Bucket(HourOf(group[0].at), last.bytesIn, last.bytesOut, CountUp(group), |group|)
  }

  function Summaries(groups: seq<seq<Sample>>): (b: seq<Bucket>)
    requires forall i | 0 <= i < |groups| :: groups[i] != []
    ensures |b| == |groups| && forall i | 0 <= i < |b| :: b[i] == Summary(groups[i])
  {
    if groups == [] then [] else Summaries(groups[..|groups| - 1]) + [Summary(groups[|groups| - 1])]
  }

  /** Every reading ever made, by the hour. */
  function Hours(log: seq<Sample>): seq<Bucket> {
    Summaries(Groups(log))
  }

  function View(log: seq<Sample>): Kept {
    Kept(Last(KEEP_RECENT, log), Last(KEEP_HOURLY, Hours(log)))
  }

  function Flatten(groups: seq<seq<Sample>>): seq<Sample> {
    if groups == [] then [] else Flatten(groups[..|groups| - 1]) + groups[|groups| - 1]
  }

  predicate OneHour(group: seq<Sample>, hour: int) {
    group != [] && forall k | 0 <= k < |group| :: HourOf(group[k].at) == hour
  }

  function HourOfGroup(group: seq<Sample>): int
    requires group != []
  {
    HourOf(group[0].at)
  }

  /** Each group within one hour, and the hour changing from each to the next. */
  predicate ByTheHour(g: seq<seq<Sample>>) {
    && (forall i | 0 <= i < |g| :: g[i] != [] && OneHour(g[i], HourOfGroup(g[i])))
    && (forall i | 0 < i < |g| :: HourChanges(g, i))
  }

  predicate HourChanges(g: seq<seq<Sample>>, i: nat)
    requires 0 < i < |g|
  {
    g[i - 1] != [] && g[i] != [] && HourOfGroup(g[i - 1]) != HourOfGroup(g[i])
  }

  lemma JoinLast(g: seq<seq<Sample>>, s: Sample)
    requires g != [] && ByTheHour(g) && HourOfGroup(g[|g| - 1]) == HourOf(s.at)
    ensures var next := g[|g| - 1 := g[|g| - 1] + [s]]; ByTheHour(next) && Flatten(next) == Flatten(g) + [s]
  {
    hide HourOf;
    var m := |g| - 1;
    var next := g[m := g[m] + [s]];
    assert OneHour(next[m], HourOfGroup(next[m])) by {
      assert OneHour(g[m], HourOfGroup(g[m]));
      assert next[m][0] == g[m][0];
    }
    assert next[..m] == g[..m];
    assert Flatten(g[..m]) + (g[m] + [s]) == Flatten(g[..m]) + g[m] + [s];
    forall i | 0 < i < |next|
      ensures HourChanges(next, i)
    {
      assert HourChanges(g, i);
    }
  }

  lemma FlattenSnoc(g: seq<seq<Sample>>, last: seq<Sample>)
    ensures Flatten(g + [last]) == Flatten(g) + last
  {
    assert (g + [last])[..|g|] == g;
  }

  /** A group of its own, of another hour than the last one. */
  lemma AddGroup(g: seq<seq<Sample>>, last: seq<Sample>)
    requires ByTheHour(g) && last != [] && OneHour(last, HourOfGroup(last))
    requires g != [] ==> HourOfGroup(g[|g| - 1]) != HourOfGroup(last)
    ensures ByTheHour(g + [last])
  {
    hide HourOfGroup, OneHour;
    var next := g + [last];
    forall i | 0 < i < |next|
      ensures HourChanges(next, i)
    {
      assert next[i - 1] == g[i - 1];
      if i < |g| {
        assert HourChanges(g, i);
      }
    }
  }

  lemma StartNew(g: seq<seq<Sample>>, s: Sample)
    requires ByTheHour(g) && (g != [] ==> HourOfGroup(g[|g| - 1]) != HourOf(s.at))
    ensures ByTheHour(g + [[s]]) && Flatten(g + [[s]]) == Flatten(g) + [s]
  {
    assert OneHour([s], HourOfGroup([s])) && HourOfGroup([s]) == HourOf(s.at);
    hide *;
    FlattenSnoc(g, [s]);
    AddGroup(g, [s]);
  }

  /** The groups are the readings in order, cut exactly where the hour changes. */
  lemma {:induction false} GroupsPartition(log: seq<Sample>)
    ensures ByTheHour(Groups(log)) && Flatten(Groups(log)) == log
  {
    if log != [] {
      var n := |log| - 1;
      var before, s := Groups(log[..n]), log[n];
      GroupsPartition(log[..n]);
      hide ByTheHour, HourOf, Flatten;
      assert log == log[..n] + [s];
      if before != [] && HourOfGroup(before[|before| - 1]) == HourOf(s.at) {
        JoinLast(before, s);
      } else {
        StartNew(before, s);
      }
    }
  }

  /** With a clock that does not run backwards no hour is there twice. */
  lemma {:induction false} HoursAscend(log: seq<Sample>, i: nat, j: nat)
    requires forall a, b | 0 <= a < b < |log| :: log[a].at <= log[b].at
    requires i < j < |Hours(log)|
    ensures Hours(log)[i].start < Hours(log)[j].start
  {
    var n := |log| - 1;
    var before, s, g := Groups(log[..n]), log[n], Groups(log);
    GroupsPartition(log[..n]);
    hide ByTheHour, Flatten, HourOf;
    if j < |before| {
      HoursAscend(log[..n], i, j);
    } else {
      LastHourIsLatest(log[..n], s);
      if i < |before| - 1 {
        HoursAscend(log[..n], i, |before| - 1);
      }
    }
  }

  lemma LastHourIsLatest(log: seq<Sample>, s: Sample)
    requires forall a | 0 <= a < |log| :: log[a].at <= s.at
    ensures Groups(log) != [] ==> HourOf(Groups(log)[|Groups(log)| - 1][0].at) <= HourOf(s.at)
  {
    GroupsPartition(log);
    var g := Groups(log);
    if g != [] {
      var last := g[|g| - 1];
      assert log[|log| - |last|..] == last;
      assert last[0] == log[|log| - |last|];
    }
  }

  function Total(buckets: seq<Bucket>): (int, int) {
    if buckets == [] then (0, 0)
    else
      var (ups, all) := Total(buckets[..|buckets| - 1]);
      (ups + buckets[|buckets| - 1].upN, all + buckets[|buckets| - 1].n)
  }

  lemma {:induction false} CountUpPlus(a: seq<Sample>, b: seq<Sample>)
    ensures CountUp(a + b) == CountUp(a) + CountUp(b)
  {
    if b == [] {
      assert a + b == a;
    } else {
      assert (a + b)[..|a + b| - 1] == a + b[..|b| - 1];
      CountUpPlus(a, b[..|b| - 1]);
    }
  }

  lemma TotalSnoc(buckets: seq<Bucket>, b: Bucket)
    ensures Total(buckets + [b]) == (Total(buckets).0 + b.upN, Total(buckets).1 + b.n)
  {
    assert (buckets + [b])[..|buckets|] == buckets;
  }

  lemma {:induction false} TotalOfGroups(groups: seq<seq<Sample>>)
    requires forall i | 0 <= i < |groups| :: groups[i] != []
    ensures Total(Summaries(groups)) == (CountUp(Flatten(groups)), |Flatten(groups)|)
  {
    if groups != [] {
      var n := |groups| - 1;
      assert Summaries(groups) == Summaries(groups[..n]) + [Summary(groups[n])];
      assert Flatten(groups) == Flatten(groups[..n]) + groups[n];
      assert Summary(groups[n]).upN == CountUp(groups[n]) && Summary(groups[n]).n == |groups[n]|;
      hide *;
      TotalOfGroups(groups[..n]);
      CountUpPlus(Flatten(groups[..n]), groups[n]);
      TotalSnoc(Summaries(groups[..n]), Summary(groups[n]));
    }
  }

  /** The buckets account for every reading once: their checks add up to the readings, and their up-checks
      to the readings that saw the tunnel up; no bucket claims more ups than checks. */
  lemma {:induction false} HoursAccountForAll(log: seq<Sample>)
    ensures Total(Hours(log)) == (CountUp(log), |log|)
    ensures forall i | 0 <= i < |Hours(log)| :: Hours(log)[i].upN <= Hours(log)[i].n && Hours(log)[i].n > 0
  {
    GroupsPartition(log);
    TotalOfGroups(Groups(log));
  }

  // ---- The bounded views ----

  lemma LastSnoc<T>(n: nat, s: seq<T>, x: T)
    requires n > 0
    ensures Last(n, s + [x]) == Last(n, Last(n, s) + [x])
  {
  }

  lemma LastUpdate<T>(n: nat, s: seq<T>, x: T)
    requires n > 0 && s != []
    ensures Last(n, s) != []
    ensures Last(n, s[|s| - 1 := x]) == Last(n, s)[|Last(n, s)| - 1 := x]
  {
  }

  /** A list of hours with one more reading: the last bucket brought up to it, or a new one. */
  function Grown(hours: seq<Bucket>, s: Sample): seq<Bucket> {
    var n := |hours|;
    if n > 0 && hours[n - 1].start == HourOf(s.at) then
      var b := hours[n - 1];
      hours[n - 1 := Bucket(b.start, s.bytesIn, s.bytesOut, b.upN + (if s.up then 1 else 0), b.n + 1)]
    else hours + [Bucket(HourOf(s.at), s.bytesIn, s.bytesOut, if s.up then 1 else 0, 1)]
  }

  lemma HoursGrow(log: seq<Sample>, s: Sample)
    ensures Hours(log + [s]) == Grown(Hours(log), s)
  {
    assert (log + [s])[..|log|] == log;
    var before, g := Groups(log), Groups(log + [s]);
    SummaryOne(s);
    if before != [] {
      SummarySnoc(before[|before| - 1], s);
    }
    hide HourOf, Groups, Summary, Summaries, CountUp;
  }

  lemma SummaryOne(s: Sample)
    ensures Summary([s]) == Bucket(HourOf(s.at), s.bytesIn, s.bytesOut, if s.up then 1 else 0, 1)
  {
    assert CountUp([]) == 0;
  }

  lemma SummarySnoc(group: seq<Sample>, s: Sample)
    requires group != []
    ensures Summary(group).start == HourOf(group[0].at)
    ensures var b := Summary(group);
            Summary(group + [s]) == Bucket(b.start, s.bytesIn, s.bytesOut, b.upN + (if s.up then 1 else 0), b.n + 1)
  {
    hide HourOf;
    CountUpPlus(group, [s]);
    assert CountUp([s]) == if s.up then 1 else 0;
  }

  lemma LastGrown(hours: seq<Bucket>, s: Sample)
    ensures Last(KEEP_HOURLY, Grown(hours, s)) == Last(KEEP_HOURLY, Grown(Last(KEEP_HOURLY, hours), s))
  {
    hide HourOf;
    var kept := Last(KEEP_HOURLY, hours);
    if hours != [] && hours[|hours| - 1].start == HourOf(s.at) {
      LastUpdate(KEEP_HOURLY, hours, Grown(hours, s)[|hours| - 1]);
    } else {
      LastSnoc(KEEP_HOURLY, hours, Grown(hours, s)[|hours|]);
    }
  }

  /** What the store keeps is the end of the record, element by element: the last 288 readings and the last
      720 hours. */
  lemma ViewIsTheEnd(log: seq<Sample>)
    ensures var kept, hours := View(log), Hours(log);
            && |kept.recent| == (if |log| < 288 then |log| else 288)
            && |kept.hourly| == (if |hours| < 720 then |hours| else 720)
            && (forall i | 0 <= i < |kept.recent| :: kept.recent[i] == log[|log| - |kept.recent| + i])
            && (forall i | 0 <= i < |kept.hourly| :: kept.hourly[i] == hours[|hours| - |kept.hourly| + i])
  {
    hide Hours;
  }

  /** Each hour begins on the hour and covers its readings, with the byte counts of the last of them. */
  lemma HourCoversItsReadings(log: seq<Sample>, i: nat, k: nat)
    requires i < |Groups(log)| && k < |Groups(log)[i]|
    ensures |Hours(log)| == |Groups(log)|
    ensures var b, group := Hours(log)[i], Groups(log)[i];
            && b.start % 3600 == 0 && b.start <= group[k].at < b.start + 3600
            && b.n == |group| && b.bytesIn == group[|group| - 1].bytesIn && b.bytesOut == group[|group| - 1].bytesOut
  {
    GroupsPartition(log);
    assert OneHour(Groups(log)[i], HourOfGroup(Groups(log)[i]));
    assert HourOf(Groups(log)[i][0].at) == HourOf(Groups(log)[i][k].at);
    OnTheHour(Groups(log)[i][k].at);
    hide Groups, HourOf, ByTheHour, Flatten;
  }

  lemma OnTheHour(at: int)
    ensures HourOf(at) % 3600 == 0 && HourOf(at) <= at < HourOf(at) + 3600
  {
    var q := at / HOUR;
    assert HourOf(at) == HOUR * q;
  }

  class Store {
    var tunnels: map<string, Kept>
    // History: every reading of every tunnel since it was last pruned.
    ghost var log: map<string, seq<Sample>>

    ghost predicate Valid()
      reads this
    {
      tunnels.Keys == log.Keys && forall name | name in tunnels :: tunnels[name] == View(log[name])
    }

    constructor ()
      ensures Valid() && log == map[]
    {
      tunnels, log := map[], map[];
    }

    /** Adds one reading: afterwards the store holds the last day and the last thirty days of the full log. */
    method Record(name: string, bytesIn: nat, bytesOut: nat, up: bool, now: int)
      requires Valid()
      modifies this
      ensures Valid()
      ensures log == old(log)[name := (if name in old(log) then old(log)[name] else []) + [Sample(now, bytesIn, bytesOut, up)]]
    {
      hide HourOf, View;
      var h := if name in tunnels then tunnels[name] else Kept([], []);
      ghost var before := if name in log then log[name] else [];
      var recent := h.recent + [Sample(now, bytesIn, bytesOut, up)];
      if |recent| > KEEP_RECENT {
        recent := recent[|recent| - KEEP_RECENT..];
      }
      var hourStart := HourOf(now);
      var hourly := h.hourly;
      var n := |hourly|;
      if n > 0 && hourly[n - 1].start == hourStart {
        var b := hourly[n - 1];
        hourly := hourly[n - 1 := Bucket(b.start, bytesIn, bytesOut, b.upN + (if up then 1 else 0), b.n + 1)];
      } else {
        hourly := hourly + [Bucket(hourStart, bytesIn, bytesOut, if up then 1 else 0, 1)];
        if |hourly| > KEEP_HOURLY {
          hourly := hourly[|hourly| - KEEP_HOURLY..];
        }
      }
      ViewGrows(before, Sample(now, bytesIn, bytesOut, up));
      assert Kept(recent, hourly) == Extended(h, Sample(now, bytesIn, bytesOut, up));
      tunnels := tunnels[name := Kept(recent, hourly)];
      log := log[name := before + [Sample(now, bytesIn, bytesOut, up)]];
    }

    /** Drops the tunnels that no longer exist, and nothing of the others. */
    method Prune(current: set<string>)
      requires Valid()
      modifies this
      ensures Valid()
      ensures log == map name | name in old(log) && name in current :: old(log)[name]
    {
      tunnels := map name | name in tunnels && name in current :: tunnels[name];
      log := map name | name in log && name in current :: log[name];
    }
  }

  /** The view of one more reading, computed from the view alone. */
  function Extended(k: Kept, s: Sample): Kept {
    Kept(Last(KEEP_RECENT, k.recent + [s]), Last(KEEP_HOURLY, Grown(k.hourly, s)))
  }

  /** The bounded record is enough to carry itself on: what fell out of it is never needed again. */
  lemma {:induction false} ViewGrows(log: seq<Sample>, s: Sample)
    ensures View(log + [s]) == Extended(View(log), s)
    ensures View([]) == Kept([], [])
    ensures |View(log).hourly| <= KEEP_HOURLY
  {
    HoursGrow(log, s);
    LastSnoc(KEEP_RECENT, log, s);
    LastGrown(Hours(log), s);
    assert Hours([]) == [];
    hide Hours, HourOf, Grown;
  }
}
