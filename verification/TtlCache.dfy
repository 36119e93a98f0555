/**
 The cache as its lock protects it: entries by key, each either being read or holding a value.
 An entry is named by its place in the heap, which also names its done channel.
 */
module TtlStore {

  datatype Entry = Entry(key: string, inFlight: bool, value: int, taken: int)

  datatype Store = Store(entries: map<string, nat>, heap: seq<Entry>) {
    predicate Valid() {
      forall k <- entries :: entries[k] < |heap| && heap[entries[k]].key == k
    }

    function At(key: string): (e: Entry)
      requires Valid() && key in entries
    {
      heap[entries[key]]
    }
  }

  /** What the first locked section of get decides. */
  datatype Entered = WaitOn(e: nat) | Hit(e: nat) | Run(e: nat)

  datatype Settings = Settings(ttl: int, prune: int)

  predicate Stale(c: Settings, e: Entry, now: int) {
    !e.inFlight && now - e.taken > c.prune
  }

  function Pruned(c: Settings, s: Store, now: int): (p: Store)
    requires s.Valid()
    ensures p.heap == s.heap
  {
    Store(map k | k in s.entries && !Stale(c, s.At(k), now) :: s.entries[k], s.heap)
  }

  function Forgotten(s: Store): (f: Store)
    requires s.Valid()
    ensures f.heap == s.heap
  {
    Store(map k | k in s.entries && s.At(k).inFlight :: s.entries[k], s.heap)
  }

  function Decide(c: Settings, s: Store, key: string, now: int): (d: Entered)
    requires s.Valid()
  {
    if key in s.entries && s.At(key).inFlight then WaitOn(s.entries[key])
    else if key in s.entries && now - s.At(key).taken < c.ttl then Hit(s.entries[key])
    else Run(|s.heap|)
  }

  function Installed(s: Store, key: string): (i: Store) {
    Store(s.entries[key := |s.heap|], s.heap + [Entry(key, true, 0, 0)])
  }

  function AfterEnter(c: Settings, s: Store, key: string, now: int): (s': Store)
    requires s.Valid()
  {
    if Decide(c, s, key, now).Run? then Pruned(c, Installed(s, key), now) else s
  }

  function AfterPublish(s: Store, e: nat, value: int, now: int): (s': Store)
    requires e < |s.heap|
  {
    s.(heap := s.heap[e := s.heap[e].(inFlight := false, value := value, taken := now)])
  }

  /** The cache object; each method is one locked section. */
  class TtlCache {
    const settings: Settings
    var entries: map<string, nat>
    var heap: seq<Entry>

    function Contents(): (s: Store)
      reads this
    {
      Store(entries, heap)
    }

    constructor (ttl: int, prune: int)
      ensures Contents() == Store(map[], []) && Contents().Valid()
      ensures settings == Settings(ttl, prune)
    {
      settings, entries, heap := Settings(ttl, prune), map[], [];
    }

    /** The section at the top of get's loop: wait for a read in flight, reuse a fresh value, or
        publish an entry of one's own. */
    method Enter(key: string, now: int) returns (d: Entered)
      requires Contents().Valid()
      modifies this
      ensures Contents().Valid()
      ensures d == Decide(settings, old(Contents()), key, now)
      ensures Contents() == AfterEnter(settings, old(Contents()), key, now)
    {
      if key in entries && heap[entries[key]].inFlight {
        return WaitOn(entries[key]);
      }
      if key in entries && now - heap[entries[key]].taken < settings.ttl {
        return Hit(entries[key]);
      }
      d := Run(|heap|);
      heap := heap + [Entry(key, true, 0, 0)];
      entries := entries[key := |heap| - 1];
      PruneLocked(now);
    }

    method PruneLocked(now: int)
      requires Contents().Valid()
      modifies this`entries
      ensures Contents().Valid() && Contents() == Pruned(settings, old(Contents()), now)
    {
      var keys := entries.Keys;
      while keys != {}
        invariant keys <= entries.Keys && Contents().Valid()
        invariant entries == map k | k in old(entries) && (k in keys || !Stale(settings, old(heap[entries[k]]), now)) :: old(entries)[k]
        decreases keys
      {
        var k :| k in keys;
        keys := keys - {k};
        if Stale(settings, heap[entries[k]], now) {
          entries := entries - {k};
        }
      }
    }

    /** The section that stores what the read returned. */
    method Publish(e: nat, value: int, now: int)
      requires Contents().Valid() && e < |heap|
      modifies this`heap
      ensures Contents().Valid() && Contents() == AfterPublish(old(Contents()), e, value, now)
      ensures heap[e].value == value
      ensures forall key, later | key in entries && entries[key] == e ::
          Decide(settings, Contents(), key, later) == if later - now < settings.ttl then Hit(e) else Run(|heap|)
    {
      heap := heap[e := heap[e].(inFlight := false, value := value, taken := now)];
    }

    method Forget()
      requires Contents().Valid()
      modifies this`entries
      ensures Contents().Valid() && Contents() == Forgotten(old(Contents()))
    {
      var keys := entries.Keys;
      while keys != {}
        invariant keys <= entries.Keys && Contents().Valid()
        invariant entries == map k | k in old(entries) && (k in keys || old(heap[entries[k]]).inFlight) :: old(entries)[k]
        decreases keys
      {
        var k :| k in keys;
        keys := keys - {k};
        if !heap[entries[k]].inFlight {
          entries := entries - {k};
        }
      }
    }
  }
}

/**
 Any number of goroutines inside get and forget, interleaved at every lock and channel operation.
 */
module TtlRuns {
  import opened TtlStore

  type Thread = nat

  /** Where a goroutine is; `began` counts the forgets that had returned when its get began. */
  datatype Pc =
    | Looping(key: string, began: nat)
    | Waiting(key: string, began: nat, e: nat)
    | Reading(key: string, began: nat, e: nat)
    | HasRead(key: string, began: nat, e: nat, value: int)
    | Closing(key: string, began: nat, e: nat, value: int)
    | Panicked(key: string, began: nat, e: nat)   // read panicked, and somebody further up recovered
    | Returned

  /** A value handed to a caller, and the entry it came from. */
  datatype Answer = Answer(key: string, began: nat, e: nat, value: int)

  datatype State = State(
    store: Store,
    closed: set<nat>,            // done channels that have been closed
    threads: map<Thread, Pc>,
    now: int,
    // History.
    forgets: nat,                // forgets that have returned
    reader: map<nat, Thread>,    // who reads for each entry
    readAt: map<nat, nat>,       // forgets that had returned when the entry's read returned
    publishedAt: map<nat, nat>,  // and when its value was stored
    answers: seq<Answer>
  )

  datatype Action =
    | Call(t: Thread, key: string)
    | Lock(t: Thread)
    | Wake(t: Thread)
    | ReadReturns(t: Thread, value: int)
    | ReadPanics(t: Thread)
    | StoreValue(t: Thread)
    | CloseDone(t: Thread)
    | Forget
    | Tick(d: nat)

  function Init(): (s: State) {
    State(Store(map[], []), {}, map[], 0, 0, map[], map[], map[], [])
  }

  predicate Enabled(s: State, a: Action) {
    match a
    case Call(t, _) => t !in s.threads || s.threads[t].Returned?
    case Lock(t) => t in s.threads && s.threads[t].Looping?
    case Wake(t) => t in s.threads && s.threads[t].Waiting? && s.threads[t].e in s.closed
    case ReadReturns(t, _) => t in s.threads && s.threads[t].Reading?
    case ReadPanics(t) => t in s.threads && s.threads[t].Reading?
    case StoreValue(t) => t in s.threads && s.threads[t].HasRead?
    case CloseDone(t) => t in s.threads && s.threads[t].Closing?
    case Forget => true
    case Tick(_) => true
  }

  function LockStep(c: Settings, s: State, t: Thread): (s': State)
    requires s.store.Valid() && Enabled(s, Lock(t))
  {
    var pc := s.threads[t];
    var store := AfterEnter(c, s.store, pc.key, s.now);
    match Decide(c, s.store, pc.key, s.now)
    case WaitOn(e) =>
      s.(threads := s.threads[t := Waiting(pc.key, pc.began, e)])
    case Hit(e) =>
      var entry := s.store.At(pc.key);
      s.(threads := s.threads[t := Returned],
         answers := s.answers + [Answer(pc.key, pc.began, e, entry.value)])
    case Run(e) =>
      s.(store := store, threads := s.threads[t := Reading(pc.key, pc.began, e)], reader := s.reader[e := t])
  }

  function Next(c: Settings, s: State, a: Action): (s': State)
    requires s.store.Valid() && Enabled(s, a)
    requires forall u <- s.threads :: s.threads[u].HasRead? ==> s.threads[u].e < |s.store.heap|
  {
    match a
    case Call(t, key) => s.(threads := s.threads[t := Looping(key, s.forgets)])
    case Lock(t) => LockStep(c, s, t)
    case Wake(t) => s.(threads := s.threads[t := Looping(s.threads[t].key, s.threads[t].began)])
    case ReadReturns(t, value) =>
      var pc := s.threads[t];
      s.(threads := s.threads[t := HasRead(pc.key, pc.began, pc.e, value)], readAt := s.readAt[pc.e := s.forgets])
    case ReadPanics(t) =>
      var pc := s.threads[t];
      s.(threads := s.threads[t := Panicked(pc.key, pc.began, pc.e)])
    case StoreValue(t) =>
      var pc := s.threads[t];
      s.(store := AfterPublish(s.store, pc.e, pc.value, s.now),
         threads := s.threads[t := Closing(pc.key, pc.began, pc.e, pc.value)],
         publishedAt := s.publishedAt[pc.e := s.forgets])
    case CloseDone(t) =>
      var pc := s.threads[t];
      s.(closed := s.closed + {pc.e},
         threads := s.threads[t := Returned],
         answers := s.answers + [Answer(pc.key, pc.began, pc.e, pc.value)])
    case Forget => s.(store := Forgotten(s.store), forgets := s.forgets + 1)
    case Tick(d) => s.(now := s.now + d)
  }

  // The invariant, in the order its parts are used.

  /** t is the one reading for entry e, or was when its read panicked. */
  predicate Owns(s: State, t: Thread, e: nat) {
    t in s.threads && (s.threads[t].Reading? || s.threads[t].HasRead? || s.threads[t].Panicked?) && s.threads[t].e == e
  }

  predicate OwesClose(s: State, t: Thread, e: nat) {
    t in s.threads && (s.threads[t].Reading? || s.threads[t].HasRead? || s.threads[t].Closing?) && s.threads[t].e == e
  }

  predicate EntryInv(s: State, e: nat)
    requires e < |s.store.heap|
  {
    var entry := s.store.heap[e];
    && e in s.reader
    && (entry.inFlight ==>
          && entry.key in s.store.entries && s.store.entries[entry.key] == e
          && Owns(s, s.reader[e], e) && e !in s.closed && e !in s.publishedAt)
    && (!entry.inFlight ==>
          && e in s.publishedAt && e in s.readAt && s.readAt[e] <= s.publishedAt[e] <= s.forgets
          && (e in s.closed || (OwesClose(s, s.reader[e], e) && s.threads[s.reader[e]].Closing?))
          && (entry.key in s.store.entries && s.store.entries[entry.key] == e ==> s.publishedAt[e] == s.forgets))
  }

  predicate ThreadInv(s: State, t: Thread)
    requires t in s.threads
  {
    var pc := s.threads[t];
    && (!pc.Returned? ==> pc.began <= s.forgets)
    && (pc.Waiting? ==> pc.e < |s.store.heap|)
    && (pc.Reading? || pc.HasRead? || pc.Closing? || pc.Panicked? ==>
          && pc.e < |s.store.heap| && pc.e in s.reader && s.reader[pc.e] == t
          && s.store.heap[pc.e].key == pc.key)
    && (pc.Reading? || pc.HasRead? || pc.Panicked? ==> s.store.heap[pc.e].inFlight)
    && (pc.Reading? || pc.Panicked? ==> pc.e !in s.readAt)
    && (pc.HasRead? ==> pc.e in s.readAt && s.readAt[pc.e] <= s.forgets)
    && (pc.Closing? ==> !s.store.heap[pc.e].inFlight && pc.e !in s.closed
                        && s.store.heap[pc.e].value == pc.value
                        && pc.e in s.publishedAt && pc.began <= s.publishedAt[pc.e])
  }

  predicate AnswerInv(s: State, a: Answer) {
    && a.e < |s.store.heap| && !s.store.heap[a.e].inFlight
    && s.store.heap[a.e].key == a.key && s.store.heap[a.e].value == a.value
    && a.e in s.publishedAt && a.e in s.readAt
    && a.began <= s.publishedAt[a.e]
  }

  ghost predicate Inv(c: Settings, s: State) {
    && s.store.Valid()
    && (forall e <- s.closed :: e < |s.store.heap|)
    && (forall e <- s.readAt :: e < |s.store.heap|)
    && (forall e <- s.publishedAt :: e < |s.store.heap|)
    && (forall e | 0 <= e < |s.store.heap| :: EntryInv(s, e))
    && (forall t <- s.threads :: ThreadInv(s, t))
    && (forall a <- s.answers :: AnswerInv(s, a))
  }

  lemma InitInv(c: Settings)
    ensures Inv(c, Init())
  {
  }

  lemma CallKeepsInv(c: Settings, s: State, t: Thread, key: string)
    requires Inv(c, s) && Enabled(s, Call(t, key))
    ensures Inv(c, Next(c, s, Call(t, key)))
  {
    var s' := Next(c, s, Call(t, key));
    forall e | 0 <= e < |s'.store.heap|
      ensures EntryInv(s', e)
    {
      if e < |s.store.heap| {
        assert EntryInv(s, e);
      }
    }
  }

  lemma ReuseKeepsInv(c: Settings, s: State, t: Thread)
    requires Inv(c, s) && Enabled(s, Lock(t)) && Decide(c, s.store, s.threads[t].key, s.now).Hit?
    ensures Inv(c, Next(c, s, Lock(t)))
  {
    var s' := Next(c, s, Lock(t));
    assert EntryInv(s, s.store.entries[s.threads[t].key]);
    forall e | 0 <= e < |s'.store.heap|
      ensures EntryInv(s', e)
    {
      assert EntryInv(s, e);
    }
    forall a <- s'.answers
      ensures AnswerInv(s', a)
    {
      if a in s.answers {
        assert AnswerInv(s, a);
      }
    }
  }

  lemma OwnReadKeepsInv(c: Settings, s: State, t: Thread)
    requires Inv(c, s) && Enabled(s, Lock(t)) && Decide(c, s.store, s.threads[t].key, s.now).Run?
    ensures Inv(c, Next(c, s, Lock(t)))
  {
    var s' := Next(c, s, Lock(t));
    OwnReadKeepsEntries(c, s, t);
    OwnReadKeepsThreads(c, s, t);
    assert s'.store.Valid() && |s'.store.heap| == |s.store.heap| + 1;
    assert s'.closed == s.closed && s'.readAt == s.readAt && s'.publishedAt == s.publishedAt && s'.answers == s.answers;
    assert forall e | 0 <= e < |s.store.heap| :: s'.store.heap[e] == s.store.heap[e];
    hide Next, EntryInv, ThreadInv, Decide;
    forall a <- s'.answers
      ensures AnswerInv(s', a)
    {
      assert AnswerInv(s, a);
    }
  }

  lemma InstallShape(c: Settings, s: Store, key: string, now: int)
    requires s.Valid() && Decide(c, s, key, now).Run?
    ensures var s' := AfterEnter(c, s, key, now);
            && s'.heap == s.heap + [Entry(key, true, 0, 0)]
            && key in s'.entries && s'.entries[key] == |s.heap|
  {
  }

  /** What installing an entry for key and pruning leave of an older entry e. */
  lemma InstallKeeps(c: Settings, s: Store, key: string, now: int, e: nat)
    requires s.Valid() && Decide(c, s, key, now).Run? && e < |s.heap|
    ensures var s', k := AfterEnter(c, s, key, now), s.heap[e].key;
            && (k in s'.entries && s'.entries[k] == e ==> k in s.entries && s.entries[k] == e)
            && (s.heap[e].inFlight && k in s.entries && s.entries[k] == e ==> k in s'.entries && s'.entries[k] == e)
  {
    var installed, k := Installed(s, key), s.heap[e].key;
    if k != key && k in s.entries && s.entries[k] == e {
      assert s.heap[e].inFlight ==> !Stale(c, installed.At(k), now);
    }
  }

  lemma OlderEntryKept(s: State, s': State, t: Thread, e: nat)
    requires e < |s.store.heap| && e < |s'.store.heap| && EntryInv(s, e) && s'.store.heap[e] == s.store.heap[e]
    requires t in s.threads && s.threads[t].Looping? && t in s'.threads && s'.threads == s.threads[t := s'.threads[t]]
    requires e in s'.reader && e in s.reader && s'.reader[e] == s.reader[e]
    requires s'.closed == s.closed && s'.readAt == s.readAt && s'.publishedAt == s.publishedAt && s'.forgets == s.forgets
    requires var k := s.store.heap[e].key;
             && (k in s'.store.entries && s'.store.entries[k] == e ==> k in s.store.entries && s.store.entries[k] == e)
             && (s.store.heap[e].inFlight && k in s.store.entries && s.store.entries[k] == e ==>
                   k in s'.store.entries && s'.store.entries[k] == e)
    ensures EntryInv(s', e)
  {
  }

  lemma OwnReadKeepsEntries(c: Settings, s: State, t: Thread)
    requires Inv(c, s) && Enabled(s, Lock(t)) && Decide(c, s.store, s.threads[t].key, s.now).Run?
    ensures forall e | 0 <= e < |Next(c, s, Lock(t)).store.heap| :: EntryInv(Next(c, s, Lock(t)), e)
  {
    var s' := Next(c, s, Lock(t));
    var key, mine := s.threads[t].key, |s.store.heap|;
    InstallShape(c, s.store, key, s.now);
    hide AfterEnter, AnswerInv, ThreadInv;
    assert EntryInv(s', mine);
    hide EntryInv;
    forall e | 0 <= e < |s'.store.heap|
      ensures EntryInv(s', e)
    {
      if e < mine {
        assert EntryInv(s, e) && s'.store.heap[e] == s.store.heap[e];
        HasReader(s, e);
        InstallKeeps(c, s.store, key, s.now, e);
        OlderEntryKept(s, s', t, e);
      }
    }
  }

  lemma HasReader(s: State, e: nat)
    requires e < |s.store.heap| && EntryInv(s, e)
    ensures e in s.reader
  {
  }

  lemma OwnReadKeepsThreads(c: Settings, s: State, t: Thread)
    requires Inv(c, s) && Enabled(s, Lock(t)) && Decide(c, s.store, s.threads[t].key, s.now).Run?
    ensures forall u <- Next(c, s, Lock(t)).threads :: ThreadInv(Next(c, s, Lock(t)), u)
  {
    var s' := Next(c, s, Lock(t));
    assert s'.store.heap == s.store.heap + [Entry(s.threads[t].key, true, 0, 0)];
    hide AnswerInv, EntryInv, Pruned, AfterEnter, Installed;
    forall u <- s'.threads
      ensures ThreadInv(s', u)
    {
      if u != t {
        assert ThreadInv(s, u);
      }
    }
  }

  lemma WaitKeepsInv(c: Settings, s: State, t: Thread)
    requires Inv(c, s) && Enabled(s, Lock(t)) && Decide(c, s.store, s.threads[t].key, s.now).WaitOn?
    ensures Inv(c, Next(c, s, Lock(t)))
  {
    var s' := Next(c, s, Lock(t));
    assert s'.store == s.store;
    hide AfterEnter, Pruned, Installed;
    forall e | 0 <= e < |s'.store.heap|
      ensures EntryInv(s', e)
    {
      assert EntryInv(s, e);
    }
  }

  lemma LockKeepsInv(c: Settings, s: State, t: Thread)
    requires Inv(c, s) && Enabled(s, Lock(t))
    ensures Inv(c, Next(c, s, Lock(t)))
  {
    var d := Decide(c, s.store, s.threads[t].key, s.now);
    hide Inv, Next, Decide;
    match d
    case Hit(_) => ReuseKeepsInv(c, s, t);
    case Run(_) => OwnReadKeepsInv(c, s, t);
    case WaitOn(_) => WaitKeepsInv(c, s, t);
  }

  lemma WakeKeepsInv(c: Settings, s: State, t: Thread)
    requires Inv(c, s) && Enabled(s, Wake(t))
    ensures Inv(c, Next(c, s, Wake(t)))
  {
    var s' := Next(c, s, Wake(t));
    forall e | 0 <= e < |s'.store.heap|
      ensures EntryInv(s', e)
    {
      if e < |s.store.heap| {
        assert EntryInv(s, e);
      }
    }
  }

  lemma ReadKeepsInv(c: Settings, s: State, t: Thread, value: int)
    requires Inv(c, s) && Enabled(s, ReadReturns(t, value))
    ensures Inv(c, Next(c, s, ReadReturns(t, value)))
  {
    var s' := Next(c, s, ReadReturns(t, value));
    forall e | 0 <= e < |s'.store.heap|
      ensures EntryInv(s', e)
    {
      if e < |s.store.heap| {
        assert EntryInv(s, e);
      }
    }
  }

  lemma PanicKeepsInv(c: Settings, s: State, t: Thread)
    requires Inv(c, s) && Enabled(s, ReadPanics(t))
    ensures Inv(c, Next(c, s, ReadPanics(t)))
  {
    var s' := Next(c, s, ReadPanics(t));
    forall e | 0 <= e < |s'.store.heap|
      ensures EntryInv(s', e)
    {
      if e < |s.store.heap| {
        assert EntryInv(s, e);
      }
    }
  }

  lemma StoreKeepsInv(c: Settings, s: State, t: Thread)
    requires Inv(c, s) && Enabled(s, StoreValue(t))
    ensures Inv(c, Next(c, s, StoreValue(t)))
  {
    var s' := Next(c, s, StoreValue(t));
    assert EntryInv(s, s.threads[t].e);
    forall e | 0 <= e < |s'.store.heap|
      ensures EntryInv(s', e)
    {
      if e < |s.store.heap| {
        assert EntryInv(s, e);
      }
    }
    forall u <- s'.threads
      ensures ThreadInv(s', u)
    {
      if u in s.threads {
        assert ThreadInv(s, u);
      }
    }
    forall a <- s'.answers
      ensures AnswerInv(s', a)
    {
      if a in s.answers {
        assert AnswerInv(s, a);
      }
    }
  }

  lemma CloseKeepsInv(c: Settings, s: State, t: Thread)
    requires Inv(c, s) && Enabled(s, CloseDone(t))
    ensures Inv(c, Next(c, s, CloseDone(t)))
  {
    var s' := Next(c, s, CloseDone(t));
    assert EntryInv(s, s.threads[t].e);
    forall e | 0 <= e < |s'.store.heap|
      ensures EntryInv(s', e)
    {
      if e < |s.store.heap| {
        assert EntryInv(s, e);
      }
    }
    forall a <- s'.answers
      ensures AnswerInv(s', a)
    {
      if a in s.answers {
        assert AnswerInv(s, a);
      }
    }
  }

  lemma ForgetKeepsInv(c: Settings, s: State)
    requires Inv(c, s)
    ensures Inv(c, Next(c, s, Forget))
  {
    var s' := Next(c, s, Forget);
    forall e | 0 <= e < |s'.store.heap|
      ensures EntryInv(s', e)
    {
      if e < |s.store.heap| {
        assert EntryInv(s, e);
      }
    }
  }

  lemma TickKeepsInv(c: Settings, s: State, d: nat)
    requires Inv(c, s)
    ensures Inv(c, Next(c, s, Tick(d)))
  {
    var s' := Next(c, s, Tick(d));
    forall e | 0 <= e < |s'.store.heap|
      ensures EntryInv(s', e)
    {
      if e < |s.store.heap| {
        assert EntryInv(s, e);
      }
    }
  }

  lemma StepKeepsInv(c: Settings, s: State, a: Action)
    requires Inv(c, s) && Enabled(s, a)
    ensures Inv(c, Next(c, s, a))
  {
    match a
    case Call(t, key) => CallKeepsInv(c, s, t, key);
    case Lock(t) => LockKeepsInv(c, s, t);
    case Wake(t) => WakeKeepsInv(c, s, t);
    case ReadReturns(t, value) => ReadKeepsInv(c, s, t, value);
    case ReadPanics(t) => PanicKeepsInv(c, s, t);
    case StoreValue(t) => StoreKeepsInv(c, s, t);
    case CloseDone(t) => CloseKeepsInv(c, s, t);
    case Forget => ForgetKeepsInv(c, s);
    case Tick(d) => TickKeepsInv(c, s, d);
  }

  // Whole runs.

  /** Next is defined on s; every state of a run meets this, by RunKeepsInv. */
  predicate Defined(s: State) {
    && s.store.Valid()
    && forall u <- s.threads :: s.threads[u].HasRead? ==> s.threads[u].e < |s.store.heap|
  }

  predicate Step(c: Settings, s: State, a: Action, s': State) {
    Defined(s) && Enabled(s, a) && s' == Next(c, s, a)
  }

  predicate Run(c: Settings, states: seq<State>, acts: seq<Action>) {
    && |states| == |acts| + 1
    && states[0] == Init()
    && forall i | 0 <= i < |acts| :: Step(c, states[i], acts[i], states[i + 1])
  }

  lemma {:induction false} RunKeepsInv(c: Settings, states: seq<State>, acts: seq<Action>)
    requires Run(c, states, acts)
    ensures forall s <- states :: Inv(c, s)
  {
    if acts == [] {
      InitInv(c);
    } else {
      var n := |acts| - 1;
      RunKeepsInv(c, states[..n + 1], acts[..n]);
      assert Step(c, states[n], acts[n], states[n + 1]);
      assert states[n] in states[..n + 1];
      StepKeepsInv(c, states[n], acts[n]);
      assert states == states[..n + 1] + [states[n + 1]];
    }
  }

  /** The thread is between publishing an entry of its own for key and storing what it read. */
  predicate RunsRead(s: State, t: Thread, key: string) {
    t in s.threads && (s.threads[t].Reading? || s.threads[t].HasRead?) && s.threads[t].key == key
  }

  /** At no moment of any run are two reads for one key in progress. */
  lemma SingleFlight(c: Settings, states: seq<State>, acts: seq<Action>, s: State, t: Thread, u: Thread, key: string)
    requires Run(c, states, acts) && s in states
    requires RunsRead(s, t, key) && RunsRead(s, u, key)
    ensures t == u
  {
    RunKeepsInv(c, states, acts);
    assert ThreadInv(s, t) && ThreadInv(s, u);
    assert EntryInv(s, s.threads[t].e) && EntryInv(s, s.threads[u].e);
  }

  /** An entry being read stays the entry of its key: nothing replaces, prunes or forgets it. */
  lemma InFlightStays(c: Settings, states: seq<State>, acts: seq<Action>, i: nat, e: nat)
    requires Run(c, states, acts) && i < |acts|
    requires e < |states[i].store.heap| && states[i].store.heap[e].inFlight
    ensures e < |states[i + 1].store.heap| && states[i + 1].store.heap[e].key == states[i].store.heap[e].key
    ensures var key := states[i].store.heap[e].key;
            && key in states[i + 1].store.entries && states[i + 1].store.entries[key] == e
  {
    RunKeepsInv(c, states, acts);
    var s, s' := states[i], states[i + 1];
    assert Step(c, s, acts[i], s');
    assert s in states && s' in states;
    assert EntryInv(s, e);
    assert e < |s'.store.heap|;
    assert EntryInv(s', e);
    if !s'.store.heap[e].inFlight {
      assert acts[i].StoreValue?;
      assert s'.store.entries == s.store.entries;
    }
  }

  lemma {:induction false} ClosedStays(c: Settings, states: seq<State>, acts: seq<Action>, i: nat, n: nat, e: nat)
    requires Run(c, states, acts) && i <= n <= |acts| && e in states[i].closed
    ensures e in states[n].closed
    decreases n
  {
    if i < n {
      ClosedStays(c, states, acts, i, n - 1, e);
      assert Step(c, states[n - 1], acts[n - 1], states[n]);
      hide *;
      ClosedGrows(c, states[n - 1], acts[n - 1], states[n]);
    }
  }

  lemma ClosedGrows(c: Settings, s: State, a: Action, s': State)
    requires Step(c, s, a, s')
    ensures s.closed <= s'.closed
  {
    hide AfterEnter, AfterPublish, Forgotten, Decide;
  }

  /** The entry whose channel a goroutine is about to close. */
  function Closes(s: State, t: Thread): nat
    requires t in s.threads && s.threads[t].Closing?
  {
    s.threads[t].e
  }

  /** No two steps of a run close the same channel, and whoever closes one has stored the value it stands for. */
  lemma ClosedOnce(c: Settings, states: seq<State>, acts: seq<Action>, i: nat, j: nat)
    requires Run(c, states, acts) && i < j < |acts| && acts[i].CloseDone? && acts[j].CloseDone?
    ensures acts[i].t in states[i].threads && states[i].threads[acts[i].t].Closing?
    ensures acts[j].t in states[j].threads && states[j].threads[acts[j].t].Closing?
    ensures Closes(states[i], acts[i].t) != Closes(states[j], acts[j].t)
    ensures var e := Closes(states[j], acts[j].t); e < |states[j].store.heap| && !states[j].store.heap[e].inFlight
  {
    RunKeepsInv(c, states, acts);
    assert states[i] in states && states[j] in states;
    assert Step(c, states[i], acts[i], states[i + 1]) && Step(c, states[j], acts[j], states[j + 1]);
    ClosedStays(c, states, acts, i + 1, j, states[i].threads[acts[i].t].e);
    assert ThreadInv(states[j], acts[j].t);
    hide Run, Inv;
  }

  /** Whoever is woken looks again: it goes back to the lock, in the same call, and is handed nothing unseen. */
  lemma WokenLooksAgain(c: Settings, states: seq<State>, acts: seq<Action>, i: nat, t: Thread)
    requires Run(c, states, acts) && i < |acts| && acts[i] == Wake(t)
    ensures t in states[i].threads && states[i].threads[t].Waiting? && states[i].threads[t].e in states[i].closed
    ensures states[i + 1] == states[i].(threads := states[i].threads[t :=
              Looping(states[i].threads[t].key, states[i].threads[t].began)])
    ensures var e := states[i].threads[t].e; e < |states[i].store.heap| && !states[i].store.heap[e].inFlight
  {
    RunKeepsInv(c, states, acts);
    assert states[i] in states;
    assert Step(c, states[i], acts[i], states[i + 1]);
    assert EntryInv(states[i], states[i].threads[t].e);
    hide Run;
  }

  /** How many steps of its own the reader of e still takes before the channel is closed, while it has
      not panicked. */
  function StepsToClose(s: State, e: nat): nat {
    if e in s.closed || e !in s.reader || s.reader[e] !in s.threads then 0
    else match s.threads[s.reader[e]]
      case Reading(_, _, _) => 3
      case HasRead(_, _, _, _) => 2
      case Closing(_, _, _, _) => 1
      case _ => 0
  }

  /** The step the reader takes next. */
  function ReadersMove(s: State, t: Thread, value: int): Action
    requires t in s.threads
  {
    match s.threads[t]
    case Reading(_, _, _) => ReadReturns(t, value)
    case HasRead(_, _, _, _) => StoreValue(t)
    case _ => CloseDone(t)
  }

  /** The goroutine that reads for e, and nobody else ever does, has panicked in the read. */
  predicate ReadPanicked(s: State, e: nat) {
    e in s.reader && s.reader[e] in s.threads && s.threads[s.reader[e]].Panicked? && s.threads[s.reader[e]].e == e
  }

  /** No lost wakeup: unless the read it waits for has panicked, whoever waits on an open channel waits for
      another, live goroutine that can take its next step towards closing it, whatever its read returns. */
  lemma WaiterIsOwedAClose(c: Settings, states: seq<State>, acts: seq<Action>, s: State, t: Thread, value: int)
    requires Run(c, states, acts) && s in states
    requires t in s.threads && s.threads[t].Waiting? && s.threads[t].e !in s.closed
    ensures var e := s.threads[t].e;
            && e in s.reader && s.reader[e] != t
            && (OwesClose(s, s.reader[e], e) <==> !ReadPanicked(s, e))
            && (!ReadPanicked(s, e) ==>
                  var a := ReadersMove(s, s.reader[e], value);
                  && Defined(s) && Enabled(s, a)
                  && StepsToClose(Next(c, s, a), e) == StepsToClose(s, e) - 1)
  {
    RunKeepsInv(c, states, acts);
    assert ThreadInv(s, t);
    assert EntryInv(s, s.threads[t].e);
  }

  /** And nobody else's step puts that close further off. */
  lemma CloseNeverRecedes(c: Settings, states: seq<State>, acts: seq<Action>, i: nat, e: nat)
    requires Run(c, states, acts) && i < |acts| && e < |states[i].store.heap|
    ensures StepsToClose(states[i + 1], e) <= StepsToClose(states[i], e)
  {
    hide Inv, Step, StepsToClose;
    RunKeepsInv(c, states, acts);
    assert Step(c, states[i], acts[i], states[i + 1]);
    assert states[i] in states;
    CloseStep(c, states[i], acts[i], states[i + 1], e);
  }

  lemma CloseStep(c: Settings, s: State, a: Action, s': State, e: nat)
    requires Inv(c, s) && Step(c, s, a, s') && e < |s.store.heap|
    ensures StepsToClose(s', e) <= StepsToClose(s, e)
  {
    assert EntryInv(s, e);
    var r := s.reader[e];
    if r in s.threads {
      assert ThreadInv(s, r);
    }
    hide *;
    ReaderSteps(c, s, a, s', e, r);
  }

  /** Only its own steps move the reader of an entry. */
  lemma ReaderSteps(c: Settings, s: State, a: Action, s': State, e: nat, r: Thread)
    requires Step(c, s, a, s') && e < |s.store.heap| && EntryInv(s, e) && r == s.reader[e]
    requires r in s.threads ==> ThreadInv(s, r)
    ensures StepsToClose(s', e) <= StepsToClose(s, e)
  {
    ReaderKept(c, s, a, s', e);
    hide AfterPublish, Forgotten, AfterEnter, Decide;
  }

  /** After a panic the channel is never closed and its key never read again: every wait for it is for ever. */
  lemma {:induction false} PanicBlocksForEver(c: Settings, states: seq<State>, acts: seq<Action>, e: nat, i: nat, j: nat)
    requires Run(c, states, acts) && i <= j <= |acts|
    requires e < |states[i].store.heap| && ReadPanicked(states[i], e)
    ensures e < |states[j].store.heap| && ReadPanicked(states[j], e) && e !in states[j].closed
    ensures states[j].store.heap[e].key == states[i].store.heap[e].key
    ensures var store, key := states[j].store, states[i].store.heap[e].key;
            store.heap[e].inFlight && key in store.entries && store.entries[key] == e
    decreases j
  {
    hide Inv, Step, ReadPanicked;
    RunKeepsInv(c, states, acts);
    assert states[i] in states && states[j] in states;
    if i < j {
      PanicBlocksForEver(c, states, acts, e, i, j - 1);
      assert Step(c, states[j - 1], acts[j - 1], states[j]);
      assert states[j - 1] in states;
      PanicStep(c, states[j - 1], acts[j - 1], states[j], e);
    } else {
      PanickedEntry(c, states[i], e);
    }
  }

  lemma PanickedEntry(c: Settings, s: State, e: nat)
    requires Inv(c, s) && e < |s.store.heap| && ReadPanicked(s, e)
    ensures e !in s.closed && s.store.heap[e].inFlight
    ensures var key := s.store.heap[e].key; key in s.store.entries && s.store.entries[key] == e
  {
    assert ThreadInv(s, s.reader[e]);
    assert EntryInv(s, e);
  }

  lemma PanicStep(c: Settings, s: State, a: Action, s': State, e: nat)
    requires Inv(c, s) && Step(c, s, a, s') && Inv(c, s') && e < |s.store.heap| && ReadPanicked(s, e)
    ensures e < |s'.store.heap| && s'.store.heap[e].key == s.store.heap[e].key && ReadPanicked(s', e)
    ensures e !in s'.closed && s'.store.heap[e].inFlight
    ensures var key := s.store.heap[e].key; key in s'.store.entries && s'.store.entries[key] == e
  {
    PanickedEntry(c, s, e);
    if a.StoreValue? {
      assert ThreadInv(s, a.t);
    }
    hide Inv, EntryInv, AnswerInv;
    PanickedStays(c, s, a, s', e);
    hide *;
    PanickedEntry(c, s', e);
  }

  lemma PanickedStays(c: Settings, s: State, a: Action, s': State, e: nat)
    requires Step(c, s, a, s') && e < |s.store.heap| && ReadPanicked(s, e)
    requires a.StoreValue? ==> ThreadInv(s, a.t)
    ensures e < |s'.store.heap| && s'.store.heap[e].key == s.store.heap[e].key && ReadPanicked(s', e)
  {
    KeyKept(c, s, a, s', e);
    ReaderKept(c, s, a, s', e);
    PanickedThreadKept(c, s, a, s', s.reader[e]);
    hide Step;
  }

  lemma KeyKept(c: Settings, s: State, a: Action, s': State, e: nat)
    requires Step(c, s, a, s') && e < |s.store.heap|
    requires a.StoreValue? ==> ThreadInv(s, a.t)
    ensures e < |s'.store.heap| && s'.store.heap[e].key == s.store.heap[e].key
  {
    hide Forgotten, Pruned, Decide;
  }

  lemma ReaderKept(c: Settings, s: State, a: Action, s': State, e: nat)
    requires Step(c, s, a, s') && e < |s.store.heap| && e in s.reader
    ensures e in s'.reader && s'.reader[e] == s.reader[e]
  {
    hide Forgotten, AfterEnter, AfterPublish;
  }

  lemma PanickedThreadKept(c: Settings, s: State, a: Action, s': State, t: Thread)
    requires Step(c, s, a, s') && t in s.threads && s.threads[t].Panicked?
    ensures t in s'.threads && s'.threads[t] == s.threads[t]
  {
    hide Forgotten, AfterEnter, AfterPublish, Decide;
  }

  // ---- Where an answer comes from ----

  lemma LockOne(c: Settings, s: State, s': State, u: Thread, t: Thread)
    requires Step(c, s, Lock(u), s') && t in s'.threads && !s'.threads[t].Returned?
    ensures t in s.threads && !s.threads[t].Returned?
    ensures s'.threads[t].key == s.threads[t].key && s'.threads[t].began == s.threads[t].began
  {
    hide AfterEnter, Decide, Defined;
  }

  lemma CallOne(c: Settings, s: State, a: Action, s': State, t: Thread)
    requires Step(c, s, a, s') && t in s'.threads && !s'.threads[t].Returned? && !(a.Call? && a.t == t)
    ensures t in s.threads && !s.threads[t].Returned?
    ensures s'.threads[t].key == s.threads[t].key && s'.threads[t].began == s.threads[t].began
  {
    if a.Lock? {
      LockOne(c, s, s', a.t, t);
    }
    hide Forgotten, LockStep, AfterPublish, Defined;
  }

  /** t has been in one call ever since step m. */
  predicate InCall(states: seq<State>, m: nat, n: nat, t: Thread)
    requires n < |states|
  {
    forall x | m < x <= n :: t in states[x].threads && !states[x].threads[t].Returned?
  }

  /** The call a goroutine is in. */
  lemma {:induction false} CallOf(c: Settings, states: seq<State>, acts: seq<Action>, t: Thread, n: nat)
    returns (m: nat)
    requires Run(c, states, acts) && n <= |acts| && t in states[n].threads && !states[n].threads[t].Returned?
    ensures m < n && acts[m] == Call(t, states[n].threads[t].key) && states[n].threads[t].began == states[m].forgets
    ensures InCall(states, m, n, t)
  {
    assert n > 0;
    assert Step(c, states[n - 1], acts[n - 1], states[n]);
    if acts[n - 1].Call? && acts[n - 1].t == t {
      m := n - 1;
    } else {
      CallOne(c, states[n - 1], acts[n - 1], states[n], t);
      hide *;
      m := CallOf(c, states, acts, t, n - 1);
      InCallLonger(states, m, n - 1, t);
    }
  }

  lemma InCallLonger(states: seq<State>, m: nat, n: nat, t: Thread)
    requires n + 1 < |states| && InCall(states, m, n, t)
    requires t in states[n + 1].threads && !states[n + 1].threads[t].Returned?
    ensures InCall(states, m, n + 1, t)
  {
  }

  lemma ReadOne(c: Settings, s: State, a: Action, s': State, t: Thread)
    requires Step(c, s, a, s') && t in s'.threads && s'.threads[t].HasRead? && !(a.ReadReturns? && a.t == t)
    ensures t in s.threads && s.threads[t] == s'.threads[t]
  {
    hide Forgotten, AfterEnter, AfterPublish, Decide;
  }

  /** A goroutine that has a value had it from its read. */
  lemma {:induction false} ReadOf(c: Settings, states: seq<State>, acts: seq<Action>, t: Thread, n: nat)
    returns (k: nat)
    requires Run(c, states, acts) && n <= |acts| && t in states[n].threads && states[n].threads[t].HasRead?
    ensures k < n && acts[k] == ReadReturns(t, states[n].threads[t].value)
    ensures t in states[k].threads && states[k].threads[t].Reading?
    ensures states[k].threads[t].key == states[n].threads[t].key && states[k].threads[t].e == states[n].threads[t].e
  {
    assert n > 0;
    assert Step(c, states[n - 1], acts[n - 1], states[n]);
    if acts[n - 1].ReadReturns? && acts[n - 1].t == t {
      k := n - 1;
    } else {
      ReadOne(c, states[n - 1], acts[n - 1], states[n], t);
      hide *;
      k := ReadOf(c, states, acts, t, n - 1);
    }
  }

  /** Step j stored a value for entry e of this key. */
  predicate StoredAt(states: seq<State>, acts: seq<Action>, j: nat, e: nat, key: string, value: int) {
    && |states| == |acts| + 1 && j < |acts| && acts[j].StoreValue?
    && acts[j].t in states[j].threads
    && var pc := states[j].threads[acts[j].t]; pc.HasRead? && pc.e == e && pc.key == key && pc.value == value
  }

  /** The entry holds what was stored, since then. */
  predicate Holds(s: State, e: nat, key: string, value: int, since: int) {
    e < |s.store.heap| && s.store.heap[e] == Entry(key, false, value, since)
  }

  lemma StoreHolds(c: Settings, s: State, a: Action, s': State)
    requires Inv(c, s) && Step(c, s, a, s') && a.StoreValue?
    ensures var pc := s.threads[a.t];
            && Holds(s', pc.e, pc.key, pc.value, s.now) && s.store.heap[pc.e].inFlight
            && pc.e in s'.publishedAt && s'.publishedAt[pc.e] == s.forgets
            && forall e: nat | e < |s.store.heap| && e != pc.e :: s'.store.heap[e] == s.store.heap[e]
  {
    assert ThreadInv(s, a.t);
    hide Inv, EntryInv, AnswerInv;
  }

  /** Nothing but storing changes an entry that is there. */
  lemma HeapStays(c: Settings, s: State, a: Action, s': State)
    requires Step(c, s, a, s') && !a.StoreValue?
    ensures |s.store.heap| <= |s'.store.heap| && s'.publishedAt == s.publishedAt
    ensures forall e: nat | e < |s.store.heap| :: s'.store.heap[e] == s.store.heap[e]
    ensures forall e: nat | |s.store.heap| <= e < |s'.store.heap| :: s'.store.heap[e].inFlight
  {
    hide Decide;
  }

  lemma HoldsOn(c: Settings, s: State, a: Action, s': State, e: nat, key: string, value: int, since: int)
    requires Inv(c, s) && Step(c, s, a, s') && Holds(s, e, key, value, since)
    ensures Holds(s', e, key, value, since)
  {
    if a.StoreValue? {
      StoreHolds(c, s, a, s');
    } else {
      HeapStays(c, s, a, s');
    }
    hide Inv, Step;
  }

  /** What is stored stays as it is, with the time of the step that stored it. */
  lemma {:induction false} HoldsSince(c: Settings, states: seq<State>, acts: seq<Action>, j: nat, e: nat, key: string,
                                      value: int, n: nat)
    requires Run(c, states, acts) && StoredAt(states, acts, j, e, key, value) && j < n <= |acts|
    ensures Holds(states[n], e, key, value, states[j].now)
    decreases n
  {
    RunKeepsInv(c, states, acts);
    assert states[n - 1] in states;
    assert Step(c, states[n - 1], acts[n - 1], states[n]);
    hide Inv, Step, Run, Holds;
    if j == n - 1 {
      StoreHolds(c, states[j], acts[j], states[n]);
    } else {
      HoldsSince(c, states, acts, j, e, key, value, n - 1);
      HoldsOn(c, states[n - 1], acts[n - 1], states[n], e, key, value, states[j].now);
    }
  }

  /** A finished entry holds what some step stored, and when. */
  lemma {:induction false} FinishedWasStored(c: Settings, states: seq<State>, acts: seq<Action>, e: nat, n: nat)
    returns (j: nat)
    requires Run(c, states, acts) && n <= |acts| && e < |states[n].store.heap| && !states[n].store.heap[e].inFlight
    ensures j < n && StoredAt(states, acts, j, e, states[n].store.heap[e].key, states[n].store.heap[e].value)
    ensures states[n].store.heap[e].taken == states[j].now
    ensures e in states[n].publishedAt && states[n].publishedAt[e] == states[j].forgets
  {
    assert n > 0;
    RunKeepsInv(c, states, acts);
    assert states[n - 1] in states;
    var s, a, s' := states[n - 1], acts[n - 1], states[n];
    assert Step(c, s, a, s');
    if a.StoreValue? && s.threads[a.t].e == e {
      StoreHolds(c, s, a, s');
      j := n - 1;
    } else {
      FinishedBefore(c, s, a, s', e);
      hide *;
      j := FinishedWasStored(c, states, acts, e, n - 1);
    }
  }

  lemma FinishedBefore(c: Settings, s: State, a: Action, s': State, e: nat)
    requires Inv(c, s) && Step(c, s, a, s') && e < |s'.store.heap| && !s'.store.heap[e].inFlight
    requires a.StoreValue? ==> s.threads[a.t].e != e
    ensures e < |s.store.heap| && s'.store.heap[e] == s.store.heap[e]
    ensures e in s'.publishedAt ==> e in s.publishedAt && s'.publishedAt[e] == s.publishedAt[e]
    ensures e in s.publishedAt ==> e in s'.publishedAt
  {
    if a.StoreValue? {
      assert ThreadInv(s, a.t);
      hide Inv, EntryInv, AnswerInv;
    } else {
      HeapStays(c, s, a, s');
      hide Inv, Step;
    }
  }

  lemma OnwardStep(c: Settings, s: State, a: Action, s': State)
    requires Step(c, s, a, s')
    ensures s'.now == s.now + if a.Tick? then a.d else 0
    ensures s.now <= s'.now && s'.forgets == s.forgets + if a.Forget? then 1 else 0
  {
    hide AfterEnter, AfterPublish, Forgotten, Decide;
  }

  /** Neither the clock nor the count of forgets goes back, and a forget moves the count. */
  lemma {:induction false} Onward(c: Settings, states: seq<State>, acts: seq<Action>, i: nat, n: nat)
    requires Run(c, states, acts) && i <= n <= |acts|
    ensures states[i].now <= states[n].now && states[i].forgets <= states[n].forgets
    ensures i < n && acts[i].Forget? ==> states[i].forgets < states[n].forgets
    decreases n
  {
    if i < n {
      Onward(c, states, acts, i, n - 1);
      assert Step(c, states[n - 1], acts[n - 1], states[n]);
      hide *;
      OnwardStep(c, states[n - 1], acts[n - 1], states[n]);
    }
  }

  /** Step i answers the call t is in, with this value. */
  predicate Answers(states: seq<State>, acts: seq<Action>, i: nat, t: Thread, key: string, value: int) {
    && |states| == |acts| + 1 && i < |acts|
    && t in states[i].threads && !states[i].threads[t].Returned? && states[i].threads[t].key == key
    && t in states[i + 1].threads && states[i + 1].threads[t].Returned?
    && |states[i + 1].answers| == |states[i].answers| + 1
    && states[i + 1].answers[|states[i].answers|].value == value
  }

  lemma AnswerStep(c: Settings, s: State, a: Action, s': State, t: Thread)
    requires Inv(c, s) && Step(c, s, a, s') && t in s.threads && !s.threads[t].Returned?
    requires t in s'.threads && s'.threads[t].Returned?
    ensures a == Lock(t) || a == CloseDone(t)
    ensures |s'.answers| == |s.answers| + 1
    ensures var given, pc := s'.answers[|s.answers|], s.threads[t];
            && given.key == pc.key && given.began == pc.began
            && given.e < |s.store.heap| && !s.store.heap[given.e].inFlight
            && s.store.heap[given.e].key == pc.key && s.store.heap[given.e].value == given.value
            && given.e in s.publishedAt && pc.began <= s.publishedAt[given.e]
            && (a == Lock(t) ==> s.now - s.store.heap[given.e].taken < c.ttl)
  {
    assert ThreadInv(s, t);
    if a == Lock(t) && s.threads[t].key in s.store.entries {
      assert EntryInv(s, s.store.entries[s.threads[t].key]);
    }
    hide Inv, AnswerInv, Pruned, Forgotten, AfterPublish;
  }

  /** Every call is answered with what a read for its key returned at some step k and stored at a later one j;
      no forget that had returned before the call began at m came after j; and a value that was there already
      was stored less than ttl before. */
  lemma ForgetIsEffective(c: Settings, states: seq<State>, acts: seq<Action>, i: nat, t: Thread)
    returns (m: nat, k: nat, j: nat, e: nat, key: string, value: int)
    requires Run(c, states, acts) && i < |acts| && t in states[i].threads && !states[i].threads[t].Returned?
    requires t in states[i + 1].threads && states[i + 1].threads[t].Returned?
    ensures Answers(states, acts, i, t, key, value)
    ensures m < i && acts[m] == Call(t, key) && InCall(states, m, i, t)
    ensures k < j < i && StoredAt(states, acts, j, e, key, value) && acts[k] == ReadReturns(acts[j].t, value)
    ensures acts[j].t in states[k].threads && states[k].threads[acts[j].t].Reading? && states[k].threads[acts[j].t].e == e
    ensures forall f | j < f < m :: !acts[f].Forget?
    ensures acts[i] == Lock(t) ==> states[i].now - states[j].now < c.ttl
  {
    RunKeepsInv(c, states, acts);
    assert states[i] in states;
    assert Step(c, states[i], acts[i], states[i + 1]);
    hide Inv, Step, Run, StoredAt, InCall;
    AnswerStep(c, states[i], acts[i], states[i + 1], t);
    var given := states[i + 1].answers[|states[i].answers|];
    e, key, value := given.e, given.key, given.value;
    m := CallOf(c, states, acts, t, i);
    j := FinishedWasStored(c, states, acts, e, i);
    k := ReadOfStored(c, states, acts, j, e, key, value);
    forall f | j < f < m
      ensures !acts[f].Forget?
    {
      Onward(c, states, acts, j, f);
      Onward(c, states, acts, f, m);
    }
  }

  /** Whoever read and closes the channel is answered with what it read. */
  lemma ReaderIsAnswered(c: Settings, states: seq<State>, acts: seq<Action>, i: nat, t: Thread) returns (k: nat)
    requires Run(c, states, acts) && i < |acts| && acts[i] == CloseDone(t)
    ensures t in states[i].threads && states[i].threads[t].Closing?
    ensures var pc := states[i].threads[t];
            Answers(states, acts, i, t, pc.key, pc.value) && k < i && acts[k] == ReadReturns(t, pc.value)
  {
    assert Step(c, states[i], acts[i], states[i + 1]);
    k := ReadOfClosing(c, states, acts, t, i);
  }

  lemma {:induction false} ReadOfClosing(c: Settings, states: seq<State>, acts: seq<Action>, t: Thread, n: nat)
    returns (k: nat)
    requires Run(c, states, acts) && n <= |acts| && t in states[n].threads && states[n].threads[t].Closing?
    ensures k < n && acts[k] == ReadReturns(t, states[n].threads[t].value)
  {
    assert n > 0;
    assert Step(c, states[n - 1], acts[n - 1], states[n]);
    if acts[n - 1].StoreValue? && acts[n - 1].t == t {
      k := ReadOf(c, states, acts, t, n - 1);
    } else {
      ClosingOne(c, states[n - 1], acts[n - 1], states[n], t);
      hide *;
      k := ReadOfClosing(c, states, acts, t, n - 1);
    }
  }

  lemma ClosingOne(c: Settings, s: State, a: Action, s': State, t: Thread)
    requires Step(c, s, a, s') && t in s'.threads && s'.threads[t].Closing? && !(a.StoreValue? && a.t == t)
    ensures t in s.threads && s.threads[t] == s'.threads[t]
  {
    hide Forgotten, AfterEnter, AfterPublish, Decide;
  }

  function Elapsed(acts: seq<Action>, n: nat): nat
    requires n <= |acts|
  {
    if n == 0 then 0 else Elapsed(acts, n - 1) + if acts[n - 1].Tick? then acts[n - 1].d else 0
  }

  /** The clock shows what has passed. */
  lemma {:induction false} ClockIs(c: Settings, states: seq<State>, acts: seq<Action>, n: nat)
    requires Run(c, states, acts) && n <= |acts|
    ensures states[n].now == Elapsed(acts, n)
  {
    if n > 0 {
      ClockIs(c, states, acts, n - 1);
      assert Step(c, states[n - 1], acts[n - 1], states[n]);
      assert Elapsed(acts, n) == Elapsed(acts, n - 1) + if acts[n - 1].Tick? then acts[n - 1].d else 0;
      hide *;
      OnwardStep(c, states[n - 1], acts[n - 1], states[n]);
    }
  }

  lemma ReadOfStored(c: Settings, states: seq<State>, acts: seq<Action>, j: nat, e: nat, key: string, value: int)
    returns (k: nat)
    requires Run(c, states, acts) && StoredAt(states, acts, j, e, key, value)
    ensures k < j && acts[k] == ReadReturns(acts[j].t, value)
    ensures acts[j].t in states[k].threads && states[k].threads[acts[j].t].Reading? && states[k].threads[acts[j].t].e == e
  {
    k := ReadOf(c, states, acts, acts[j].t, j);
  }

  // ---- How long an answer stays ----

  predicate Filed(s: State, e: nat, key: string) {
    key in s.store.entries && s.store.entries[key] == e
  }

  /** A call for this key finds the stored value and is answered with it if and only if it is younger than ttl;
      otherwise it reads anew. */
  lemma ReusedIff(c: Settings, states: seq<State>, acts: seq<Action>, j: nat, e: nat, key: string, value: int,
                  i: nat, t: Thread)
    requires Run(c, states, acts) && StoredAt(states, acts, j, e, key, value) && j < i < |acts|
    requires Filed(states[i], e, key) && acts[i] == Lock(t) && t in states[i].threads
    requires !states[i].threads[t].Returned? && states[i].threads[t].key == key
    ensures Answers(states, acts, i, t, key, value) <==> states[i].now - states[j].now < c.ttl
    ensures states[i].now - states[j].now >= c.ttl ==> RunsRead(states[i + 1], t, key)
  {
    HoldsSince(c, states, acts, j, e, key, value, i);
    assert Step(c, states[i], acts[i], states[i + 1]);
    hide Run, StoredAt, AfterEnter;
  }

  lemma LeavesStep(c: Settings, s: State, a: Action, s': State, e: nat, key: string, value: int, since: int)
    requires Step(c, s, a, s') && Holds(s, e, key, value, since) && Filed(s, e, key)
    ensures !Filed(s', e, key) <==>
            || a.Forget?
            || (a.Lock? && a.t in s'.threads && s'.threads[a.t].Reading?
                && (s'.threads[a.t].key == key || s.now - since > c.prune))
  {
    if a.Lock? {
      LockLeaves(c, s, a.t, e, key, value, since);
    }
    hide AfterEnter, Decide, LockStep;
  }

  lemma EnterLeaves(c: Settings, s: Store, mine: string, now: int, e: nat, key: string, value: int, since: int)
    requires s.Valid() && e < |s.heap| && s.heap[e] == Entry(key, false, value, since)
    requires key in s.entries && s.entries[key] == e
    ensures var s' := AfterEnter(c, s, mine, now);
            (key in s'.entries && s'.entries[key] == e) <==>
            !(Decide(c, s, mine, now).Run? && (mine == key || now - since > c.prune))
  {
  }

  lemma LockLeaves(c: Settings, s: State, t: Thread, e: nat, key: string, value: int, since: int)
    requires Defined(s) && Enabled(s, Lock(t)) && Holds(s, e, key, value, since) && Filed(s, e, key)
    ensures var s' := LockStep(c, s, t);
            && t in s'.threads
            && (!Filed(s', e, key) <==>
                  s'.threads[t].Reading? && (s'.threads[t].key == key || s.now - since > c.prune))
  {
    EnterLeaves(c, s.store, s.threads[t].key, s.now, e, key, value, since);
    hide AfterEnter, Decide;
  }

  /** A step takes a stored value out of the cache exactly when it is a forget, or a call that has to read and
      either reads for the same key or finds the value older than prune. */
  lemma LeavesIff(c: Settings, states: seq<State>, acts: seq<Action>, j: nat, e: nat, key: string, value: int, i: nat)
    requires Run(c, states, acts) && StoredAt(states, acts, j, e, key, value) && j < i < |acts| && Filed(states[i], e, key)
    ensures !Filed(states[i + 1], e, key) <==>
            || acts[i].Forget?
            || (acts[i].Lock? && acts[i].t in states[i + 1].threads && states[i + 1].threads[acts[i].t].Reading?
                && (states[i + 1].threads[acts[i].t].key == key || states[i].now - states[j].now > c.prune))
  {
    HoldsSince(c, states, acts, j, e, key, value, i);
    assert Step(c, states[i], acts[i], states[i + 1]);
    hide *;
    LeavesStep(c, states[i], acts[i], states[i + 1], e, key, value, states[j].now);
  }

  /** A value younger than ttl and prune is there for every call, unless it was forgotten: no read is made. */
  lemma YoungIsReused(c: Settings, states: seq<State>, acts: seq<Action>, j: nat, e: nat, key: string, value: int,
                      i: nat, t: Thread)
    requires Run(c, states, acts) && StoredAt(states, acts, j, e, key, value) && j < i < |acts|
    requires forall f | j < f < i :: !acts[f].Forget?
    requires states[i].now - states[j].now < c.ttl && states[i].now - states[j].now <= c.prune
    requires acts[i] == Lock(t) && t in states[i].threads && !states[i].threads[t].Returned? && states[i].threads[t].key == key
    ensures Answers(states, acts, i, t, key, value)
  {
    YoungStays(c, states, acts, j, e, key, value, i);
    ReusedIff(c, states, acts, j, e, key, value, i, t);
  }

  lemma FiledWhenStored(c: Settings, states: seq<State>, acts: seq<Action>, j: nat, e: nat, key: string, value: int)
    requires Run(c, states, acts) && StoredAt(states, acts, j, e, key, value)
    ensures Filed(states[j + 1], e, key)
  {
    RunKeepsInv(c, states, acts);
    assert states[j] in states;
    assert Step(c, states[j], acts[j], states[j + 1]);
    assert ThreadInv(states[j], acts[j].t);
    assert EntryInv(states[j], e);
    hide Run, Inv;
  }

  /** Whoever holds a young value's key does not read. */
  lemma YoungIsHit(c: Settings, s: State, a: Action, s': State, e: nat, key: string, value: int, since: int)
    requires Step(c, s, a, s') && a.Lock? && Filed(s, e, key) && Holds(s, e, key, value, since) && s.now - since < c.ttl
    ensures a.t in s.threads && a.t in s'.threads
    ensures s'.threads[a.t].Reading? ==> s.threads[a.t].key == s'.threads[a.t].key != key
  {
    hide AfterEnter;
  }

  lemma {:induction false} YoungStays(c: Settings, states: seq<State>, acts: seq<Action>, j: nat, e: nat, key: string,
                                      value: int, n: nat)
    requires Run(c, states, acts) && StoredAt(states, acts, j, e, key, value) && j < n <= |acts|
    requires forall f | j < f < n :: !acts[f].Forget?
    requires states[n].now - states[j].now < c.ttl && states[n].now - states[j].now <= c.prune
    ensures Filed(states[n], e, key)
    decreases n
  {
    assert Step(c, states[n - 1], acts[n - 1], states[n]);
    if j == n - 1 {
      FiledWhenStored(c, states, acts, j, e, key, value);
    } else {
      Onward(c, states, acts, n - 1, n);
      YoungStays(c, states, acts, j, e, key, value, n - 1);
      LeavesIff(c, states, acts, j, e, key, value, n - 1);
      HoldsSince(c, states, acts, j, e, key, value, n - 1);
      if acts[n - 1].Lock? {
        YoungIsHit(c, states[n - 1], acts[n - 1], states[n], e, key, value, states[j].now);
      }
    }
  }

  /** A step is the k-th forget, and finds the read for e returned but not yet stored. */
  predicate Catches(s: State, a: Action, e: nat, k: nat) {
    && a.Forget? && s.forgets + 1 == k
    && e in s.reader && s.reader[e] in s.threads
    && s.threads[s.reader[e]].HasRead? && s.threads[s.reader[e]].e == e
  }

  /** The k-th forget ran at step j, between the return of the read for e and its lock. */
  predicate CaughtBetween(states: seq<State>, acts: seq<Action>, j: nat, e: nat, k: nat)
    requires |states| == |acts| + 1 && j < |acts|
  {
    Catches(states[j], acts[j], e, k)
  }

  predicate SpansForget(s: State, e: nat, k: nat) {
    e in s.readAt && s.readAt[e] < k <= if e in s.publishedAt then s.publishedAt[e] else s.forgets
  }

  lemma SpanStep(c: Settings, s: State, a: Action, s': State, e: nat, k: nat)
    requires Inv(c, s) && Step(c, s, a, s')
    ensures SpansForget(s', e, k) <==> SpansForget(s, e, k) || Catches(s, a, e, k)
  {
    hide AnswerInv, Pruned, Forgotten, Decide;
    if e < |s.store.heap| {
      assert EntryInv(s, e);
      if s.reader[e] in s.threads {
        assert ThreadInv(s, s.reader[e]);
      }
    }
    if a.ReadReturns? || a.StoreValue? {
      assert ThreadInv(s, a.t);
      assert EntryInv(s, s.threads[a.t].e);
    }
  }

  /** That happened before step n. */
  predicate Caught(states: seq<State>, acts: seq<Action>, n: nat, e: nat, k: nat)
    requires |states| == |acts| + 1 && n <= |acts|
  {
    exists j | 0 <= j < n :: CaughtBetween(states, acts, j, e, k)
  }

  lemma CaughtOneMore(states: seq<State>, acts: seq<Action>, n: nat, e: nat, k: nat)
    requires |states| == |acts| + 1 && n < |acts|
    ensures Caught(states, acts, n + 1, e, k) <==> Caught(states, acts, n, e, k) || CaughtBetween(states, acts, n, e, k)
  {
    hide CaughtBetween;
  }

  lemma {:induction false} SpanIffCaught(c: Settings, states: seq<State>, acts: seq<Action>, n: nat, e: nat, k: nat)
    requires Run(c, states, acts) && n <= |acts|
    ensures SpansForget(states[n], e, k) <==> Caught(states, acts, n, e, k)
  {
    hide *;
    RunLength(c, states, acts);
    if n == 0 {
      NoSpanAtStart(c, states, acts, e, k);
    } else {
      SpanIffCaught(c, states, acts, n - 1, e, k);
      SpanAt(c, states, acts, n - 1, e, k);
      CaughtOneMore(states, acts, n - 1, e, k);
    }
  }

  lemma RunLength(c: Settings, states: seq<State>, acts: seq<Action>)
    requires Run(c, states, acts)
    ensures |states| == |acts| + 1
  {
    hide Step;
  }

  lemma NoSpanAtStart(c: Settings, states: seq<State>, acts: seq<Action>, e: nat, k: nat)
    requires Run(c, states, acts)
    ensures !SpansForget(states[0], e, k) && !Caught(states, acts, 0, e, k)
  {
    hide Step, CaughtBetween;
  }

  lemma SpanAt(c: Settings, states: seq<State>, acts: seq<Action>, j: nat, e: nat, k: nat)
    requires Run(c, states, acts) && j < |acts|
    ensures SpansForget(states[j + 1], e, k) <==> SpansForget(states[j], e, k) || CaughtBetween(states, acts, j, e, k)
  {
    RunKeepsInv(c, states, acts);
    assert states[j] in states;
    assert Step(c, states[j], acts[j], states[j + 1]);
    hide Run, Inv, Step, SpansForget, Catches;
    SpanStep(c, states[j], acts[j], states[j + 1], e, k);
  }

  /** When the read behind an answer had itself returned before the call's last forget: exactly when
      that forget ran between the read's return and its lock. */
  lemma ReadPredatesForgetIff(c: Settings, states: seq<State>, acts: seq<Action>, a: Answer)
    requires Run(c, states, acts) && a in states[|acts|].answers
    ensures a.e in states[|acts|].readAt
    ensures states[|acts|].readAt[a.e] < a.began <==>
            exists j | 0 <= j < |acts| :: CaughtBetween(states, acts, j, a.e, a.began)
  {
    RunKeepsInv(c, states, acts);
    assert states[|acts|] in states;
    assert AnswerInv(states[|acts|], a);
    SpanIffCaught(c, states, acts, |acts|, a.e, a.began);
  }

  lemma RunStarts(c: Settings)
    ensures Run(c, [Init()], [])
  {
  }

  lemma RunExtends(c: Settings, states: seq<State>, acts: seq<Action>, a: Action, s': State)
    requires Run(c, states, acts) && Step(c, states[|acts|], a, s')
    ensures Run(c, states + [s'], acts + [a])
    ensures |states| == |acts| + 1
  {
    hide Step;
    forall i | 0 <= i <= |acts|
      ensures Step(c, (states + [s'])[i], (acts + [a])[i], (states + [s'])[i + 1])
    {
      assert i < |acts| ==> Step(c, states[i], acts[i], states[i + 1]);
    }
  }

  /** One get reads, another waits for it, and the read panics. */
  lemma WaiterMayBeStranded(c: Settings) returns (states: seq<State>, acts: seq<Action>)
    ensures Run(c, states, acts) && |states| == |acts| + 1
    ensures var s := states[|acts|];
            && 1 in s.threads && s.threads[1] == Waiting("k", 0, 0) && 0 !in s.closed
            && 0 < |s.store.heap| && ReadPanicked(s, 0)
  {
    RunStarts(c);
    hide Run;
    states, acts := [Init()], [];
    var s := Init().(threads := map[0 := Looping("k", 0)]);
    RunExtends(c, states, acts, Call(0, "k"), s);
    states, acts := states + [s], acts + [Call(0, "k")];
    assert Pruned(c, Installed(s.store, "k"), 0).entries == map["k" := 0];
    s := s.(store := Store(map["k" := 0], [Entry("k", true, 0, 0)]),
            threads := map[0 := Reading("k", 0, 0)], reader := map[0 := 0]);
    RunExtends(c, states, acts, Lock(0), s);
    states, acts := states + [s], acts + [Lock(0)];
    s := s.(threads := map[0 := Reading("k", 0, 0), 1 := Looping("k", 0)]);
    RunExtends(c, states, acts, Call(1, "k"), s);
    states, acts := states + [s], acts + [Call(1, "k")];
    s := s.(threads := map[0 := Reading("k", 0, 0), 1 := Waiting("k", 0, 0)]);
    RunExtends(c, states, acts, Lock(1), s);
    states, acts := states + [s], acts + [Lock(1)];
    s := s.(threads := map[0 := Panicked("k", 0, 0), 1 := Waiting("k", 0, 0)]);
    RunExtends(c, states, acts, ReadPanics(0), s);
    states, acts := states + [s], acts + [ReadPanics(0)];
  }

  /** One get published its entry and its read has returned 7. */
  lemma ReadJustReturned(c: Settings) returns (states: seq<State>, acts: seq<Action>)
    ensures Run(c, states, acts) && |states| == |acts| + 1
    ensures states[|acts|] == Init().(store := Store(map["k" := 0], [Entry("k", true, 0, 0)]),
                                      threads := map[0 := HasRead("k", 0, 0, 7)],
                                      reader := map[0 := 0], readAt := map[0 := 0])
  {
    RunStarts(c);
    hide Run;
    states, acts := [Init()], [];
    var s1 := Init().(threads := map[0 := Looping("k", 0)]);
    RunExtends(c, states, acts, Call(0, "k"), s1);
    states, acts := states + [s1], acts + [Call(0, "k")];
    assert Pruned(c, Installed(s1.store, "k"), 0).entries == map["k" := 0];
    var s2 := s1.(store := Store(map["k" := 0], [Entry("k", true, 0, 0)]),
                  threads := map[0 := Reading("k", 0, 0)], reader := map[0 := 0]);
    RunExtends(c, states, acts, Lock(0), s2);
    states, acts := states + [s2], acts + [Lock(0)];
    var s3 := s2.(threads := map[0 := HasRead("k", 0, 0, 7)], readAt := map[0 := 0]);
    RunExtends(c, states, acts, ReadReturns(0, 7), s3);
    states, acts := states + [s3], acts + [ReadReturns(0, 7)];
  }

  /** Then forget ran and a second get began, and only then was the value stored. */
  lemma StoredAfterForget(c: Settings) returns (states: seq<State>, acts: seq<Action>)
    ensures Run(c, states, acts) && |states| == |acts| + 1
    ensures states[|acts|] == State(Store(map["k" := 0], [Entry("k", false, 7, 0)]), {},
                                    map[0 := Closing("k", 0, 0, 7), 1 := Looping("k", 1)], 0,
                                    1, map[0 := 0], map[0 := 0], map[0 := 1], [])
  {
    hide Run;
    states, acts := ReadJustReturned(c);
    var s3 := states[|acts|];
    assert Forgotten(s3.store).entries == map["k" := 0];
    var s4 := s3.(forgets := 1);
    RunExtends(c, states, acts, Forget, s4);
    states, acts := states + [s4], acts + [Forget];
    var s5 := s4.(threads := map[0 := HasRead("k", 0, 0, 7), 1 := Looping("k", 1)]);
    RunExtends(c, states, acts, Call(1, "k"), s5);
    states, acts := states + [s5], acts + [Call(1, "k")];
    var s6 := s5.(store := Store(map["k" := 0], [Entry("k", false, 7, 0)]),
                  threads := map[0 := Closing("k", 0, 0, 7), 1 := Looping("k", 1)], publishedAt := map[0 := 1]);
    RunExtends(c, states, acts, StoreValue(0), s6);
    states, acts := states + [s6], acts + [StoreValue(0)];
  }

  /** The bound is on storing, not on reading: a read that had already returned when forget ran,
      but had not yet taken the lock to store its value, still answers a call begun afterwards. */
  lemma ReadMayPredateForget(c: Settings) returns (states: seq<State>, acts: seq<Action>, a: Answer)
    requires c.ttl > 0
    ensures Run(c, states, acts) && |states| == |acts| + 1 && a in states[|acts|].answers
    ensures a.e in states[|acts|].readAt && states[|acts|].readAt[a.e] < a.began
  {
    hide Run;
    states, acts := StoredAfterForget(c);
    a := Answer("k", 1, 0, 7);
    var s6 := states[|acts|];
    var s7 := s6.(threads := map[0 := Closing("k", 0, 0, 7), 1 := Returned], answers := [a]);
    RunExtends(c, states, acts, Lock(1), s7);
    states, acts := states + [s7], acts + [Lock(1)];
  }
}
