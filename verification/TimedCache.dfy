/** The list cache with its time to live. A registry entry is not renewed when a key it already lists
    is stored again, so a stored answer can outlive its registration. What still holds: no answer is
    older than the time to live, an answer that is listed is fresh, and without expiry every answer
    is. */
module TimedCache {
  import opened SequenceFacts
  import opened QueryCache

  datatype Stored<V> = Stored(entry: Entry<V>, expires: int)

  datatype Snapshot<T> = Snapshot(at: int, table: T)

  /** A service with one registry; `history` records the table after every step. */
  datatype State<T, V> = State(now: int, table: T, store: map<string, Stored<V>>, history: seq<Snapshot<T>>)

  datatype Step<T> = Tick(ms: nat) | Read(q: ListQuery) | Write(table: T)

  /** The fixed parameters: time to live, registry key, and the uncached query. */
  datatype Setup<!T, !V> = Setup(ttl: nat, registry: string, ask: (T, ListQuery) -> V)

  /** What a lookup sees: an entry is dropped once its time has passed. */
  function LiveAt<V>(store: map<string, Stored<V>>, now: int): Entries<V> {
    map k | k in store && now <= store[k].expires :: store[k].entry
  }

  function LiveEntries<T, V>(s: State<T, V>): Entries<V> {
    LiveAt(s.store, s.now)
  }

  /** What a read of the query returns. */
  function Answered<T, V>(c: Setup<T, V>, s: State<T, V>, q: ListQuery): V {
    var live := LiveEntries(s);
    if KeyOf(q) in live && live[KeyOf(q)].Answer? then live[KeyOf(q)].value else c.ask(s.table, q)
  }

  /** A read stores an answer it did not find, and lists its key if it is not listed. */
  function ReadAt<V>(store: map<string, Stored<V>>, now: int, ttl: nat, registry: string, key: string, value: V)
      : map<string, Stored<V>> {
    var live := LiveAt(store, now);
    if key in live then store
    else
      var filled := store[key := Stored(Answer(value), now + ttl)];
      var listed := Listed(live, registry);
      if key in listed then filled else filled[registry := Stored(Keys(listed + [key]), now + ttl)]
  }

  function AfterRead<T, V>(c: Setup<T, V>, s: State<T, V>, q: ListQuery): map<string, Stored<V>> {
    ReadAt(s.store, s.now, c.ttl, c.registry, KeyOf(q), c.ask(s.table, q))
  }

  function AfterWrite<T, V>(c: Setup<T, V>, s: State<T, V>): map<string, Stored<V>> {
    s.store - Elements(Listed(LiveEntries(s), c.registry)) - {c.registry}
  }

  function Next<T, V>(c: Setup<T, V>, s: State<T, V>, step: Step<T>): State<T, V> {
    var (now, table, store) :=
      match step
      case Tick(ms) => (s.now + ms, s.table, s.store)
      case Read(q) => (s.now, s.table, AfterRead(c, s, q))
      case Write(table) => (s.now, table, AfterWrite(c, s));
    State(now, table, store, s.history + [Snapshot(now, table)])
  }

  function Start<T, V>(now: int, table: T): State<T, V> {
    State(now, table, map[], [Snapshot(now, table)])
  }

  function Run<T, V>(c: Setup<T, V>, s: State<T, V>, steps: seq<Step<T>>): State<T, V> {
    if steps == [] then s else Next(c, Run(c, s, steps[..|steps| - 1]), steps[|steps| - 1])
  }

  /** Reads ask queries of this registry, and the answer depends on the query only. */
  ghost predicate Proper<T(!new), V>(c: Setup<T, V>) {
    && (exists q :: Askable(q) && RegistryOf(q) == c.registry)
    && (forall t, p, q :: SameQuery(p, q) ==> c.ask(t, p) == c.ask(t, q))
  }

  ghost predicate Ours<T, V>(c: Setup<T, V>, q: ListQuery) {
    Askable(q) && RegistryOf(q) == c.registry
  }

  ghost predicate OurReads<T, V>(c: Setup<T, V>, steps: seq<Step<T>>) {
    forall i :: 0 <= i < |steps| && steps[i].Read? ==> Ours(c, steps[i].q)
  }

  // ---- the age of an answer ----------------------------------------------------------------

  /** The value was the true answer at a recorded moment no earlier than `since`. */
  ghost predicate WasTrue<T, V>(c: Setup<T, V>, s: State<T, V>, q: ListQuery, value: V, since: int) {
    exists i :: 0 <= i < |s.history| && since <= s.history[i].at <= s.now && value == c.ask(s.history[i].table, q)
  }

  ghost predicate Aged<T, V>(c: Setup<T, V>, s: State<T, V>) {
    && s.history != [] && s.history[|s.history| - 1] == Snapshot(s.now, s.table)
    && forall q :: Ours(c, q) && KeyOf(q) in s.store ==>
         var e := s.store[KeyOf(q)];
         e.entry.Answer? && WasTrue(c, s, q, e.entry.value, e.expires - c.ttl)
  }

  lemma HistoryGrows<T, V>(c: Setup<T, V>, s: State<T, V>, step: Step<T>, q: ListQuery, value: V, since: int)
    requires WasTrue(c, s, q, value, since)
    ensures WasTrue(c, Next(c, s, step), q, value, since)
  {
    var i :| 0 <= i < |s.history| && since <= s.history[i].at <= s.now && value == c.ask(s.history[i].table, q);
    assert Next(c, s, step).history[i] == s.history[i];
  }

  lemma StepKeepsAged<T(!new), V>(c: Setup<T, V>, s: State<T, V>, step: Step<T>)
    requires Proper(c) && Aged(c, s) && (step.Read? ==> Ours(c, step.q))
    ensures Aged(c, Next(c, s, step))
  {
    var u := Next(c, s, step);
    forall q | Ours(c, q) && KeyOf(q) in u.store
      ensures u.store[KeyOf(q)].entry.Answer?
      ensures WasTrue(c, u, q, u.store[KeyOf(q)].entry.value, u.store[KeyOf(q)].expires - c.ttl)
    {
      KeysNameQueries(q, q);
      if KeyOf(q) in s.store && u.store[KeyOf(q)] == s.store[KeyOf(q)] {
        var e := s.store[KeyOf(q)];
        HistoryGrows(c, s, step, q, e.entry.value, e.expires - c.ttl);
      } else {
        KeysNameQueries(step.q, q);
        var last := |u.history| - 1;
        assert u.history[last] == Snapshot(s.now, s.table);
      }
    }
  }

  lemma {:induction false} AlwaysAged<T(!new), V>(c: Setup<T, V>, now: int, table: T, steps: seq<Step<T>>)
    requires Proper(c) && OurReads(c, steps)
    ensures Aged(c, Run(c, Start(now, table), steps))
  {
    if steps != [] {
      AlwaysAged(c, now, table, steps[..|steps| - 1]);
      StepKeepsAged(c, Run(c, Start(now, table), steps[..|steps| - 1]), steps[|steps| - 1]);
    }
  }

  /** In every state of every run, a read returns what the uncached query gave at some moment no
      longer ago than the time to live. */
  lemma AnswersAreRecent<T(!new), V>(c: Setup<T, V>, now: int, table: T, steps: seq<Step<T>>, q: ListQuery)
    requires Proper(c) && OurReads(c, steps) && Ours(c, q)
    ensures var s := Run(c, Start(now, table), steps);
            WasTrue(c, s, q, Answered(c, s, q), s.now - c.ttl)
  {
    var s := Run(c, Start(now, table), steps);
    AlwaysAged(c, now, table, steps);
    if KeyOf(q) in LiveEntries(s) {
      var e := s.store[KeyOf(q)];
      var i :| 0 <= i < |s.history| && e.expires - c.ttl <= s.history[i].at <= s.now &&
        e.entry.value == c.ask(s.history[i].table, q);
    } else {
      assert s.history[|s.history| - 1] == Snapshot(s.now, s.table);
    }
  }

  // ---- listed answers are fresh ------------------------------------------------------------

  ghost predicate ListedFresh<T, V>(c: Setup<T, V>, s: State<T, V>) {
    var live := LiveEntries(s);
    && c.registry !in Listed(live, c.registry)
    && forall q :: Ours(c, q) && KeyOf(q) in live && KeyOf(q) in Listed(live, c.registry) ==>
         live[KeyOf(q)] == Answer(c.ask(s.table, q))
  }

  lemma MissedReadAt<V>(store: map<string, Stored<V>>, now: int, ttl: nat, registry: string, key: string, value: V)
    requires key != registry && key !in LiveAt(store, now)
    ensures var live, live' := LiveAt(store, now), LiveAt(ReadAt(store, now, ttl, registry, key, value), now);
            var listed := Listed(live, registry);
            && Listed(live', registry) == (if key in listed then listed else listed + [key])
            && key in live' && live'[key] == Answer(value)
            && (forall k :: k != key && k != registry ==>
                (k in live' <==> k in live) && (k in live' ==> live'[k] == live[k]))
  {
  }

  /** What a missed read adds to the live entries. */
  lemma MissedRead<T, V>(c: Setup<T, V>, s: State<T, V>, r: ListQuery)
    requires Ours(c, r) && KeyOf(r) !in LiveEntries(s)
    ensures var live, live' := LiveEntries(s), LiveEntries(Next(c, s, Read(r)));
            var listed := Listed(live, c.registry);
            && Listed(live', c.registry) == (if KeyOf(r) in listed then listed else listed + [KeyOf(r)])
            && KeyOf(r) in live' && live'[KeyOf(r)] == Answer(c.ask(s.table, r))
            && (forall k :: k != KeyOf(r) && k != c.registry ==>
                  (k in live' <==> k in live) && (k in live' ==> live'[k] == live[k]))
  {
    KeysNameQueries(r, r);
    MissedReadAt(s.store, s.now, c.ttl, c.registry, KeyOf(r), c.ask(s.table, r));
  }

  lemma StepKeepsListedFresh<T(!new), V>(c: Setup<T, V>, s: State<T, V>, step: Step<T>)
    requires Proper(c) && ListedFresh(c, s) && (step.Read? ==> Ours(c, step.q))
    ensures ListedFresh(c, Next(c, s, step))
  {
    var u := Next(c, s, step);
    var live, live' := LiveEntries(s), LiveEntries(u);
    match step {
      case Tick(_) =>
        assert Listed(live', c.registry) == Listed(live, c.registry) || Listed(live', c.registry) == [];
      case Write(_) =>
        assert c.registry !in live';
      case Read(r) =>
        KeysNameQueries(r, r);
        if KeyOf(r) in live {
          assert live' == live;
        } else {
          MissedRead(c, s, r);
          forall q | Ours(c, q) && KeyOf(q) in live' && KeyOf(q) in Listed(live', c.registry)
            ensures live'[KeyOf(q)] == Answer(c.ask(u.table, q))
          {
            KeysNameQueries(q, r);
          }
        }
    }
  }

  lemma {:induction false} AlwaysListedFresh<T(!new), V>(c: Setup<T, V>, now: int, table: T, steps: seq<Step<T>>)
    requires Proper(c) && OurReads(c, steps)
    ensures ListedFresh(c, Run(c, Start(now, table), steps))
  {
    if steps != [] {
      AlwaysListedFresh(c, now, table, steps[..|steps| - 1]);
      StepKeepsListedFresh(c, Run(c, Start(now, table), steps[..|steps| - 1]), steps[|steps| - 1]);
    }
  }

  /** A read can only be stale when its key is stored but no longer listed. */
  lemma StaleOnlyIfUnlisted<T(!new), V>(c: Setup<T, V>, now: int, table: T, steps: seq<Step<T>>, q: ListQuery)
    requires Proper(c) && OurReads(c, steps) && Ours(c, q)
    ensures var s := Run(c, Start(now, table), steps);
            var live := LiveEntries(s);
            KeyOf(q) !in live || KeyOf(q) in Listed(live, c.registry) ==> Answered(c, s, q) == c.ask(s.table, q)
  {
    AlwaysListedFresh(c, now, table, steps);
  }

  /** What a read returns after a write: the stored answer if it is live but not listed, else a fresh one. */
  lemma AnswerAfterWrite<T, V>(c: Setup<T, V>, s: State<T, V>, q: ListQuery, t: T)
    requires Ours(c, q)
    requires KeyOf(q) in LiveEntries(s) ==> LiveEntries(s)[KeyOf(q)].Answer?
    ensures var live := LiveEntries(s);
            Answered(c, Next(c, s, Write(t)), q) ==
              if KeyOf(q) in live && KeyOf(q) !in Listed(live, c.registry) then live[KeyOf(q)].value else c.ask(t, q)
  {
    KeysNameQueries(q, q);
    assert KeyOf(q) in LiveEntries(Next(c, s, Write(t))) <==>
           KeyOf(q) in LiveEntries(s) && KeyOf(q) !in Listed(LiveEntries(s), c.registry);
  }

  /** The exact condition, which the invalidation tests: in every state of every run, the next write leaves
      reads of the query fresh, whatever it writes, if and only if the query's key is unstored or listed.
      The query must have two different answers to tell. */
  lemma FreshAfterEveryWriteIff<T(!new), V>(c: Setup<T, V>, now: int, table: T, steps: seq<Step<T>>, q: ListQuery,
                                            t0: T, t1: T)
    requires Proper(c) && OurReads(c, steps) && Ours(c, q) && c.ask(t0, q) != c.ask(t1, q)
    ensures var s := Run(c, Start(now, table), steps);
            (forall t :: Answered(c, Next(c, s, Write(t)), q) == c.ask(t, q)) <==>
            KeyOf(q) !in LiveEntries(s) || KeyOf(q) in Listed(LiveEntries(s), c.registry)
  {
    var s := Run(c, Start(now, table), steps);
    var live := LiveEntries(s);
    AlwaysAged(c, now, table, steps);
    forall t
      ensures Answered(c, Next(c, s, Write(t)), q) ==
              if KeyOf(q) in live && KeyOf(q) !in Listed(live, c.registry) then live[KeyOf(q)].value else c.ask(t, q)
    {
      AnswerAfterWrite(c, s, q, t);
    }
    var first, second := Answered(c, Next(c, s, Write(t0)), q), Answered(c, Next(c, s, Write(t1)), q);
  }

  // ---- without expiry ----------------------------------------------------------------------

  /** Nothing expires before `until`, and every stored answer is listed. */
  ghost predicate AllListed<T, V>(c: Setup<T, V>, s: State<T, V>, until: int) {
    && (forall k :: k in s.store ==> until <= s.store[k].expires)
    && (s.now <= until ==> forall q :: Ours(c, q) && KeyOf(q) in s.store ==>
        KeyOf(q) in Listed(LiveEntries(s), c.registry))
  }

  lemma StepKeepsAllListed<T(!new), V>(c: Setup<T, V>, s: State<T, V>, step: Step<T>, until: int)
    requires Proper(c) && AllListed(c, s, until) && (step.Read? ==> Ours(c, step.q)) && until <= s.now + c.ttl
    ensures AllListed(c, Next(c, s, step), until)
  {
    var u := Next(c, s, step);
    if u.now <= until {
      var live, live' := LiveEntries(s), LiveEntries(u);
      if step.Read? && KeyOf(step.q) !in live {
        MissedRead(c, s, step.q);
      } else if !step.Write? {
        assert live' == live;
      }
      forall q | Ours(c, q) && KeyOf(q) in u.store ensures KeyOf(q) in Listed(live', c.registry) {
        KeysNameQueries(q, q);
      }
    }
  }

  lemma {:induction false} ListedUntilExpiry<T(!new), V>(c: Setup<T, V>, now: int, table: T, steps: seq<Step<T>>)
    requires Proper(c) && OurReads(c, steps)
    ensures AllListed(c, Run(c, Start(now, table), steps), now + c.ttl)
    ensures now <= Run(c, Start(now, table), steps).now
  {
    if steps != [] {
      ListedUntilExpiry(c, now, table, steps[..|steps| - 1]);
      StepKeepsAllListed(c, Run(c, Start(now, table), steps[..|steps| - 1]), steps[|steps| - 1], now + c.ttl);
    }
  }

  /** As long as a run lasts no longer than the time to live, a read returns exactly what the uncached
      query gives now. */
  lemma FreshWithoutExpiry<T(!new), V>(c: Setup<T, V>, now: int, table: T, steps: seq<Step<T>>, q: ListQuery)
    requires Proper(c) && OurReads(c, steps) && Ours(c, q)
    requires Run(c, Start(now, table), steps).now <= now + c.ttl
    ensures var s := Run(c, Start(now, table), steps); Answered(c, s, q) == c.ask(s.table, q)
  {
    ListedUntilExpiry(c, now, table, steps);
    AlwaysListedFresh(c, now, table, steps);
  }

  // ---- with expiry -------------------------------------------------------------------------

  /** Store `q`, list another key a moment later, let `q` expire, store it again under the old
      registration, let that expire, then write. */
  function RefillRun<T, V>(c: Setup<T, V>, q: ListQuery, other: ListQuery, table: T): seq<Step<T>> {
    [Read(q), Tick(1), Read(other), Tick(c.ttl), Read(q), Tick(1), Write(table)]
  }

  /** A run, first step first. */
  lemma {:induction false} RunFromFirst<T, V>(c: Setup<T, V>, s: State<T, V>, steps: seq<Step<T>>)
    requires steps != []
    ensures Run(c, s, steps) == Run(c, Next(c, s, steps[0]), steps[1..])
  {
    if |steps| > 1 {
      RunFromFirst(c, s, steps[..|steps| - 1]);
      assert steps[..|steps| - 1][1..] == steps[1..][..|steps| - 2];
    } else {
      assert steps == [steps[0]];
    }
  }

  /** The store once `k` and, a millisecond later, `l` have been stored and listed. */
  function BothListed<V>(registry: string, k: string, l: string, a: V, b: V, ttl: nat): map<string, Stored<V>> {
    map[k := Stored(Answer(a), ttl), l := Stored(Answer(b), ttl + 1), registry := Stored(Keys([k, l]), ttl + 1)]
  }

  lemma ReadBoth<V>(registry: string, k: string, l: string, a: V, b: V, ttl: nat)
    requires ttl > 0 && k != l && k != registry && l != registry
    ensures ReadAt(ReadAt(map[], 0, ttl, registry, k, a), 1, ttl, registry, l, b) ==
            BothListed(registry, k, l, a, b, ttl)
  {
    var first := ReadAt(map[], 0, ttl, registry, k, a);
    assert [] + [k] == [k];
    assert first == map[k := Stored(Answer(a), ttl), registry := Stored(Keys([k]), ttl)];
    assert Listed(LiveAt(first, 1), registry) == [k];
    assert [k] + [l] == [k, l];
  }

  /** The new answer under `k` outlives the registry entry that lists it. */
  lemma OutlivesRegistration<V>(registry: string, k: string, l: string, a: V, b: V, ttl: nat)
    requires ttl > 0 && k != l && k != registry && l != registry
    ensures var store := ReadAt(BothListed(registry, k, l, a, b, ttl), ttl + 1, ttl, registry, k, a);
            && Listed(LiveAt(store, ttl + 2), registry) == []
            && k in store && store[k] == Stored(Answer(a), 2 * ttl + 1)
  {
  }

  lemma RunSeven<T, V>(c: Setup<T, V>, s: State<T, V>, steps: seq<Step<T>>)
    requires |steps| == 7
    ensures Run(c, s, steps) == Next(c, Next(c, Next(c, Next(c, Next(c, Next(c, Next(c, s,
              steps[0]), steps[1]), steps[2]), steps[3]), steps[4]), steps[5]), steps[6])
  {
    RunFromFirst(c, s, steps);
    var s1 := Next(c, s, steps[0]);
    RunFromFirst(c, s1, steps[1..]);
    var s2 := Next(c, s1, steps[1]);
    assert steps[1..][1..] == steps[2..];
    RunFromFirst(c, s2, steps[2..]);
    var s3 := Next(c, s2, steps[2]);
    assert steps[2..][1..] == steps[3..];
    RunFromFirst(c, s3, steps[3..]);
    var s4 := Next(c, s3, steps[3]);
    assert steps[3..][1..] == steps[4..];
    RunFromFirst(c, s4, steps[4..]);
    var s5 := Next(c, s4, steps[4]);
    assert steps[4..][1..] == steps[5..];
    RunFromFirst(c, s5, steps[5..]);
    var s6 := Next(c, s5, steps[5]);
    assert steps[5..][1..] == steps[6..];
    RunFromFirst(c, s6, steps[6..]);
    assert steps[6..][1..] == [];
  }

  /** The three stretches of the refill run, in terms of their stores. */
  lemma RefillFirst<T, V>(c: Setup<T, V>, s: State<T, V>, q: ListQuery, other: ListQuery)
    ensures var u := Next(c, Next(c, Next(c, s, Read(q)), Tick(1)), Read(other));
            && u.now == s.now + 1 && u.table == s.table
            && u.store == ReadAt(ReadAt(s.store, s.now, c.ttl, c.registry, KeyOf(q), c.ask(s.table, q)),
                                 s.now + 1, c.ttl, c.registry, KeyOf(other), c.ask(s.table, other))
  {
  }

  lemma RefillAgain<T, V>(c: Setup<T, V>, s: State<T, V>, q: ListQuery)
    ensures var u := Next(c, Next(c, s, Tick(c.ttl)), Read(q));
            && u.now == s.now + c.ttl && u.table == s.table
            && u.store == ReadAt(s.store, s.now + c.ttl, c.ttl, c.registry, KeyOf(q), c.ask(s.table, q))
  {
  }

  lemma LateWrite<T, V>(c: Setup<T, V>, s: State<T, V>, t1: T)
    ensures var u := Next(c, Next(c, s, Tick(1)), Write(t1));
            && u.now == s.now + 1 && u.table == t1
            && u.store == s.store - Elements(Listed(LiveAt(s.store, s.now + 1), c.registry)) - {c.registry}
  {
  }

  lemma StillLive<V>(store: map<string, Stored<V>>, registry: string, k: string, a: V, now: int)
    requires Listed(LiveAt(store, now), registry) == [] && k != registry
    requires k in store && store[k].entry == Answer(a) && now <= store[k].expires
    ensures var left := LiveAt(store - Elements(Listed(LiveAt(store, now), registry)) - {registry}, now);
            k in left && left[k] == Answer(a)
  {
  }

  /** Exact coherence does not survive expiry: in every setup with two different keys, the refill run
      ends with a read that returns the answer from before the write. */
  lemma RefilledEntryGoesStale<T(!new), V>(c: Setup<T, V>, q: ListQuery, other: ListQuery, t0: T, t1: T)
    requires c.ttl > 0 && Ours(c, q) && Ours(c, other) && !SameQuery(q, other)
    ensures var s := Run(c, Start(0, t0), RefillRun(c, q, other, t1));
            s.table == t1 && Answered(c, s, q) == c.ask(t0, q)
  {
    KeysNameQueries(q, other);
    KeysNameQueries(q, q);
    KeysNameQueries(other, other);
    RunSeven(c, Start(0, t0), RefillRun(c, q, other, t1));
    RefillFirst(c, Start(0, t0), q, other);
    var s3 := Next(c, Next(c, Next(c, Start(0, t0), Read(q)), Tick(1)), Read(other));
    RefillAgain(c, s3, q);
    LateWrite(c, Next(c, Next(c, s3, Tick(c.ttl)), Read(q)), t1);
    StaleStore(c.registry, KeyOf(q), KeyOf(other), c.ask(t0, q), c.ask(t0, other), c.ttl);
  }

  lemma StaleStore<V>(registry: string, k: string, l: string, a: V, b: V, ttl: nat)
    requires ttl > 0 && k != l && k != registry && l != registry
    ensures var both := ReadAt(ReadAt(map[], 0, ttl, registry, k, a), 1, ttl, registry, l, b);
            var refilled := ReadAt(both, ttl + 1, ttl, registry, k, a);
            var left := LiveAt(refilled - Elements(Listed(LiveAt(refilled, ttl + 2), registry)) - {registry}, ttl + 2);
            k in left && left[k] == Answer(a)
  {
    ReadBoth(registry, k, l, a, b, ttl);
    OutlivesRegistration(registry, k, l, a, b, ttl);
    StillLive(ReadAt(BothListed(registry, k, l, a, b, ttl), ttl + 1, ttl, registry, k, a), registry, k, a, ttl + 2);
  }
}
