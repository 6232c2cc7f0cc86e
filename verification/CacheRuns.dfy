/** Runs of one service's list cache, with reads split at their awaits: a read that finds nothing takes its rows from
    the database, stores its answer, reads the registry and writes it back, with any other steps in between. An entry
    is modelled by the rows that its page was made from, so that it is right when the query would find the same rows. */
module CacheRuns {
  import opened SequenceFacts
  import opened QueryCache
  import Runs

  /** A read between its awaits: it has its rows, it has stored them, it has read the listed keys. */
  datatype Waiting<R> =
    | Answering(q: ListQuery, seen: R)
    | Listing(q: ListQuery)
    | Relisting(q: ListQuery, keys: seq<string>)

  datatype State<R> = State(service: Service, rows: ListQuery -> R, cache: Entries<R>, waiting: map<nat, Waiting<R>>)

  /** A write changes the rows and then deletes what is listed in the registry of `via`, or nothing at all. */
  datatype Step<R> =
    | Miss(handler: nat, q: ListQuery)
    | StoreAnswer(handler: nat)
    | ReadRegistry(handler: nat)
    | WriteRegistry(handler: nat)
    | Write(via: Option<ListQuery>, rows: ListQuery -> R)

  ghost predicate Asked(s: State, q: ListQuery) {
    Askable(q) && ServiceOf(q) == s.service
  }

  /** A hit changes nothing and is no step. */
  ghost function Missed<R>(s: State<R>, h: nat, q: ListQuery): State<R> {
    if Asked(s, q) && KeyOf(q) !in s.cache && h !in s.waiting then
      s.(waiting := s.waiting[h := Answering(q, s.rows(q))])
    else s
  }

  function Stored<R>(s: State<R>, h: nat): State<R> {
    if h in s.waiting && s.waiting[h].Answering? then
      var w := s.waiting[h];
      s.(cache := s.cache[KeyOf(w.q) := Answer(w.seen)], waiting := s.waiting[h := Listing(w.q)])
    else s
  }

  function RegistryRead<R>(s: State<R>, h: nat): State<R> {
    if h in s.waiting && s.waiting[h].Listing? then
      var q := s.waiting[h].q;
      s.(waiting := s.waiting[h := Relisting(q, Listed(s.cache, RegistryOf(q)))])
    else s
  }

  function RegistryWritten<R>(s: State<R>, h: nat): State<R> {
    if h in s.waiting && s.waiting[h].Relisting? then
      var w := s.waiting[h];
      s.(cache := if KeyOf(w.q) in w.keys then s.cache else s.cache[RegistryOf(w.q) := Keys(w.keys + [KeyOf(w.q)])],
         waiting := s.waiting - {h})
    else s
  }

  ghost predicate Writable<R>(s: State<R>, via: Option<ListQuery>, rows: ListQuery -> R) {
    OfQuery(rows) && (via.Some? ==> Asked(s, via.value))
  }

  ghost function Written<R>(s: State<R>, via: Option<ListQuery>, rows: ListQuery -> R): State<R> {
    if !Writable(s, via, rows) then s
    else s.(rows := rows, cache := if via == None then s.cache else Invalidated(s.cache, RegistryOf(via.value)))
  }

  ghost function Next<R>(s: State<R>, step: Step<R>): State<R> {
    match step
    case Miss(h, q) => Missed(s, h, q)
    case StoreAnswer(h) => Stored(s, h)
    case ReadRegistry(h) => RegistryRead(s, h)
    case WriteRegistry(h) => RegistryWritten(s, h)
    case Write(via, rows) => Written(s, via, rows)
  }

  lemma AnswerIsStored<R>(s: State<R>, h: nat, q: ListQuery)
    requires Asked(s, q) && KeyOf(q) !in s.cache && h !in s.waiting
    ensures Next(Next(s, Miss(h, q)), StoreAnswer(h)) ==
            s.(cache := s.cache[KeyOf(q) := Answer(s.rows(q))], waiting := s.waiting[h := Listing(q)])
  {
  }

  lemma KeyIsListed<R>(s: State<R>, h: nat, q: ListQuery)
    requires h in s.waiting && s.waiting[h] == Listing(q)
    ensures Next(Next(s, ReadRegistry(h)), WriteRegistry(h)) ==
            s.(cache := Registered(s.cache, RegistryOf(q), KeyOf(q)), waiting := s.waiting - {h})
  {
    assert s.waiting[h := Relisting(q, Listed(s.cache, RegistryOf(q)))] - {h} == s.waiting - {h};
  }

  /** The four parts of a read in a row store and list its answer. */
  lemma SplitReadIsWhole<R>(s: State<R>, h: nat, q: ListQuery)
    requires Asked(s, q) && KeyOf(q) !in s.cache && h !in s.waiting
    ensures Next(Next(Next(Next(s, Miss(h, q)), StoreAnswer(h)), ReadRegistry(h)), WriteRegistry(h)) ==
            s.(cache := Filled(s.cache, q, s.rows(q)))
  {
    AnswerIsStored(s, h, q);
    KeyIsListed(Next(Next(s, Miss(h, q)), StoreAnswer(h)), h, q);
    assert s.waiting[h := Listing(q)] - {h} == s.waiting;
  }

  // ---- when every entry is right -----------------------------------------------------------

  /** Every stored entry holds the rows that its query would find. */
  ghost predicate AllRight<R>(s: State<R>) {
    forall q :: Asked(s, q) ==> Right(s.cache, q, s.rows)
  }

  ghost predicate Sound<R>(s: State<R>) {
    AllRight(s) && OfQuery(s.rows) && forall h :: h in s.waiting ==> Asked(s, s.waiting[h].q)
  }

  /** An answer is stored while its rows are still as they were read, and a write finds every entry whose rows it
      changes in the registry that it goes by. */
  ghost predicate HarmlessStep<R(!new)>(s: State<R>, step: Step<R>) {
    match step
    case StoreAnswer(h) => h in s.waiting && s.waiting[h].Answering? ==> s.waiting[h].seen == s.rows(s.waiting[h].q)
    case Write(via, rows) =>
      Writable(s, via, rows) ==>
        forall q :: Asked(s, q) && KeyOf(q) in s.cache && s.rows(q) != rows(q) ==>
          via.Some? && KeyOf(q) in Listed(s.cache, RegistryOf(via.value))
    case _ => true
  }

  lemma StoreIff<R(!new)>(s: State<R>, h: nat)
    requires Sound(s)
    ensures AllRight(Stored(s, h)) <==> HarmlessStep(s, StoreAnswer(h))
  {
    if h in s.waiting && s.waiting[h].Answering? {
      var w, u := s.waiting[h], Stored(s, h);
      forall q | Asked(s, q)
        ensures Right(u.cache, q, u.rows) <==>
                  if SameQuery(q, w.q) then w.seen == s.rows(w.q) else Right(s.cache, q, s.rows)
      {
        KeysNameQueries(q, w.q);
      }
      assert SameQuery(w.q, w.q);
    }
  }

  lemma WriteIff<R(!new)>(s: State<R>, via: Option<ListQuery>, rows: ListQuery -> R)
    requires Sound(s)
    ensures AllRight(Written(s, via, rows)) <==> HarmlessStep(s, Write(via, rows))
  {
    if Writable(s, via, rows) {
      var u := Written(s, via, rows);
      forall q | Asked(s, q)
        ensures Right(u.cache, q, rows) <==>
                  (KeyOf(q) in s.cache && s.rows(q) != rows(q) ==>
                   via.Some? && KeyOf(q) in Listed(s.cache, RegistryOf(via.value)))
      {
        assert Right(s.cache, q, s.rows);
        if via.Some? {
          KeysNameQueries(q, via.value);
        }
      }
    }
  }

  lemma RelistKeepsRight<R(!new)>(s: State<R>, h: nat)
    requires Sound(s)
    ensures AllRight(RegistryWritten(s, h))
  {
    var u := RegistryWritten(s, h);
    forall q | Asked(s, q) ensures Right(u.cache, q, u.rows) {
      assert Right(s.cache, q, s.rows);
      if h in s.waiting {
        KeysNameQueries(q, s.waiting[h].q);
      }
    }
  }

  lemma StepIff<R(!new)>(s: State<R>, step: Step<R>)
    requires Sound(s)
    ensures AllRight(Next(s, step)) <==> HarmlessStep(s, step)
    ensures AllRight(Next(s, step)) ==> Sound(Next(s, step))
  {
    match step {
      case StoreAnswer(h) => StoreIff(s, h);
      case WriteRegistry(h) => RelistKeepsRight(s, h);
      case Write(via, rows) => WriteIff(s, via, rows);
      case _ =>
    }
  }

  /** Every entry is right in every state of a run if and only if each answer is stored while its rows are still as they
      were read, and each write finds every entry whose rows it changes in the registry that it goes by. */
  lemma ListsRightIff<R(!new)>(s: State<R>, steps: seq<Step<R>>)
    requires Sound(s)
    ensures Runs.Throughout((u, step) => Next(u, step), u => AllRight(u), s, steps) <==>
            Runs.AllHarmless((u, step) => Next(u, step), (u, step) => HarmlessStep(u, step), s, steps)
  {
    var next: (State<R>, Step<R>) -> State<R> := (u, step) => Next(u, step);
    forall u: State<R>, step: Step<R> | Sound(u)
      ensures AllRight(Next(u, step)) <==> HarmlessStep(u, step)
      ensures AllRight(Next(u, step)) ==> Sound(Next(u, step))
    {
      StepIff(u, step);
    }
    Runs.ThroughoutIff(next, u => Sound(u), u => AllRight(u), (u, step) => HarmlessStep(u, step), s, steps);
  }

  // ---- runs that go wrong ------------------------------------------------------------------

  /** It happens: a read that missed stores its answer after a write has changed its rows and dropped the lists. */
  lemma LateStoreIsStale<R(!new)>(s: State<R>, h: nat, q: ListQuery, via: Option<ListQuery>, rows: ListQuery -> R)
    requires Asked(s, q) && KeyOf(q) !in s.cache && h !in s.waiting && Writable(s, via, rows) && s.rows(q) != rows(q)
    ensures !AllRight(Next(Next(Next(s, Miss(h, q)), Write(via, rows)), StoreAnswer(h)))
  {
    var u := Next(Next(Next(s, Miss(h, q)), Write(via, rows)), StoreAnswer(h));
    assert u.rows == rows && Asked(u, q) && u.cache[KeyOf(q)] == Answer(s.rows(q));
  }

  /** Two reads of one registry, from an empty cache, each of which reads the registry before either writes it back. */
  ghost function TwoReads<R>(s: State<R>, p: ListQuery, q: ListQuery): State<R> {
    Next(Next(BothListing(s, p, q), WriteRegistry(0)), WriteRegistry(1))
  }

  ghost function BothStored<R>(s: State<R>, p: ListQuery, q: ListQuery): State<R> {
    Next(Next(Next(Next(s, Miss(0, p)), StoreAnswer(0)), Miss(1, q)), StoreAnswer(1))
  }

  ghost function BothListing<R>(s: State<R>, p: ListQuery, q: ListQuery): State<R> {
    Next(Next(BothStored(s, p, q), ReadRegistry(0)), ReadRegistry(1))
  }

  lemma BothAreStored<R>(s: State<R>, p: ListQuery, q: ListQuery)
    requires s.cache == map[] && s.waiting == map[] && Asked(s, p) && Asked(s, q) && KeyOf(p) != KeyOf(q)
    ensures BothStored(s, p, q) == s.(cache := map[KeyOf(p) := Answer(s.rows(p)), KeyOf(q) := Answer(s.rows(q))],
                                      waiting := map[0 := Listing(p), 1 := Listing(q)])
  {
    AnswerIsStored(s, 0, p);
    AnswerIsStored(Next(Next(s, Miss(0, p)), StoreAnswer(0)), 1, q);
  }

  lemma RegistryIsRead<R>(s: State<R>, h: nat, q: ListQuery, keys: seq<string>)
    requires h in s.waiting && s.waiting[h] == Listing(q) && Listed(s.cache, RegistryOf(q)) == keys
    ensures Next(s, ReadRegistry(h)) == s.(waiting := s.waiting[h := Relisting(q, keys)])
  {
  }

  lemma RegistryIsWritten<R>(s: State<R>, h: nat, q: ListQuery)
    requires h in s.waiting && s.waiting[h] == Relisting(q, [])
    ensures Next(s, WriteRegistry(h)) ==
            s.(cache := s.cache[RegistryOf(q) := Keys([KeyOf(q)])], waiting := s.waiting - {h})
  {
    assert [] + [KeyOf(q)] == [KeyOf(q)];
  }

  lemma BothListNothing<R>(s: State<R>, p: ListQuery, q: ListQuery)
    requires s.cache == map[] && s.waiting == map[] && Asked(s, p) && Asked(s, q) && KeyOf(p) != KeyOf(q)
    ensures BothListing(s, p, q) == s.(cache := map[KeyOf(p) := Answer(s.rows(p)), KeyOf(q) := Answer(s.rows(q))],
                                       waiting := map[0 := Relisting(p, []), 1 := Relisting(q, [])])
  {
    var u := BothStored(s, p, q);
    BothAreStored(s, p, q);
    NothingIsListed(p, q, p, s.rows(p), s.rows(q));
    NothingIsListed(p, q, q, s.rows(p), s.rows(q));
    RegistryIsRead(u, 0, p, []);
    RegistryIsRead(u.(waiting := u.waiting[0 := Relisting(p, [])]), 1, q, []);
  }

  lemma NothingIsListed<R>(p: ListQuery, q: ListQuery, r: ListQuery, x: R, y: R)
    requires Askable(p) && Askable(q) && Askable(r)
    ensures Listed(map[KeyOf(p) := Answer(x), KeyOf(q) := Answer(y)], RegistryOf(r)) == []
  {
    KeysNameQueries(p, r);
    KeysNameQueries(q, r);
  }

  /** Then the first key is not listed. */
  lemma FirstKeyIsLost<R>(s: State<R>, p: ListQuery, q: ListQuery)
    requires s.cache == map[] && s.waiting == map[] && Asked(s, p) && Asked(s, q) && KeyOf(p) != KeyOf(q)
    requires RegistryOf(p) == RegistryOf(q)
    ensures TwoReads(s, p, q) == s.(cache := map[KeyOf(p) := Answer(s.rows(p)), KeyOf(q) := Answer(s.rows(q)),
                                                 RegistryOf(p) := Keys([KeyOf(q)])])
  {
    var u := BothListing(s, p, q);
    BothListNothing(s, p, q);
    RegistryIsWritten(u, 0, p);
    RegistryIsWritten(Next(u, WriteRegistry(0)), 1, q);
    var c := map[KeyOf(p) := Answer(s.rows(p)), KeyOf(q) := Answer(s.rows(q))];
    assert c[RegistryOf(p) := Keys([KeyOf(p)])][RegistryOf(p) := Keys([KeyOf(q)])] ==
      c[RegistryOf(p) := Keys([KeyOf(q)])];
  }

  lemma BothAreRight<R(!new)>(s: State<R>, p: ListQuery, q: ListQuery)
    requires Asked(s, p) && Asked(s, q) && OfQuery(s.rows)
    requires s.cache == map[KeyOf(p) := Answer(s.rows(p)), KeyOf(q) := Answer(s.rows(q)),
                            RegistryOf(p) := Keys([KeyOf(q)])]
    ensures AllRight(s)
  {
    forall r | Asked(s, r) ensures Right(s.cache, r, s.rows) {
      KeysNameQueries(r, p);
      KeysNameQueries(r, q);
    }
  }

  /** It happens: both entries are right, and a write that changes the rows of the first and goes by its registry does
      not find it there. */
  lemma LostListingIsStale<R(!new)>(s: State<R>, p: ListQuery, q: ListQuery, rows: ListQuery -> R)
    requires s.cache == map[] && s.waiting == map[] && OfQuery(s.rows) && Asked(s, p) && Asked(s, q)
    requires KeyOf(p) != KeyOf(q) && RegistryOf(p) == RegistryOf(q) && OfQuery(rows) && s.rows(p) != rows(p)
    ensures AllRight(TwoReads(s, p, q)) && !AllRight(Next(TwoReads(s, p, q), Write(Some(p), rows)))
  {
    var u := TwoReads(s, p, q);
    FirstKeyIsLost(s, p, q);
    BothAreRight(u, p, q);
    WriteIff(u, Some(p), rows);
    KeysNameQueries(p, p);
    assert Asked(u, p) && KeyOf(p) in u.cache && KeyOf(p) !in Listed(u.cache, RegistryOf(p));
  }
}
