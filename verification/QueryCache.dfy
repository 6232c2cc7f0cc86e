/** The read-through list cache shared by the hotel, payment and room services: each answered query
    is stored under its key and the key is listed in a registry entry of the same cache, so that a
    write can delete every stored answer of its registry. */
module QueryCache {
  import opened SequenceFacts
  import opened CacheKeys

  /** The list queries of the three services, which share one cache. */
  datatype ListQuery =
    | HotelList(filter: seq<Prop>, isAdmin: bool)
    | PaymentList(filter: seq<Prop>, isAdmin: bool, userId: string)
    | RoomList(hotelId: string, filter: seq<Prop>)

  function KeyOf(q: ListQuery): string {
    match q
    case HotelList(filter, isAdmin) => HotelListKey(filter, isAdmin)
    case PaymentList(filter, isAdmin, userId) => PaymentListKey(filter, isAdmin, userId)
    case RoomList(hotelId, filter) => RoomListKey(hotelId, filter)
  }

  function RegistryOf(q: ListQuery): string {
    match q
    case HotelList(_, _) => HOTEL_REGISTRY
    case PaymentList(_, _, _) => PAYMENT_REGISTRY
    case RoomList(hotelId, _) => RoomRegistryKey(hotelId)
  }

  ghost predicate Askable(q: ListQuery) {
    && IsObject(q.filter)
    && (q.PaymentList? ==> NoColon(q.userId))
    && (q.RoomList? ==> NoColon(q.hotelId))
  }

  /** The same caller or hotel, and filters that agree on every defined field. */
  ghost predicate SameQuery(p: ListQuery, q: ListQuery) {
    FieldsOf(p.filter) == FieldsOf(q.filter) &&
    match (p, q)
    case (HotelList(_, a), HotelList(_, b)) => a == b
    case (PaymentList(_, a, u), PaymentList(_, b, v)) => a == b && u == v
    case (RoomList(h, _), RoomList(k, _)) => h == k
    case _ => false
  }

  lemma ServicesApart(p: ListQuery, q: ListQuery)
    requires p.HotelList? != q.HotelList? || p.PaymentList? != q.PaymentList?
    ensures KeyOf(p) != KeyOf(q) && KeyOf(p) != RegistryOf(q) && RegistryOf(p) != RegistryOf(q)
  {
    assert KeyOf(p)[0] == RegistryOf(p)[0] == (if p.HotelList? then 'h' else if p.PaymentList? then 'p' else 'r');
    assert KeyOf(q)[0] == RegistryOf(q)[0] == (if q.HotelList? then 'h' else if q.PaymentList? then 'p' else 'r');
  }

  /** Over all three services, two queries share a key exactly when they are the same query, and no
      query's key is a registry's key. */
  lemma KeysNameQueries(p: ListQuery, q: ListQuery)
    requires Askable(p) && Askable(q)
    ensures KeyOf(p) == KeyOf(q) <==> SameQuery(p, q)
    ensures KeyOf(p) != RegistryOf(q)
  {
    match (p, q) {
      case (HotelList(f, a), HotelList(g, b)) => HotelListKeyIsCanonical(f, a, g, b);
      case (PaymentList(f, a, u), PaymentList(g, b, v)) => PaymentListKeyIsCanonical(f, a, u, g, b, v);
      case (RoomList(h, f), RoomList(k, g)) => RoomListKeyIsCanonical(h, f, k, g);
      case _ => ServicesApart(p, q);
    }
  }

  // ---- cache contents ----------------------------------------------------------------------

  datatype Entry<V> = Answer(value: V) | Keys(keys: seq<string>)

  type Entries<V> = map<string, Entry<V>>

  function Listed<V>(c: Entries<V>, registry: string): seq<string> {
    if registry in c && c[registry].Keys? then c[registry].keys else []
  }

  function Registered<V>(c: Entries<V>, registry: string, key: string): Entries<V> {
    if key in Listed(c, registry) then c else c[registry := Keys(Listed(c, registry) + [key])]
  }

  function Invalidated<V>(c: Entries<V>, registry: string): Entries<V> {
    c - Elements(Listed(c, registry)) - {registry}
  }

  function FilledAt<V>(c: Entries<V>, registry: string, key: string, value: V): Entries<V> {
    Registered(c[key := Answer(value)], registry, key)
  }

  function Filled<V>(c: Entries<V>, q: ListQuery, value: V): Entries<V> {
    FilledAt(c, RegistryOf(q), KeyOf(q), value)
  }

  /** The kind of query a service answers. */
  datatype Service = Hotels | Payments | Rooms

  function ServiceOf(q: ListQuery): Service {
    match q
    case HotelList(_, _) => Hotels
    case PaymentList(_, _, _) => Payments
    case RoomList(_, _) => Rooms
  }

  /** Every stored answer of the service is listed, by its own registry only, and no registry lists a registry. */
  ghost predicate Tidy<V>(c: Entries<V>, service: Service) {
    && (forall q :: Askable(q) && ServiceOf(q) == service && KeyOf(q) in c ==>
          c[KeyOf(q)].Answer? && KeyOf(q) in Listed(c, RegistryOf(q)))
    && (forall p, q :: Askable(p) && ServiceOf(p) == service && Askable(q) && ServiceOf(q) == service ==>
          RegistryOf(p) !in Listed(c, RegistryOf(q)) &&
          (KeyOf(p) in Listed(c, RegistryOf(q)) ==> RegistryOf(p) == RegistryOf(q)))
    && (forall q :: Askable(q) && ServiceOf(q) == service && RegistryOf(q) in c ==> c[RegistryOf(q)].Keys?)
  }

  /** What is stored for the query, if anything is, is the fresh answer. */
  ghost predicate Right<V>(c: Entries<V>, q: ListQuery, answer: ListQuery -> V) {
    KeyOf(q) in c ==> c[KeyOf(q)] == Answer(answer(q))
  }

  ghost predicate Coherent<V>(c: Entries<V>, service: Service, answer: ListQuery -> V) {
    Tidy(c, service) && forall q :: Askable(q) && ServiceOf(q) == service ==> Right(c, q, answer)
  }

  /** The answer depends on the query only. */
  ghost predicate OfQuery<V>(answer: ListQuery -> V) {
    forall p, q :: SameQuery(p, q) ==> answer(p) == answer(q)
  }

  /** What a fill of `key` changes, seen from an entry `k` listed by `r`. */
  lemma FillAtSeenFrom<V>(c: Entries<V>, registry: string, key: string, value: V, k: string, r: string)
    requires key != registry && key != r && k != registry
    ensures var d, listed := FilledAt(c, registry, key, value), Listed(c, r);
            && (k in d <==> k in c || k == key)
            && (k in d ==> d[k] == if k == key then Answer(value) else c[k])
            && (Listed(d, r) == if r != registry || key in listed then listed else listed + [key])
            && (r in d && (r in c ==> c[r].Keys?) ==> d[r].Keys?)
  {
  }

  lemma FillSeenBy<V>(c: Entries<V>, q: ListQuery, value: V, p: ListQuery)
    requires Askable(q) && Askable(p)
    ensures var d, key, registry := Filled(c, q, value), KeyOf(q), RegistryOf(q);
            && (KeyOf(p) in d <==> KeyOf(p) in c || SameQuery(p, q))
            && (KeyOf(p) in d ==> d[KeyOf(p)] == if SameQuery(p, q) then Answer(value) else c[KeyOf(p)])
            && (RegistryOf(p) in d && (RegistryOf(p) in c ==> c[RegistryOf(p)].Keys?) ==> d[RegistryOf(p)].Keys?)
            && Listed(d, RegistryOf(p)) == if RegistryOf(p) != registry || key in Listed(c, registry)
                                           then Listed(c, RegistryOf(p)) else Listed(c, RegistryOf(p)) + [key]
  {
    KeysNameQueries(p, q);
    KeysNameQueries(q, p);
    KeysNameQueries(q, q);
    FillAtSeenFrom(c, RegistryOf(q), KeyOf(q), value, KeyOf(p), RegistryOf(p));
  }

  lemma SameQuerySameRegistry(p: ListQuery, q: ListQuery)
    requires SameQuery(p, q)
    ensures RegistryOf(p) == RegistryOf(q)
  {
  }

  /** Storing an answer decides what is stored for this query alone. */
  lemma FillRightIff<V>(c: Entries<V>, q: ListQuery, value: V, p: ListQuery, answer: ListQuery -> V)
    requires Askable(q) && Askable(p)
    ensures Right(Filled(c, q, value), p, answer) <==>
            if SameQuery(p, q) then value == answer(p) else Right(c, p, answer)
  {
    FillSeenBy(c, q, value, p);
  }

  lemma FillKeepsTidy<V>(c: Entries<V>, q: ListQuery, value: V)
    requires Askable(q) && Tidy(c, ServiceOf(q))
    ensures Tidy(Filled(c, q, value), ServiceOf(q))
  {
    var d := Filled(c, q, value);
    forall p | Askable(p) && ServiceOf(p) == ServiceOf(q)
      ensures KeyOf(p) in d ==> d[KeyOf(p)].Answer? && KeyOf(p) in Listed(d, RegistryOf(p))
      ensures RegistryOf(p) in d ==> d[RegistryOf(p)].Keys?
    {
      FillSeenBy(c, q, value, p);
      KeysNameQueries(p, q);
    }
    forall r, p | Askable(r) && ServiceOf(r) == ServiceOf(q) && Askable(p) && ServiceOf(p) == ServiceOf(q)
      ensures RegistryOf(r) !in Listed(d, RegistryOf(p))
      ensures KeyOf(r) in Listed(d, RegistryOf(p)) ==> RegistryOf(r) == RegistryOf(p)
    {
      FillSeenBy(c, q, value, p);
      KeysNameQueries(q, r);
      if SameQuery(q, r) {
        SameQuerySameRegistry(q, r);
      }
    }
  }

  /** Storing a fresh answer and listing its key keeps the cache coherent. */
  lemma FillKeepsCoherent<V>(c: Entries<V>, q: ListQuery, answer: ListQuery -> V)
    requires Askable(q) && Coherent(c, ServiceOf(q), answer) && OfQuery(answer)
    ensures Coherent(Filled(c, q, answer(q)), ServiceOf(q), answer)
  {
    FillKeepsTidy(c, q, answer(q));
    forall p | Askable(p) && ServiceOf(p) == ServiceOf(q) ensures Right(Filled(c, q, answer(q)), p, answer) {
      FillRightIff(c, q, answer(q), p, answer);
    }
  }

  /** What a read answers when `now` is what the database gives: the stored answer, if one is stored. */
  function ReadThrough<V>(c: Entries<V>, q: ListQuery, now: V): V {
    if KeyOf(q) in c && c[KeyOf(q)].Answer? then c[KeyOf(q)].value else now
  }

  function AfterRead<V>(c: Entries<V>, q: ListQuery, now: V): Entries<V> {
    if KeyOf(q) in c then c else Filled(c, q, now)
  }

  /** A read is fresh exactly when what is stored is, and changes neither what is right nor what is not. */
  lemma ReadIsFreshIff<V>(c: Entries<V>, q: ListQuery, answer: ListQuery -> V)
    requires Askable(q) && Tidy(c, ServiceOf(q)) && OfQuery(answer)
    ensures ReadThrough(c, q, answer(q)) == answer(q) <==> Right(c, q, answer)
    ensures Tidy(AfterRead(c, q, answer(q)), ServiceOf(q))
    ensures forall p :: Askable(p) ==> (Right(AfterRead(c, q, answer(q)), p, answer) <==> Right(c, p, answer))
  {
    if KeyOf(q) !in c {
      FillKeepsTidy(c, q, answer(q));
      forall p | Askable(p) ensures Right(Filled(c, q, answer(q)), p, answer) <==> Right(c, p, answer) {
        FillRightIff(c, q, answer(q), p, answer);
        KeysNameQueries(p, q);
      }
    }
  }

  /** Deleting what a registry lists deletes exactly the stored answers of that registry. */
  lemma InvalidateKeepsTidy<V>(c: Entries<V>, w: ListQuery)
    requires Askable(w) && Tidy(c, ServiceOf(w))
    ensures var d := Invalidated(c, RegistryOf(w));
            && Tidy(d, ServiceOf(w))
            && forall q :: Askable(q) && ServiceOf(q) == ServiceOf(w) ==>
                 (KeyOf(q) in d <==> KeyOf(q) in c && RegistryOf(q) != RegistryOf(w)) &&
                 (KeyOf(q) in d ==> d[KeyOf(q)] == c[KeyOf(q)])
  {
    var d := Invalidated(c, RegistryOf(w));
    forall q | Askable(q) && ServiceOf(q) == ServiceOf(w)
      ensures KeyOf(q) in d <==> KeyOf(q) in c && RegistryOf(q) != RegistryOf(w)
      ensures RegistryOf(q) in d <==> RegistryOf(q) in c && RegistryOf(q) != RegistryOf(w)
    {
      KeysNameQueries(q, w);
      assert RegistryOf(q) !in Listed(c, RegistryOf(w));
    }
    assert forall q :: Askable(q) && ServiceOf(q) == ServiceOf(w) && RegistryOf(q) != RegistryOf(w) ==>
             Listed(d, RegistryOf(q)) == Listed(c, RegistryOf(q));
    assert Listed(d, RegistryOf(w)) == [];
  }

  /** After a write, deleting what the registry lists makes the cache coherent with the new answers,
      provided the write left the answers of other registries alone. */
  lemma InvalidateKeepsCoherent<V>(c: Entries<V>, service: Service, registry: string,
                                   before: ListQuery -> V, after: ListQuery -> V)
    requires Coherent(c, service, before)
    requires exists q :: Askable(q) && ServiceOf(q) == service && RegistryOf(q) == registry
    requires forall q :: Askable(q) && ServiceOf(q) == service && RegistryOf(q) != registry ==> before(q) == after(q)
    ensures Coherent(Invalidated(c, registry), service, after)
  {
    var w :| Askable(w) && ServiceOf(w) == service && RegistryOf(w) == registry;
    InvalidateKeepsTidy(c, w);
    forall q | Askable(q) && ServiceOf(q) == service && RegistryOf(q) != registry
      ensures Right(c, q, before) <==> Right(c, q, after)
    {
      assert before(q) == after(q);
    }
  }

  /** A write that deletes nothing keeps the cache coherent exactly when it changes the answer of no stored
      query. */
  lemma SilentWriteKeepsCoherentIff<V>(c: Entries<V>, service: Service, before: ListQuery -> V, after: ListQuery -> V)
    requires Coherent(c, service, before)
    ensures Coherent(c, service, after) <==>
            forall q :: Askable(q) && ServiceOf(q) == service && KeyOf(q) in c ==> before(q) == after(q)
  {
    forall q | Askable(q) && ServiceOf(q) == service && KeyOf(q) in c
      ensures Right(c, q, after) <==> before(q) == after(q)
    {
      assert Right(c, q, before);
    }
  }

  // ---- caches reached by reads, and a write that deletes nothing ---------------------------

  /** The cache after the given queries have been asked, starting from `c`. */
  function FillAll<V>(c: Entries<V>, stored: seq<ListQuery>, answer: ListQuery -> V): Entries<V>
    decreases |stored|
  {
    if stored == [] then c else FillAll(Filled(c, stored[0], answer(stored[0])), stored[1..], answer)
  }

  ghost predicate AllAskable(stored: seq<ListQuery>, service: Service) {
    forall i :: 0 <= i < |stored| ==> Askable(stored[i]) && ServiceOf(stored[i]) == service
  }

  ghost predicate Stored(stored: seq<ListQuery>, q: ListQuery) {
    exists i :: 0 <= i < |stored| && SameQuery(stored[i], q)
  }

  lemma {:induction false} FillAllStores<V>(c: Entries<V>, stored: seq<ListQuery>, service: Service,
                                            answer: ListQuery -> V)
    requires Coherent(c, service, answer) && AllAskable(stored, service) && OfQuery(answer)
    ensures Coherent(FillAll(c, stored, answer), service, answer)
    ensures forall q :: Askable(q) && ServiceOf(q) == service ==>
              (KeyOf(q) in FillAll(c, stored, answer) <==> KeyOf(q) in c || Stored(stored, q))
    decreases |stored|
  {
    if stored != [] {
      var p, rest := stored[0], stored[1..];
      FillKeepsCoherent(c, p, answer);
      FillAllStores(Filled(c, p, answer(p)), rest, service, answer);
      forall q | Askable(q) && ServiceOf(q) == service
        ensures KeyOf(q) in FillAll(c, stored, answer) <==> KeyOf(q) in c || Stored(stored, q)
      {
        FillSeenBy(c, p, answer(p), q);
        SameQueryBothWays(p, q);
        StoredOfCons(stored, q);
      }
    }
  }

  lemma SameQueryBothWays(p: ListQuery, q: ListQuery)
    ensures SameQuery(p, q) <==> SameQuery(q, p)
  {
  }

  lemma StoredOfCons(stored: seq<ListQuery>, q: ListQuery)
    requires stored != []
    ensures Stored(stored, q) <==> SameQuery(stored[0], q) || Stored(stored[1..], q)
  {
    if Stored(stored[1..], q) {
      var i :| 0 <= i < |stored[1..]| && SameQuery(stored[1..][i], q);
      assert SameQuery(stored[i + 1], q);
    }
    if i :| 0 < i < |stored| && SameQuery(stored[i], q) {
      assert SameQuery(stored[1..][i - 1], q);
    }
  }

  lemma EmptyIsCoherent<V>(service: Service, answer: ListQuery -> V)
    ensures Coherent<V>(map[], service, answer)
  {
  }

  /** Reads, then a write that deletes nothing: the cache is right exactly when the write changes the answer
      of no query that was read. */
  lemma ReadsThenWriteIff<V>(stored: seq<ListQuery>, service: Service, before: ListQuery -> V, after: ListQuery -> V)
    requires AllAskable(stored, service) && OfQuery(before) && OfQuery(after)
    ensures Coherent(FillAll(map[], stored, before), service, after) <==>
            forall i :: 0 <= i < |stored| ==> before(stored[i]) == after(stored[i])
  {
    var c: Entries<V> := FillAll(map[], stored, before);
    EmptyIsCoherent(service, before);
    FillAllStores(map[], stored, service, before);
    SilentWriteKeepsCoherentIff(c, service, before, after);
    assert (forall q :: Askable(q) && ServiceOf(q) == service && KeyOf(q) in c ==> before(q) == after(q)) <==>
           forall i :: 0 <= i < |stored| ==> before(stored[i]) == after(stored[i])
    by {
      StoredAnswersSameIff(stored, service, before, after);
      assert forall q :: Askable(q) && ServiceOf(q) == service ==> (KeyOf(q) in c <==> Stored(stored, q));
    }
  }

  lemma StoredAnswersSameIff<V>(stored: seq<ListQuery>, service: Service, before: ListQuery -> V, after: ListQuery -> V)
    requires AllAskable(stored, service) && OfQuery(before) && OfQuery(after)
    ensures (forall q :: Askable(q) && ServiceOf(q) == service && Stored(stored, q) ==> before(q) == after(q)) <==>
            forall i :: 0 <= i < |stored| ==> before(stored[i]) == after(stored[i])
  {
    forall i | 0 <= i < |stored| ensures Stored(stored, stored[i]) {
      assert SameQuery(stored[i], stored[i]);
    }
  }

  predicate Holds<V(==)>(c: Entries<V>, key: string, value: V) {
    key in c && c[key] == Answer(value)
  }

  /** What is read is stored. */
  lemma ReadIsStored<V>(q: ListQuery, answer: ListQuery -> V)
    requires Askable(q)
    ensures Holds(FillAll(map[], [q], answer), KeyOf(q), answer(q))
  {
    KeysNameQueries(q, q);
    FillAtSeenFrom<V>(map[], RegistryOf(q), KeyOf(q), answer(q), KeyOf(q), RegistryOf(q));
    assert FillAll(map[], [q], answer) == Filled(map[], q, answer(q));
  }

  // ---- answers that show rows, page by page ------------------------------------------------

  /** The answers that show the rows of a query as `page` arranges them. */
  function Paged<R, P>(rows: ListQuery -> R, page: (R, Fields) -> P): ListQuery -> P {
    (q: ListQuery) => page(rows(q), FieldsOf(q.filter))
  }

  lemma PagedOfQuery<R, P>(rows: ListQuery -> R, page: (R, Fields) -> P)
    requires OfQuery(rows)
    ensures OfQuery(Paged(rows, page))
  {
  }

  /** A page that tells two contents apart. */
  ghost function Telling<R, P>(shown: R, yes: P, no: P): (R, Fields) -> P {
    (r, f) => if r == shown then yes else no
  }

  /** The cache is right after the write, however pages are arranged, exactly when the write leaves the rows of
      every query that was read as they were. */
  lemma RightForEveryPageIff<R(!new), P(!new)>(stored: seq<ListQuery>, service: Service, before: ListQuery -> R,
                                              after: ListQuery -> R, yes: P, no: P)
    requires AllAskable(stored, service) && OfQuery(before) && OfQuery(after) && yes != no
    ensures (forall page: (R, Fields) -> P ::
               Coherent(FillAll(map[], stored, Paged(before, page)), service, Paged(after, page))) <==>
            forall i :: 0 <= i < |stored| ==> before(stored[i]) == after(stored[i])
  {
    forall page: (R, Fields) -> P
      ensures Coherent(FillAll(map[], stored, Paged(before, page)), service, Paged(after, page)) <==>
              forall i :: 0 <= i < |stored| ==> Paged(before, page)(stored[i]) == Paged(after, page)(stored[i])
    {
      PagedOfQuery(before, page);
      PagedOfQuery(after, page);
      ReadsThenWriteIff(stored, service, Paged(before, page), Paged(after, page));
    }
    if i :| 0 <= i < |stored| && before(stored[i]) != after(stored[i]) {
      ghost var page := Telling(before(stored[i]), yes, no);
      assert Paged(before, page)(stored[i]) != Paged(after, page)(stored[i]);
    }
  }

  /** Reads, then a write that deletes what one registry lists: the cache is right, however pages are arranged, exactly
      when the write leaves the rows of every query that was read from another registry as they were. */
  lemma RightAfterDeletingIff<R(!new), P(!new)>(stored: seq<ListQuery>, w: ListQuery, before: ListQuery -> R,
                                               after: ListQuery -> R, yes: P, no: P)
    requires Askable(w) && AllAskable(stored, ServiceOf(w)) && OfQuery(before) && OfQuery(after) && yes != no
    ensures (forall page: (R, Fields) -> P ::
               Coherent(Invalidated(FillAll(map[], stored, Paged(before, page)), RegistryOf(w)), ServiceOf(w),
                        Paged(after, page))) <==>
            forall i :: 0 <= i < |stored| ==>
              RegistryOf(stored[i]) == RegistryOf(w) || before(stored[i]) == after(stored[i])
  {
    forall page: (R, Fields) -> P
      ensures Coherent(Invalidated(FillAll(map[], stored, Paged(before, page)), RegistryOf(w)), ServiceOf(w),
                       Paged(after, page)) <==>
              forall i :: 0 <= i < |stored| ==>
                RegistryOf(stored[i]) == RegistryOf(w) ||
                  Paged(before, page)(stored[i]) == Paged(after, page)(stored[i])
    {
      PagedOfQuery(before, page);
      PagedOfQuery(after, page);
      ReadsThenDeletingIff(stored, w, Paged(before, page), Paged(after, page));
    }
    if i :| 0 <= i < |stored| && RegistryOf(stored[i]) != RegistryOf(w) && before(stored[i]) != after(stored[i]) {
      ghost var page := Telling(before(stored[i]), yes, no);
      assert Paged(before, page)(stored[i]) != Paged(after, page)(stored[i]);
    }
  }

  lemma ReadsThenDeletingIff<V>(stored: seq<ListQuery>, w: ListQuery, before: ListQuery -> V, after: ListQuery -> V)
    requires Askable(w) && AllAskable(stored, ServiceOf(w)) && OfQuery(before) && OfQuery(after)
    ensures Coherent(Invalidated(FillAll(map[], stored, before), RegistryOf(w)), ServiceOf(w), after) <==>
            forall i :: 0 <= i < |stored| ==>
              RegistryOf(stored[i]) == RegistryOf(w) || before(stored[i]) == after(stored[i])
  {
    var c: Entries<V> := FillAll(map[], stored, before);
    EmptyIsCoherent(ServiceOf(w), before);
    FillAllStores(map[], stored, ServiceOf(w), before);
    InvalidateKeepsTidy(c, w);
    var d := Invalidated(c, RegistryOf(w));
    forall q | Askable(q) && ServiceOf(q) == ServiceOf(w)
      ensures Right(d, q, after) <==>
              (Stored(stored, q) && RegistryOf(q) != RegistryOf(w) ==> before(q) == after(q))
    {
      assert Right(c, q, before) && (KeyOf(q) in c <==> Stored(stored, q));
    }
    OtherRegistriesSameIff(stored, w, before, after);
  }

  lemma OtherRegistriesSameIff<V>(stored: seq<ListQuery>, w: ListQuery, before: ListQuery -> V, after: ListQuery -> V)
    requires AllAskable(stored, ServiceOf(w)) && OfQuery(before) && OfQuery(after)
    ensures (forall q :: Askable(q) && ServiceOf(q) == ServiceOf(w) ==>
               (Stored(stored, q) && RegistryOf(q) != RegistryOf(w) ==> before(q) == after(q))) <==>
            forall i :: 0 <= i < |stored| ==>
              RegistryOf(stored[i]) == RegistryOf(w) || before(stored[i]) == after(stored[i])
  {
    forall i | 0 <= i < |stored| ensures Stored(stored, stored[i]) {
      assert SameQuery(stored[i], stored[i]);
    }
    forall q, i | 0 <= i < |stored| && SameQuery(stored[i], q)
      ensures RegistryOf(q) == RegistryOf(stored[i]) && before(q) == before(stored[i]) && after(q) == after(stored[i])
    {
      SameQuerySameRegistry(stored[i], q);
    }
  }

  /** Entries that are neither an answer nor a registry of the service can come and go. */
  lemma OtherEntriesKeepTidy<V>(c: Entries<V>, d: Entries<V>, service: Service)
    requires Tidy(c, service)
    requires forall q :: Askable(q) && ServiceOf(q) == service ==>
               (KeyOf(q) in d <==> KeyOf(q) in c) && (KeyOf(q) in c ==> d[KeyOf(q)] == c[KeyOf(q)])
    requires forall q :: Askable(q) && ServiceOf(q) == service ==>
               (RegistryOf(q) in d <==> RegistryOf(q) in c) &&
                 (RegistryOf(q) in c ==> d[RegistryOf(q)] == c[RegistryOf(q)])
    ensures Tidy(d, service)
  {
    forall q | Askable(q) && ServiceOf(q) == service ensures Listed(d, RegistryOf(q)) == Listed(c, RegistryOf(q)) {
    }
  }

  /** The cache client: an entry is read, set or deleted by key. */
  class KeyedCache<V> {
    var entries: map<string, Entry<V>>

    constructor ()
      ensures entries == map[]
    {
      entries := map[];
    }

    method Fill(q: ListQuery, value: V)
      modifies this
      ensures entries == Filled(old(entries), q, value)
    {
      entries := entries[KeyOf(q) := Answer(value)];
      RegisterListKey(RegistryOf(q), KeyOf(q));
    }

    method RegisterListKey(registry: string, key: string)
      modifies this
      ensures entries == Registered(old(entries), registry, key)
    {
      var existing := Listed(entries, registry);
      if key !in existing {
        entries := entries[registry := Keys(existing + [key])];
      }
    }

    method InvalidateLists(registry: string)
      modifies this
      ensures entries == Invalidated(old(entries), registry)
    {
      var keys := Listed(entries, registry);
      var i := 0;
      while i < |keys|
        invariant 0 <= i <= |keys|
        invariant entries == old(entries) - Elements(keys[..i])
      {
        entries := entries - {keys[i]};
        assert Elements(keys[..i + 1]) == Elements(keys[..i]) + {keys[i]};
        i := i + 1;
      }
      assert keys[..i] == keys;
      entries := entries - {registry};
    }
  }
}
