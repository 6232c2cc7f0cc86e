/** Runs over the cached hotels: lookups split at their awaits, the service's own writes, each through some spelling
    of a hotel's id, and writes of other services to the rows that a hotel is shown with. */
module DetailRuns {
  import opened SequenceFacts
  import opened Ids
  import opened CacheKeys
  import opened QueryCache
  import opened HotelService
  import Runs

  /** A lookup that found nothing in the cache and has found the hotel in the database. */
  datatype Lookup = Lookup(id: Id, isAdmin: bool, found: Detail)

  datatype State = State(hotels: HotelTable, offers: OfferTable, cache: Entries<Cached>, waiting: map<nat, Lookup>)

  datatype Step =
    | Find(handler: nat, id: Id, isAdmin: bool)
    | Put(handler: nat)
    | CreateHotel(newId: Id, hotel: Hotel)
    | UpdateHotel(id: Id, changes: Changes)
    | RemoveHotel(id: Id)
    | WriteOffers(offers: OfferTable)

  function Found(s: State, h: nat, id: Id, isAdmin: bool): State {
    var now := FindHotel(s.hotels, s.offers, Key(id), isAdmin);
    if HotelDetailKey(id, isAdmin) in s.cache || now == None || h in s.waiting then s
    else s.(waiting := s.waiting[h := Lookup(id, isAdmin, now.value)])
  }

  function Stored(s: State, h: nat): State {
    if h in s.waiting then
      var w := s.waiting[h];
      s.(cache := WithDetail(s.cache, w.id, w.isAdmin, w.found), waiting := s.waiting - {h})
    else s
  }

  function Next(s: State, step: Step): State {
    match step
    case Find(h, id, isAdmin) => Found(s, h, id, isAdmin)
    case Put(h) => Stored(s, h)
    case CreateHotel(newId, hotel) =>
      if newId in s.hotels then s
      else s.(hotels := s.hotels[newId := hotel], cache := Invalidated(s.cache, HOTEL_REGISTRY))
    case UpdateHotel(id, changes) =>
      if Key(id) !in s.hotels then s
      else s.(hotels := s.hotels[Key(id) := MergeHotel(s.hotels[Key(id)], changes)], cache := Dropped(s.cache, id))
    case RemoveHotel(id) =>
      if Key(id) !in s.hotels || OffersOf(s.offers, Key(id)) != [] then s
      else s.(hotels := s.hotels - {Key(id)}, cache := Dropped(s.cache, id))
    case WriteOffers(offers) => s.(offers := offers)
  }

  ghost predicate AllRight(s: State) {
    DetailsFresh(s.cache, s.hotels, s.offers)
  }

  ghost predicate Sound(s: State) {
    AllRight(s) && Typed(s.cache) && Tidy(s.cache, Hotels)
  }

  /** No hotel is cached for another spelling of `id`, unless a lookup finds the same before and after. */
  ghost predicate NoOtherSpelling(s: State, id: Id, after: HotelTable) {
    forall x, a :: HotelDetailKey(x, a) in s.cache && x != id && Key(x) == Key(id) ==>
      FindHotel(s.hotels, s.offers, Key(x), a) == FindHotel(after, s.offers, Key(x), a)
  }

  ghost predicate SameOffers(s: State, offers: OfferTable) {
    forall x, a :: HotelDetailKey(x, a) in s.cache ==> OffersOf(s.offers, Key(x)) == OffersOf(offers, Key(x))
  }

  /** A lookup stores what a lookup would still find; an own write finds no hotel cached for another spelling that it
      changes; a write of another service changes the rows of no cached hotel. */
  ghost predicate HarmlessStep(s: State, step: Step) {
    match step
    case Put(h) =>
      h in s.waiting ==>
        FindHotel(s.hotels, s.offers, Key(s.waiting[h].id), s.waiting[h].isAdmin) == Some(s.waiting[h].found)
    case UpdateHotel(id, changes) => NoOtherSpelling(s, id, Next(s, step).hotels)
    case RemoveHotel(id) => NoOtherSpelling(s, id, Next(s, step).hotels)
    case WriteOffers(offers) => SameOffers(s, offers)
    case _ => true
  }

  lemma PutIff(s: State, h: nat)
    requires Sound(s)
    ensures AllRight(Stored(s, h)) <==> HarmlessStep(s, Put(h))
    ensures Typed(Stored(s, h).cache) && Tidy(Stored(s, h).cache, Hotels)
  {
    if h in s.waiting {
      var w, u := s.waiting[h], Stored(s, h);
      DetailFillKeepsTyped(s.cache, w.id, w.isAdmin, w.found);
      forall x, a
        ensures DetailRight(u.cache, x, a, u.hotels, u.offers) <==>
                  (x == w.id && a == w.isAdmin ==> FindHotel(s.hotels, s.offers, Key(w.id), w.isAdmin) == Some(w.found))
      {
        DetailKeysApart(x, a, w.id, w.isAdmin);
        assert DetailRight(s.cache, x, a, s.hotels, s.offers);
      }
      assert AllRight(u) ==> DetailRight(u.cache, w.id, w.isAdmin, u.hotels, u.offers);
    }
  }

  lemma CreateKeepsRight(s: State, newId: Id, hotel: Hotel)
    requires Sound(s) && newId !in s.hotels
    ensures Sound(Next(s, CreateHotel(newId, hotel)))
  {
    var u := Next(s, CreateHotel(newId, hotel));
    InvalidateKeepsTidy(s.cache, AllHotels());
    forall x, a
      ensures HotelDetailKey(x, a) in u.cache ==>
                HotelDetailKey(x, a) in s.cache && u.cache[HotelDetailKey(x, a)] == s.cache[HotelDetailKey(x, a)]
      ensures DetailRight(u.cache, x, a, u.hotels, u.offers)
    {
      assert DetailRight(s.cache, x, a, s.hotels, s.offers);
    }
  }

  lemma StepIff(s: State, step: Step)
    requires Sound(s)
    ensures AllRight(Next(s, step)) <==> HarmlessStep(s, step)
    ensures AllRight(Next(s, step)) ==> Sound(Next(s, step))
  {
    match step {
      case Put(h) => PutIff(s, h);
      case CreateHotel(newId, hotel) =>
        if newId !in s.hotels {
          CreateKeepsRight(s, newId, hotel);
        }
      case UpdateHotel(id, changes) =>
        DroppingKeepsTyped(s.cache, id);
        DetailsAfterWriteIff(s.cache, id, s.hotels, Next(s, step).hotels, s.offers);
      case RemoveHotel(id) =>
        DroppingKeepsTyped(s.cache, id);
        DetailsAfterWriteIff(s.cache, id, s.hotels, Next(s, step).hotels, s.offers);
      case WriteOffers(offers) => OfferWriteKeepsDetailsIff(s.cache, s.hotels, s.offers, offers);
      case _ =>
    }
  }

  /** Every cached hotel is right in every state of a run if and only if each of its steps is harmless. */
  lemma DetailsRightIff(s: State, steps: seq<Step>)
    requires Sound(s)
    ensures Runs.Throughout(Next, AllRight, s, steps) <==> Runs.AllHarmless(Next, HarmlessStep, s, steps)
  {
    forall u, step | Sound(u)
      ensures AllRight(Next(u, step)) <==> HarmlessStep(u, step)
      ensures AllRight(Next(u, step)) ==> Sound(Next(u, step))
    {
      StepIff(u, step);
    }
    Runs.ThroughoutIff(Next, Sound, AllRight, HarmlessStep, s, steps);
  }

  // ---- the steps ---------------------------------------------------------------------------

  /** What the steps do to the tables; only the named hotel changes. */
  lemma StepsDo(s: State, id: Id, hotel: Hotel, changes: Changes)
    ensures Next(s, CreateHotel(id, hotel)).hotels == if id in s.hotels then s.hotels else s.hotels[id := hotel]
    ensures var u := Next(s, UpdateHotel(id, changes));
            u.hotels == if Key(id) !in s.hotels then s.hotels
                        else s.hotels[Key(id) := MergeHotel(s.hotels[Key(id)], changes)]
    ensures var u, free := Next(s, RemoveHotel(id)), Key(id) !in s.offers || s.offers[Key(id)] == [];
            u.hotels == if free then s.hotels - {Key(id)} else s.hotels
    ensures Next(s, CreateHotel(id, hotel)).offers == Next(s, UpdateHotel(id, changes)).offers == s.offers
    ensures Next(s, RemoveHotel(id)).offers == s.offers
  {
  }

  /** The two parts of a lookup in a row store what it finds, and nothing if it finds nothing. */
  lemma SplitLookupIsWhole(s: State, h: nat, id: Id, isAdmin: bool)
    requires h !in s.waiting && HotelDetailKey(id, isAdmin) !in s.cache
    ensures var now := FindHotel(s.hotels, s.offers, Key(id), isAdmin);
            Next(Next(s, Find(h, id, isAdmin)), Put(h)) ==
              if now == None then s else s.(cache := WithDetail(s.cache, id, isAdmin, now.value))
  {
    var now := FindHotel(s.hotels, s.offers, Key(id), isAdmin);
    if now.Some? {
      assert s.waiting[h := Lookup(id, isAdmin, now.value)] - {h} == s.waiting;
    }
  }
}
