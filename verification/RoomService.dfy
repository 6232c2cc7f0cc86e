/** The room service: the room table and a list cache with one registry per spelling of a hotel's id. Requests name
    a hotel as they like: the database compares what the spelling denotes, the cache compares the spelling. */
module RoomService {
  import opened SequenceFacts
  import opened Ids
  import opened CacheKeys
  import opened QueryCache
  import opened RoomModel
  import opened RoomStates
  import CacheRuns

  /** What a list joins to a room: the row of its type, held by another service. */
  datatype TypeRow = TypeRow(name: string, maxOccupancy: int, characteristicIds: seq<Id>)

  datatype ListedRoom = ListedRoom(room: Room, roomType: Option<TypeRow>)

  datatype RoomPage = RoomPage(data: seq<(Id, ListedRoom)>, total: nat, page: nat, limit: nat)

  type RoomRows = map<Id, ListedRoom>

  const EMPTY_PAGE := RoomPage([], 0, 1, 10)

  // ---- what the database would answer ------------------------------------------------------

  predicate RoomMatches(r: Room, hotelId: Id, fields: Fields) {
    r.hotelId == hotelId && MatchesId(fields, "roomTypeId", r.roomTypeId) &&
    MatchesText(fields, "status", RoomStatusText(r.status))
  }

  function TypeRowOf(typeRows: map<Id, TypeRow>, typeId: Id): Option<TypeRow> {
    if typeId in typeRows then Some(typeRows[typeId]) else None
  }

  /** The rows of a list query, before they are ordered and paged. */
  function Rows(rooms: map<Id, Room>, typeRows: map<Id, TypeRow>, hotelId: Id, fields: Fields): RoomRows {
    map r | r in rooms && RoomMatches(rooms[r], hotelId, fields) ::
      ListedRoom(rooms[r], TypeRowOf(typeRows, rooms[r].roomTypeId))
  }

  /** `browse` stands for the order and page of the query. */
  function ListRooms(rooms: map<Id, Room>, typeRows: map<Id, TypeRow>, browse: (RoomRows, Fields) -> RoomPage,
                     hotelId: Id, fields: Fields): RoomPage {
    browse(Rows(rooms, typeRows, hotelId, fields), fields)
  }

  /** The hotel that a query's path denotes. */
  function HotelOf(q: ListQuery): Id {
    if q.RoomList? then Key(q.hotelId) else ""
  }

  function RowsOf(rooms: map<Id, Room>, typeRows: map<Id, TypeRow>): ListQuery -> RoomRows {
    (q: ListQuery) => Rows(rooms, typeRows, HotelOf(q), FieldsOf(q.filter))
  }

  function RoomAnswers(rooms: map<Id, Room>, typeRows: map<Id, TypeRow>, browse: (RoomRows, Fields) -> RoomPage)
      : ListQuery -> RoomPage {
    Paged(RowsOf(rooms, typeRows), browse)
  }

  lemma RowsOfQuery(rooms: map<Id, Room>, typeRows: map<Id, TypeRow>)
    ensures OfQuery(RowsOf(rooms, typeRows))
  {
  }

  /** Only rooms of the given hotel differ. */
  ghost predicate OnlyHotel(before: map<Id, Room>, after: map<Id, Room>, hotelId: Id) {
    && (forall r :: r in before && before[r].hotelId != hotelId ==> r in after && after[r] == before[r])
    && (forall r :: r in after && after[r].hotelId != hotelId ==> r in before && before[r] == after[r])
  }

  /** The write changes the room, which matches the filter before or after. */
  ghost predicate RoomTouched(before: map<Id, Room>, after: map<Id, Room>, r: Id, hotelId: Id, fields: Fields) {
    && (r in before && r in after ==> before[r] != after[r])
    && ((r in before && RoomMatches(before[r], hotelId, fields)) ||
        (r in after && RoomMatches(after[r], hotelId, fields)))
  }

  ghost predicate Touched(before: map<Id, Room>, after: map<Id, Room>, hotelId: Id, fields: Fields) {
    exists r :: RoomTouched(before, after, r, hotelId, fields)
  }

  lemma WriteChangesRowsIff(before: map<Id, Room>, after: map<Id, Room>, typeRows: map<Id, TypeRow>, hotelId: Id,
                            fields: Fields)
    ensures Rows(before, typeRows, hotelId, fields) != Rows(after, typeRows, hotelId, fields) <==>
            Touched(before, after, hotelId, fields)
  {
    var a, b := Rows(before, typeRows, hotelId, fields), Rows(after, typeRows, hotelId, fields);
    forall r ensures RoomTouched(before, after, r, hotelId, fields) <==>
                     (r in a || r in b) && !(r in a && r in b && a[r] == b[r])
    {
    }
  }

  lemma OtherHotelsAreUntouched(before: map<Id, Room>, after: map<Id, Room>, hotelId: Id, other: Id, fields: Fields)
    requires OnlyHotel(before, after, hotelId) && other != hotelId
    ensures !Touched(before, after, other, fields)
  {
  }

  // ---- writes through one spelling of a hotel ----------------------------------------------

  /** Every stored list of the hotel was asked for with this spelling. */
  ghost predicate OneSpelling(c: Entries<RoomPage>, hotelId: Id) {
    forall q :: Askable(q) && q.RoomList? && KeyOf(q) in c && Key(q.hotelId) == Key(hotelId) ==> q.hotelId == hotelId
  }

  lemma RegistryIsSpelling(h: Id, q: ListQuery)
    requires q.RoomList? && Askable(q) && NoColon(h)
    ensures RegistryOf(q) == RoomRegistryKey(h) <==> q.hotelId == h
  {
    RoomListKeyIsCanonical(q.hotelId, q.filter, h, q.filter);
  }

  /** After a write to one hotel's rooms and the deletion of the lists of the spelling it came with, a stored list that
      was right is right exactly when it was asked for with this spelling and so is gone, or shows the same page. */
  lemma WriteThroughIff(c: Entries<RoomPage>, before: map<Id, Room>, after: map<Id, Room>, typeRows: map<Id, TypeRow>,
                        browse: (RoomRows, Fields) -> RoomPage, h: Id, q: ListQuery)
    requires Tidy(c, Rooms) && NoColon(h) && Askable(q) && q.RoomList?
    requires Right(c, q, RoomAnswers(before, typeRows, browse))
    ensures Right(Invalidated(c, RoomRegistryKey(h)), q, RoomAnswers(after, typeRows, browse)) <==>
              || KeyOf(q) !in c || q.hotelId == h
              || RoomAnswers(before, typeRows, browse)(q) == RoomAnswers(after, typeRows, browse)(q)
  {
    InvalidateKeepsTidy(c, AllRoomsOf(h));
    RegistryIsSpelling(h, q);
  }

  function AllRoomsOf(h: Id): (w: ListQuery)
    ensures NoColon(h) ==> Askable(w)
    ensures w.RoomList? && RegistryOf(w) == RoomRegistryKey(h)
  {
    RoomList(h, [])
  }

  /** So every stored list is right afterwards if the hotel's lists were asked for with this spelling only. */
  lemma OneSpellingKeepsCoherent(c: Entries<RoomPage>, before: map<Id, Room>, after: map<Id, Room>,
                                 typeRows: map<Id, TypeRow>, browse: (RoomRows, Fields) -> RoomPage, h: Id)
    requires Coherent(c, Rooms, RoomAnswers(before, typeRows, browse)) && OnlyHotel(before, after, Key(h)) && NoColon(h)
    requires OneSpelling(c, h)
    ensures Coherent(Invalidated(c, RoomRegistryKey(h)), Rooms, RoomAnswers(after, typeRows, browse))
  {
    InvalidateKeepsTidy(c, AllRoomsOf(h));
    forall q | Askable(q) && ServiceOf(q) == Rooms
      ensures Right(Invalidated(c, RoomRegistryKey(h)), q, RoomAnswers(after, typeRows, browse))
    {
      WriteThroughIff(c, before, after, typeRows, browse, h, q);
      if Key(q.hotelId) != Key(h) {
        OtherHotelsAreUntouched(before, after, Key(h), Key(q.hotelId), FieldsOf(q.filter));
        WriteChangesRowsIff(before, after, typeRows, Key(q.hotelId), FieldsOf(q.filter));
      }
    }
  }

  /** Exactly: after reads and a write through the spelling `h`, the stored lists are right, however they are ordered
      and paged, if and only if each was asked for as `h` or holds no room that the write changes. */
  lemma WriteThroughRightIff(before: map<Id, Room>, after: map<Id, Room>, typeRows: map<Id, TypeRow>, h: Id,
                             stored: seq<ListQuery>)
    requires AllAskable(stored, Rooms) && NoColon(h)
    ensures (forall browse: (RoomRows, Fields) -> RoomPage ::
               Coherent(Invalidated(FillAll(map[], stored, Paged(RowsOf(before, typeRows), browse)),
                                    RoomRegistryKey(h)), Rooms, Paged(RowsOf(after, typeRows), browse))) <==>
            forall i :: 0 <= i < |stored| ==>
              stored[i].hotelId == h || !Touched(before, after, Key(stored[i].hotelId), FieldsOf(stored[i].filter))
  {
    RowsOfQuery(before, typeRows);
    RowsOfQuery(after, typeRows);
    RightAfterDeletingIff(stored, AllRoomsOf(h), RowsOf(before, typeRows), RowsOf(after, typeRows), EMPTY_PAGE,
                          EMPTY_PAGE.(total := 1));
    forall i | 0 <= i < |stored|
      ensures RegistryOf(stored[i]) == RoomRegistryKey(h) <==> stored[i].hotelId == h
      ensures RowsOf(before, typeRows)(stored[i]) == RowsOf(after, typeRows)(stored[i]) <==>
              !Touched(before, after, Key(stored[i].hotelId), FieldsOf(stored[i].filter))
    {
      RegistryIsSpelling(h, stored[i]);
      WriteChangesRowsIff(before, after, typeRows, Key(stored[i].hotelId), FieldsOf(stored[i].filter));
    }
  }

  /** In terms of runs of the cache: a write through the spelling `h` is harmless exactly when every stored list was
      asked for as `h` or holds no room that the write changes. */
  lemma WriteThroughIsHarmlessIff(s: CacheRuns.State<RoomRows>, h: Id, before: map<Id, Room>, after: map<Id, Room>,
                                  typeRows: map<Id, TypeRow>)
    requires s.service == Rooms && s.rows == RowsOf(before, typeRows) && Tidy(s.cache, Rooms) && NoColon(h)
    ensures CacheRuns.HarmlessStep(s, CacheRuns.Write(Some(AllRoomsOf(h)), RowsOf(after, typeRows))) <==>
            forall q :: Askable(q) && ServiceOf(q) == Rooms && KeyOf(q) in s.cache ==>
              q.hotelId == h || !Touched(before, after, Key(q.hotelId), FieldsOf(q.filter))
  {
    RowsOfQuery(after, typeRows);
    forall q | Askable(q) && ServiceOf(q) == Rooms && KeyOf(q) in s.cache
      ensures s.rows(q) != RowsOf(after, typeRows)(q) <==> Touched(before, after, Key(q.hotelId), FieldsOf(q.filter))
      ensures KeyOf(q) in Listed(s.cache, RegistryOf(AllRoomsOf(h))) <==> q.hotelId == h
    {
      WriteChangesRowsIff(before, after, typeRows, Key(q.hotelId), FieldsOf(q.filter));
      RegistryIsSpelling(h, q);
    }
  }

  /** Each write changes rooms of its hotel only. */
  lemma WritesChangeOneHotel(t: Tables, hotelId: Id, roomId: Id, dto: RoomDto, c: RoomChanges)
    ensures OnlyHotel(t.rooms, Create(t, hotelId, roomId, dto).after.rooms, hotelId)
    ensures OnlyHotel(t.rooms, Update(t, hotelId, roomId, c).after.rooms, hotelId)
    ensures OnlyHotel(t.rooms, Remove(t, hotelId, roomId).after.rooms, hotelId)
  {
  }

  lemma BulkChangesOneHotel(t: Tables, hotelId: Id, ids: seq<Id>, dtos: seq<RoomDto>)
    requires |ids| == |dtos|
    ensures OnlyHotel(t.rooms, BulkCreate(t, hotelId, ids, dtos).after.rooms, hotelId)
  {
  }

  // ---- writes of other services, which delete no list --------------------------------------

  /** `UPDATE rooms SET status = ... WHERE id IN (...)`, as a booking's status change does. */
  function StatusWritten(rooms: map<Id, Room>, roomIds: set<Id>, status: RoomStatus): map<Id, Room> {
    map r | r in rooms :: if r in roomIds then rooms[r].(status := status) else rooms[r]
  }

  lemma StatusKeepsConsistent(t: Tables, roomIds: set<Id>, status: RoomStatus)
    requires Consistent(t)
    ensures Consistent(t.(rooms := StatusWritten(t.rooms, roomIds, status)))
  {
  }

  ghost predicate StatusTouchesRoom(rooms: map<Id, Room>, r: Id, roomIds: set<Id>, status: RoomStatus, hotelId: Id,
                                    fields: Fields) {
    && r in roomIds && r in rooms && rooms[r].status != status
    && (RoomMatches(rooms[r], hotelId, fields) || RoomMatches(rooms[r].(status := status), hotelId, fields))
  }

  /** Some room really changes its status and matches the filter before or after. */
  ghost predicate StatusTouches(rooms: map<Id, Room>, roomIds: set<Id>, status: RoomStatus, hotelId: Id,
                                fields: Fields) {
    exists r :: StatusTouchesRoom(rooms, r, roomIds, status, hotelId, fields)
  }

  /** Some matching room's type shows another row. */
  ghost predicate TypesTouch(rooms: map<Id, Room>, before: map<Id, TypeRow>, after: map<Id, TypeRow>,
                             hotelId: Id, fields: Fields) {
    exists r :: r in rooms && RoomMatches(rooms[r], hotelId, fields) &&
      TypeRowOf(before, rooms[r].roomTypeId) != TypeRowOf(after, rooms[r].roomTypeId)
  }

  lemma StatusTouchesIff(rooms: map<Id, Room>, roomIds: set<Id>, status: RoomStatus, hotelId: Id, fields: Fields)
    ensures StatusTouches(rooms, roomIds, status, hotelId, fields) <==>
            Touched(rooms, StatusWritten(rooms, roomIds, status), hotelId, fields)
  {
    forall r ensures StatusTouchesRoom(rooms, r, roomIds, status, hotelId, fields) <==>
                     RoomTouched(rooms, StatusWritten(rooms, roomIds, status), r, hotelId, fields)
    {
    }
  }

  lemma StatusChangesRowsIff(rooms: map<Id, Room>, typeRows: map<Id, TypeRow>, roomIds: set<Id>, status: RoomStatus,
                             hotelId: Id, fields: Fields)
    ensures Rows(rooms, typeRows, hotelId, fields) !=
              Rows(StatusWritten(rooms, roomIds, status), typeRows, hotelId, fields) <==>
            StatusTouches(rooms, roomIds, status, hotelId, fields)
  {
    StatusTouchesIff(rooms, roomIds, status, hotelId, fields);
    WriteChangesRowsIff(rooms, StatusWritten(rooms, roomIds, status), typeRows, hotelId, fields);
  }

  lemma TypesChangeRowsIff(rooms: map<Id, Room>, before: map<Id, TypeRow>, after: map<Id, TypeRow>, hotelId: Id,
                           fields: Fields)
    ensures Rows(rooms, before, hotelId, fields) != Rows(rooms, after, hotelId, fields) <==>
            TypesTouch(rooms, before, after, hotelId, fields)
  {
    var a, b := Rows(rooms, before, hotelId, fields), Rows(rooms, after, hotelId, fields);
    if r :| r in rooms && RoomMatches(rooms[r], hotelId, fields) &&
            TypeRowOf(before, rooms[r].roomTypeId) != TypeRowOf(after, rooms[r].roomTypeId) {
      assert a[r] != b[r];
    }
  }

  /** A status write leaves the stored lists right, however they are ordered and paged, exactly when no stored
      filter matches a changed room before or after it. */
  lemma StatusWriteRightIff(rooms: map<Id, Room>, typeRows: map<Id, TypeRow>, roomIds: set<Id>, status: RoomStatus,
                            stored: seq<ListQuery>)
    requires AllAskable(stored, Rooms)
    ensures (forall browse: (RoomRows, Fields) -> RoomPage ::
               Coherent(FillAll(map[], stored, Paged(RowsOf(rooms, typeRows), browse)), Rooms,
                        Paged(RowsOf(StatusWritten(rooms, roomIds, status), typeRows), browse))) <==>
            forall i :: 0 <= i < |stored| ==>
              !StatusTouches(rooms, roomIds, status, HotelOf(stored[i]), FieldsOf(stored[i].filter))
  {
    var before, after := RowsOf(rooms, typeRows), RowsOf(StatusWritten(rooms, roomIds, status), typeRows);
    RowsOfQuery(rooms, typeRows);
    RowsOfQuery(StatusWritten(rooms, roomIds, status), typeRows);
    RightForEveryPageIff(stored, Rooms, before, after, EMPTY_PAGE, EMPTY_PAGE.(total := 1));
    forall i | 0 <= i < |stored|
      ensures before(stored[i]) == after(stored[i]) <==>
              !StatusTouches(rooms, roomIds, status, HotelOf(stored[i]), FieldsOf(stored[i].filter))
    {
      StatusChangesRowsIff(rooms, typeRows, roomIds, status, HotelOf(stored[i]), FieldsOf(stored[i].filter));
    }
  }

  /** Likewise for a write to the joined room types: exactly when no matching room's type shows another row. */
  lemma TypeWriteRightIff(rooms: map<Id, Room>, before: map<Id, TypeRow>, after: map<Id, TypeRow>,
                          stored: seq<ListQuery>)
    requires AllAskable(stored, Rooms)
    ensures (forall browse: (RoomRows, Fields) -> RoomPage ::
               Coherent(FillAll(map[], stored, Paged(RowsOf(rooms, before), browse)), Rooms,
                        Paged(RowsOf(rooms, after), browse))) <==>
            forall i :: 0 <= i < |stored| ==>
              !TypesTouch(rooms, before, after, HotelOf(stored[i]), FieldsOf(stored[i].filter))
  {
    RowsOfQuery(rooms, before);
    RowsOfQuery(rooms, after);
    RightForEveryPageIff(stored, Rooms, RowsOf(rooms, before), RowsOf(rooms, after), EMPTY_PAGE,
                         EMPTY_PAGE.(total := 1));
    forall i | 0 <= i < |stored|
      ensures RowsOf(rooms, before)(stored[i]) == RowsOf(rooms, after)(stored[i]) <==>
              !TypesTouch(rooms, before, after, HotelOf(stored[i]), FieldsOf(stored[i].filter))
    {
      TypesChangeRowsIff(rooms, before, after, HotelOf(stored[i]), FieldsOf(stored[i].filter));
    }
  }

  /** Asked for everything, a page holds each matching row. */
  ghost predicate ListsAll(browse: (RoomRows, Fields) -> RoomPage) {
    forall rows, fields :: GetsAll(fields) ==> Elements(browse(rows, fields).data) == rows.Items
  }

  lemma UnpagedShowsRows(browse: (RoomRows, Fields) -> RoomPage, a: RoomRows, b: RoomRows, fields: Fields)
    requires ListsAll(browse) && GetsAll(fields)
    ensures browse(a, fields) == browse(b, fields) <==> a == b
  {
    if browse(a, fields) == browse(b, fields) {
      SameItems(a, b);
    }
  }

  /** An unpaged list is stale after a status write exactly when a changed room matched or matches it. */
  lemma UnpagedListStaleIff(rooms: map<Id, Room>, typeRows: map<Id, TypeRow>, roomIds: set<Id>, status: RoomStatus,
                            browse: (RoomRows, Fields) -> RoomPage, q: ListQuery)
    requires ListsAll(browse) && GetsAll(FieldsOf(q.filter))
    ensures RoomAnswers(rooms, typeRows, browse)(q) !=
              RoomAnswers(StatusWritten(rooms, roomIds, status), typeRows, browse)(q) <==>
            StatusTouches(rooms, roomIds, status, HotelOf(q), FieldsOf(q.filter))
  {
    var fields := FieldsOf(q.filter);
    StatusChangesRowsIff(rooms, typeRows, roomIds, status, HotelOf(q), fields);
    UnpagedShowsRows(browse, Rows(rooms, typeRows, HotelOf(q), fields),
                     Rows(StatusWritten(rooms, roomIds, status), typeRows, HotelOf(q), fields), fields);
  }

  /** `?status=AVAILABLE&getAll=true`. */
  function AvailableList(hotelId: Id): ListQuery {
    RoomList(hotelId, [Prop("status", Some(Str("AVAILABLE"))), Prop("getAll", Some(Bool(true)))])
  }

  lemma AvailableFields(hotelId: Id)
    ensures var filter := AvailableList(hotelId).filter;
            IsObject(filter) && FieldsOf(filter) == map["status" := Str("AVAILABLE"), "getAll" := Bool(true)]
  {
    var filter := AvailableList(hotelId).filter;
    assert filter == [filter[0], filter[1]];
    assert "status"[0] != "getAll"[0];
    assert Names(filter) == ["status", "getAll"];
    forall name
      ensures Lookup(filter, name) == if name == "status" then Some(Str("AVAILABLE"))
                                      else if name == "getAll" then Some(Bool(true)) else None
    {
      LookupOfTwo(filter[0], filter[1], name);
    }
  }

  lemma CheckInEmptiesList(room: Room, id: Id, typeRows: map<Id, TypeRow>)
    requires room.status == Available
    ensures var fields: Fields := map["status" := Str("AVAILABLE"), "getAll" := Bool(true)];
            && Rows(map[id := room], typeRows, room.hotelId, fields).Keys == {id}
            && Rows(StatusWritten(map[id := room], {id}, Occupied), typeRows, room.hotelId, fields) == map[]
  {
    assert "AVAILABLE"[0] != "OCCUPIED"[0];
  }

  /** It happens: the stored list of the available rooms still shows a room after its guest has checked in. */
  lemma CheckInLeavesListStale(h: Id, room: Room, id: Id, typeRows: map<Id, TypeRow>,
                               browse: (RoomRows, Fields) -> RoomPage)
    requires ListsAll(browse) && room.status == Available && NoColon(h) && room.hotelId == Key(h)
    ensures var q := AvailableList(h);
            var before := RoomAnswers(map[id := room], typeRows, browse);
            var after := RoomAnswers(StatusWritten(map[id := room], {id}, Occupied), typeRows, browse);
            && Askable(q) && Holds(FillAll(map[], [q], before), KeyOf(q), before(q))
            && before(q).data != [] && after(q).data == []
  {
    var q := AvailableList(h);
    AvailableFields(h);
    CheckInEmptiesList(room, id, typeRows);
    ReadIsStored(q, RoomAnswers(map[id := room], typeRows, browse));
    var fields := FieldsOf(q.filter);
    UnpagedEmptyIff(browse, Rows(map[id := room], typeRows, room.hotelId, fields), fields);
    UnpagedEmptyIff(browse, Rows(StatusWritten(map[id := room], {id}, Occupied), typeRows, room.hotelId, fields),
                    fields);
  }

  /** It happens: the available rooms of `HOTEL` are listed, the only room is removed through `hotel`, which is the same
      hotel, and the list that `HOTEL` still finds shows the room. */
  lemma RemovalMissesOtherSpelling(room: Room, id: Id, typeRows: map<Id, TypeRow>,
                                   browse: (RoomRows, Fields) -> RoomPage)
    requires ListsAll(browse) && room.status == Available && room.hotelId == "hotel"
    ensures var q := AvailableList("HOTEL");
            var before, after := RoomAnswers(map[id := room], typeRows, browse), RoomAnswers(map[], typeRows, browse);
            && Key("HOTEL") == Key("hotel") == room.hotelId && Askable(q)
            && Holds(Invalidated(FillAll(map[], [q], before), RoomRegistryKey("hotel")), KeyOf(q), before(q))
            && before(q).data != [] && after(q).data == []
  {
    var q := AvailableList("HOTEL");
    HotelSpellings();
    AvailableFields("HOTEL");
    RemovalEmptiesList(q, room, id, typeRows, browse);
    RowsOfQuery(map[id := room], typeRows);
    PagedOfQuery(RowsOf(map[id := room], typeRows), browse);
    OtherSpellingStaysStored(q, "hotel", RoomAnswers(map[id := room], typeRows, browse));
  }

  lemma RemovalEmptiesList(q: ListQuery, room: Room, id: Id, typeRows: map<Id, TypeRow>,
                           browse: (RoomRows, Fields) -> RoomPage)
    requires ListsAll(browse) && room.status == Available && HotelOf(q) == room.hotelId
    requires FieldsOf(q.filter) == map["status" := Str("AVAILABLE"), "getAll" := Bool(true)]
    ensures RoomAnswers(map[id := room], typeRows, browse)(q).data != []
    ensures RoomAnswers(map[], typeRows, browse)(q).data == []
  {
    var fields := FieldsOf(q.filter);
    CheckInEmptiesList(room, id, typeRows);
    UnpagedEmptyIff(browse, Rows(map[id := room], typeRows, room.hotelId, fields), fields);
    UnpagedEmptyIff(browse, Rows(map[], typeRows, room.hotelId, fields), fields);
  }

  lemma OtherSpellingStaysStored(q: ListQuery, h: Id, answer: ListQuery -> RoomPage)
    requires Askable(q) && q.RoomList? && NoColon(h) && q.hotelId != h && OfQuery(answer)
    ensures Holds(Invalidated(FillAll(map[], [q], answer), RoomRegistryKey(h)), KeyOf(q), answer(q))
  {
    var c: Entries<RoomPage> := FillAll(map[], [q], answer);
    ReadIsStored(q, answer);
    EmptyIsCoherent(Rooms, answer);
    FillAllStores(map[], [q], Rooms, answer);
    InvalidateKeepsTidy(c, AllRoomsOf(h));
    RegistryIsSpelling(h, q);
  }

  lemma UnpagedEmptyIff(browse: (RoomRows, Fields) -> RoomPage, rows: RoomRows, fields: Fields)
    requires ListsAll(browse) && GetsAll(fields)
    ensures browse(rows, fields).data == [] <==> rows == map[]
  {
    NoItemsIff(browse(rows, fields).data, rows);
  }

  /** No stored list is touched. */
  ghost predicate NoneStatusTouched(c: Entries<RoomPage>, rooms: map<Id, Room>, roomIds: set<Id>, status: RoomStatus) {
    forall q :: Askable(q) && ServiceOf(q) == Rooms && KeyOf(q) in c ==>
      !StatusTouches(rooms, roomIds, status, HotelOf(q), FieldsOf(q.filter))
  }

  ghost predicate NoneTypesTouch(c: Entries<RoomPage>, rooms: map<Id, Room>, before: map<Id, TypeRow>,
                                 after: map<Id, TypeRow>) {
    forall q :: Askable(q) && ServiceOf(q) == Rooms && KeyOf(q) in c ==>
      !TypesTouch(rooms, before, after, HotelOf(q), FieldsOf(q.filter))
  }

  /** Some stored unpaged list is touched. */
  ghost predicate UnpagedTouched(c: Entries<RoomPage>, rooms: map<Id, Room>, roomIds: set<Id>, status: RoomStatus) {
    exists q :: Askable(q) && ServiceOf(q) == Rooms && KeyOf(q) in c && GetsAll(FieldsOf(q.filter)) &&
                StatusTouches(rooms, roomIds, status, HotelOf(q), FieldsOf(q.filter))
  }

  class RoomService {
    var hotels: set<Id>
    var types: map<Id, Id>
    var rooms: map<Id, Room>
    var booked: set<Id>
    var typeRows: map<Id, TypeRow>
    const browse: (RoomRows, Fields) -> RoomPage
    const cache: KeyedCache<RoomPage>

    function View(): Tables
      reads this
    {
      Tables(hotels, types, rooms, booked)
    }

    ghost predicate Valid()
      reads this, cache
    {
      Tidy(cache.entries, Rooms) && Consistent(View())
    }

    /** Every stored list is right. */
    ghost predicate Fresh()
      reads this, cache
    {
      Coherent(cache.entries, Rooms, RoomAnswers(rooms, typeRows, browse))
    }

    constructor (hotels: set<Id>, types: map<Id, Id>, typeRows: map<Id, TypeRow>,
                 browse: (RoomRows, Fields) -> RoomPage)
      ensures Valid() && Fresh() && fresh(cache) && View() == Tables(hotels, types, map[], {})
      ensures this.typeRows == typeRows && this.browse == browse
    {
      this.hotels := hotels;
      this.types := types;
      this.rooms := map[];
      this.booked := {};
      this.typeRows := typeRows;
      this.browse := browse;
      this.cache := new KeyedCache();
    }

    /** None when the hotel does not exist; otherwise the page stored for this spelling of the hotel, or what the
        database gives, which is then stored. */
    method FindAllByHotel(hotelId: Id, filter: seq<Prop>) returns (r: Option<RoomPage>)
      requires Valid() && IsObject(filter) && NoColon(hotelId)
      modifies cache
      ensures Valid()
      ensures var q := RoomList(hotelId, filter);
              var now := ListRooms(rooms, typeRows, browse, Key(hotelId), FieldsOf(filter));
              if Key(hotelId) !in hotels then r == None && cache.entries == old(cache.entries)
              else && r == Some(ReadThrough(old(cache.entries), q, now))
                   && cache.entries == AfterRead(old(cache.entries), q, now)
                   && (r == Some(now) <==> Right(old(cache.entries), q, RoomAnswers(rooms, typeRows, browse)))
    {
      if Key(hotelId) !in hotels { return None; }
      var q := RoomList(hotelId, filter);
      RowsOfQuery(rooms, typeRows);
      PagedOfQuery(RowsOf(rooms, typeRows), browse);
      ReadIsFreshIff(cache.entries, q, RoomAnswers(rooms, typeRows, browse));
      if KeyOf(q) in cache.entries {
        assert cache.entries[KeyOf(q)].Answer?;
        return Some(cache.entries[KeyOf(q)].value);
      }
      var page := ListRooms(rooms, typeRows, browse, Key(hotelId), FieldsOf(filter));
      cache.Fill(q, page);
      return Some(page);
    }

    method InvalidateRoomLists(hotelId: Id)
      requires Tidy(cache.entries, Rooms) && NoColon(hotelId)
      modifies cache
      ensures Tidy(cache.entries, Rooms)
      ensures cache.entries == Invalidated(old(cache.entries), RoomRegistryKey(hotelId))
    {
      InvalidateKeepsTidy(cache.entries, AllRoomsOf(hotelId));
      cache.InvalidateLists(RoomRegistryKey(hotelId));
    }

    method CreateRoom(hotelId: Id, newId: Id, dto: RoomDto) returns (refusal: Option<Refusal>)
      requires Valid() && NoColon(hotelId)
      modifies this`rooms, cache
      ensures Valid()
      ensures cache.entries == if refusal != None then old(cache.entries)
                               else Invalidated(old(cache.entries), RoomRegistryKey(hotelId))
      ensures View() == Create(old(View()), Key(hotelId), newId, dto).after
      ensures refusal == Create(old(View()), Key(hotelId), newId, dto).refusal
    {
      CreateKeepsConsistent(View(), Key(hotelId), newId, dto);
      if Key(hotelId) !in hotels { return Some(HotelNotFound); }
      if !TypeOfHotel(View(), Key(dto.roomTypeId), Key(hotelId)) { return Some(RoomTypeNotFound); }
      if NumberTaken(View(), Key(hotelId), dto.roomNumber, None) { return Some(RoomNumberTaken); }
      if newId in rooms { return Some(StorageFailed); }
      rooms := rooms[newId := RoomOf(Key(hotelId), dto)];
      InvalidateRoomLists(hotelId);
      return None;
    }

    method CheckBulk(hotelId: Id, dtos: seq<RoomDto>) returns (refusal: Option<Refusal>)
      ensures refusal == BulkRefusal(View(), hotelId, dtos)
    {
      if dtos == [] || |dtos| > 100 { return Some(InvalidBody); }
      if hotelId !in hotels { return Some(HotelNotFound); }
      var requested := TypeIds(dtos);
      var valid := ValidTypes(View(), requested, hotelId);
      if |valid| != |requested| { return Some(RoomTypeNotFound); }
      var numbers := Numbers(dtos);
      var duplicates := Repeats(numbers);
      if duplicates != [] { return Some(DuplicateNumbers(duplicates)); }
      if exists n :: n in numbers && NumberTaken(View(), hotelId, n, None) { return Some(RoomNumberTaken); }
      return None;
    }

    method BulkCreateRooms(hotelId: Id, ids: seq<Id>, dtos: seq<RoomDto>) returns (refusal: Option<Refusal>)
      requires Valid() && NoColon(hotelId) && |ids| == |dtos|
      modifies this`rooms, cache
      ensures Valid()
      ensures cache.entries == if refusal != None then old(cache.entries)
                               else Invalidated(old(cache.entries), RoomRegistryKey(hotelId))
      ensures View() == BulkCreate(old(View()), Key(hotelId), ids, dtos).after
      ensures refusal == BulkCreate(old(View()), Key(hotelId), ids, dtos).refusal
    {
      ghost var reply := BulkCreate(View(), Key(hotelId), ids, dtos);
      BulkKeepsConsistent(View(), Key(hotelId), ids, dtos);
      refusal := CheckBulk(Key(hotelId), dtos);
      if refusal != None { return; }
      if !Generated(View(), ids) { return Some(StorageFailed); }
      rooms := rooms + NewRooms(Key(hotelId), ids, dtos);
      assert View() == reply.after && reply.refusal == None;
      InvalidateRoomLists(hotelId);
    }

    method UpdateRoom(hotelId: Id, roomId: Id, c: RoomChanges) returns (refusal: Option<Refusal>)
      requires Valid() && NoColon(hotelId)
      modifies this`rooms, cache
      ensures Valid()
      ensures cache.entries == if refusal != None then old(cache.entries)
                               else Invalidated(old(cache.entries), RoomRegistryKey(hotelId))
      ensures View() == Update(old(View()), Key(hotelId), Key(roomId), c).after
      ensures refusal == Update(old(View()), Key(hotelId), Key(roomId), c).refusal
    {
      UpdateKeepsConsistent(View(), Key(hotelId), Key(roomId), c);
      if c.roomNumber == Some("") { return Some(InvalidBody); }
      if Key(hotelId) !in hotels { return Some(HotelNotFound); }
      var id := Key(roomId);
      if id !in rooms || rooms[id].hotelId != Key(hotelId) { return Some(RoomNotFound); }
      var room := rooms[id];
      if c.roomTypeId.Some? && c.roomTypeId.value != room.roomTypeId &&
        !TypeOfHotel(View(), Key(c.roomTypeId.value), Key(hotelId)) {
        return Some(RoomTypeNotFound);
      }
      if c.roomNumber.Some? && c.roomNumber.value != room.roomNumber &&
         NumberTaken(View(), Key(hotelId), c.roomNumber.value, Some(id)) {
        return Some(RoomNumberTaken);
      }
      rooms := rooms[id := MergeRoom(room, c)];
      InvalidateRoomLists(hotelId);
      return None;
    }

    method RemoveRoom(hotelId: Id, roomId: Id) returns (refusal: Option<Refusal>)
      requires Valid() && NoColon(hotelId)
      modifies this`rooms, cache
      ensures Valid()
      ensures cache.entries == if refusal != None then old(cache.entries)
                               else Invalidated(old(cache.entries), RoomRegistryKey(hotelId))
      ensures View() == Remove(old(View()), Key(hotelId), Key(roomId)).after
      ensures refusal == Remove(old(View()), Key(hotelId), Key(roomId)).refusal
    {
      if Key(hotelId) !in hotels { return Some(HotelNotFound); }
      var id := Key(roomId);
      if id !in rooms || rooms[id].hotelId != Key(hotelId) { return Some(RoomNotFound); }
      if id in booked { return Some(RoomBooked); }
      rooms := rooms - {id};
      InvalidateRoomLists(hotelId);
      return None;
    }

    /** A booking's status change writes the status of its rooms and deletes nothing from this cache. The stored
        lists are right afterwards exactly when none of them shows another page; none does if no changed room
        matches a stored filter before or after, and an unpaged list that one matches does. */
    method BookingWritesStatus(roomIds: set<Id>, status: RoomStatus)
      requires Valid()
      modifies this`rooms
      ensures rooms == StatusWritten(old(rooms), roomIds, status)
      ensures Valid()
      ensures old(Fresh()) ==>
                (Fresh() <==> forall q :: Askable(q) && ServiceOf(q) == Rooms && KeyOf(q) in cache.entries ==>
                RoomAnswers(old(rooms), typeRows, browse)(q) == RoomAnswers(rooms, typeRows, browse)(q))
      ensures old(Fresh()) && NoneStatusTouched(cache.entries, old(rooms), roomIds, status) ==> Fresh()
      ensures old(Fresh()) && ListsAll(browse) && UnpagedTouched(cache.entries, old(rooms), roomIds, status) ==>
                !Fresh()
    {
      var after := StatusWritten(rooms, roomIds, status);
      if Fresh() {
        SilentWriteKeepsCoherentIff(cache.entries, Rooms, RoomAnswers(rooms, typeRows, browse),
                                    RoomAnswers(after, typeRows, browse));
      }
      forall q
        ensures !StatusTouches(rooms, roomIds, status, HotelOf(q), FieldsOf(q.filter)) ==>
                RoomAnswers(rooms, typeRows, browse)(q) == RoomAnswers(after, typeRows, browse)(q)
        ensures ListsAll(browse) && GetsAll(FieldsOf(q.filter)) &&
                StatusTouches(rooms, roomIds, status, HotelOf(q), FieldsOf(q.filter)) ==>
                RoomAnswers(rooms, typeRows, browse)(q) != RoomAnswers(after, typeRows, browse)(q)
      {
        StatusChangesRowsIff(rooms, typeRows, roomIds, status, HotelOf(q), FieldsOf(q.filter));
        if ListsAll(browse) && GetsAll(FieldsOf(q.filter)) {
          UnpagedListStaleIff(rooms, typeRows, roomIds, status, browse, q);
        }
      }
      StatusKeepsConsistent(View(), roomIds, status);
      rooms := after;
    }

    /** Likewise when the service of the joined room types writes its rows. */
    method RoomTypesChange(typeRows: map<Id, TypeRow>)
      requires Valid()
      modifies this`typeRows
      ensures this.typeRows == typeRows
      ensures Valid()
      ensures old(Fresh()) ==>
                (Fresh() <==> forall q :: Askable(q) && ServiceOf(q) == Rooms && KeyOf(q) in cache.entries ==>
                RoomAnswers(rooms, old(this.typeRows), browse)(q) == RoomAnswers(rooms, typeRows, browse)(q))
      ensures old(Fresh()) && NoneTypesTouch(cache.entries, rooms, old(this.typeRows), typeRows) ==> Fresh()
    {
      var before := this.typeRows;
      if Fresh() {
        SilentWriteKeepsCoherentIff(cache.entries, Rooms, RoomAnswers(rooms, before, browse),
                                    RoomAnswers(rooms, typeRows, browse));
      }
      forall q | !TypesTouch(rooms, before, typeRows, HotelOf(q), FieldsOf(q.filter))
        ensures RoomAnswers(rooms, before, browse)(q) == RoomAnswers(rooms, typeRows, browse)(q)
      {
        TypesChangeRowsIff(rooms, before, typeRows, HotelOf(q), FieldsOf(q.filter));
      }
      this.typeRows := typeRows;
    }
  }
}
