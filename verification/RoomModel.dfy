/** Rooms of hotels: a room number is used once per hotel, and a room's type belongs to its hotel. Room types are
    written by another service, which the runs here include. Hotels and rooms are named by their stored ids here;
    bodies spell room types as they like. */
module RoomModel {
  import opened RoomStates
  import opened SequenceFacts
  import opened Ids

  type Id = string

  datatype Room = Room(hotelId: Id, roomTypeId: Id, roomNumber: string, floorNumber: int, status: RoomStatus)

  /** A create body, and an update body with the fields it names. */
  datatype RoomDto = RoomDto(roomTypeId: Id, roomNumber: string, floorNumber: int, status: RoomStatus)
  datatype RoomChanges = RoomChanges(roomTypeId: Option<Id>, roomNumber: Option<string>, floorNumber: Option<int>,
                                     status: Option<RoomStatus>)

  /** `types` gives the hotel of each room type; `booked` holds the rooms that some booking row refers to,
      whatever the booking's status. */
  datatype Tables = Tables(hotels: set<Id>, types: map<Id, Id>, rooms: map<Id, Room>, booked: set<Id>)

  datatype Refusal =
    | InvalidBody | HotelNotFound | RoomTypeNotFound | RoomNumberTaken | DuplicateNumbers(numbers: seq<string>)
    | RoomNotFound | RoomBooked | StorageFailed

  datatype Reply = Reply(after: Tables, refusal: Option<Refusal>)

  predicate TypeOfHotel(t: Tables, typeId: Id, hotelId: Id) {
    typeId in t.types && t.types[typeId] == hotelId
  }

  /** Some room of the hotel, other than the excluded one, has the number. */
  predicate NumberTaken(t: Tables, hotelId: Id, number: string, exclude: Option<Id>) {
    exists r :: r in t.rooms && t.rooms[r].hotelId == hotelId && t.rooms[r].roomNumber == number && exclude != Some(r)
  }

  function RoomOf(hotelId: Id, dto: RoomDto): Room {
    Room(hotelId, Key(dto.roomTypeId), dto.roomNumber, dto.floorNumber, dto.status)
  }

  function Create(t: Tables, hotelId: Id, newId: Id, dto: RoomDto): (r: Reply)
    ensures r.refusal != None ==> r.after == t
  {
    if hotelId !in t.hotels then Reply(t, Some(HotelNotFound))
    else if !TypeOfHotel(t, Key(dto.roomTypeId), hotelId) then Reply(t, Some(RoomTypeNotFound))
    else if NumberTaken(t, hotelId, dto.roomNumber, None) then Reply(t, Some(RoomNumberTaken))
    else if newId in t.rooms then Reply(t, Some(StorageFailed))
    else Reply(t.(rooms := t.rooms[newId := RoomOf(hotelId, dto)]), None)
  }

  /** The different spellings of room types in the request. */
  function TypeIds(dtos: seq<RoomDto>): set<Id> {
    set i | 0 <= i < |dtos| :: dtos[i].roomTypeId
  }

  /** `SELECT id FROM room_types WHERE id IN (...) AND hotelId = ...`. */
  function ValidTypes(t: Tables, requested: set<Id>, hotelId: Id): set<Id> {
    set id | id in Image(requested, Key) && TypeOfHotel(t, id, hotelId)
  }

  function Numbers(dtos: seq<RoomDto>): seq<string> {
    seq(|dtos|, i requires 0 <= i < |dtos| => dtos[i].roomNumber)
  }

  /** The rows that saving the request inserts, one per generated id. */
  function NewRooms(hotelId: Id, ids: seq<Id>, dtos: seq<RoomDto>): map<Id, Room>
    requires |ids| == |dtos|
  {
    map id | id in ids :: RoomOf(hotelId, dtos[IndexOf(ids, id)])
  }

  /** The generated ids are different from each other and from every stored id. */
  predicate Generated(t: Tables, ids: seq<Id>) {
    Repeats(ids) == [] && forall id :: id in ids ==> id !in t.rooms
  }

  function BulkRefusal(t: Tables, hotelId: Id, dtos: seq<RoomDto>): Option<Refusal> {
    if dtos == [] || |dtos| > 100 then Some(InvalidBody)
    else if hotelId !in t.hotels then Some(HotelNotFound)
    else
      var requested := TypeIds(dtos);
      var valid := ValidTypes(t, requested, hotelId);
      var numbers := Numbers(dtos);
      if |valid| != |requested| then Some(RoomTypeNotFound)
      else if Repeats(numbers) != [] then Some(DuplicateNumbers(Repeats(numbers)))
      else if exists n :: n in numbers && NumberTaken(t, hotelId, n, None) then Some(RoomNumberTaken)
      else None
  }

  function BulkCreate(t: Tables, hotelId: Id, ids: seq<Id>, dtos: seq<RoomDto>): (r: Reply)
    requires |ids| == |dtos|
    ensures r.refusal != None ==> r.after == t
  {
    var refusal := BulkRefusal(t, hotelId, dtos);
    if refusal != None then Reply(t, refusal)
    else if !Generated(t, ids) then Reply(t, Some(StorageFailed))
    else Reply(t.(rooms := t.rooms + NewRooms(hotelId, ids, dtos)), None)
  }

  function MergeRoom(r: Room, c: RoomChanges): Room {
    var typeId := if c.roomTypeId.Some? then Key(c.roomTypeId.value) else r.roomTypeId;
    Room(r.hotelId, typeId, Or(c.roomNumber, r.roomNumber), Or(c.floorNumber, r.floorNumber),
         Or(c.status, r.status))
  }

  /** The body validation turns down an empty room number before the service sees it. */
  function Update(t: Tables, hotelId: Id, roomId: Id, c: RoomChanges): (r: Reply)
    ensures r.refusal != None ==> r.after == t
  {
    if c.roomNumber == Some("") then Reply(t, Some(InvalidBody))
    else if hotelId !in t.hotels then Reply(t, Some(HotelNotFound))
    else if roomId !in t.rooms || t.rooms[roomId].hotelId != hotelId then Reply(t, Some(RoomNotFound))
    else
      var room := t.rooms[roomId];
      if c.roomTypeId.Some? && c.roomTypeId.value != room.roomTypeId &&
        !TypeOfHotel(t, Key(c.roomTypeId.value), hotelId) then
        Reply(t, Some(RoomTypeNotFound))
      else if c.roomNumber.Some? && c.roomNumber.value != room.roomNumber &&
              NumberTaken(t, hotelId, c.roomNumber.value, Some(roomId)) then
        Reply(t, Some(RoomNumberTaken))
      else Reply(t.(rooms := t.rooms[roomId := MergeRoom(room, c)]), None)
  }

  function Remove(t: Tables, hotelId: Id, roomId: Id): (r: Reply)
    ensures r.refusal != None ==> r.after == t
  {
    if hotelId !in t.hotels then Reply(t, Some(HotelNotFound))
    else if roomId !in t.rooms || t.rooms[roomId].hotelId != hotelId then Reply(t, Some(RoomNotFound))
    else if roomId in t.booked then Reply(t, Some(RoomBooked))
    else Reply(t.(rooms := t.rooms - {roomId}), None)
  }

  /** The booking service adds a booking row for a stored room. */
  function Book(t: Tables, roomId: Id): Tables {
    if roomId in t.rooms then t.(booked := t.booked + {roomId}) else t
  }

  /** A room type is added under its hotel, or removed while no room refers to it. */
  function AddType(t: Tables, typeId: Id, hotelId: Id): Tables {
    if typeId in t.types then t else t.(types := t.types[typeId := hotelId])
  }

  function RemoveType(t: Tables, typeId: Id): Tables {
    if exists r :: r in t.rooms && t.rooms[r].roomTypeId == typeId then t else t.(types := t.types - {typeId})
  }

  // ---- what every run keeps ----------------------------------------------------------------

  ghost predicate NumbersUnique(t: Tables) {
    forall a, b :: a in t.rooms && b in t.rooms && a != b && t.rooms[a].hotelId == t.rooms[b].hotelId ==>
      t.rooms[a].roomNumber != t.rooms[b].roomNumber
  }

  /** The type of a room belongs to its hotel, and the column holds the stored spelling. */
  ghost predicate TypesFit(t: Tables) {
    forall r :: r in t.rooms ==>
      TypeOfHotel(t, t.rooms[r].roomTypeId, t.rooms[r].hotelId) && Key(t.rooms[r].roomTypeId) == t.rooms[r].roomTypeId
  }

  /** No booking row dangles. */
  ghost predicate BookedStored(t: Tables) {
    t.booked <= t.rooms.Keys
  }

  ghost predicate Consistent(t: Tables) {
    NumbersUnique(t) && TypesFit(t) && BookedStored(t)
  }

  /** Counting the valid types of the request finds every foreign or unknown one, and every type that is spelled in
      two ways. */
  lemma AllTypesValid(t: Tables, hotelId: Id, dtos: seq<RoomDto>)
    ensures |ValidTypes(t, TypeIds(dtos), hotelId)| == |TypeIds(dtos)| <==>
            && (forall i :: 0 <= i < |dtos| ==> TypeOfHotel(t, Key(dtos[i].roomTypeId), hotelId))
            && SpelledOnce(dtos)
  {
    var requested := TypeIds(dtos);
    var valid, keys := ValidTypes(t, requested, hotelId), Image(requested, Key);
    SubsetSize(valid, keys);
    ImageSize(requested, Key);
    assert forall i :: 0 <= i < |dtos| ==> dtos[i].roomTypeId in requested && Key(dtos[i].roomTypeId) in keys;
    assert SpelledOnce(dtos) <==> OneToOne(requested, Key);
    if valid == keys {
      assert |valid| == |keys|;
    } else if k :| k in keys && k !in valid {
      assert !TypeOfHotel(t, k, hotelId);
    }
  }

  /** No two elements spell one room type in different ways. */
  ghost predicate SpelledOnce(dtos: seq<RoomDto>) {
    forall i, j :: 0 <= i < |dtos| && 0 <= j < |dtos| && Key(dtos[i].roomTypeId) == Key(dtos[j].roomTypeId) ==>
      dtos[i].roomTypeId == dtos[j].roomTypeId
  }

  /** A bulk request passes exactly when every type belongs to the hotel and is spelled in one way, no number is
      repeated and none is taken. */
  lemma BulkAcceptedIff(t: Tables, hotelId: Id, dtos: seq<RoomDto>)
    ensures BulkRefusal(t, hotelId, dtos) == None <==>
            && 1 <= |dtos| <= 100 && hotelId in t.hotels
            && (forall i :: 0 <= i < |dtos| ==> TypeOfHotel(t, Key(dtos[i].roomTypeId), hotelId))
            && SpelledOnce(dtos) && Distinct(Numbers(dtos))
            && (forall i :: 0 <= i < |dtos| ==> !NumberTaken(t, hotelId, dtos[i].roomNumber, None))
  {
    AllTypesValid(t, hotelId, dtos);
    NoRepeatsIffDistinct(Numbers(dtos));
    assert forall i :: 0 <= i < |dtos| ==> Numbers(dtos)[i] == dtos[i].roomNumber;
  }

  lemma NewRoomsRows(hotelId: Id, ids: seq<Id>, dtos: seq<RoomDto>)
    requires |ids| == |dtos| && Repeats(ids) == []
    ensures NewRooms(hotelId, ids, dtos).Keys == Elements(ids) && |NewRooms(hotelId, ids, dtos)| == |dtos|
    ensures forall i :: 0 <= i < |ids| ==> NewRooms(hotelId, ids, dtos)[ids[i]] == RoomOf(hotelId, dtos[i])
  {
    var added := NewRooms(hotelId, ids, dtos);
    NoRepeatsIffDistinct(ids);
    DistinctByCounting(ids);
    assert added.Keys == Elements(ids);
    forall i | 0 <= i < |ids| ensures added[ids[i]] == RoomOf(hotelId, dtos[i]) {
      assert IndexOf(ids, ids[i]) == i;
    }
  }

  /** One new room per element, in the requested hotel; no other room changes. */
  ghost predicate AddsAll(before: map<Id, Room>, after: map<Id, Room>, hotelId: Id, ids: seq<Id>, dtos: seq<RoomDto>)
    requires |ids| == |dtos|
  {
    && |after| == |before| + |dtos|
    && (forall id :: id in before ==> id in after && after[id] == before[id])
    && (forall i :: 0 <= i < |ids| ==> ids[i] in after && after[ids[i]] == RoomOf(hotelId, dtos[i]))
  }

  lemma UnionAddsAll(before: map<Id, Room>, added: map<Id, Room>, hotelId: Id, ids: seq<Id>, dtos: seq<RoomDto>)
    requires |ids| == |dtos| == |added| && before.Keys !! added.Keys
    requires forall i :: 0 <= i < |ids| ==> ids[i] in added && added[ids[i]] == RoomOf(hotelId, dtos[i])
    ensures AddsAll(before, before + added, hotelId, ids, dtos)
  {
  }

  /** A bulk request adds all of its rooms or none. */
  lemma BulkAddsAllOrNone(t: Tables, hotelId: Id, ids: seq<Id>, dtos: seq<RoomDto>)
    requires |ids| == |dtos|
    ensures var r := BulkCreate(t, hotelId, ids, dtos);
            if r.refusal != None then r.after == t else AddsAll(t.rooms, r.after.rooms, hotelId, ids, dtos)
  {
    if Generated(t, ids) {
      NewRoomsRows(hotelId, ids, dtos);
      UnionAddsAll(t.rooms, NewRooms(hotelId, ids, dtos), hotelId, ids, dtos);
    }
  }

  lemma CreateKeepsConsistent(t: Tables, hotelId: Id, newId: Id, dto: RoomDto)
    requires Consistent(t)
    ensures Consistent(Create(t, hotelId, newId, dto).after)
  {
    KeyOfKey(dto.roomTypeId);
  }

  /** Rooms in which the number of row `id` is that of element `IndexOf(ids, id)`. */
  lemma NewRoomOf(hotelId: Id, ids: seq<Id>, dtos: seq<RoomDto>, id: Id)
    requires |ids| == |dtos| && id in ids
    ensures var i := IndexOf(ids, id);
            && id in NewRooms(hotelId, ids, dtos) && NewRooms(hotelId, ids, dtos)[id] == RoomOf(hotelId, dtos[i])
            && dtos[i].roomNumber == Numbers(dtos)[i] && ids[i] == id
  {
  }

  lemma BulkKeepsNumbers(t: Tables, added: map<Id, Room>, hotelId: Id)
    requires NumbersUnique(t) && NumbersUnique(t.(rooms := added))
    requires forall a :: a in added ==>
               added[a].hotelId == hotelId && !NumberTaken(t, hotelId, added[a].roomNumber, None)
    ensures NumbersUnique(t.(rooms := t.rooms + added))
  {
  }

  lemma NewNumbersUnique(t: Tables, hotelId: Id, ids: seq<Id>, dtos: seq<RoomDto>)
    requires |ids| == |dtos| && Distinct(Numbers(dtos))
    ensures NumbersUnique(t.(rooms := NewRooms(hotelId, ids, dtos)))
  {
    forall a, b | a in ids && b in ids && a != b
      ensures NewRooms(hotelId, ids, dtos)[a].roomNumber != NewRooms(hotelId, ids, dtos)[b].roomNumber
    {
      NewRoomOf(hotelId, ids, dtos, a);
      NewRoomOf(hotelId, ids, dtos, b);
    }
  }

  lemma BulkKeepsConsistent(t: Tables, hotelId: Id, ids: seq<Id>, dtos: seq<RoomDto>)
    requires Consistent(t) && |ids| == |dtos|
    ensures Consistent(BulkCreate(t, hotelId, ids, dtos).after)
  {
    if BulkCreate(t, hotelId, ids, dtos).refusal == None {
      BulkAcceptedIff(t, hotelId, dtos);
      NewNumbersUnique(t, hotelId, ids, dtos);
      var added := NewRooms(hotelId, ids, dtos);
      forall a | a in added
        ensures added[a].hotelId == hotelId && !NumberTaken(t, hotelId, added[a].roomNumber, None)
        ensures TypeOfHotel(t, added[a].roomTypeId, hotelId) && Key(added[a].roomTypeId) == added[a].roomTypeId
      {
        NewRoomOf(hotelId, ids, dtos, a);
        KeyOfKey(dtos[IndexOf(ids, a)].roomTypeId);
      }
      BulkKeepsNumbers(t, added, hotelId);
    }
  }

  lemma UpdateKeepsConsistent(t: Tables, hotelId: Id, roomId: Id, c: RoomChanges)
    requires Consistent(t)
    ensures Consistent(Update(t, hotelId, roomId, c).after)
  {
    if c.roomTypeId.Some? {
      KeyOfKey(c.roomTypeId.value);
    }
  }

  lemma TypeStepsKeepConsistent(t: Tables, typeId: Id, hotelId: Id)
    requires Consistent(t)
    ensures Consistent(AddType(t, typeId, hotelId)) && Consistent(RemoveType(t, typeId))
  {
  }

  datatype Step =
    | CreateStep(hotelId: Id, newId: Id, dto: RoomDto)
    | BulkStep(hotelId: Id, newRooms: seq<(Id, RoomDto)>)
    | UpdateStep(hotelId: Id, roomId: Id, changes: RoomChanges)
    | RemoveStep(hotelId: Id, roomId: Id)
    | AddTypeStep(typeId: Id, hotelId: Id)
    | RemoveTypeStep(typeId: Id)
    | AddHotelStep(hotelId: Id)
    | BookStep(roomId: Id)

  function Next(t: Tables, s: Step): Tables {
    match s
    case CreateStep(h, id, dto) => Create(t, h, id, dto).after
    case BulkStep(h, rows) =>
      BulkCreate(t, h, seq(|rows|, i requires 0 <= i < |rows| => rows[i].0),
                 seq(|rows|, i requires 0 <= i < |rows| => rows[i].1)).after
    case UpdateStep(h, id, c) => Update(t, h, id, c).after
    case RemoveStep(h, id) => Remove(t, h, id).after
    case AddTypeStep(id, h) => AddType(t, id, h)
    case RemoveTypeStep(id) => RemoveType(t, id)
    case AddHotelStep(h) => t.(hotels := t.hotels + {h})
    case BookStep(id) => Book(t, id)
  }

  function Run(t: Tables, steps: seq<Step>): Tables
    decreases |steps|
  {
    if steps == [] then t else Run(Next(t, steps[0]), steps[1..])
  }

  lemma StepKeepsConsistent(t: Tables, s: Step)
    requires Consistent(t)
    ensures Consistent(Next(t, s))
  {
    match s {
      case CreateStep(h, id, dto) => CreateKeepsConsistent(t, h, id, dto);
      case BulkStep(h, rows) =>
        BulkKeepsConsistent(t, h, seq(|rows|, i requires 0 <= i < |rows| => rows[i].0),
                            seq(|rows|, i requires 0 <= i < |rows| => rows[i].1));
      case UpdateStep(h, id, c) => UpdateKeepsConsistent(t, h, id, c);
      case AddTypeStep(id, h) => TypeStepsKeepConsistent(t, id, h);
      case RemoveTypeStep(id) => TypeStepsKeepConsistent(t, id, "");
      case _ =>
    }
  }

  /** Over any run, a room number is used once per hotel, every room's type belongs to its hotel, and a room
      with a booking row is never removed. */
  lemma {:induction false} AlwaysConsistent(t: Tables, steps: seq<Step>)
    requires Consistent(t)
    ensures Consistent(Run(t, steps))
    decreases |steps|
  {
    if steps != [] {
      StepKeepsConsistent(t, steps[0]);
      AlwaysConsistent(Next(t, steps[0]), steps[1..]);
    }
  }
}
