/** What each request about rooms does, field by field, and which refusal it gets. */
module RoomRequests {
  import opened RoomStates
  import opened SequenceFacts
  import opened Ids
  import opened RoomModel

  /** Some stored room of the hotel, other than `except`, has this number. */
  ghost predicate InUse(t: Tables, hotelId: Id, number: string, except: Option<Id>) {
    exists r :: r in t.rooms && Some(r) != except && t.rooms[r].roomNumber == number && t.rooms[r].hotelId == hotelId
  }

  ghost predicate TypeOf(t: Tables, typeId: Id, hotelId: Id) {
    typeId in t.types && t.types[typeId] == hotelId
  }

  lemma TakenMeans(t: Tables, hotelId: Id, number: string, except: Option<Id>)
    ensures NumberTaken(t, hotelId, number, except) <==> InUse(t, hotelId, number, except)
  {
    if r :| r in t.rooms && Some(r) != except && t.rooms[r].roomNumber == number && t.rooms[r].hotelId == hotelId {
      assert r in t.rooms && t.rooms[r].hotelId == hotelId && t.rooms[r].roomNumber == number && except != Some(r);
    }
  }

  /** A new room needs a stored hotel, a room type of this hotel and a number that no room of the hotel has; it is
      stored as requested and nothing else changes. */
  lemma CreateDoes(t: Tables, hotelId: Id, newId: Id, dto: RoomDto)
    ensures var r := Create(t, hotelId, newId, dto);
            && (r.refusal == Some(HotelNotFound) <==> hotelId !in t.hotels)
            && (r.refusal == Some(RoomTypeNotFound) <==>
                hotelId in t.hotels && !TypeOf(t, Key(dto.roomTypeId), hotelId))
            && (r.refusal == Some(RoomNumberTaken) <==>
                  hotelId in t.hotels && TypeOf(t, Key(dto.roomTypeId), hotelId) &&
                    InUse(t, hotelId, dto.roomNumber, None))
            && (r.refusal == None <==>
                  && hotelId in t.hotels && TypeOf(t, Key(dto.roomTypeId), hotelId)
                  && !InUse(t, hotelId, dto.roomNumber, None) && newId !in t.rooms)
            && (r.refusal == None ==> r.after == Tables(t.hotels, t.types, t.rooms[newId :=
                  Room(hotelId, Key(dto.roomTypeId), dto.roomNumber, dto.floorNumber, dto.status)], t.booked))
            && (r.refusal != None ==> r.after == t)
  {
    TakenMeans(t, hotelId, dto.roomNumber, None);
  }

  /** The fields that an update names are set, the others kept; the hotel stays. */
  ghost predicate Merged(old_: Room, new_: Room, c: RoomChanges) {
    && new_.hotelId == old_.hotelId
    && (if c.roomTypeId.Some? then new_.roomTypeId == Key(c.roomTypeId.value) else new_.roomTypeId == old_.roomTypeId)
    && (if c.roomNumber.Some? then new_.roomNumber == c.roomNumber.value else new_.roomNumber == old_.roomNumber)
    && (if c.floorNumber.Some? then new_.floorNumber == c.floorNumber.value else new_.floorNumber == old_.floorNumber)
    && (if c.status.Some? then new_.status == c.status.value else new_.status == old_.status)
  }

  /** An update needs a stored room of the hotel, a type of this hotel if it names another than the stored one, and a
      free number if it names another than the room's. */
  lemma UpdateDoes(t: Tables, hotelId: Id, roomId: Id, c: RoomChanges)
    ensures var r := Update(t, hotelId, roomId, c);
            var room := if roomId in t.rooms then Some(t.rooms[roomId]) else None;
            var owned := hotelId in t.hotels && room.Some? && room.value.hotelId == hotelId;
            var typed := room.Some? && (c.roomTypeId.Some? && c.roomTypeId.value != room.value.roomTypeId ==>
                                          TypeOf(t, Key(c.roomTypeId.value), hotelId));
            var numbered := room.Some? && (c.roomNumber.Some? && c.roomNumber.value != room.value.roomNumber ==>
                                             !InUse(t, hotelId, c.roomNumber.value, Some(roomId)));
            && (r.refusal == Some(InvalidBody) <==> c.roomNumber == Some(""))
            && (r.refusal == Some(HotelNotFound) <==> c.roomNumber != Some("") && hotelId !in t.hotels)
            && (r.refusal == Some(RoomNotFound) <==> c.roomNumber != Some("") && hotelId in t.hotels && !owned)
            && (r.refusal == Some(RoomTypeNotFound) <==> c.roomNumber != Some("") && owned && !typed)
            && (r.refusal == Some(RoomNumberTaken) <==> c.roomNumber != Some("") && owned && typed && !numbered)
            && (r.refusal == None <==> c.roomNumber != Some("") && owned && typed && numbered)
            && (r.refusal != None ==> r.after == t)
            && (r.refusal == None ==>
                  && r.after.hotels == t.hotels && r.after.types == t.types && r.after.booked == t.booked
                  && r.after.rooms.Keys == t.rooms.Keys && Merged(t.rooms[roomId], r.after.rooms[roomId], c)
                  && forall other :: other in t.rooms && other != roomId ==> r.after.rooms[other] == t.rooms[other])
  {
    if c.roomNumber.Some? {
      TakenMeans(t, hotelId, c.roomNumber.value, Some(roomId));
    }
  }

  /** A removal needs a stored room of the hotel that no booking row refers to; exactly that room goes. */
  lemma RemoveDoes(t: Tables, hotelId: Id, roomId: Id)
    ensures var r := Remove(t, hotelId, roomId);
            var owned := hotelId in t.hotels && roomId in t.rooms && t.rooms[roomId].hotelId == hotelId;
            && (r.refusal == Some(HotelNotFound) <==> hotelId !in t.hotels)
            && (r.refusal == Some(RoomNotFound) <==> hotelId in t.hotels && !owned)
            && (r.refusal == Some(RoomBooked) <==> owned && roomId in t.booked)
            && (r.refusal == None <==> owned && roomId !in t.booked)
            && (r.refusal != None ==> r.after == t)
            && (r.refusal == None ==>
                  && r.after == t.(rooms := r.after.rooms)
                  && r.after.rooms.Keys == t.rooms.Keys - {roomId}
                  && forall other :: other in r.after.rooms ==> r.after.rooms[other] == t.rooms[other])
  {
  }

  /** Which refusal a bulk request gets. */
  lemma BulkRefusals(t: Tables, hotelId: Id, dtos: seq<RoomDto>)
    ensures var refusal := BulkRefusal(t, hotelId, dtos);
            var typed :=
              SpelledOnce(dtos) && forall i :: 0 <= i < |dtos| ==> TypeOf(t, Key(dtos[i].roomTypeId), hotelId);
            && (refusal == Some(InvalidBody) <==> |dtos| == 0 || |dtos| > 100)
            && (1 <= |dtos| <= 100 ==>
                  && (refusal == Some(HotelNotFound) <==> hotelId !in t.hotels)
                  && (refusal == Some(RoomTypeNotFound) <==> hotelId in t.hotels && !typed)
                  && (hotelId in t.hotels && typed && !Distinct(Numbers(dtos)) ==>
                        refusal == Some(DuplicateNumbers(Repeats(Numbers(dtos)))))
                  && (refusal == Some(RoomNumberTaken) <==>
                        hotelId in t.hotels && typed && Distinct(Numbers(dtos)) &&
                        exists i :: 0 <= i < |dtos| && InUse(t, hotelId, dtos[i].roomNumber, None)))
  {
    AllTypesValid(t, hotelId, dtos);
    NoRepeatsIffDistinct(Numbers(dtos));
    forall number ensures NumberTaken(t, hotelId, number, None) <==> InUse(t, hotelId, number, None) {
      TakenMeans(t, hotelId, number, None);
    }
    assert forall i :: 0 <= i < |dtos| ==> Numbers(dtos)[i] == dtos[i].roomNumber;
  }

  /** All rooms of an accepted bulk request are stored under the generated ids, field by field as requested. */
  lemma BulkDoes(t: Tables, hotelId: Id, ids: seq<Id>, dtos: seq<RoomDto>, i: nat)
    requires |ids| == |dtos| && i < |dtos| && BulkCreate(t, hotelId, ids, dtos).refusal == None
    ensures var u, dto := BulkCreate(t, hotelId, ids, dtos).after, dtos[i];
            && ids[i] !in t.rooms && ids[i] in u.rooms
            && u.rooms[ids[i]] == Room(hotelId, Key(dto.roomTypeId), dto.roomNumber, dto.floorNumber, dto.status)
            && u.hotels == t.hotels && u.types == t.types && u.booked == t.booked
  {
    BulkShape(t, hotelId, ids, dtos);
    NewRoomIs(hotelId, ids, dtos, i);
    assert ids[i] in ids;
  }

  lemma BulkShape(t: Tables, hotelId: Id, ids: seq<Id>, dtos: seq<RoomDto>)
    requires |ids| == |dtos| && BulkCreate(t, hotelId, ids, dtos).refusal == None
    ensures Generated(t, ids)
    ensures BulkCreate(t, hotelId, ids, dtos).after == t.(rooms := t.rooms + NewRooms(hotelId, ids, dtos))
  {
  }

  lemma NewRoomIs(hotelId: Id, ids: seq<Id>, dtos: seq<RoomDto>, i: nat)
    requires |ids| == |dtos| && i < |dtos| && Repeats(ids) == []
    ensures var added, dto := NewRooms(hotelId, ids, dtos), dtos[i];
            && ids[i] in added
            && added[ids[i]] == Room(hotelId, Key(dto.roomTypeId), dto.roomNumber, dto.floorNumber, dto.status)
  {
    NewRoomsRows(hotelId, ids, dtos);
  }

  /** A booking row is recorded for a stored room only; a room type is added once, and removed only while no room is of
      it. */
  lemma OtherServicesDo(t: Tables, roomId: Id, typeId: Id, hotelId: Id)
    ensures Book(t, roomId).booked == (if roomId in t.rooms then t.booked + {roomId} else t.booked)
    ensures AddType(t, typeId, hotelId).types == if typeId in t.types then t.types else t.types[typeId := hotelId]
    ensures RemoveType(t, typeId).types ==
              if forall r :: r in t.rooms ==> t.rooms[r].roomTypeId != typeId then t.types - {typeId} else t.types
    ensures Book(t, roomId).rooms == AddType(t, typeId, hotelId).rooms == RemoveType(t, typeId).rooms == t.rooms
  {
  }
}
