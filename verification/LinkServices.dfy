/** The services that maintain link tables. Room types and rate options are written outside any
    transaction; roles inside one. */
module LinkServices {
  import opened SequenceFacts
  import opened Ids
  import opened Links

  datatype Outcome = Done | OwnerNotFound | InUse | NameTaken | LinksRefused(refusal: Refusal)

  ghost predicate LinksOwned(links: seq<Link>, owners: set<Id>) {
    Distinct(links) && forall l :: l in links ==> l.owner in owners
  }

  lemma NewOwnerHasNone(links: seq<Link>, owners: set<Id>, owner: Id)
    requires LinksOwned(links, owners) && owner !in owners
    ensures Others(links, owner) == links && ItemsOf(links, owner) == {}
  {
    FilteredAll(links, IsOthers(owner));
  }

  class RoomTypeService {
    var hotels: set<Id>
    var characteristics: set<Id>
    var roomTypes: map<Id, Id>
    var used: set<Id>
    var links: seq<Link>

    constructor (hotels: set<Id>, characteristics: set<Id>)
      ensures Valid() && this.hotels == hotels && this.characteristics == characteristics && roomTypes == map[]
      ensures links == []
    {
      this.hotels, this.characteristics, roomTypes, used, links := hotels, characteristics, map[], {}, [];
    }

    ghost predicate Valid()
      reads this
    {
      LinksOwned(links, roomTypes.Keys)
    }

    method SyncCharacteristics(roomTypeId: Id, ids: seq<Id>) returns (refusal: Option<Refusal>)
      requires Valid() && roomTypeId in roomTypes
      modifies this`links
      ensures Valid()
      ensures match Replace(old(links), characteristics, roomTypeId, ids)
              case Changed(after) => refusal == None && links == after
              case Refused(why) => refusal == Some(why) && links == old(links)
      ensures refusal == None <==> Distinct(AllKeys(ids)) && Items(ids) <= characteristics
      ensures refusal == None ==> ItemsOf(links, roomTypeId) == Items(ids)
    {
      ReplaceAcceptedIff(links, characteristics, roomTypeId, ids);
      if ids != [] {
        var found := set id | id in AllKeys(ids) && id in characteristics;
        assert found == Items(ids) * characteristics;
        if |found| != |ids| {
          return Some(NotFound(Missing(ids, found)));
        }
      }
      ReplaceLeavesExactly(links, characteristics, roomTypeId, ids);
      OthersAre(links, roomTypeId);
      EntriesAre(roomTypeId, AllKeys(ids));
      links := Others(links, roomTypeId);
      assert links + [] == links;
      if ids != [] {
        links := links + Entries(roomTypeId, AllKeys(ids));
      }
      return None;
    }

    /** The room type is saved before its characteristics are checked, and stays if they are refused. */
    method Create(hotelId: Id, id: Id, ids: Option<seq<Id>>) returns (outcome: Outcome)
      requires Valid() && id !in roomTypes
      modifies this`roomTypes, this`links
      ensures Valid()
      ensures hotelId !in hotels <==> outcome == OwnerNotFound
      ensures outcome == OwnerNotFound ==> roomTypes == old(roomTypes) && links == old(links)
      ensures outcome != OwnerNotFound ==> roomTypes == old(roomTypes)[id := hotelId]
      ensures outcome == Done <==>
                hotelId in hotels &&
                  (ids == None || (Distinct(AllKeys(ids.value)) && Items(ids.value) <= characteristics))
      ensures outcome == Done || outcome == OwnerNotFound || outcome.LinksRefused?
      ensures outcome.LinksRefused? ==>
                ids != None && outcome.refusal == NotFound(Missing(ids.value, Items(ids.value) * characteristics))
      ensures outcome.LinksRefused? ==> links == old(links)
      ensures outcome == Done ==> Others(links, id) == old(links)
                                  && ItemsOf(links, id) == if ids == None then {} else Items(ids.value)
    {
      NewOwnerHasNone(links, roomTypes.Keys, id);
      if hotelId !in hotels {
        return OwnerNotFound;
      }
      roomTypes := roomTypes[id := hotelId];
      if ids != None && ids.value != [] {
        ghost var before := links;
        var refusal := SyncCharacteristics(id, ids.value);
        if refusal != None {
          return LinksRefused(refusal.value);
        }
        ReplaceLeavesExactly(before, characteristics, id, ids.value);
      }
      return Done;
    }

    method Update(hotelId: Id, roomTypeId: Id, ids: Option<seq<Id>>) returns (outcome: Outcome)
      requires Valid()
      modifies this`links
      ensures Valid()
      ensures outcome == OwnerNotFound <==>
                hotelId !in hotels || roomTypeId !in roomTypes || roomTypes[roomTypeId] != hotelId
      ensures outcome == Done <==>
                hotelId in hotels && roomTypeId in roomTypes && roomTypes[roomTypeId] == hotelId &&
                (ids == None || (Distinct(AllKeys(ids.value)) && Items(ids.value) <= characteristics))
      ensures outcome == Done || outcome == OwnerNotFound || outcome.LinksRefused?
      ensures outcome.LinksRefused? ==>
                ids != None && outcome.refusal == NotFound(Missing(ids.value, Items(ids.value) * characteristics))
      ensures outcome == Done && ids != None ==>
                ItemsOf(links, roomTypeId) == Items(ids.value) &&
                  Others(links, roomTypeId) == Others(old(links), roomTypeId)
      ensures outcome != Done || ids == None ==> links == old(links)
    {
      if hotelId !in hotels || !(roomTypeId in roomTypes && roomTypes[roomTypeId] == hotelId) {
        return OwnerNotFound;
      }
      if ids != None {
        ghost var before := links;
        var refusal := SyncCharacteristics(roomTypeId, ids.value);
        if refusal != None {
          return LinksRefused(refusal.value);
        }
        ReplaceLeavesExactly(before, characteristics, roomTypeId, ids.value);
      }
      return Done;
    }

    /** `used` holds the room types of stored rooms and rate options, whose foreign keys keep them; the links of
        a removed one go with it. */
    method Remove(hotelId: Id, roomTypeId: Id) returns (outcome: Outcome)
      requires Valid()
      modifies this`roomTypes, this`links
      ensures Valid()
      ensures outcome == OwnerNotFound <==>
                hotelId !in hotels || roomTypeId !in old(roomTypes) || old(roomTypes)[roomTypeId] != hotelId
      ensures outcome == InUse ==> roomTypeId in used
      ensures outcome == Done ==> roomTypeId !in used
      ensures outcome == Done ==> roomTypes == old(roomTypes) - {roomTypeId} && links == Others(old(links), roomTypeId)
      ensures outcome != Done ==> roomTypes == old(roomTypes) && links == old(links)
      ensures outcome == Done || outcome == OwnerNotFound || outcome == InUse
    {
      if hotelId !in hotels || !(roomTypeId in roomTypes && roomTypes[roomTypeId] == hotelId) {
        return OwnerNotFound;
      }
      if roomTypeId in used {
        return InUse;
      }
      FilteredDistinct(links, IsOthers(roomTypeId));
      OthersAre(links, roomTypeId);
      roomTypes, links := roomTypes - {roomTypeId}, Others(links, roomTypeId);
      return Done;
    }
  }

  class RateOptionService {
    var benefits: set<Id>
    var rateOptions: map<Id, Id>
    var links: seq<Link>

    constructor (benefits: set<Id>, rateOptions: map<Id, Id>)
      ensures Valid() && this.benefits == benefits && this.rateOptions == rateOptions && links == []
    {
      this.benefits, this.rateOptions, links := benefits, rateOptions, [];
    }

    ghost predicate Valid()
      reads this
    {
      LinksOwned(links, rateOptions.Keys)
    }

    method AddBenefits(roomTypeId: Id, rateOptionId: Id, ids: seq<Id>) returns (outcome: Outcome)
      requires Valid()
      modifies this`links
      ensures Valid()
      ensures outcome == OwnerNotFound <==> !(rateOptionId in rateOptions && rateOptions[rateOptionId] == roomTypeId)
      ensures outcome == OwnerNotFound ==> links == old(links)
      ensures outcome != OwnerNotFound ==>
                match Add(old(links), benefits, rateOptionId, ids)
                case Changed(after) => outcome == Done && links == after
                case Refused(why) => outcome == LinksRefused(why) && links == old(links)
    {
      if !(rateOptionId in rateOptions && rateOptions[rateOptionId] == roomTypeId) {
        return OwnerNotFound;
      }
      var found := set id | id in AllKeys(ids) && id in benefits;
      assert found == Items(ids) * benefits;
      if |found| != |ids| {
        return LinksRefused(NotFound(Missing(ids, found)));
      }
      var existingLinks := Hits(links, rateOptionId, Items(ids));
      var duplicates := Present(ids, ItemsOf(existingLinks, rateOptionId));
      if duplicates != [] {
        return LinksRefused(AlreadyLinked(duplicates));
      }
      if exists id :: id in AllKeys(ids) && Link(rateOptionId, id) in links {
        return LinksRefused(StorageFailed);
      }
      assert Items(ids) !! ItemsOf(links, rateOptionId);
      AddLeavesUnion(links, benefits, rateOptionId, ids);
      EntriesAre(rateOptionId, AllKeys(ids));
      links := links + Entries(rateOptionId, AllKeys(ids));
      return Done;
    }

    method RemoveBenefits(roomTypeId: Id, rateOptionId: Id, ids: seq<Id>) returns (outcome: Outcome)
      requires Valid()
      modifies this`links
      ensures Valid()
      ensures outcome == OwnerNotFound <==> !(rateOptionId in rateOptions && rateOptions[rateOptionId] == roomTypeId)
      ensures outcome == OwnerNotFound ==> links == old(links)
      ensures outcome != OwnerNotFound ==>
                match Links.Remove(old(links), rateOptionId, ids)
                case Changed(after) => outcome == Done && links == after
                case Refused(why) => outcome == LinksRefused(why) && links == old(links)
    {
      if !(rateOptionId in rateOptions && rateOptions[rateOptionId] == roomTypeId) {
        return OwnerNotFound;
      }
      var existingLinks := Hits(links, rateOptionId, Items(ids));
      if |existingLinks| != |ids| {
        return LinksRefused(NotFound(Missing(ids, ItemsOf(existingLinks, rateOptionId))));
      }
      RemoveLeavesRest(links, rateOptionId, ids);
      forall l ensures l in Without(links, rateOptionId, Items(ids)) ==> l in links {
        FilteredMember(links, IsMiss(rateOptionId, Items(ids)), l);
      }
      links := Without(links, rateOptionId, Items(ids));
      return Done;
    }
  }

  /** `nameTaken` is the answer of the lookup by name. */
  class RoleService {
    var permissions: set<Id>
    var roles: set<Id>
    var links: seq<Link>

    constructor (permissions: set<Id>)
      ensures Valid() && this.permissions == permissions && roles == {} && links == []
    {
      this.permissions, roles, links := permissions, {}, [];
    }

    ghost predicate Valid()
      reads this
    {
      LinksOwned(links, roles)
    }

    method ValidatePermissionIds(ids: seq<Id>) returns (refusal: Option<Refusal>)
      ensures refusal == None <==> Distinct(AllKeys(ids)) && Items(ids) <= permissions
      ensures refusal != None ==> refusal == Some(NotFound(Missing(ids, Items(ids) * permissions)))
    {
      CountMatchesIff(AllKeys(ids), permissions);
      if ids == [] {
        return None;
      }
      var existing := set id | id in AllKeys(ids) && id in permissions;
      assert existing == Items(ids) * permissions;
      if |existing| != |ids| {
        return Some(NotFound(Missing(ids, existing)));
      }
      return None;
    }

    /** A refused creation changes nothing: every check comes before the first write. */
    method Create(id: Id, nameTaken: bool, ids: seq<Id>) returns (outcome: Outcome)
      requires Valid() && id !in roles
      modifies this`roles, this`links
      ensures Valid()
      ensures outcome == Done <==> !nameTaken && Distinct(AllKeys(ids)) && Items(ids) <= permissions
      ensures outcome == NameTaken <==> nameTaken
      ensures outcome == Done || outcome == NameTaken ||
                outcome == LinksRefused(NotFound(Missing(ids, Items(ids) * permissions)))
      ensures outcome == Done ==> roles == old(roles) + {id} && ItemsOf(links, id) == Items(ids)
                                  && Others(links, id) == old(links)
      ensures outcome != Done ==> roles == old(roles) && links == old(links)
    {
      if nameTaken {
        return NameTaken;
      }
      var refusal := ValidatePermissionIds(ids);
      if refusal != None {
        return LinksRefused(refusal.value);
      }
      NewOwnerHasNone(links, roles, id);
      ReplaceAcceptedIff(links, permissions, id, ids);
      ReplaceLeavesExactly(links, permissions, id, ids);
      EntriesAre(id, AllKeys(ids));
      assert links + [] == links;
      roles := roles + {id};
      if |ids| > 0 {
        links := links + Entries(id, AllKeys(ids));
      }
      return Done;
    }

    method Update(id: Id, nameTaken: bool, ids: Option<seq<Id>>) returns (outcome: Outcome)
      requires Valid()
      modifies this`links
      ensures Valid()
      ensures outcome == OwnerNotFound <==> id !in roles
      ensures outcome == Done <==>
                id in roles && !nameTaken &&
                  (ids == None || (Distinct(AllKeys(ids.value)) && Items(ids.value) <= permissions))
      ensures outcome == NameTaken <==> id in roles && nameTaken
      ensures outcome.LinksRefused? ==>
                ids != None && outcome.refusal == NotFound(Missing(ids.value, Items(ids.value) * permissions))
      ensures outcome == Done || outcome == OwnerNotFound || outcome == NameTaken || outcome.LinksRefused?
      ensures outcome == Done && ids != None ==>
                ItemsOf(links, id) == Items(ids.value) && Others(links, id) == Others(old(links), id)
      ensures ids == None || outcome != Done ==> links == old(links)
    {
      if id !in roles {
        return OwnerNotFound;
      }
      if nameTaken {
        return NameTaken;
      }
      if ids != None {
        var refusal := ValidatePermissionIds(ids.value);
        if refusal != None {
          return LinksRefused(refusal.value);
        }
        ReplaceAcceptedIff(links, permissions, id, ids.value);
        ReplaceLeavesExactly(links, permissions, id, ids.value);
        OthersAre(links, id);
        EntriesAre(id, AllKeys(ids.value));
        links := Others(links, id);
        assert links + [] == links;
        if |ids.value| > 0 {
          links := links + Entries(id, AllKeys(ids.value));
        }
      }
      return Done;
    }
  }
}
