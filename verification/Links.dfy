/** Link tables (room type - characteristic, rate option - benefit, role - permission): the checks that
    compare counts, full replacement, adding and removing. A row is a pair; a unique index covers it. Requests spell
    item ids as they like: the database compares what they denote, the messages list spellings. */
module Links {
  import opened SequenceFacts
  import opened Ids

  type Id = string

  datatype Link = Link(owner: Id, item: Id)

  datatype Refusal = NotFound(missing: seq<Id>) | AlreadyLinked(duplicates: seq<Id>) | StorageFailed

  datatype Result = Changed(links: seq<Link>) | Refused(refusal: Refusal)

  /** The stored ids that the spellings denote. */
  function Items(ids: seq<Id>): set<Id> {
    Elements(AllKeys(ids))
  }

  /** The spellings not in `found`, in order. */
  function Missing(ids: seq<Id>, found: set<Id>): seq<Id> {
    Filtered(ids, id => id !in found)
  }

  function Present(ids: seq<Id>, found: set<Id>): seq<Id> {
    Filtered(ids, id => id in found)
  }

  function ItemsOf(links: seq<Link>, owner: Id): (r: set<Id>)
    ensures forall item :: item in r <==> Link(owner, item) in links
  {
    set l | l in links && l.owner == owner :: l.item
  }

  function Entries(owner: Id, ids: seq<Id>): seq<Link> {
    seq(|ids|, i requires 0 <= i < |ids| => Link(owner, ids[i]))
  }

  function IsHit(owner: Id, items: set<Id>): Link -> bool {
    (l: Link) => l.owner == owner && l.item in items
  }

  function IsMiss(owner: Id, items: set<Id>): Link -> bool {
    (l: Link) => !(l.owner == owner && l.item in items)
  }

  function IsOthers(owner: Id): Link -> bool {
    (l: Link) => l.owner != owner
  }

  /** The rows of the owner with an item among `items`. */
  function Hits(links: seq<Link>, owner: Id, items: set<Id>): seq<Link> {
    Filtered(links, IsHit(owner, items))
  }

  /** The rows that are left when those are deleted. */
  function Without(links: seq<Link>, owner: Id, items: set<Id>): seq<Link> {
    Filtered(links, IsMiss(owner, items))
  }

  /** The rows of all other owners. */
  function Others(links: seq<Link>, owner: Id): seq<Link> {
    Filtered(links, IsOthers(owner))
  }

  // ---- the operations ----------------------------------------------------------------------

  /** `syncCharacteristics`, and validating then replacing a role's permissions. */
  function Replace(links: seq<Link>, known: set<Id>, owner: Id, ids: seq<Id>): Result {
    var found := Items(ids) * known;
    if ids != [] && |found| != |ids| then Refused(NotFound(Missing(ids, found)))
    else Changed(Others(links, owner) + Entries(owner, AllKeys(ids)))
  }

  /** A linked item that is spelled in another way passes the check for duplicates and breaks the unique index. */
  function Add(links: seq<Link>, known: set<Id>, owner: Id, ids: seq<Id>): Result {
    var found := Items(ids) * known;
    if |found| != |ids| then Refused(NotFound(Missing(ids, found)))
    else
      var duplicates := Present(ids, ItemsOf(Hits(links, owner, Items(ids)), owner));
      if duplicates != [] then Refused(AlreadyLinked(duplicates))
      else if !(Items(ids) !! ItemsOf(links, owner)) then Refused(StorageFailed)
      else Changed(links + Entries(owner, AllKeys(ids)))
  }

  function Remove(links: seq<Link>, owner: Id, ids: seq<Id>): Result {
    var existing := Hits(links, owner, Items(ids));
    if |existing| != |ids| then Refused(NotFound(Missing(ids, ItemsOf(existing, owner))))
    else Changed(Without(links, owner, Items(ids)))
  }

  // ---- counting ----------------------------------------------------------------------------

  lemma HitsItems(links: seq<Link>, owner: Id, items: set<Id>)
    ensures ItemsOf(Hits(links, owner, items), owner) == items * ItemsOf(links, owner)
  {
    forall item
      ensures Link(owner, item) in Hits(links, owner, items) <==> item in items && Link(owner, item) in links
    {
      FilteredMember(links, IsHit(owner, items), Link(owner, item));
    }
  }

  /** With unique pairs, counting rows counts items. */
  lemma HitsCount(links: seq<Link>, owner: Id, items: set<Id>)
    requires Distinct(links)
    ensures |Hits(links, owner, items)| == |items * ItemsOf(links, owner)|
  {
    var hits := Hits(links, owner, items);
    FilteredDistinct(links, IsHit(owner, items));
    HitsItems(links, owner, items);
    var names := seq(|hits|, i requires 0 <= i < |hits| => hits[i].item);
    forall i | 0 <= i < |hits| ensures hits[i] == Link(owner, names[i]) && names[i] in ItemsOf(hits, owner) {
      assert hits[i] in hits;
      FilteredMember(links, IsHit(owner, items), hits[i]);
    }
    DistinctByCounting(names);
    assert Elements(names) == ItemsOf(hits, owner) by {
      forall item | item in ItemsOf(hits, owner) ensures item in names {
        var i :| 0 <= i < |hits| && hits[i] == Link(owner, item);
        assert names[i] == item;
      }
    }
  }

  // ---- when each operation is accepted -----------------------------------------------------

  lemma NoneMissingIff(ids: seq<Id>, found: set<Id>)
    ensures Missing(ids, found) == [] <==> Elements(ids) <= found
  {
    if Elements(ids) <= found {
      FilteredNone(ids, id => id !in found);
    } else {
      var id :| id in ids && id !in found;
      FilteredMember(ids, id => id !in found, id);
    }
  }

  lemma NonePresentIff(ids: seq<Id>, found: set<Id>)
    ensures Present(ids, found) == [] <==> Elements(ids) !! found
  {
    if Elements(ids) !! found {
      FilteredNone(ids, id => id in found);
    } else {
      var id :| id in ids && id in found;
      FilteredMember(ids, id => id in found, id);
    }
  }

  /** A replacement is accepted exactly for known ids without repetition, however they are spelled; a refusal that
      reports nothing missing is a repetition of known ids in their stored spelling. */
  lemma ReplaceAcceptedIff(links: seq<Link>, known: set<Id>, owner: Id, ids: seq<Id>)
    ensures Replace(links, known, owner, ids).Changed? <==> Distinct(AllKeys(ids)) && Items(ids) <= known
    ensures Replace(links, known, owner, ids) == Refused(NotFound([])) <==>
              AllKeys(ids) == ids && !Distinct(ids) && Elements(ids) <= known
  {
    CountMatchesIff(AllKeys(ids), known);
    NoneMissingIff(ids, Items(ids) * known);
    if Elements(ids) <= Items(ids) {
      KeysAreStored(ids);
    }
  }

  lemma KeysAreStored(ids: seq<Id>)
    requires Elements(ids) <= Items(ids)
    ensures AllKeys(ids) == ids
  {
    forall i | 0 <= i < |ids| ensures Key(ids[i]) == ids[i] {
      assert ids[i] in Elements(ids);
      var j :| 0 <= j < |ids| && AllKeys(ids)[j] == ids[i];
      KeyOfKey(ids[j]);
    }
  }

  lemma AddAcceptedIff(links: seq<Link>, known: set<Id>, owner: Id, ids: seq<Id>)
    ensures Add(links, known, owner, ids).Changed? <==>
              Distinct(AllKeys(ids)) && Items(ids) <= known && Items(ids) !! ItemsOf(links, owner)
    ensures Add(links, known, owner, ids) == Refused(StorageFailed) <==>
              && Distinct(AllKeys(ids)) && Items(ids) <= known
              && Elements(ids) !! Items(ids) * ItemsOf(links, owner) && !(Items(ids) !! ItemsOf(links, owner))
  {
    CountMatchesIff(AllKeys(ids), known);
    HitsItems(links, owner, Items(ids));
    NonePresentIff(ids, ItemsOf(Hits(links, owner, Items(ids)), owner));
    if Items(ids) !! ItemsOf(links, owner) {
      assert Items(ids) * ItemsOf(links, owner) == {};
    }
  }

  lemma RemoveAcceptedIff(links: seq<Link>, owner: Id, ids: seq<Id>)
    requires Distinct(links)
    ensures Remove(links, owner, ids).Changed? <==> Distinct(AllKeys(ids)) && Items(ids) <= ItemsOf(links, owner)
  {
    HitsCount(links, owner, Items(ids));
    CountMatchesIff(AllKeys(ids), ItemsOf(links, owner));
  }

  // ---- what each operation leaves ----------------------------------------------------------

  lemma EntriesAre(owner: Id, ids: seq<Id>)
    ensures forall l :: l in Entries(owner, ids) <==> l.owner == owner && l.item in ids
    ensures Distinct(ids) ==> Distinct(Entries(owner, ids))
  {
    var entries := Entries(owner, ids);
    forall l: Link | l.owner == owner && l.item in ids ensures l in entries {
      var i :| 0 <= i < |ids| && ids[i] == l.item;
      assert entries[i] == l;
    }
  }

  lemma OthersAre(links: seq<Link>, owner: Id)
    ensures forall l :: l in Others(links, owner) <==> l in links && l.owner != owner
  {
    forall l ensures l in Others(links, owner) <==> l in links && l.owner != owner {
      FilteredMember(links, IsOthers(owner), l);
    }
  }

  /** Entries appended for an owner do not show among the other owners' rows. */
  lemma OthersIgnoreEntries(links: seq<Link>, owner: Id, ids: seq<Id>)
    ensures Others(links + Entries(owner, ids), owner) == Others(links, owner)
  {
    EntriesAre(owner, ids);
    FilteredConcat(links, Entries(owner, ids), IsOthers(owner));
    FilteredNone(Entries(owner, ids), IsOthers(owner));
  }

  /** A replacement leaves the owner with exactly the given items and every other owner's rows as they
      were, and keeps pairs unique. */
  lemma ReplaceLeavesExactly(links: seq<Link>, known: set<Id>, owner: Id, ids: seq<Id>)
    requires Distinct(links) && Replace(links, known, owner, ids).Changed?
    ensures var after := Replace(links, known, owner, ids).links;
            && ItemsOf(after, owner) == Items(ids)
            && Others(after, owner) == Others(links, owner)
            && Distinct(after)
  {
    ReplaceAcceptedIff(links, known, owner, ids);
    EntriesAre(owner, AllKeys(ids));
    OthersAre(links, owner);
    FilteredDistinct(links, IsOthers(owner));
    ConcatDistinct(Others(links, owner), Entries(owner, AllKeys(ids)));
    OthersIgnoreEntries(Others(links, owner), owner, AllKeys(ids));
    FilteredTwice(links, IsOthers(owner), IsOthers(owner));
  }

  /** Replacing twice is replacing once: the second request decides. */
  lemma LastReplaceWins(links: seq<Link>, known: set<Id>, owner: Id, first: seq<Id>, second: seq<Id>)
    requires Distinct(links) && Replace(links, known, owner, first).Changed?
    ensures Replace(Replace(links, known, owner, first).links, known, owner, second) ==
            Replace(links, known, owner, second)
  {
    ReplaceLeavesExactly(links, known, owner, first);
  }

  /** Adding leaves the union; it neither drops nor repeats a pair. */
  lemma AddLeavesUnion(links: seq<Link>, known: set<Id>, owner: Id, ids: seq<Id>)
    requires Distinct(links) && Add(links, known, owner, ids).Changed?
    ensures var after := Add(links, known, owner, ids).links;
            && ItemsOf(after, owner) == ItemsOf(links, owner) + Items(ids)
            && Others(after, owner) == Others(links, owner)
            && Distinct(after)
  {
    AddAcceptedIff(links, known, owner, ids);
    EntriesAre(owner, AllKeys(ids));
    ConcatDistinct(links, Entries(owner, AllKeys(ids)));
    OthersIgnoreEntries(links, owner, AllKeys(ids));
  }

  lemma RemoveLeavesRest(links: seq<Link>, owner: Id, ids: seq<Id>)
    requires Distinct(links) && Remove(links, owner, ids).Changed?
    ensures var after := Remove(links, owner, ids).links;
            && ItemsOf(after, owner) == ItemsOf(links, owner) - Items(ids)
            && Others(after, owner) == Others(links, owner)
            && Distinct(after)
  {
    var miss := IsMiss(owner, Items(ids));
    FilteredDistinct(links, miss);
    FilteredTwice(links, IsOthers(owner), miss);
    forall item
      ensures Link(owner, item) in Filtered(links, miss) <==> Link(owner, item) in links && item !in Items(ids)
    {
      FilteredMember(links, miss, Link(owner, item));
    }
  }

  /** Deleting appended entries gives back the table, when none of them was there before. */
  lemma EntriesDropOut(links: seq<Link>, owner: Id, ids: seq<Id>)
    requires Elements(ids) !! ItemsOf(links, owner)
    ensures Without(links + Entries(owner, ids), owner, Elements(ids)) == links
  {
    var miss, entries := IsMiss(owner, Elements(ids)), Entries(owner, ids);
    EntriesAre(owner, ids);
    FilteredConcat(links, entries, miss);
    forall l | l in links ensures miss(l) {
      assert l.owner == owner ==> l.item in ItemsOf(links, owner) by { assert l == Link(l.owner, l.item); }
    }
    FilteredAll(links, miss);
    FilteredNone(entries, miss);
  }

  /** Removing what was just added is always accepted and restores the table row for row. */
  lemma AddThenRemoveRestores(links: seq<Link>, known: set<Id>, owner: Id, ids: seq<Id>)
    requires Distinct(links) && Add(links, known, owner, ids).Changed?
    ensures Remove(Add(links, known, owner, ids).links, owner, ids) == Changed(links)
  {
    AddAcceptedIff(links, known, owner, ids);
    AddLeavesUnion(links, known, owner, ids);
    RemoveAcceptedIff(links + Entries(owner, AllKeys(ids)), owner, ids);
    EntriesDropOut(links, owner, AllKeys(ids));
  }

  /** Adding what was just removed is accepted exactly while the items are known, and restores the same
      pairs. */
  lemma RemoveThenAddRestores(links: seq<Link>, known: set<Id>, owner: Id, ids: seq<Id>)
    requires Distinct(links) && Remove(links, owner, ids).Changed?
    ensures var again := Add(Remove(links, owner, ids).links, known, owner, ids);
            && (again.Changed? <==> Items(ids) <= known)
            && (again.Changed? ==> Elements(again.links) == Elements(links))
  {
    var miss := IsMiss(owner, Items(ids));
    RemoveAcceptedIff(links, owner, ids);
    RemoveLeavesRest(links, owner, ids);
    AddAcceptedIff(Filtered(links, miss), known, owner, ids);
    EntriesAre(owner, AllKeys(ids));
    forall l ensures l in Filtered(links, miss) <==> l in links && miss(l) {
      FilteredMember(links, miss, l);
    }
  }

  // ---- runs --------------------------------------------------------------------------------

  datatype Step =
    | ReplaceStep(known: set<Id>, owner: Id, ids: seq<Id>)
    | AddStep(known: set<Id>, owner: Id, ids: seq<Id>)
    | RemoveStep(owner: Id, ids: seq<Id>)
    | OwnerDeleted(owner: Id)

  function Next(links: seq<Link>, step: Step): seq<Link> {
    var result :=
      match step
      case ReplaceStep(known, owner, ids) => Replace(links, known, owner, ids)
      case AddStep(known, owner, ids) => Add(links, known, owner, ids)
      case RemoveStep(owner, ids) => Remove(links, owner, ids)
      case OwnerDeleted(owner) => Changed(Others(links, owner));
    match result
    case Changed(after) => after
    case Refused(_) => links
  }

  function Run(links: seq<Link>, steps: seq<Step>): seq<Link>
    decreases |steps|
  {
    if steps == [] then links else Run(Next(links, steps[0]), steps[1..])
  }

  /** The unique index is never violated: no run of any mix of the operations repeats a pair. */
  lemma {:induction false} PairsStayUnique(links: seq<Link>, steps: seq<Step>)
    requires Distinct(links)
    ensures Distinct(Run(links, steps))
    decreases |steps|
  {
    if steps != [] {
      match steps[0] {
        case ReplaceStep(known, owner, ids) =>
          if Replace(links, known, owner, ids).Changed? { ReplaceLeavesExactly(links, known, owner, ids); }
        case AddStep(known, owner, ids) =>
          if Add(links, known, owner, ids).Changed? { AddLeavesUnion(links, known, owner, ids); }
        case RemoveStep(owner, ids) =>
          if Remove(links, owner, ids).Changed? { RemoveLeavesRest(links, owner, ids); }
        case OwnerDeleted(owner) => FilteredDistinct(links, IsOthers(owner));
      }
      PairsStayUnique(Next(links, steps[0]), steps[1..]);
    }
  }

  // ---- what a refusal lists ----------------------------------------------------------------

  /** A replacement lists the spellings that are not those of known items. */
  lemma ReplaceLists(links: seq<Link>, known: set<Id>, owner: Id, ids: seq<Id>, id: Id)
    requires Replace(links, known, owner, ids).Refused?
    ensures var refusal := Replace(links, known, owner, ids).refusal;
            refusal.NotFound? && (id in refusal.missing <==> id in ids && !(id in known && id in AllKeys(ids)))
  {
    FilteredMember(ids, x => x !in Items(ids) * known, id);
  }

  /** An addition does likewise; with every item known it lists the spellings that are those of linked items. */
  lemma AddLists(links: seq<Link>, known: set<Id>, owner: Id, ids: seq<Id>, id: Id)
    requires Add(links, known, owner, ids).Refused?
    ensures match Add(links, known, owner, ids).refusal
            case NotFound(missing) => id in missing <==> id in ids && !(id in known && id in AllKeys(ids))
            case AlreadyLinked(duplicates) =>
              id in duplicates <==> id in ids && Link(owner, id) in links && id in AllKeys(ids)
            case StorageFailed => id in ids ==> !(Link(owner, id) in links && id in AllKeys(ids))
    ensures Add(links, known, owner, ids).refusal.NotFound? <==> !(Distinct(AllKeys(ids)) && Items(ids) <= known)
  {
    var found := Items(ids) * known;
    var linked := ItemsOf(Hits(links, owner, Items(ids)), owner);
    CountMatchesIff(AllKeys(ids), known);
    HitsItems(links, owner, Items(ids));
    FilteredMember(ids, x => x !in found, id);
    FilteredMember(ids, x => x in linked, id);
  }

  /** A removal lists the spellings that are not those of linked items. */
  lemma RemoveLists(links: seq<Link>, owner: Id, ids: seq<Id>, id: Id)
    requires Remove(links, owner, ids).Refused?
    ensures var refusal := Remove(links, owner, ids).refusal;
            refusal.NotFound? &&
            (id in refusal.missing <==> id in ids && !(Link(owner, id) in links && id in AllKeys(ids)))
  {
    var linked := ItemsOf(Hits(links, owner, Items(ids)), owner);
    HitsItems(links, owner, Items(ids));
    FilteredMember(ids, x => x !in linked, id);
  }
}
