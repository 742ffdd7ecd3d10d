/**
 Legacy stats: report ids and the collection of reports (api/legacy_stats_types.cc).

 The collection is a list that is meant to be a map from id to report and owns its reports. The
 list operations are given as functions; `AsMap` is the map they stand for, and `Pool` follows the
 ownership of every report through any number of collections and detached lists.
 */
module LegacyStats {

  datatype StatsType =
    | Session | Transport | Component | CandidatePair | Bwe | Ssrc | RemoteSsrc | Track
    | IceLocalCandidate | IceRemoteCandidate | Certificate | DataChannel

  datatype Direction = Send | Receive

  /** The Id classes. */
  datatype Id =
    | BandwidthEstimationId
    | TypedId(type_: StatsType, text: string)
    | TypedIntId(type_: StatsType, number: int)
    | IdWithDirection(type_: StatsType, text: string, direction: Direction)
    | CandidateId(local: bool, text: string)
    | ComponentId(contentName: string, component: int)
    | CandidatePairId(contentName: string, component: int, index: int)

  datatype IdClass = BweClass | TypedClass | TypedIntClass | DirectionClass | CandidateClass | ComponentClass
      | PairClass

  function TypeOf(id: Id): StatsType {
    match id
    case BandwidthEstimationId => Bwe
    case TypedId(t, _) => t
    case TypedIntId(t, _) => t
    case IdWithDirection(t, _, _) => t
    case CandidateId(local, _) => if local then IceLocalCandidate else IceRemoteCandidate
    case ComponentId(_, _) => Component
    case CandidatePairId(_, _, _) => CandidatePair
  }

  function ClassOf(id: Id): IdClass {
    match id
    case BandwidthEstimationId => BweClass
    case TypedId(_, _) => TypedClass
    case TypedIntId(_, _) => TypedIntClass
    case IdWithDirection(_, _, _) => DirectionClass
    case CandidateId(_, _) => CandidateClass
    case ComponentId(_, _) => ComponentClass
    case CandidatePairId(_, _, _) => PairClass
  }

  /** The static_cast in `a.Equals(b)` is valid: b is of the class that a casts to, or derived from it. */
  predicate Castable(a: Id, b: Id) {
    TypeOf(a) == TypeOf(b) ==>
      match a
      case BandwidthEstimationId => true
      case TypedId(_, _) => b.TypedId? || b.IdWithDirection? || b.CandidateId?
      case CandidateId(_, _) => b.TypedId? || b.IdWithDirection? || b.CandidateId?
      case TypedIntId(_, _) => b.TypedIntId?
      case IdWithDirection(_, _, _) => b.IdWithDirection?
      case ComponentId(_, _) => b.ComponentId? || b.CandidatePairId?
      case CandidatePairId(_, _, _) => b.CandidatePairId?
  }

  /** `a.Equals(b)`: every class compares the types first and then its own fields. */
  predicate Equals(a: Id, b: Id)
    requires Castable(a, b)
  {
    TypeOf(a) == TypeOf(b) &&
    match a
    case BandwidthEstimationId => true
    case TypedId(_, text) => b.text == text
    case CandidateId(_, text) => b.text == text
    case TypedIntId(_, number) => b.number == number
    case IdWithDirection(_, text, direction) => b.text == text && b.direction == direction
    case ComponentId(name, component) => b.component == component && b.contentName == name
    case CandidatePairId(name, component, index) =>
      b.component == component && b.contentName == name && b.index == index
  }

  /** The id is of the class that `classFor` assigns to its type. */
  predicate Follows(classFor: StatsType -> IdClass, id: Id) {
    ClassOf(id) == classFor(TypeOf(id))
  }

  /** With one class per type, Equals is defined and is identity of the ids, hence an equivalence. */
  lemma EqualsIsIdentity(classFor: StatsType -> IdClass, a: Id, b: Id)
    requires Follows(classFor, a) && Follows(classFor, b)
    ensures Castable(a, b) && (Equals(a, b) <==> a == b)
  {
    if TypeOf(a) == TypeOf(b) {
      assert ClassOf(a) == ClassOf(b);
    }
  }

  class StatsReport {
    const id: Id
    /** How often this report has been deleted. */
    var deletions: nat

    constructor (id: Id)
      ensures this.id == id && deletions == 0
    {
      this.id := id;
      deletions := 0;
    }

    method Delete()
      requires deletions == 0
      modifies this`deletions
      ensures deletions == 1
    {
      deletions := deletions + 1;
    }
  }

  // The list operations.

  function IndexOf(list: seq<StatsReport>, id: Id): (i: nat)
    ensures i <= |list|
    ensures i < |list| ==> list[i].id == id
    ensures forall j :: 0 <= j < i ==> list[j].id != id
  {
    if list == [] then 0
    else
      var i := IndexOf(list[..|list| - 1], id);
      if i < |list| - 1 then assert list[..|list| - 1][i] == list[i]; i
      else if list[|list| - 1].id == id then |list| - 1 else |list|
  }

  /** One round of the merge loop: replace the report with the same id, or append. */
  function MergeOne(list: seq<StatsReport>, r: StatsReport): seq<StatsReport> {
    var i := IndexOf(list, r.id);
    if i < |list| then list[i := r] else list + [r]
  }

  /** The report that round deletes, if any. */
  function DisplacedByOne(list: seq<StatsReport>, r: StatsReport): seq<StatsReport> {
    var i := IndexOf(list, r.id);
    if i < |list| then [list[i]] else []
  }

  function Merge(list: seq<StatsReport>, collection: seq<StatsReport>): seq<StatsReport> {
    if collection == [] then list
    else MergeOne(Merge(list, collection[..|collection| - 1]), collection[|collection| - 1])
  }

  function Displaced(list: seq<StatsReport>, collection: seq<StatsReport>): seq<StatsReport> {
    if collection == [] then []
    else
      var init := collection[..|collection| - 1];
      Displaced(list, init) + DisplacedByOne(Merge(list, init), collection[|collection| - 1])
  }

  // The map a list stands for.

  predicate UniqueIds(list: seq<StatsReport>) {
    forall i, j :: 0 <= i < j < |list| ==> list[i].id != list[j].id
  }

  /** Later reports override earlier ones. */
  function AsMap(list: seq<StatsReport>): map<Id, StatsReport> {
    if list == [] then map[] else AsMap(list[..|list| - 1])[list[|list| - 1].id := list[|list| - 1]]
  }

  lemma {:induction false} AsMapOfUnique(list: seq<StatsReport>)
    requires UniqueIds(list)
    ensures forall i :: 0 <= i < |list| ==> list[i].id in AsMap(list) && AsMap(list)[list[i].id] == list[i]
    ensures forall id :: id in AsMap(list) ==> IndexOf(list, id) < |list|
  {
    if list == [] {
    } else {
      var init := list[..|list| - 1];
      AsMapOfUnique(init);
      forall i | 0 <= i < |list| ensures list[i].id in AsMap(list) && AsMap(list)[list[i].id] == list[i] {
        if i < |init| {
          assert init[i] == list[i];
        }
      }
    }
  }

  lemma AsMapIs(list: seq<StatsReport>, m: map<Id, StatsReport>)
    requires UniqueIds(list)
    requires forall i :: 0 <= i < |list| ==> list[i].id in m && m[list[i].id] == list[i]
    requires forall id :: id in m ==> IndexOf(list, id) < |list|
    ensures AsMap(list) == m
  {
    AsMapOfUnique(list);
    forall id ensures id in AsMap(list) <==> id in m {
      var i := IndexOf(list, id);
      assert i < |list| ==> list[i].id == id;
    }
    forall id | id in m ensures AsMap(list)[id] == m[id] {
      assert list[IndexOf(list, id)].id == id;
    }
  }

  lemma MergeOneIsUpdate(list: seq<StatsReport>, r: StatsReport)
    requires UniqueIds(list)
    ensures UniqueIds(MergeOne(list, r)) && AsMap(MergeOne(list, r)) == AsMap(list)[r.id := r]
  {
    var merged := MergeOne(list, r);
    var i := IndexOf(list, r.id);
    if i < |list| {
      AsMapOfUnique(list);
      var m := AsMap(list)[r.id := r];
      forall j | 0 <= j < |merged| ensures merged[j].id in m && m[merged[j].id] == merged[j] {
        assert merged[j].id == list[j].id;
      }
      forall id | id in m ensures IndexOf(merged, id) < |merged| {
        var k := IndexOf(list, id);
        assert merged[k].id == list[k].id;
      }
      AsMapIs(merged, m);
    } else {
      assert merged[..|merged| - 1] == list;
    }
  }

  /** Merging is right-biased map union. */
  lemma {:induction false} MergeIsUnion(list: seq<StatsReport>, collection: seq<StatsReport>)
    requires UniqueIds(list)
    ensures UniqueIds(Merge(list, collection))
    ensures AsMap(Merge(list, collection)) == AsMap(list) + AsMap(collection)
  {
    hide MergeOne;
    if collection == [] {
    } else {
      var init, last := collection[..|collection| - 1], collection[|collection| - 1];
      MergeIsUnion(list, init);
      MergeOneIsUpdate(Merge(list, init), last);
      assert AsMap(list) + AsMap(init)[last.id := last] == (AsMap(list) + AsMap(init))[last.id := last];
    }
  }

  function Ids(list: seq<StatsReport>): (ids: seq<Id>)
    ensures |ids| == |list| && forall i :: 0 <= i < |list| ==> ids[i] == list[i].id
  {
    seq(|list|, i requires 0 <= i < |list| => list[i].id)
  }

  /** The ids of a list that are not among `known`, each once, in order of first occurrence. */
  function NewIds(known: seq<Id>, list: seq<StatsReport>): seq<Id> {
    if list == [] then []
    else
      var earlier, id := NewIds(known, list[..|list| - 1]), list[|list| - 1].id;
      if id in known || id in earlier then earlier else earlier + [id]
  }

  /** Merging keeps the ids already present in their places and appends the new ids in order. */
  lemma {:induction false} MergeKeepsPositions(list: seq<StatsReport>, collection: seq<StatsReport>)
    ensures Ids(Merge(list, collection)) == Ids(list) + NewIds(Ids(list), collection)
  {
    if collection == [] {
      assert Ids(list) + NewIds(Ids(list), collection) == Ids(list);
    } else {
      var init, last := collection[..|collection| - 1], collection[|collection| - 1];
      MergeKeepsPositions(list, init);
      var merged := Merge(list, init);
      var i := IndexOf(merged, last.id);
      assert i < |merged| ==> Ids(merged)[i] == last.id;
      assert last.id in Ids(merged) <==> i < |merged|;
      if i < |merged| {
        assert Ids(merged[i := last]) == Ids(merged);
      } else {
        assert Ids(merged + [last]) == Ids(merged) + [last.id];
      }
    }
  }

  // Two facts about sums of multisets.

  lemma Balance(after: multiset<StatsReport>, before: multiset<StatsReport>, was: multiset<StatsReport>,
                now: multiset<StatsReport>, gone: multiset<StatsReport>, added: multiset<StatsReport>)
    requires after + was == before + now && now + gone == was + added
    ensures after + gone == before + added
  {
    forall r ensures (after + gone)[r] == (before + added)[r] {
      assert (after + was)[r] == (before + now)[r];
      assert (now + gone)[r] == (was + added)[r];
    }
  }

  lemma Regroup(a: multiset<StatsReport>, b: multiset<StatsReport>, c: multiset<StatsReport>, d: multiset<StatsReport>)
    requires a + b == c
    ensures a + (d + b) == c + d
  {
    forall r ensures (a + (d + b))[r] == (c + d)[r] {
      assert (a + b)[r] == c[r];
    }
  }

  /** Every report that enters a merge is listed afterwards or deleted, once. */
  lemma {:induction false} MergeConserves(list: seq<StatsReport>, collection: seq<StatsReport>)
    ensures multiset(Merge(list, collection)) + multiset(Displaced(list, collection))
         == multiset(list) + multiset(collection)
  {
    hide MergeOne, DisplacedByOne;
    if collection == [] {
    } else {
      var init, last := collection[..|collection| - 1], collection[|collection| - 1];
      var merged := Merge(list, init);
      var gone, now := multiset(DisplacedByOne(merged, last)), multiset(MergeOne(merged, last));
      var earlier := multiset(Displaced(list, init));
      MergeConserves(list, init);
      MergeOneConserves(merged, last);
      assert collection == init + [last];
      Regroup(now, gone, multiset(merged) + multiset{last}, earlier);
      Regroup(multiset(merged), earlier, multiset(list) + multiset(init), multiset{last});
      assert multiset(Displaced(list, collection)) == earlier + gone;
      assert multiset(merged) + multiset{last} + earlier == multiset(merged) + (multiset{last} + earlier);
      assert multiset(list) + multiset(init) + multiset{last} == multiset(list) + multiset(collection);
    }
  }

  lemma MergeOneConserves(list: seq<StatsReport>, r: StatsReport)
    ensures multiset(MergeOne(list, r)) + multiset(DisplacedByOne(list, r)) == multiset(list) + multiset{r}
  {
    var i := IndexOf(list, r.id);
    if i < |list| {
      assert list == list[..i] + [list[i]] + list[i + 1..];
      assert list[i := r] == list[..i] + [r] + list[i + 1..];
    }
  }

  /** In a merge of distinct reports, what is listed afterwards was not deleted, and all of it was
      given. */
  lemma {:induction false} MergeOfDistinct(list: seq<StatsReport>, collection: seq<StatsReport>)
    requires UniqueIds(list) && forall r :: r in collection ==> r !in list
    requires forall i, j :: 0 <= i < j < |collection| ==> collection[i] != collection[j]
    ensures forall r :: r in Merge(list, collection) ==>
              (r in list || r in collection) && r !in Displaced(list, collection)
    ensures forall r :: r in Displaced(list, collection) ==> r in list || r in collection
  {
    if collection == [] {
    } else {
      var init, last := collection[..|collection| - 1], collection[|collection| - 1];
      MergeOfDistinct(list, init);
      MergeIsUnion(list, init);
      assert collection == init + [last] && last !in init;
      MergeOneOfDistinct(Merge(list, init), last);
    }
  }

  lemma MergeOneOfDistinct(list: seq<StatsReport>, r: StatsReport)
    requires UniqueIds(list) && r !in list
    ensures forall x :: x in MergeOne(list, r) <==> (x in list && x !in DisplacedByOne(list, r)) || x == r
    ensures forall x :: x in DisplacedByOne(list, r) ==> x in list
  {
    var i, merged := IndexOf(list, r.id), MergeOne(list, r);
    forall x ensures x in merged <==> (x in list && x !in DisplacedByOne(list, r)) || x == r {
      if x in list {
        var j :| 0 <= j < |list| && list[j] == x;
        assert j != i ==> merged[j] == x;
      }
      assert i < |list| ==> merged[i] == r;
      assert i == |list| ==> merged[|list|] == r;
    }
  }

  class StatsCollection {
    var list: seq<StatsReport>
    /** The class used for the ids of each type. */
    ghost const classFor: StatsType -> IdClass

    ghost predicate Valid()
      reads this, list
    {
      && UniqueIds(list)
      && forall r :: r in list ==> r.deletions == 0 && Follows(classFor, r.id)
    }

    constructor (ghost classFor: StatsType -> IdClass)
      ensures Valid() && list == [] && this.classFor == classFor
    {
      list := [];
      this.classFor := classFor;
    }

    /** The search all operations use: the first report whose id equals `id`. */
    method FindIndex(id: Id) returns (i: nat)
      requires Follows(classFor, id) && forall r :: r in list ==> Follows(classFor, r.id)
      ensures i == IndexOf(list, id)
    {
      i := 0;
      while i < |list|
        invariant 0 <= i <= |list|
        invariant forall j :: 0 <= j < i ==> list[j].id != id
      {
        EqualsIsIdentity(classFor, list[i].id, id);
        if Equals(list[i].id, id) {
          return;
        }
        i := i + 1;
      }
    }

    method Find(id: Id) returns (r: StatsReport?)
      requires Valid() && Follows(classFor, id)
      ensures r == null <==> id !in AsMap(list)
      ensures r != null ==> AsMap(list)[id] == r && r in list
    {
      AsMapOfUnique(list);
      var i := FindIndex(id);
      if i == |list| {
        return null;
      }
      return list[i];
    }

    method InsertNew(id: Id) returns (r: StatsReport)
      requires Valid() && Follows(classFor, id)
      requires id !in AsMap(list)
      modifies this`list
      ensures Valid() && fresh(r) && r.id == id
      ensures list == old(list) + [r]
    {
      AsMapOfUnique(list);
      r := new StatsReport(id);
      list := list + [r];
    }

    method FindOrAddNew(id: Id) returns (r: StatsReport)
      requires Valid() && Follows(classFor, id)
      modifies this`list
      ensures Valid()
      ensures id in old(AsMap(list)) ==> r == old(AsMap(list)[id]) && list == old(list)
      ensures id !in old(AsMap(list)) ==> fresh(r) && r.id == id && list == old(list) + [r]
    {
      var found := Find(id);
      if found != null {
        return found;
      }
      r := InsertNew(id);
    }

    method ReplaceOrAddNew(id: Id) returns (r: StatsReport)
      requires Valid() && Follows(classFor, id)
      modifies this`list, list`deletions
      ensures Valid() && fresh(r) && r.id == id
      ensures list == MergeOne(old(list), r)
      ensures forall d :: d in old(list) ==>
                d.deletions == if d in DisplacedByOne(old(list), r) then 1 else 0
    {
      hide IndexOf, AsMap, Follows;
      AsMapOfUnique(list);
      var i := FindIndex(id);
      if i < |list| {
        r := new StatsReport(list[i].id);
        list[i].Delete();
        list := list[i := r];
      } else {
        r := InsertNew(id);
      }
    }

    method DetachCollection() returns (detached: seq<StatsReport>)
      requires Valid()
      modifies this`list
      ensures Valid() && detached == old(list) && list == []
    {
      detached := list;
      list := [];
    }

    /** One round of the merge loop; `all` has the reports that may be deleted in the end. */
    method MergeReport(report: StatsReport, ghost all: set<StatsReport>)
      requires Follows(classFor, report.id) && report !in list
      requires forall r :: r in list ==> r in all && r.deletions == 0 && Follows(classFor, r.id)
      modifies this`list, all`deletions
      ensures list == MergeOne(old(list), report)
      ensures forall r :: r in all ==>
                r.deletions == old(r.deletions) + if r in DisplacedByOne(old(list), report) then 1 else 0
    {
      hide IndexOf, Follows;
      var i := FindIndex(report.id);
      if i == |list| {
        list := list + [report];
      } else {
        list[i].Delete();
        list := list[i := report];
      }
    }

    /** The caller hands over live reports that are in no other list. */
    method MergeCollection(collection: seq<StatsReport>)
      requires Valid()
      requires forall r :: r in collection ==> r.deletions == 0 && Follows(classFor, r.id) && r !in list
      requires forall i, j :: 0 <= i < j < |collection| ==> collection[i] != collection[j]
      modifies this`list, list`deletions, collection`deletions
      ensures Valid() && list == Merge(old(list), collection)
      ensures forall r :: r in old(list) || r in collection ==>
                r.deletions == if r in Displaced(old(list), collection) then 1 else 0
    {
      hide MergeOne, DisplacedByOne, UniqueIds, AsMap, Follows;
      ghost var before, all := list, set r | r in list + collection;
      for k := 0 to |collection|
        invariant list == Merge(before, collection[..k])
        invariant forall r :: r in all ==> r.deletions == if r in Displaced(before, collection[..k]) then 1 else 0
      {
        MergeOfDistinct(before, collection[..k]);
        MergeIsUnion(before, collection[..k]);
        MergeOneOfDistinct(list, collection[k]);
        assert collection[..k + 1][..k] == collection[..k];
        MergeReport(collection[k], all);
      }
      assert collection[..|collection|] == collection;
      MergeOfDistinct(before, collection);
      MergeIsUnion(before, collection);
    }

    /** The destructor. */
    method Destroy()
      requires Valid()
      modifies this`list, list`deletions
      ensures list == [] && forall r :: r in old(list) ==> r.deletions == 1
    {
      for k := 0 to |list|
        invariant list == old(list)
        invariant forall j :: 0 <= j < |list| ==> list[j].deletions == if j < k then 1 else 0
      {
        list[k].Delete();
      }
      list := [];
    }
  }

  // Ownership over whole runs.

  /** Any number of lists, owned by collections or detached from them; the reports deleted so far,
      in order; and all reports ever made. */
  datatype Pool = Pool(lists: seq<seq<StatsReport>>, deleted: seq<StatsReport>, made: seq<StatsReport>)

  datatype Operation =
    | NewList
    | InsertNew(at: nat, report: StatsReport)
    | ReplaceOrAddNew(at: nat, report: StatsReport)
    | Detach(at: nat)
    | MergeInto(at: nat, from: nat)
    | Destroy(at: nat)

  /** Reports are made fresh, lists exist, and a list is not merged into itself. */
  predicate Permitted(p: Pool, op: Operation) {
    match op
    case NewList => true
    case InsertNew(at, r) => at < |p.lists| && r !in p.made && IndexOf(p.lists[at], r.id) == |p.lists[at]|
    case ReplaceOrAddNew(at, r) => at < |p.lists| && r !in p.made
    case Detach(at) => at < |p.lists|
    case MergeInto(at, from) => at < |p.lists| && from < |p.lists| && at != from
    case Destroy(at) => at < |p.lists|
  }

  function Apply(p: Pool, op: Operation): Pool
    requires Permitted(p, op)
  {
    match op
    case NewList => p.(lists := p.lists + [[]])
    case InsertNew(at, r) => p.(lists := p.lists[at := p.lists[at] + [r]], made := p.made + [r])
    case ReplaceOrAddNew(at, r) =>
      Pool(p.lists[at := MergeOne(p.lists[at], r)], p.deleted + DisplacedByOne(p.lists[at], r), p.made + [r])
    case Detach(at) => p.(lists := p.lists[at := []] + [p.lists[at]])
    case MergeInto(at, from) =>
      Pool(p.lists[from := []][at := Merge(p.lists[at], p.lists[from])],
           p.deleted + Displaced(p.lists[at], p.lists[from]),
           p.made)
    case Destroy(at) => p.(lists := p.lists[at := []], deleted := p.deleted + p.lists[at])
  }

  function Held(lists: seq<seq<StatsReport>>): multiset<StatsReport> {
    if lists == [] then multiset{} else Held(lists[..|lists| - 1]) + multiset(lists[|lists| - 1])
  }

  lemma {:induction false} HeldAfterUpdate(lists: seq<seq<StatsReport>>, at: nat, list: seq<StatsReport>)
    requires at < |lists|
    ensures Held(lists[at := list]) + multiset(lists[at]) == Held(lists) + multiset(list)
  {
    var init, last := lists[..|lists| - 1], lists[|lists| - 1];
    var updated := lists[at := list];
    if at < |init| {
      HeldAfterUpdate(init, at, list);
      assert updated[..|lists| - 1] == init[at := list] && updated[|lists| - 1] == last;
      calc {
        Held(updated) + multiset(lists[at]);
        Held(init[at := list]) + multiset(last) + multiset(init[at]);
        Held(init[at := list]) + multiset(init[at]) + multiset(last);
        Held(init) + multiset(list) + multiset(last);
      }
    } else {
      assert updated[..|lists| - 1] == init && updated[|lists| - 1] == list;
    }
  }

  lemma HeldAfterAppend(lists: seq<seq<StatsReport>>, list: seq<StatsReport>)
    ensures Held(lists + [list]) == Held(lists) + multiset(list)
  {
    assert (lists + [list])[..|lists|] == lists;
  }

  /** Every report ever made is in exactly one list, once, or has been deleted, once. */
  ghost predicate Conserved(p: Pool) {
    && Held(p.lists) + multiset(p.deleted) == multiset(p.made)
    && (forall r :: r in p.made ==> multiset(p.made)[r] == 1)
    && (forall i :: 0 <= i < |p.lists| ==> UniqueIds(p.lists[i]))
  }

  lemma MakingOne(made: seq<StatsReport>, r: StatsReport)
    requires r !in made && forall x :: x in made ==> multiset(made)[x] == 1
    ensures multiset(made + [r]) == multiset(made) + multiset{r}
    ensures forall x :: x in made + [r] ==> multiset(made + [r])[x] == 1
  {
    assert multiset(made)[r] == 0;
  }

  lemma ApplyConserves(p: Pool, op: Operation)
    requires Conserved(p) && Permitted(p, op)
    ensures Conserved(Apply(p, op))
  {
    match op
    case NewList =>
      HeldAfterAppend(p.lists, []);
    case InsertNew(at, r) =>
      InsertConserves(p, at, r);
    case ReplaceOrAddNew(at, r) =>
      ReplaceConserves(p, at, r);
    case Detach(at) =>
      DetachConserves(p, at);
    case MergeInto(at, from) =>
      MergeIntoConserves(p, at, from);
    case Destroy(at) =>
      DestroyConserves(p, at);
  }

  lemma DetachConserves(p: Pool, at: nat)
    requires Conserved(p) && Permitted(p, Detach(at))
    ensures Conserved(Apply(p, Detach(at)))
  {
    hide Held;
    HeldAfterUpdate(p.lists, at, []);
    HeldAfterAppend(p.lists[at := []], p.lists[at]);
    assert Held(Apply(p, Detach(at)).lists) == Held(p.lists);
  }

  lemma DestroyConserves(p: Pool, at: nat)
    requires Conserved(p) && Permitted(p, Destroy(at))
    ensures Conserved(Apply(p, Destroy(at)))
  {
    hide Held;
    HeldAfterUpdate(p.lists, at, []);
    assert multiset(p.made) + multiset{} == multiset(p.made);
    DeletingSome(Held(p.lists[at := []]), Held(p.lists), p.deleted, p.lists[at], multiset{}, p.made);
  }

  lemma InsertConserves(p: Pool, at: nat, r: StatsReport)
    requires Conserved(p) && Permitted(p, InsertNew(at, r))
    ensures Conserved(Apply(p, InsertNew(at, r)))
  {
    hide Held;
    var list, now := p.lists[at], p.lists[at] + [r];
    var p' := Apply(p, InsertNew(at, r));
    HeldAfterUpdate(p.lists, at, now);
    MakingOne(p.made, r);
    assert multiset(now) + multiset{} == multiset(list) + multiset{r};
    Balance(Held(p'.lists), Held(p.lists), multiset(list), multiset(now), multiset{}, multiset{r});
    DeletingSome(Held(p'.lists), Held(p.lists), p.deleted, [], multiset{r}, p.made);
    assert p.deleted + [] == p.deleted;
  }

  lemma ReplaceConserves(p: Pool, at: nat, r: StatsReport)
    requires Conserved(p) && Permitted(p, ReplaceOrAddNew(at, r))
    ensures Conserved(Apply(p, ReplaceOrAddNew(at, r)))
  {
    hide Held, MergeOne, DisplacedByOne, UniqueIds;
    var list, now, gone := p.lists[at], MergeOne(p.lists[at], r), DisplacedByOne(p.lists[at], r);
    var p' := Apply(p, ReplaceOrAddNew(at, r));
    HeldAfterUpdate(p.lists, at, now);
    MergeOneConserves(list, r);
    MergeOneIsUpdate(list, r);
    MakingOne(p.made, r);
    Balance(Held(p'.lists), Held(p.lists), multiset(list), multiset(now), multiset(gone), multiset{r});
    DeletingSome(Held(p'.lists), Held(p.lists), p.deleted, gone, multiset{r}, p.made);
  }

  lemma MergeIntoConserves(p: Pool, at: nat, from: nat)
    requires Conserved(p) && Permitted(p, MergeInto(at, from))
    ensures Conserved(Apply(p, MergeInto(at, from)))
  {
    hide Held, Merge, Displaced, UniqueIds;
    MergeIsUnion(p.lists[at], p.lists[from]);
    MergedAreHeld(p.lists, at, from, p.deleted, p.made);
    NoIdsAreUnique();
  }

  lemma NoIdsAreUnique()
    ensures UniqueIds([])
  {
  }

  lemma MergedAreHeld(lists: seq<seq<StatsReport>>, at: nat, from: nat, deleted: seq<StatsReport>,
                      made: seq<StatsReport>)
    requires at < |lists| && from < |lists| && at != from && Held(lists) + multiset(deleted) == multiset(made)
    ensures Held(lists[from := []][at := Merge(lists[at], lists[from])])
            + multiset(deleted + Displaced(lists[at], lists[from])) == multiset(made)
  {
    hide Held, Merge, Displaced;
    var a, b, rest := lists[at], lists[from], lists[from := []];
    var now, gone := Merge(a, b), Displaced(a, b);
    HeldAfterUpdate(lists, from, []);
    HeldAfterUpdate(rest, at, now);
    MergeConserves(a, b);
    HeldAfterMerge(Held(rest[at := now]), Held(rest), Held(lists), multiset(a), multiset(b), multiset(now),
      multiset(gone));
    DeletingSome(Held(rest[at := now]), Held(lists), deleted, gone, multiset{}, made);
  }

  lemma HeldAfterMerge(after: multiset<StatsReport>, rest: multiset<StatsReport>, before: multiset<StatsReport>,
                       a: multiset<StatsReport>, b: multiset<StatsReport>, now: multiset<StatsReport>,
                         gone: multiset<StatsReport>)
    requires rest + b == before + multiset([]) && after + a == rest + now && now + gone == a + b
    ensures after + gone == before + multiset{}
  {
    Balance(after, rest, a, now, gone, b);
  }

  lemma DeletingSome(after: multiset<StatsReport>, before: multiset<StatsReport>, deleted: seq<StatsReport>,
                     gone: seq<StatsReport>, added: multiset<StatsReport>, made: seq<StatsReport>)
    requires after + multiset(gone) == before + added
    requires before + multiset(deleted) == multiset(made)
    ensures after + multiset(deleted + gone) == multiset(made) + added
  {
    assert multiset(deleted + gone) == multiset(deleted) + multiset(gone);
    forall r ensures (after + multiset(deleted + gone))[r] == (multiset(made) + added)[r] {
      assert (after + multiset(gone))[r] == (before + added)[r];
      assert (before + multiset(deleted))[r] == multiset(made)[r];
    }
  }

  predicate PermittedRun(p: Pool, ops: seq<Operation>)
    decreases ops
  {
    ops == [] || (Permitted(p, ops[0]) && PermittedRun(Apply(p, ops[0]), ops[1..]))
  }

  function RunFrom(p: Pool, ops: seq<Operation>): Pool
    requires PermittedRun(p, ops)
    decreases ops
  {
    if ops == [] then p else RunFrom(Apply(p, ops[0]), ops[1..])
  }

  lemma {:induction false} RunConserves(p: Pool, ops: seq<Operation>)
    requires Conserved(p) && PermittedRun(p, ops)
    ensures Conserved(RunFrom(p, ops))
    decreases ops
  {
    if ops == [] {
    } else {
      ApplyConserves(p, ops[0]);
      RunConserves(Apply(p, ops[0]), ops[1..]);
    }
  }

  /** From nothing, after any run of operations: no two reports of a list have equal ids, and every
      report is held by the lists exactly as often as it has not been deleted, which is once or not
      at all. */
  lemma EveryReportHasOneOwner(ops: seq<Operation>, r: StatsReport)
    requires PermittedRun(Pool([], [], []), ops)
    ensures var p := RunFrom(Pool([], [], []), ops);
            && (forall i :: 0 <= i < |p.lists| ==> UniqueIds(p.lists[i]))
            && (r in p.made ==> Held(p.lists)[r] + multiset(p.deleted)[r] == 1)
            && (r !in p.made ==> Held(p.lists)[r] + multiset(p.deleted)[r] == 0)
  {
    var start := Pool([], [], []);
    assert Conserved(start);
    RunConserves(start, ops);
    var p := RunFrom(start, ops);
    assert (Held(p.lists) + multiset(p.deleted))[r] == multiset(p.made)[r];
  }

  // The objects follow the pool.

  lemma {:induction false} HeldCovers(lists: seq<seq<StatsReport>>, i: nat, r: StatsReport)
    requires i < |lists|
    ensures multiset(lists[i])[r] <= Held(lists)[r]
  {
    var init := lists[..|lists| - 1];
    if i == |lists| - 1 {
    } else {
      HeldCovers(init, i, r);
    }
  }

  /** A listed report has been made and not deleted, and is in no other list. */
  lemma ListedReport(p: Pool, i: nat, r: StatsReport)
    requires Conserved(p) && i < |p.lists| && r in p.lists[i]
    ensures r in p.made && multiset(p.deleted)[r] == 0
    ensures forall j :: 0 <= j < |p.lists| && j != i ==> r !in p.lists[j]
  {
    HeldCovers(p.lists, i, r);
    assert (Held(p.lists) + multiset(p.deleted))[r] == multiset(p.made)[r];
    assert r in multiset(p.lists[i]) && r in multiset(p.made);
    forall j | 0 <= j < |p.lists| && j != i ensures r !in p.lists[j] {
      HeldAfterUpdate(p.lists, i, []);
      HeldCovers(p.lists[i := []], j, r);
      assert (Held(p.lists[i := []]) + multiset(p.lists[i]))[r] == Held(p.lists)[r];
      assert r !in multiset(p.lists[j]);
    }
  }

  /** Nothing is deleted twice. */
  lemma DeletedOnce(p: Pool, r: StatsReport)
    requires Conserved(p)
    ensures multiset(p.deleted)[r] <= 1
  {
    assert (Held(p.lists) + multiset(p.deleted))[r] == multiset(p.made)[r];
  }

  lemma DeletedCounts(p: Pool, before: seq<StatsReport>, gone: seq<StatsReport>, r: StatsReport)
    requires Conserved(p) && p.deleted == before + gone
    ensures multiset(p.deleted)[r] == if r in gone then 1 else multiset(before)[r]
  {
    DeletedOnce(p, r);
    assert multiset(p.deleted) == multiset(before) + multiset(gone);
    assert r in gone <==> r in multiset(gone);
  }

  /** A list of a pool: in a collection, or detached from one. */
  datatype Slot = Owned(collection: StatsCollection) | Detached(list: seq<StatsReport>)

  method DeleteAll(list: seq<StatsReport>)
    requires forall i, j :: 0 <= i < j < |list| ==> list[i] != list[j]
    requires forall r :: r in list ==> r.deletions == 0
    modifies list`deletions
    ensures forall r :: r in list ==> r.deletions == 1
  {
    for k := 0 to |list|
      invariant forall j :: 0 <= j < |list| ==> list[j].deletions == if j < k then 1 else 0
    {
      list[k].Delete();
    }
  }

  /** A program with any number of collections and detached lists. */
  class Program {
    ghost const classFor: StatsType -> IdClass
    var slots: seq<Slot>
    ghost var deleted: seq<StatsReport>
    ghost var made: seq<StatsReport>

    ghost function Collections(): set<StatsCollection>
      reads this`slots
    {
      set i | 0 <= i < |slots| && slots[i].Owned? :: slots[i].collection
    }

    ghost function ListAt(i: nat): seq<StatsReport>
      requires i < |slots|
      reads this`slots, Collections()
    {
      assert slots[i].Owned? ==> slots[i].collection in Collections();
      if slots[i].Owned? then slots[i].collection.list else slots[i].list
    }

    ghost function View(): Pool
      reads this, Collections()
    {
      Pool(seq(|slots|, i requires 0 <= i < |slots| reads this`slots, Collections() => ListAt(i)), deleted, made)
    }

    ghost predicate Separate()
      reads this`slots
    {
      && (forall i :: 0 <= i < |slots| && slots[i].Owned? ==> slots[i].collection.classFor == classFor)
      && (forall i, j :: 0 <= i < j < |slots| && slots[i].Owned? && slots[j].Owned? ==>
            slots[i].collection != slots[j].collection)
    }

    /** Each report made follows the class of its type and knows how often it was deleted. */
    ghost predicate Recorded()
      reads this, made
    {
      forall r :: r in made ==> r.deletions == multiset(deleted)[r] && Follows(classFor, r.id)
    }

    ghost predicate Valid()
      reads this, Collections(), made
    {
      Separate() && Conserved(View()) && Recorded()
    }

    constructor (ghost classFor: StatsType -> IdClass)
      ensures Valid() && View() == Pool([], [], []) && this.classFor == classFor
    {
      this.classFor := classFor;
      slots, deleted, made := [], [], [];
    }

    /** What the methods of a collection ask of their callers holds. */
    lemma SlotIsReady(i: nat)
      requires Valid() && i < |slots|
      ensures UniqueIds(ListAt(i))
      ensures forall r :: r in ListAt(i) ==> r in made && r.deletions == 0 && Follows(classFor, r.id)
      ensures forall r, j :: r in ListAt(i) && 0 <= j < |slots| && j != i ==> r !in ListAt(j)
      ensures slots[i].Owned? ==> slots[i].collection.Valid()
    {
      var p := View();
      assert forall j :: 0 <= j < |slots| ==> p.lists[j] == ListAt(j);
      forall r | r in ListAt(i)
        ensures r in made && multiset(deleted)[r] == 0 && forall j :: 0 <= j < |slots| && j != i ==> r !in ListAt(j)
      {
        ListedReport(p, i, r);
      }
    }

    method NewCollection()
      requires Valid()
      modifies this`slots
      ensures Valid() && Permitted(old(View()), NewList) && View() == Apply(old(View()), NewList)
    {
      ApplyConserves(View(), NewList);
      var collection := new StatsCollection(classFor);
      slots := slots + [Owned(collection)];
      assert View().lists == old(View()).lists + [[]];
    }

    method InsertNew(at: nat, id: Id) returns (r: StatsReport)
      requires Valid() && at < |slots| && slots[at].Owned? && Follows(classFor, id) && id !in AsMap(ListAt(at))
      modifies this`made, slots[at].collection`list
      ensures Valid() && Permitted(old(View()), Operation.InsertNew(at, r))
              && View() == Apply(old(View()), Operation.InsertNew(at, r))
    {
      hide Conserved, AsMap, IndexOf, Follows, Held, UniqueIds;
      SlotIsReady(at);
      AbsentId(ListAt(at), id);
      r := slots[at].collection.InsertNew(id);
      made := made + [r];
      assert View().lists == old(View()).lists[at := old(View()).lists[at] + [r]];
      ApplyConserves(old(View()), Operation.InsertNew(at, r));
    }

    method ReplaceInSlot(at: nat, id: Id) returns (r: StatsReport)
      requires Valid() && at < |slots| && slots[at].Owned? && Follows(classFor, id)
      modifies slots[at].collection`list, ListAt(at)`deletions
      ensures fresh(r) && r.id == id && r.deletions == 0 && ListAt(at) == MergeOne(old(ListAt(at)), r)
      ensures r !in made && r !in deleted && r !in DisplacedByOne(old(ListAt(at)), r)
      ensures forall x :: x in made ==>
                x.deletions == if x in DisplacedByOne(old(ListAt(at)), r) then 1 else old(x.deletions)
    {
      hide Conserved, AsMap, MergeOne, Follows, Held, UniqueIds;
      SlotIsReady(at);
      r := slots[at].collection.ReplaceOrAddNew(id);
      MergeOneOfDistinct(old(ListAt(at)), r);
    }

    method ReplaceOrAddNew(at: nat, id: Id) returns (r: StatsReport)
      requires Valid() && at < |slots| && slots[at].Owned? && Follows(classFor, id)
      modifies this`made, this`deleted, slots[at].collection`list, ListAt(at)`deletions
      ensures Valid()
      ensures Permitted(old(View()), Operation.ReplaceOrAddNew(at, r))
              && View() == Apply(old(View()), Operation.ReplaceOrAddNew(at, r))
    {
      hide Conserved, AsMap, IndexOf, MergeOne, DisplacedByOne, Follows, Held, UniqueIds, Apply;
      ghost var before, list := View(), ListAt(at);
      r := ReplaceInSlot(at, id);
      assert View().lists == before.lists[at := MergeOne(list, r)];
      ReplaceStep(before, at, r);
      ghost var gone := DisplacedByOne(list, r);
      forall x | x in made || x == r ensures x.deletions == multiset(deleted + gone)[x] {
        DeletedCounts(Apply(before, Operation.ReplaceOrAddNew(at, r)), before.deleted, gone, x);
      }
      label updated:
      deleted, made := deleted + gone, made + [r];
      assert View().lists == old@updated(View()).lists;
    }

    method Detach(at: nat)
      requires Valid() && at < |slots| && slots[at].Owned?
      modifies this`slots, slots[at].collection`list
      ensures Valid() && Permitted(old(View()), Operation.Detach(at))
              && View() == Apply(old(View()), Operation.Detach(at))
    {
      hide Conserved, Held, UniqueIds, Follows;
      SlotIsReady(at);
      ApplyConserves(View(), Operation.Detach(at));
      var list := slots[at].collection.DetachCollection();
      slots := slots + [Detached(list)];
      assert View().lists == old(View()).lists[at := []] + [old(View()).lists[at]];
    }

    method MergeSlots(at: nat, from: nat)
      requires Valid() && at < |slots| && slots[at].Owned? && from < |slots| && slots[from].Detached?
      modifies this`slots, slots[at].collection`list, ListAt(at)`deletions, ListAt(from)`deletions
      ensures slots == old(slots)[from := Detached([])] && ListAt(at) == Merge(old(ListAt(at)), old(ListAt(from)))
      ensures forall x :: x in made ==>
                x.deletions == if x in Displaced(old(ListAt(at)), old(ListAt(from))) then 1 else old(x.deletions)
    {
      hide Conserved, Merge, Displaced, Held, UniqueIds, Follows;
      SlotIsReady(at);
      SlotIsReady(from);
      DistinctReports(ListAt(from));
      MergeOfDistinct(ListAt(at), ListAt(from));
      slots[at].collection.MergeCollection(slots[from].list);
      slots := slots[from := Detached([])];
    }

    /** After the reports of `gone` are deleted, the records the reports keep are right again. */
    lemma RecordedAfter(before: Pool, after: Pool, gone: seq<StatsReport>)
      requires Conserved(after) && after.deleted == before.deleted + gone && after.made == before.made
      requires deleted == after.deleted && made == after.made
      requires forall x :: x in made ==> Follows(classFor, x.id)
      requires forall x :: x in made ==> x.deletions == if x in gone then 1 else multiset(before.deleted)[x]
      ensures Recorded()
    {
      hide Conserved, Follows;
      forall x | x in made ensures x.deletions == multiset(deleted)[x] {
        DeletedCounts(after, before.deleted, gone, x);
      }
    }

    method MergeFrom(at: nat, from: nat)
      requires Valid() && at < |slots| && slots[at].Owned? && from < |slots| && slots[from].Detached?
      modifies this`slots, this`deleted, slots[at].collection`list, ListAt(at)`deletions, ListAt(from)`deletions
      ensures Valid() && Permitted(old(View()), MergeInto(at, from))
      ensures View() == Apply(old(View()), MergeInto(at, from))
    {
      hide Conserved, Merge, Displaced, Held, UniqueIds, Follows, Apply;
      ghost var before, gone := View(), Displaced(ListAt(at), ListAt(from));
      MergeStep(before, at, from);
      MergeSlots(at, from);
      assert View().lists == before.lists[from := []][at := Merge(before.lists[at], before.lists[from])];
      label merged:
      deleted := deleted + gone;
      assert View().lists == old@merged(View()).lists;
      RecordedAfter(before, View(), gone);
    }

    method Destroy(at: nat)
      requires Valid() && at < |slots| && slots[at].Owned?
      modifies this`deleted, slots[at].collection`list, ListAt(at)`deletions
      ensures Valid() && Permitted(old(View()), Operation.Destroy(at))
      ensures View() == Apply(old(View()), Operation.Destroy(at))
    {
      hide Conserved, Held, UniqueIds, Follows;
      SlotIsReady(at);
      ApplyConserves(View(), Operation.Destroy(at));
      ghost var before, gone := View(), ListAt(at);
      slots[at].collection.Destroy();
      deleted := deleted + gone;
      assert View().lists == before.lists[at := []];
      RecordedAfter(before, View(), gone);
    }

    method EmptySlot(at: nat)
      requires Valid() && at < |slots| && slots[at].Detached?
      modifies this`slots, ListAt(at)`deletions
      ensures slots == old(slots)[at := Detached([])]
      ensures forall x :: x in made ==> x.deletions == if x in old(slots)[at].list then 1 else old(x.deletions)
    {
      hide Conserved, Held, UniqueIds, Follows;
      SlotIsReady(at);
      DistinctReports(ListAt(at));
      DeleteAll(slots[at].list);
      slots := slots[at := Detached([])];
    }

    /** The reports of a detached list are deleted by who holds it. */
    method DeleteDetached(at: nat)
      requires Valid() && at < |slots| && slots[at].Detached?
      modifies this`slots, this`deleted, ListAt(at)`deletions
      ensures Valid() && Permitted(old(View()), Operation.Destroy(at))
      ensures View() == Apply(old(View()), Operation.Destroy(at))
    {
      hide Conserved, Held, UniqueIds, Follows, Apply;
      ghost var before, gone := View(), slots[at].list;
      DestroyStep(before, at);
      EmptySlot(at);
      assert View().lists == before.lists[at := []];
      label emptied:
      deleted := deleted + gone;
      assert View().lists == old@emptied(View()).lists;
      RecordedAfter(before, View(), gone);
    }

    /** The report of the id if there is one, and otherwise a new one. */
    method FindOrAddNew(at: nat, id: Id) returns (r: StatsReport)
      requires Valid() && at < |slots| && slots[at].Owned? && Follows(classFor, id)
      modifies this`made, slots[at].collection`list
      ensures Valid()
      ensures id in old(AsMap(ListAt(at))) ==> r == old(AsMap(ListAt(at)))[id] && View() == old(View())
      ensures id !in old(AsMap(ListAt(at))) ==>
                && Permitted(old(View()), Operation.InsertNew(at, r))
                && View() == Apply(old(View()), Operation.InsertNew(at, r))
    {
      hide Conserved, AsMap, IndexOf, Follows, Held, UniqueIds;
      SlotIsReady(at);
      var found := slots[at].collection.Find(id);
      assert View() == old(View()) && Recorded();
      if found != null {
        return found;
      }
      r := InsertNew(at, id);
    }
  }

  lemma MergeStep(p: Pool, at: nat, from: nat)
    requires Conserved(p) && Permitted(p, MergeInto(at, from))
    ensures Apply(p, MergeInto(at, from)) == Pool(p.lists[from := []][at := Merge(p.lists[at], p.lists[from])],
                                                  p.deleted + Displaced(p.lists[at], p.lists[from]), p.made)
    ensures Conserved(Apply(p, MergeInto(at, from)))
  {
    ApplyConserves(p, MergeInto(at, from));
  }

  lemma DestroyStep(p: Pool, at: nat)
    requires Conserved(p) && Permitted(p, Destroy(at))
    ensures Apply(p, Destroy(at)) == Pool(p.lists[at := []], p.deleted + p.lists[at], p.made)
    ensures Conserved(Apply(p, Destroy(at)))
  {
    ApplyConserves(p, Destroy(at));
  }

  lemma ReplaceStep(p: Pool, at: nat, r: StatsReport)
    requires Conserved(p) && Permitted(p, ReplaceOrAddNew(at, r))
    ensures var gone := DisplacedByOne(p.lists[at], r);
            && Apply(p, ReplaceOrAddNew(at, r)) == Pool(p.lists[at := MergeOne(p.lists[at], r)], p.deleted + gone,
              p.made + [r])
            && Conserved(Apply(p, ReplaceOrAddNew(at, r)))
  {
    ApplyConserves(p, ReplaceOrAddNew(at, r));
  }

  lemma DistinctReports(list: seq<StatsReport>)
    requires UniqueIds(list)
    ensures forall i, j :: 0 <= i < j < |list| ==> list[i] != list[j]
  {
  }

  lemma AbsentId(list: seq<StatsReport>, id: Id)
    requires UniqueIds(list) && id !in AsMap(list)
    ensures IndexOf(list, id) == |list|
  {
    AsMapOfUnique(list);
  }
}
