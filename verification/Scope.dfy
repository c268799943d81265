/** The durable state of one scope (index, manifests, doc refs, objects) and the pure rules over it. */
module Scope {
  import opened ByteStrings
  import opened DocRefs
  import opened Permutations

  type Id = Bytes
  type Coll = Bytes

  /** One line of index.json. createdAt stands for the timestamp string, of which only the order is used. */
  datatype Summary = Summary(id: Id, tags: seq<Bytes>, createdAt: int)

  datatype Manifest = Manifest(docCounts: map<Coll, nat>, tags: seq<Bytes>)

  type RefTable = map<(Id, Coll), seq<DocRef>>

  datatype Store = Store(index: seq<Summary>, manifests: map<Id, Manifest>, refs: RefTable, objects: set<Hash>)

  function IndexIds(index: seq<Summary>): set<Id>
  {
    set s | s in index :: s.id
  }

  predicate DistinctIndex(index: seq<Summary>)
  {
    forall i, j :: 0 <= i < j < |index| ==> index[i].id != index[j].id
  }

  predicate DistinctTimes(index: seq<Summary>)
  {
    forall i, j :: 0 <= i < j < |index| ==> index[i].createdAt != index[j].createdAt
  }

  /** IterDocRefs: a list nobody wrote reads as empty. */
  function RefList(refs: RefTable, id: Id, coll: Coll): seq<DocRef>
  {
    if (id, coll) in refs then refs[(id, coll)] else []
  }

  function HashesOf(list: seq<DocRef>): set<Hash>
  {
    set r | r in list :: r.hash
  }

  /** DeleteDocRefs. */
  function DropRefs(refs: RefTable, id: Id): RefTable
  {
    map k | k in refs && k.0 != id :: refs[k]
  }

  /** Every hash the doc refs of these snapshots mention, by the collections their manifests list. */
  function Referenced(s: Store, ids: set<Id>): set<Hash>
  {
    set id, c, h | id in ids && id in s.manifests && c in s.manifests[id].docCounts && h in HashesOf(RefList(s.refs, id, c)) :: h
  }

  // ---- Find ----

  /** scopeIndex.Find: an exact ID, or else a prefix that fits exactly one snapshot. */
  method Find(index: seq<Summary>, query: Bytes) returns (at: int)
    ensures at == FindSpec(index, query)
  {
    for i := 0 to |index|
      invariant forall j :: 0 <= j < i ==> index[j].id != query
    {
      if index[i].id == query {
        FindExact(index, query, i);
        return i;
      }
    }
    var found := -1;
    for i := 0 to |index|
      invariant forall j :: 0 <= j < |index| ==> index[j].id != query
      invariant -1 <= found < i
      invariant found == -1 ==> forall j :: 0 <= j < i ==> !HasPrefix(index[j].id, query)
      invariant found >= 0 ==> HasPrefix(index[found].id, query) && forall j :: 0 <= j < i && j != found ==> !HasPrefix(index[j].id, query)
    {
      if HasPrefix(index[i].id, query) {
        if found >= 0 {
          FindAmbiguous(index, query, found, i);
          return -1;
        }
        found := i;
      }
    }
    FindUnique(index, query, found);
    return found;
  }

  /** `i` answers the query: the first entry with that very ID, or, if there is none, the only entry with that prefix. */
  ghost predicate Answers(index: seq<Summary>, query: Bytes, i: int)
  {
    && 0 <= i < |index|
    && if exists j :: 0 <= j < |index| && index[j].id == query
       then index[i].id == query && forall j :: 0 <= j < i ==> index[j].id != query
       else HasPrefix(index[i].id, query) && forall j :: 0 <= j < |index| && j != i ==> !HasPrefix(index[j].id, query)
  }

  ghost function FindSpec(index: seq<Summary>, query: Bytes): int
  {
    if exists i :: Answers(index, query, i) then var i :| Answers(index, query, i); i else -1
  }

  lemma AnswersUnique(index: seq<Summary>, query: Bytes, i: int, j: int)
    requires Answers(index, query, i) && Answers(index, query, j)
    ensures i == j
  {
  }

  lemma FindExact(index: seq<Summary>, query: Bytes, i: nat)
    requires i < |index| && index[i].id == query && forall j :: 0 <= j < i ==> index[j].id != query
    ensures FindSpec(index, query) == i
  {
    assert Answers(index, query, i);
    AnswersUnique(index, query, i, FindSpec(index, query));
  }

  lemma FindAmbiguous(index: seq<Summary>, query: Bytes, i: nat, j: nat)
    requires i < j < |index| && HasPrefix(index[i].id, query) && HasPrefix(index[j].id, query)
    requires forall k :: 0 <= k < |index| ==> index[k].id != query
    ensures FindSpec(index, query) == -1
  {
  }

  lemma FindUnique(index: seq<Summary>, query: Bytes, found: int)
    requires -1 <= found < |index|
    requires forall k :: 0 <= k < |index| ==> index[k].id != query
    requires forall j :: 0 <= j < |index| && j != found ==> !HasPrefix(index[j].id, query)
    requires found >= 0 ==> HasPrefix(index[found].id, query)
    ensures FindSpec(index, query) == found
  {
    if found >= 0 {
      assert Answers(index, query, found);
      AnswersUnique(index, query, found, FindSpec(index, query));
    }
  }

  // ---- Retention ----

  /** `sorted` is an oldest-first arrangement of the index; snapshots of one time may stand in any order. */
  ghost predicate Arranges(index: seq<Summary>, sorted: seq<Summary>)
  {
    && multiset(sorted) == multiset(index)
    && forall i, j :: 0 <= i < j < |sorted| ==> sorted[i].createdAt <= sorted[j].createdAt
  }

  /** The retention rule: tagged snapshots, and the last `keepLast` of the arrangement. */
  function KeepSet(sorted: seq<Summary>, keepLast: int): set<Id>
  {
    set i | 0 <= i < |sorted| && (sorted[i].tags != [] || i >= |sorted| - keepLast) :: sorted[i].id
  }

  ghost predicate IsKeepChoice(index: seq<Summary>, keepLast: int, keep: set<Id>)
  {
    exists sorted :: Arranges(index, sorted) && keep == KeepSet(sorted, keepLast)
  }

  /** The snapshots newer than time t. */
  function Newer(index: seq<Summary>, t: int): set<Summary>
  {
    set s | s in index && s.createdAt > t
  }

  /** What the rule means, without any sorting: tagged, or fewer than `keepLast` snapshots are newer. */
  function KeepIds(index: seq<Summary>, keepLast: int): set<Id>
  {
    set s | s in index && (s.tags != [] || |Newer(index, s.createdAt)| < keepLast) :: s.id
  }

  /** The kept snapshots, in index order. */
  function Kept(index: seq<Summary>, keep: set<Id>): seq<Summary>
  {
    if index == [] then []
    else (if index[0].id in keep then [index[0]] else []) + Kept(index[1..], keep)
  }

  lemma {:induction false} KeptMembers(index: seq<Summary>, keep: set<Id>, s: Summary)
    ensures s in Kept(index, keep) <==> s in index && s.id in keep
  {
    if index != [] {
      KeptMembers(index[1..], keep, s);
    }
  }

  /** Pruning never changes the order of the lines. */
  lemma {:induction false} KeptInOrder(index: seq<Summary>, keep: set<Id>, i: nat, j: nat) returns (a: nat, b: nat)
    requires i < j < |Kept(index, keep)|
    ensures a < b < |index| && index[a] == Kept(index, keep)[i] && index[b] == Kept(index, keep)[j]
  {
    var rest := Kept(index[1..], keep);
    if index[0].id !in keep {
      a, b := KeptInOrder(index[1..], keep, i, j);
      a, b := a + 1, b + 1;
    } else if i > 0 {
      a, b := KeptInOrder(index[1..], keep, i - 1, j - 1);
      a, b := a + 1, b + 1;
    } else {
      assert Kept(index, keep)[j] == rest[j - 1];
      KeptMembers(index[1..], keep, rest[j - 1]);
      var k :| 0 <= k < |index[1..]| && index[1..][k] == rest[j - 1];
      a, b := 0, k + 1;
    }
  }

  lemma KeptIds(index: seq<Summary>, keep: set<Id>)
    ensures IndexIds(Kept(index, keep)) == IndexIds(index) * keep
  {
    forall id
      ensures id in IndexIds(Kept(index, keep)) <==> id in IndexIds(index) && id in keep
    {
      if id in IndexIds(Kept(index, keep)) {
        var s :| s in Kept(index, keep) && s.id == id;
        KeptMembers(index, keep, s);
      }
      if id in IndexIds(index) && id in keep {
        var s :| s in index && s.id == id;
        KeptMembers(index, keep, s);
      }
    }
  }

  lemma {:induction false} KeptDistinct(index: seq<Summary>, keep: set<Id>)
    ensures DistinctIndex(index) ==> DistinctIndex(Kept(index, keep))
    ensures DistinctTimes(index) ==> DistinctTimes(Kept(index, keep))
  {
    if index != [] {
      var rest := Kept(index[1..], keep);
      KeptDistinct(index[1..], keep);
      forall j | 0 <= j < |rest|
        ensures DistinctIndex(index) ==> rest[j].id != index[0].id
        ensures DistinctTimes(index) ==> rest[j].createdAt != index[0].createdAt
      {
        KeptMembers(index[1..], keep, rest[j]);
        var k :| 0 <= k < |index[1..]| && index[1..][k] == rest[j];
        assert index[k + 1] == rest[j];
      }
    }
  }

  lemma {:induction false} KeptAll(index: seq<Summary>, keep: set<Id>)
    requires IndexIds(index) <= keep
    ensures Kept(index, keep) == index
  {
    if index != [] {
      assert index[0].id in IndexIds(index);
      assert forall s :: s in index[1..] ==> s in index;
      assert IndexIds(index[1..]) <= keep;
      KeptAll(index[1..], keep);
    }
  }

  // ---- The arrangement does not matter when times are distinct ----

  lemma SameSummaries(a: seq<Summary>, b: seq<Summary>)
    requires multiset(a) == multiset(b)
    ensures forall s :: s in a <==> s in b
    ensures |a| == |b|
  {
    assert |a| == |multiset(a)| == |multiset(b)| == |b|;
    forall s ensures s in a <==> s in b {
      assert s in a <==> s in multiset(a);
      assert s in b <==> s in multiset(b);
    }
  }

  /** The snapshots at least as new as time t. */
  function NotOlder(index: seq<Summary>, t: int): set<Summary>
  {
    set s | s in index && s.createdAt >= t
  }

  /** Snapshot s stands on the border: keepLast reaches into the group of those with its time but not through it, and no
      tag keeps it. */
  predicate OnBorder(index: seq<Summary>, keepLast: int, s: Summary)
  {
    s.tags == [] && |Newer(index, s.createdAt)| < keepLast < |NotOlder(index, s.createdAt)|
  }

  /** No snapshot stands on the border. */
  predicate Determined(index: seq<Summary>, keepLast: int)
  {
    forall s :: s in index ==> !OnBorder(index, keepLast, s)
  }

  lemma ArrangedDistinct(index: seq<Summary>, sorted: seq<Summary>)
    requires Arranges(index, sorted) && Distinct(index)
    ensures Distinct(sorted) && (forall s :: s in sorted <==> s in index) && |sorted| == |index|
  {
    DistinctSub(index, sorted);
    SameSummaries(sorted, index);
  }

  /** Where a snapshot can stand: the newer ones come after it, and it and all that come after are at least as new. */
  lemma PlaceBounds(index: seq<Summary>, sorted: seq<Summary>, i: nat)
    requires Arranges(index, sorted) && Distinct(index) && i < |sorted|
    ensures |Newer(index, sorted[i].createdAt)| < |sorted| - i <= |NotOlder(index, sorted[i].createdAt)|
  {
    ArrangedDistinct(index, sorted);
    AfterHasNewer(index, sorted, i);
    FromIsNotOlder(index, sorted, i);
  }

  lemma AfterHasNewer(index: seq<Summary>, sorted: seq<Summary>, i: nat)
    requires Arranges(index, sorted) && Distinct(sorted) && (forall s :: s in sorted <==> s in index) && i < |sorted|
    ensures |Newer(index, sorted[i].createdAt)| < |sorted| - i
  {
    var t := sorted[i].createdAt;
    MembersSize(sorted[i + 1..]);
    forall s | s in Newer(index, t) ensures s in Members(sorted[i + 1..]) {
      var j :| 0 <= j < |sorted| && sorted[j] == s;
      assert sorted[i + 1..][j - i - 1] == s;
    }
    SubsetSize(Newer(index, t), Members(sorted[i + 1..]));
  }

  lemma FromIsNotOlder(index: seq<Summary>, sorted: seq<Summary>, i: nat)
    requires Arranges(index, sorted) && Distinct(sorted) && (forall s :: s in sorted <==> s in index) && i < |sorted|
    ensures |sorted| - i <= |NotOlder(index, sorted[i].createdAt)|
  {
    var t := sorted[i].createdAt;
    MembersSize(sorted[i..]);
    forall s | s in Members(sorted[i..]) ensures s in NotOlder(index, t) {
      var j :| 0 <= j < |sorted[i..]| && sorted[i..][j] == s;
      assert sorted[i + j] == s && s in sorted;
    }
    SubsetSize(Members(sorted[i..]), NotOlder(index, t));
  }

  /** If the choice is determined, whatever arrangement sorting produced, the rule keeps the same snapshots: the tagged
      ones and those with fewer than keepLast newer ones. */
  lemma KeepSetIsKeepIds(index: seq<Summary>, sorted: seq<Summary>, keepLast: int)
    requires Arranges(index, sorted) && Distinct(index) && Determined(index, keepLast)
    ensures KeepSet(sorted, keepLast) == KeepIds(index, keepLast)
  {
    ArrangedDistinct(index, sorted);
    forall i | 0 <= i < |sorted|
      ensures (sorted[i].tags != [] || i >= |sorted| - keepLast) <==>
              (sorted[i].tags != [] || |Newer(index, sorted[i].createdAt)| < keepLast)
    {
      assert sorted[i] in sorted && !OnBorder(index, keepLast, sorted[i]);
      PlaceBounds(index, sorted, i);
    }
    hide Arranges;
    hide Newer;
    hide Determined;
    forall id ensures id in KeepSet(sorted, keepLast) <==> id in KeepIds(index, keepLast) {
      if id in KeepIds(index, keepLast) {
        var s :| s in index && (s.tags != [] || |Newer(index, s.createdAt)| < keepLast) && s.id == id;
        assert s in sorted;
        var i :| 0 <= i < |sorted| && sorted[i] == s;
      }
    }
  }

  /** Distinct times leave no border inside a group. */
  lemma DistinctTimesDetermine(index: seq<Summary>, keepLast: int)
    requires DistinctTimes(index)
    ensures Distinct(index) && Determined(index, keepLast)
  {
    forall s | s in index ensures !OnBorder(index, keepLast, s) {
      assert NotOlder(index, s.createdAt) == Newer(index, s.createdAt) + {s};
    }
  }

  // ---- On the border either can happen ----

  lemma OldestAt(index: seq<Summary>) returns (k: nat)
    requires index != []
    ensures k < |index| && forall i :: 0 <= i < |index| ==> index[k].createdAt <= index[i].createdAt
  {
    k := 0;
    for n := 1 to |index|
      invariant k < n && forall i :: 0 <= i < n ==> index[k].createdAt <= index[i].createdAt
    {
      if index[n].createdAt < index[k].createdAt {
        k := n;
      }
    }
  }

  lemma {:induction false} SomeArrangement(index: seq<Summary>) returns (sorted: seq<Summary>)
    ensures Arranges(index, sorted)
    decreases |index|
  {
    if index == [] {
      sorted := [];
    } else {
      var k := OldestAt(index);
      var rest := index[..k] + index[k + 1..];
      assert index == index[..k] + [index[k]] + index[k + 1..];
      var sortedRest := SomeArrangement(rest);
      SameSummaries(sortedRest, rest);
      sorted := [index[k]] + sortedRest;
      forall j | 0 <= j < |sortedRest| ensures index[k].createdAt <= sortedRest[j].createdAt {
        assert sortedRest[j] in rest;
      }
    }
  }

  /** Snapshots of one time may change places. */
  lemma SwapTied(index: seq<Summary>, sorted: seq<Summary>, i: nat, j: nat)
    requires Arranges(index, sorted) && i < |sorted| && j < |sorted| && sorted[i].createdAt == sorted[j].createdAt
    ensures Arranges(index, sorted[i := sorted[j]][j := sorted[i]])
  {
    var swapped := sorted[i := sorted[j]][j := sorted[i]];
    assert forall x :: 0 <= x < |sorted| ==> swapped[x].createdAt == sorted[x].createdAt;
  }

  /** An arrangement with s last among those of its time, and one with s first. */
  lemma LastOfItsTime(index: seq<Summary>, s: Summary) returns (sorted: seq<Summary>, i: nat)
    requires s in index
    ensures Arranges(index, sorted) && i < |sorted| && sorted[i] == s
    ensures forall j :: i < j < |sorted| ==> sorted[j].createdAt > s.createdAt
  {
    sorted := SomeArrangement(index);
    SameSummaries(sorted, index);
    var k :| 0 <= k < |sorted| && sorted[k] == s;
    i := k;
    while i + 1 < |sorted| && sorted[i + 1].createdAt == s.createdAt
      invariant k <= i < |sorted| && sorted[i].createdAt == s.createdAt
    {
      i := i + 1;
    }
    SwapTied(index, sorted, k, i);
    sorted := sorted[k := sorted[i]][i := s];
  }

  lemma FirstOfItsTime(index: seq<Summary>, s: Summary) returns (sorted: seq<Summary>, i: nat)
    requires s in index
    ensures Arranges(index, sorted) && i < |sorted| && sorted[i] == s
    ensures forall j :: 0 <= j < i ==> sorted[j].createdAt < s.createdAt
  {
    sorted := SomeArrangement(index);
    SameSummaries(sorted, index);
    var k :| 0 <= k < |sorted| && sorted[k] == s;
    i := k;
    while i > 0 && sorted[i - 1].createdAt == s.createdAt
      invariant 0 <= i <= k && sorted[i].createdAt == s.createdAt
    {
      i := i - 1;
    }
    SwapTied(index, sorted, k, i);
    sorted := sorted[k := sorted[i]][i := s];
  }

  lemma InKeepSet(index: seq<Summary>, sorted: seq<Summary>, keepLast: int, i: nat)
    requires Arranges(index, sorted) && DistinctIndex(index) && i < |sorted| && sorted[i].tags == []
    ensures sorted[i].id in KeepSet(sorted, keepLast) <==> i >= |sorted| - keepLast
  {
    IdsDistinct(index);
    ArrangedDistinct(index, sorted);
    if sorted[i].id in KeepSet(sorted, keepLast) {
      var j :| 0 <= j < |sorted| && (sorted[j].tags != [] || j >= |sorted| - keepLast) && sorted[j].id == sorted[i].id;
      assert sorted[i] in index && sorted[j] in index;
      SameSummary(index, sorted[i], sorted[j]);
    }
  }

  lemma IdsDistinct(index: seq<Summary>)
    requires DistinctIndex(index)
    ensures Distinct(index)
  {
  }

  /** Every tag keeps its snapshot, an untagged one is kept only if fewer than keepLast are newer, and is dropped only if
      keepLast others are at least as new. */
  ghost predicate KeepsNewest(index: seq<Summary>, keepLast: int, keep: set<Id>)
  {
    && (forall s :: s in index && s.id in keep ==> s.tags != [] || |set t | t in index && t.createdAt > s.createdAt| < keepLast)
    && (forall s :: s in index && s.id !in keep ==>
          s.tags == [] && |set t | t in index && t != s && t.createdAt >= s.createdAt| >= keepLast)
  }

  lemma NewerOrNot(index: seq<Summary>, s: Summary)
    requires s in index
    ensures (set t | t in index && t.createdAt > s.createdAt) == Newer(index, s.createdAt)
    ensures |set t | t in index && t != s && t.createdAt >= s.createdAt| == |NotOlder(index, s.createdAt)| - 1
  {
    assert (set t | t in index && t != s && t.createdAt >= s.createdAt) == NotOlder(index, s.createdAt) - {s};
  }

  lemma KeptIfNewest(index: seq<Summary>, sorted: seq<Summary>, keepLast: int, s: Summary)
    requires DistinctIndex(index) && Arranges(index, sorted) && s in index
    ensures var keep := KeepSet(sorted, keepLast);
      if s.id in keep then s.tags != [] || |Newer(index, s.createdAt)| < keepLast
      else s.tags == [] && |NotOlder(index, s.createdAt)| > keepLast
  {
    IdsDistinct(index);
    ArrangedDistinct(index, sorted);
    var i :| 0 <= i < |sorted| && sorted[i] == s;
    PlaceBounds(index, sorted, i);
    hide Newer;
    hide NotOlder;
    if s.tags == [] {
      InKeepSet(index, sorted, keepLast, i);
    }
  }

  /** Whatever arrangement sorting produced. */
  lemma KeepsTheNewest(index: seq<Summary>, keepLast: int, keep: set<Id>)
    requires DistinctIndex(index) && IsKeepChoice(index, keepLast, keep)
    ensures keep <= IndexIds(index) && KeepsNewest(index, keepLast, keep)
  {
    var sorted :| Arranges(index, sorted) && keep == KeepSet(sorted, keepLast);
    SameSummaries(sorted, index);
    forall s | s in index
      ensures s.id in keep ==> s.tags != [] || |set t | t in index && t.createdAt > s.createdAt| < keepLast
      ensures s.id !in keep ==> s.tags == [] && |set t | t in index && t != s && t.createdAt >= s.createdAt| >= keepLast
    {
      hide *;
      KeptIfNewest(index, sorted, keepLast, s);
      NewerOrNot(index, s);
    }
    hide Arranges;
    hide DistinctIndex;
  }

  lemma BorderMayStay(index: seq<Summary>, keepLast: int, s: Summary) returns (keep: set<Id>)
    requires DistinctIndex(index) && s in index && OnBorder(index, keepLast, s)
    ensures IsKeepChoice(index, keepLast, keep) && s.id in keep
  {
    var sorted, i := LastOfItsTime(index, s);
    IdsDistinct(index);
    ArrangedDistinct(index, sorted);
    MembersSize(sorted[i + 1..]);
    forall x | x in Members(sorted[i + 1..]) ensures x in Newer(index, s.createdAt) {
      var j :| 0 <= j < |sorted[i + 1..]| && sorted[i + 1..][j] == x;
      assert sorted[i + 1 + j] == x && x in sorted;
    }
    SubsetSize(Members(sorted[i + 1..]), Newer(index, s.createdAt));
    InKeepSet(index, sorted, keepLast, i);
    keep := KeepSet(sorted, keepLast);
  }

  lemma BorderMayGo(index: seq<Summary>, keepLast: int, s: Summary) returns (keep: set<Id>)
    requires DistinctIndex(index) && s in index && OnBorder(index, keepLast, s)
    ensures IsKeepChoice(index, keepLast, keep) && s.id !in keep
  {
    var sorted, i := FirstOfItsTime(index, s);
    IdsDistinct(index);
    ArrangedDistinct(index, sorted);
    MembersSize(sorted[i..]);
    forall x | x in NotOlder(index, s.createdAt) ensures x in Members(sorted[i..]) {
      var j :| 0 <= j < |sorted| && sorted[j] == x;
      assert sorted[i..][j - i] == x;
    }
    SubsetSize(NotOlder(index, s.createdAt), Members(sorted[i..]));
    InKeepSet(index, sorted, keepLast, i);
    keep := KeepSet(sorted, keepLast);
  }

  /** Exactly when the retention rule says what to keep: when no untagged snapshot stands on the border of keepLast inside
      a group of equal times. Then the choice is KeepIds. */
  lemma ChoiceIsDetermined(index: seq<Summary>, keepLast: int)
    requires DistinctIndex(index)
    ensures (forall a, b :: IsKeepChoice(index, keepLast, a) && IsKeepChoice(index, keepLast, b) ==> a == b) <==> Determined(index, keepLast)
    ensures Determined(index, keepLast) ==> forall a :: IsKeepChoice(index, keepLast, a) <==> a == KeepIds(index, keepLast)
  {
    if Determined(index, keepLast) {
      IdsDistinct(index);
      forall a | IsKeepChoice(index, keepLast, a) ensures a == KeepIds(index, keepLast) {
        ChoiceIsKeepIds(index, keepLast, a);
      }
      var sorted := SomeArrangement(index);
      KeepSetIsKeepIds(index, sorted, keepLast);
      assert IsKeepChoice(index, keepLast, KeepSet(sorted, keepLast));
    } else {
      var s :| s in index && OnBorder(index, keepLast, s);
      var a := BorderMayStay(index, keepLast, s);
      var b := BorderMayGo(index, keepLast, s);
    }
  }

  lemma ChoiceIsKeepIds(index: seq<Summary>, keepLast: int, keep: set<Id>)
    requires IsKeepChoice(index, keepLast, keep) && Distinct(index) && Determined(index, keepLast)
    ensures keep == KeepIds(index, keepLast)
  {
    var sorted :| Arranges(index, sorted) && keep == KeepSet(sorted, keepLast);
    KeepSetIsKeepIds(index, sorted, keepLast);
  }

  /** Of two untagged snapshots of one time, either may be the one kept. */
  lemma TiesKeepEither(a: Summary, b: Summary)
    requires a.id != b.id && a.tags == b.tags == [] && a.createdAt == b.createdAt
    ensures IsKeepChoice([a, b], 1, {a.id}) && IsKeepChoice([a, b], 1, {b.id})
  {
    var index := [a, b];
    assert a in index && b in index;
    assert NotOlder(index, a.createdAt) == {a, b};
    assert Newer(index, a.createdAt) == {};
    assert OnBorder(index, 1, a);
    var x := BorderMayStay(index, 1, a);
    var y := BorderMayGo(index, 1, a);
    OneOfTwo(a, b, x);
    OneOfTwo(a, b, y);
  }

  lemma OneOfTwo(a: Summary, b: Summary, keep: set<Id>)
    requires a.tags == b.tags == [] && IsKeepChoice([a, b], 1, keep)
    ensures keep == {a.id} || keep == {b.id}
  {
    var sorted: seq<Summary> :| Arranges([a, b], sorted) && keep == KeepSet(sorted, 1);
    SameSummaries(sorted, [a, b]);
    assert sorted[0] in sorted && sorted[1] in sorted;
    assert keep == {sorted[1].id};
  }

  lemma SameSummary(index: seq<Summary>, s: Summary, s': Summary)
    requires DistinctIndex(index) && s in index && s' in index && s.id == s'.id
    ensures s == s'
  {
  }

  /** A second pass with the same keepLast over what the first one kept keeps all of it. */
  lemma KeepIsStable(index: seq<Summary>, keepLast: int)
    requires DistinctIndex(index)
    ensures var kept := Kept(index, KeepIds(index, keepLast)); IndexIds(kept) <= KeepIds(kept, keepLast)
  {
    var keep := KeepIds(index, keepLast);
    var kept := Kept(index, keep);
    forall s | s in kept
      ensures s.tags != [] || |Newer(kept, s.createdAt)| < keepLast
    {
      KeptMembers(index, keep, s);
      var s' :| s' in index && (s'.tags != [] || |Newer(index, s'.createdAt)| < keepLast) && s'.id == s.id;
      SameSummary(index, s, s');
      forall t | t in Newer(kept, s.createdAt) ensures t in Newer(index, s.createdAt) {
        KeptMembers(index, keep, t);
      }
      SubsetSize(Newer(kept, s.createdAt), Newer(index, s.createdAt));
    }
  }

  /** What is left after a determined choice is determined for the same keepLast too. */
  lemma DeterminedStays(index: seq<Summary>, keepLast: int)
    requires DistinctIndex(index) && Determined(index, keepLast)
    ensures Determined(Kept(index, KeepIds(index, keepLast)), keepLast)
  {
    var keep := KeepIds(index, keepLast);
    var kept := Kept(index, keep);
    forall s | s in kept ensures !OnBorder(kept, keepLast, s) {
      KeptMembers(index, keep, s);
      var s' :| s' in index && (s'.tags != [] || |Newer(index, s'.createdAt)| < keepLast) && s'.id == s.id;
      SameSummary(index, s, s');
      assert !OnBorder(index, keepLast, s);
      forall t | t in NotOlder(kept, s.createdAt) ensures t in NotOlder(index, s.createdAt) {
        KeptMembers(index, keep, t);
      }
      SubsetSize(NotOlder(kept, s.createdAt), NotOlder(index, s.createdAt));
    }
  }
}
