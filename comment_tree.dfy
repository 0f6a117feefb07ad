/** The comment tree builder `buildCommentTree` (src/hooks/useComments.js,
    repeated verbatim in src/components/PostCard.jsx).

    The JavaScript builds one node object per record in a dictionary keyed by
    id, then pushes each node onto its parent's `children` array or onto
    `roots`. Node objects are shared between the dictionary and the arrays, so
    a node's `children` seen from `roots` is the array filled in place. The
    model keeps that shape: `Forest.nodes` is the dictionary of node objects,
    each node's `children` lists the ids of the node objects pushed onto it,
    and `Forest.roots` is the returned array. */
module CommentTree {
  import opened Js

  type Id = string

  /** The author projection `profiles(full_name, avatar_url)` joined by the query. */
  datatype Author = Author(fullName: Option<string>, avatarUrl: Option<string>)

  /** One row of the `comments` table as the query returns it. */
  datatype CommentRecord = CommentRecord(
    id: Id,
    postId: Id,
    parentId: Option<Id>,
    userId: Id,
    content: string,
    createdAt: int,
    profiles: Option<Author>)

  /** A node object: the record's fields plus its `children`. */
  datatype Node = Node(record: CommentRecord, children: seq<Id>)

  /** The node dictionary and the returned `roots` array. */
  datatype Forest = Forest(nodes: map<Id, Node>, roots: seq<Id>)

  /** Where the second pass puts a record: onto `roots`, or onto the
      `children` of the node with a given id. */
  datatype Slot = Root | ChildOf(parent: Id)

  /** The test `if (c.parent_id)`. */
  predicate HasParent(c: CommentRecord) {
    Truthy(c.parentId)
  }

  /** Record `c` is pushed onto slot `s` (provided, for a child, that the
      parent's node exists). */
  predicate Lands(c: CommentRecord, s: Slot) {
    match s
    case Root => !HasParent(c)
    case ChildOf(p) => HasParent(c) && c.parentId.value == p
  }

  predicate Increasing(ps: seq<nat>) {
    forall j, j' :: 0 <= j < j' < |ps| ==> ps[j] < ps[j']
  }

  predicate UniqueIds(flat: seq<CommentRecord>) {
    forall k, k' :: 0 <= k < k' < |flat| ==> flat[k].id != flat[k'].id
  }

  predicate Distinct(ids: seq<Id>) {
    forall j, j' :: 0 <= j < j' < |ids| ==> ids[j] != ids[j']
  }

  /** The positions, in input order, of the records that land in slot `s`. */
  function Positions(flat: seq<CommentRecord>, s: Slot): (ps: seq<nat>)
    ensures Increasing(ps)
    ensures forall j :: 0 <= j < |ps| ==> ps[j] < |flat| && Lands(flat[ps[j]], s)
    ensures forall k :: 0 <= k < |flat| && Lands(flat[k], s) ==> k in ps
    decreases |flat|
  {
    if flat == [] then []
    else
      var n := |flat| - 1;
      Positions(flat[..n], s) + (if Lands(flat[n], s) then [n] else [])
  }

  /** The ids of the records at positions `ps`. */
  function IdsAt(flat: seq<CommentRecord>, ps: seq<nat>): (ids: seq<Id>)
    requires forall j :: 0 <= j < |ps| ==> ps[j] < |flat|
    ensures |ids| == |ps|
    ensures forall j :: 0 <= j < |ps| ==> ids[j] == flat[ps[j]].id
  {
    seq(|ps|, j requires 0 <= j < |ps| => flat[ps[j]].id)
  }

  /** The ids pushed onto slot `s`, in push order. */
  function SlotIds(flat: seq<CommentRecord>, s: Slot): seq<Id> {
    IdsAt(flat, Positions(flat, s))
  }

  /** The keys of the node dictionary built by the first pass. */
  function Ids(flat: seq<CommentRecord>): (r: set<Id>)
    ensures forall k :: 0 <= k < |flat| ==> flat[k].id in r
    decreases |flat|
  {
    if flat == [] then {} else Ids(flat[..|flat| - 1]) + {flat[|flat| - 1].id}
  }

  /** Every key of the dictionary is the id of some record. */
  lemma {:induction false} IdsHaveRecords(flat: seq<CommentRecord>, x: Id)
    requires x in Ids(flat)
    ensures exists k :: 0 <= k < |flat| && flat[k].id == x
    decreases |flat|
  {
    var n := |flat| - 1;
    if flat[n].id != x {
      IdsHaveRecords(flat[..n], x);
      var k :| 0 <= k < n && flat[..n][k].id == x;
      assert flat[k].id == x;
    }
  }

  /** Position `k` holds the last record with its id. */
  predicate IsLastWithId(flat: seq<CommentRecord>, k: int) {
    0 <= k < |flat| && forall k' :: k < k' < |flat| ==> flat[k'].id != flat[k].id
  }

  /** The record whose node the dictionary keeps for `id`: each later record
      with the same id overwrites the entry. */
  function LastWithId(flat: seq<CommentRecord>, id: Id): (c: CommentRecord)
    requires id in Ids(flat)
    ensures c.id == id
    ensures exists k :: IsLastWithId(flat, k) && flat[k] == c
    decreases |flat|
  {
    var n := |flat| - 1;
    if flat[n].id == id then
      assert IsLastWithId(flat, n);
      flat[n]
    else
      assert id in Ids(flat[..n]);
      var c := LastWithId(flat[..n], id);
      var k :| IsLastWithId(flat[..n], k) && flat[..n][k] == c;
      assert forall k' :: k < k' < n ==> flat[k'] == flat[..n][k'];
      assert IsLastWithId(flat, k);
      c
  }

  /** The forest the builder returns, stated as filters over the input. */
  function Spec(flat: seq<CommentRecord>): Forest {
    Forest(
      map id | id in Ids(flat) :: Node(LastWithId(flat, id), SlotIds(flat, ChildOf(id))),
      SlotIds(flat, Root))
  }

  lemma PositionsSnoc(flat: seq<CommentRecord>, i: nat, s: Slot)
    requires i < |flat|
    ensures Positions(flat[..i + 1], s) == Positions(flat[..i], s) + (if Lands(flat[i], s) then [i] else [])
  {
    assert flat[..i + 1][..i] == flat[..i];
  }

  lemma IdsAtSnoc(flat: seq<CommentRecord>, ps: seq<nat>, i: nat)
    requires i < |flat|
    requires forall j :: 0 <= j < |ps| ==> ps[j] < |flat|
    ensures IdsAt(flat, ps + [i]) == IdsAt(flat, ps) + [flat[i].id]
  {
  }

  /** The dictionary after the first pass has seen `flat[..i]`. */
  ghost predicate FirstPassInv(flat: seq<CommentRecord>, i: nat, m: map<Id, Node>)
    requires i <= |flat|
  {
    && m.Keys == Ids(flat[..i])
    && forall id :: id in m ==> m[id] == Node(LastWithId(flat[..i], id), [])
  }

  /** The dictionary and `roots` after the second pass has seen `flat[..i]`. */
  ghost predicate SecondPassInv(flat: seq<CommentRecord>, i: nat, m: map<Id, Node>, roots: seq<Id>)
    requires i <= |flat|
  {
    && m.Keys == Ids(flat)
    && roots == IdsAt(flat, Positions(flat[..i], Root))
    && forall id :: id in m ==> m[id] == Node(LastWithId(flat, id), IdsAt(flat, Positions(flat[..i], ChildOf(id))))
  }

  lemma FirstPassStep(flat: seq<CommentRecord>, i: nat, m: map<Id, Node>)
    requires i < |flat| && FirstPassInv(flat, i, m)
    ensures FirstPassInv(flat, i + 1, m[flat[i].id := Node(flat[i], [])])
  {
    assert flat[..i + 1][..i] == flat[..i];
    var m' := m[flat[i].id := Node(flat[i], [])];
    forall id | id in m' ensures m'[id] == Node(LastWithId(flat[..i + 1], id), []) {
      if id != flat[i].id {
        assert id in Ids(flat[..i]);
      }
    }
  }

  /** One push of the second pass onto the list of slot `s`. */
  lemma SlotStep(flat: seq<CommentRecord>, i: nat, s: Slot, ids: seq<Id>)
    requires i < |flat| && ids == IdsAt(flat, Positions(flat[..i], s))
    ensures (if Lands(flat[i], s) then ids + [flat[i].id] else ids) == IdsAt(flat, Positions(flat[..i + 1], s))
  {
    PositionsSnoc(flat, i, s);
    if Lands(flat[i], s) {
      IdsAtSnoc(flat, Positions(flat[..i], s), i);
    }
  }

  /** The second pass on a record without a parent: it goes onto `roots`. */
  lemma RootStep(flat: seq<CommentRecord>, i: nat, m: map<Id, Node>, roots: seq<Id>)
    requires i < |flat| && SecondPassInv(flat, i, m, roots) && !HasParent(flat[i])
    ensures SecondPassInv(flat, i + 1, m, roots + [flat[i].id])
  {
    SlotStep(flat, i, Root, roots);
    forall id | id in m ensures m[id].children == IdsAt(flat, Positions(flat[..i + 1], ChildOf(id))) {
      SlotStep(flat, i, ChildOf(id), m[id].children);
    }
  }

  /** The second pass on a record whose parent id names no node: nothing changes. */
  lemma OrphanStep(flat: seq<CommentRecord>, i: nat, m: map<Id, Node>, roots: seq<Id>)
    requires i < |flat| && SecondPassInv(flat, i, m, roots)
    requires HasParent(flat[i]) && flat[i].parentId.value !in m
    ensures SecondPassInv(flat, i + 1, m, roots)
  {
    SlotStep(flat, i, Root, roots);
    forall id | id in m ensures m[id].children == IdsAt(flat, Positions(flat[..i + 1], ChildOf(id))) {
      SlotStep(flat, i, ChildOf(id), m[id].children);
    }
  }

  /** The second pass on a record whose parent id names node `p`: it is pushed
      onto that node's `children`. */
  lemma ChildStep(flat: seq<CommentRecord>, i: nat, m: map<Id, Node>, roots: seq<Id>, p: Id)
    requires i < |flat| && SecondPassInv(flat, i, m, roots)
    requires HasParent(flat[i]) && flat[i].parentId.value == p && p in m
    ensures SecondPassInv(flat, i + 1, m[p := m[p].(children := m[p].children + [flat[i].id])], roots)
  {
    var m' := m[p := m[p].(children := m[p].children + [flat[i].id])];
    SlotStep(flat, i, Root, roots);
    assert m'.Keys == m.Keys;
    forall id | id in m' ensures m'[id] == Node(LastWithId(flat, id), IdsAt(flat, Positions(flat[..i + 1], ChildOf(id)))) {
      SlotStep(flat, i, ChildOf(id), m[id].children);
      if id == p {
        assert Lands(flat[i], ChildOf(id));
        assert m'[id] == Node(m[id].record, m[id].children + [flat[i].id]);
      } else {
        assert !Lands(flat[i], ChildOf(id));
        assert m'[id] == m[id];
      }
    }
  }

  lemma SecondPassDone(flat: seq<CommentRecord>, m: map<Id, Node>, roots: seq<Id>)
    requires SecondPassInv(flat, |flat|, m, roots)
    ensures Forest(m, roots) == Spec(flat)
  {
    assert flat[..|flat|] == flat;
    var spec := Spec(flat);
    assert m.Keys == spec.nodes.Keys;
    forall id | id in m ensures m[id] == spec.nodes[id] {
    }
  }

  /** The two passes of `buildCommentTree`: a dictionary of fresh nodes, then
      one push per record onto its parent's `children` or onto `roots`. */
  method BuildCommentTree(flat: seq<CommentRecord>) returns (forest: Forest)
    ensures forest == Spec(flat)
  {
    var commentMap: map<Id, Node> := map[];
    var roots: seq<Id> := [];

    // One fresh node per record, keyed by id; a later record overwrites.
    for i := 0 to |flat|
      invariant FirstPassInv(flat, i, commentMap)
    {
      FirstPassStep(flat, i, commentMap);
      var c := flat[i];
      commentMap := commentMap[c.id := Node(c, [])];
    }
    assert flat[..|flat|] == flat;

    // Each record goes onto its parent's children, onto roots, or nowhere.
    for i := 0 to |flat|
      invariant SecondPassInv(flat, i, commentMap, roots)
    {
      var c := flat[i];
      if HasParent(c) {
        var p := c.parentId.value;
        if p in commentMap {
          ChildStep(flat, i, commentMap, roots, p);
          commentMap := commentMap[p := commentMap[p].(children := commentMap[p].children + [c.id])];
        } else {
          OrphanStep(flat, i, commentMap, roots);
        }
      } else {
        RootStep(flat, i, commentMap, roots);
        roots := roots + [c.id];
      }
    }
    SecondPassDone(flat, commentMap, roots);
    forest := Forest(commentMap, roots);
  }
}

/** What the builder's result means: which records end up where, in which
    order, and which are dropped. */
module CommentTreeFacts {
  import opened Js
  import opened CommentTree

  lemma IncreasingLast(a: seq<nat>)
    requires Increasing(a) && a != []
    ensures forall x :: x in a ==> x <= a[|a| - 1]
    ensures forall x :: x in a[..|a| - 1] <==> x in a && x < a[|a| - 1]
  {
  }

  /** Two ascending lists of the same positions end alike, and agree on what
      comes before their last elements. */
  lemma SameLast(a: seq<nat>, b: seq<nat>, initA: seq<nat>, initB: seq<nat>)
    requires Increasing(a) && Increasing(b) && a != [] && b != []
    requires forall x :: x in a <==> x in b
    requires initA == a[..|a| - 1] && initB == b[..|b| - 1]
    ensures a[|a| - 1] == b[|b| - 1]
    ensures forall x :: x in initA <==> x in initB
  {
    IncreasingLast(a);
    IncreasingLast(b);
    assert a[|a| - 1] in b && b[|b| - 1] in a;
    forall x ensures x in initA <==> x in initB {
      assert x in initA <==> x in a && x < a[|a| - 1];
      assert x in initB <==> x in b && x < b[|b| - 1];
    }
  }

  /** An ascending enumeration of a set of positions is unique. */
  lemma {:induction false} EnumerationUnique(a: seq<nat>, b: seq<nat>)
    requires Increasing(a) && Increasing(b)
    requires forall x :: x in a <==> x in b
    ensures a == b
    decreases |a|
  {
    assert |a| > 0 ==> a[0] in b;
    assert |b| > 0 ==> b[0] in a;
    if |a| > 0 && |b| > 0 {
      var n, m := |a| - 1, |b| - 1;
      SameLast(a, b, a[..n], b[..m]);
      assert Increasing(a[..n]) && Increasing(b[..m]);
      EnumerationUnique(a[..n], b[..m]);
      assert a == a[..n] + [a[n]] && b == b[..m] + [b[m]];
    }
  }

  /** The ids on slot `s` are those of the records landing there. */
  lemma SlotMembership(flat: seq<CommentRecord>, s: Slot, x: Id)
    ensures x in SlotIds(flat, s) <==> exists k :: 0 <= k < |flat| && flat[k].id == x && Lands(flat[k], s)
  {
    var ps := Positions(flat, s);
    var ids := SlotIds(flat, s);
    if x in ids {
      var j :| 0 <= j < |ids| && ids[j] == x;
      assert flat[ps[j]].id == x && Lands(flat[ps[j]], s);
    }
    if exists k :: 0 <= k < |flat| && flat[k].id == x && Lands(flat[k], s) {
      var k :| 0 <= k < |flat| && flat[k].id == x && Lands(flat[k], s);
      var j :| 0 <= j < |ps| && ps[j] == k;
      assert ids[j] == x;
    }
  }

  /** Whatever ascending list of exactly the positions landing on slot `s` one
      writes down, the slot holds the ids at those positions. */
  lemma SlotIsInputOrderFilter(flat: seq<CommentRecord>, s: Slot, ps: seq<nat>)
    requires Increasing(ps)
    requires forall j :: 0 <= j < |ps| ==> ps[j] < |flat|
    requires forall k :: 0 <= k < |flat| ==> (k in ps <==> Lands(flat[k], s))
    ensures SlotIds(flat, s) == IdsAt(flat, ps)
  {
    var qs := Positions(flat, s);
    forall x ensures x in qs <==> x in ps {
      if x in ps {
        var j :| 0 <= j < |ps| && ps[j] == x;
      }
    }
    EnumerationUnique(qs, ps);
  }

  /** `roots` holds exactly the records without a (truthy) `parent_id`, in
      input order. */
  lemma RootsAreParentlessInInputOrder(flat: seq<CommentRecord>, ps: seq<nat>)
    requires Increasing(ps)
    requires forall j :: 0 <= j < |ps| ==> ps[j] < |flat|
    requires forall k :: 0 <= k < |flat| ==> (k in ps <==> !HasParent(flat[k]))
    ensures Spec(flat).roots == IdsAt(flat, ps)
  {
    SlotIsInputOrderFilter(flat, Root, ps);
  }

  /** The `children` of the node for `p` hold exactly the records whose
      `parent_id` is `p`, in input order. */
  lemma ChildrenArePointersInInputOrder(flat: seq<CommentRecord>, p: Id, ps: seq<nat>)
    requires p in Ids(flat)
    requires Increasing(ps)
    requires forall j :: 0 <= j < |ps| ==> ps[j] < |flat|
    requires forall k :: 0 <= k < |flat| ==> (k in ps <==> HasParent(flat[k]) && flat[k].parentId.value == p)
    ensures p in Spec(flat).nodes && Spec(flat).nodes[p].children == IdsAt(flat, ps)
  {
    SlotIsInputOrderFilter(flat, ChildOf(p), ps);
  }

  /** An id is in `roots` exactly when some record with that id has no parent. */
  lemma RootMembership(flat: seq<CommentRecord>, x: Id)
    ensures x in Spec(flat).roots <==> exists k :: 0 <= k < |flat| && flat[k].id == x && !HasParent(flat[k])
  {
    SlotMembership(flat, Root, x);
  }

  /** An id is among the `children` of node `p` exactly when some record with
      that id names `p` as its parent. */
  lemma ChildMembership(flat: seq<CommentRecord>, p: Id, x: Id)
    requires p in Ids(flat)
    ensures p in Spec(flat).nodes
    ensures x in Spec(flat).nodes[p].children <==>
      exists k :: 0 <= k < |flat| && flat[k].id == x && HasParent(flat[k]) && flat[k].parentId.value == p
  {
    SlotMembership(flat, ChildOf(p), x);
  }

  /** There is one node per distinct id, carrying the fields of the last
      record with that id; its `children` start empty and receive only records
      pointing at it. With unique ids each record is its own node's record. */
  lemma NodesCarryRecords(flat: seq<CommentRecord>, k: nat)
    requires k < |flat|
    ensures flat[k].id in Spec(flat).nodes
    ensures Spec(flat).nodes[flat[k].id].record.id == flat[k].id
    ensures UniqueIds(flat) ==> Spec(flat).nodes[flat[k].id].record == flat[k]
  {
    var c := LastWithId(flat, flat[k].id);
    var k' :| IsLastWithId(flat, k') && flat[k'] == c;
    assert k' == k || flat[k'].id == flat[k].id;
  }

  /** Every node's key is the id of some record of the input. */
  lemma NodeKeysAreInputIds(flat: seq<CommentRecord>, x: Id)
    ensures x in Spec(flat).nodes <==> exists k :: 0 <= k < |flat| && flat[k].id == x
  {
    if x in Ids(flat) {
      IdsHaveRecords(flat, x);
    }
  }

  /** A record whose `parent_id` is set but names no record of the input is
      neither a root nor anyone's child: it is dropped. */
  lemma OrphanDropped(flat: seq<CommentRecord>, k: nat)
    requires UniqueIds(flat) && k < |flat|
    requires HasParent(flat[k]) && flat[k].parentId.value !in Ids(flat)
    ensures flat[k].id !in Spec(flat).roots
    ensures forall p :: p in Spec(flat).nodes ==> flat[k].id !in Spec(flat).nodes[p].children
  {
    RootMembership(flat, flat[k].id);
    forall p | p in Spec(flat).nodes ensures flat[k].id !in Spec(flat).nodes[p].children {
      ChildMembership(flat, p, flat[k].id);
    }
  }

  /** With unique ids, a record is placed at most once: a root is in `roots`
      and in no `children`; a record whose parent resolves is in that node's
      `children` only. */
  lemma PlacedOnce(flat: seq<CommentRecord>, k: nat)
    requires UniqueIds(flat) && k < |flat|
    ensures !HasParent(flat[k]) ==>
      && flat[k].id in Spec(flat).roots
      && forall p :: p in Spec(flat).nodes ==> flat[k].id !in Spec(flat).nodes[p].children
    ensures HasParent(flat[k]) && flat[k].parentId.value in Ids(flat) ==>
      && flat[k].id !in Spec(flat).roots
      && flat[k].id in Spec(flat).nodes[flat[k].parentId.value].children
      && forall p :: p in Spec(flat).nodes && p != flat[k].parentId.value ==> flat[k].id !in Spec(flat).nodes[p].children
  {
    var f := Spec(flat);
    RootMembership(flat, flat[k].id);
    forall p | p in f.nodes
      ensures flat[k].id in f.nodes[p].children <==> HasParent(flat[k]) && flat[k].parentId.value == p
    {
      ChildMembership(flat, p, flat[k].id);
    }
  }

  lemma DistinctIdsAt(flat: seq<CommentRecord>, ps: seq<nat>)
    requires UniqueIds(flat) && Increasing(ps)
    requires forall j :: 0 <= j < |ps| ==> ps[j] < |flat|
    ensures Distinct(IdsAt(flat, ps))
  {
  }

  /** With unique ids, no list of the forest repeats an id. */
  lemma NoRepeats(flat: seq<CommentRecord>)
    requires UniqueIds(flat)
    ensures Distinct(Spec(flat).roots)
    ensures forall p :: p in Spec(flat).nodes ==> Distinct(Spec(flat).nodes[p].children)
  {
    DistinctIdsAt(flat, Positions(flat, Root));
    forall p | p in Spec(flat).nodes ensures Distinct(Spec(flat).nodes[p].children) {
      DistinctIdsAt(flat, Positions(flat, ChildOf(p)));
    }
  }

  function Row(id: Id, parent: Option<Id>, createdAt: int): CommentRecord {
    CommentRecord(id, "post", parent, "user", "text", createdAt, None)
  }

  /** Records 1 (root), 3 (root), 2 (reply to 1) and 4 (reply to the missing
      99), in the order the query returns them (by `created_at`). */
  function Scenario(): seq<CommentRecord> {
    [Row("1", None, 10), Row("3", None, 15), Row("2", Some("1"), 20), Row("4", Some("99"), 25)]
  }

  lemma ScenarioRoots()
    ensures Spec(Scenario()).roots == ["1", "3"]
  {
    var flat := Scenario();
    assert flat[0].id == "1" && flat[1].id == "3";
    assert forall k :: 0 <= k < |flat| ==> (k in [0, 1] <==> !HasParent(flat[k]));
    RootsAreParentlessInInputOrder(flat, [0, 1]);
  }

  lemma ScenarioReplies()
    ensures "1" in Spec(Scenario()).nodes && Spec(Scenario()).nodes["1"].children == ["2"]
  {
    var flat := Scenario();
    assert flat[0].id == "1" && flat[2].id == "2";
    ScenarioPointers();
    ChildrenArePointersInInputOrder(flat, "1", [2]);
  }

  lemma ScenarioLeaf()
    ensures "3" in Spec(Scenario()).nodes && Spec(Scenario()).nodes["3"].children == []
  {
    var flat := Scenario();
    assert flat[1].id == "3";
    ScenarioPointers();
    ChildrenArePointersInInputOrder(flat, "3", []);
  }

  lemma ScenarioPointers()
    ensures forall k :: 0 <= k < |Scenario()| ==>
      (k in [2] <==> HasParent(Scenario()[k]) && Scenario()[k].parentId.value == "1")
    ensures forall k :: 0 <= k < |Scenario()| ==>
      (k in [] <==> HasParent(Scenario()[k]) && Scenario()[k].parentId.value == "3")
  {
  }

  lemma ScenarioOrphan()
    ensures "4" !in Spec(Scenario()).roots
    ensures forall p :: p in Spec(Scenario()).nodes ==> "4" !in Spec(Scenario()).nodes[p].children
  {
    var flat := Scenario();
    assert flat[0].id == "1" && flat[1].id == "3" && flat[2].id == "2" && flat[3].id == "4";
    assert UniqueIds(flat);
    NodeKeysAreInputIds(flat, "99");
    OrphanDropped(flat, 3);
  }

  /** On the scenario the roots are 1 then 3, node 1 has child 2, node 3 has
      none, and 4 is dropped. */
  lemma ScenarioThread()
    ensures Spec(Scenario()).roots == ["1", "3"]
    ensures "1" in Spec(Scenario()).nodes && Spec(Scenario()).nodes["1"].children == ["2"]
    ensures "3" in Spec(Scenario()).nodes && Spec(Scenario()).nodes["3"].children == []
    ensures "4" !in Spec(Scenario()).roots
    ensures forall p :: p in Spec(Scenario()).nodes ==> "4" !in Spec(Scenario()).nodes[p].children
  {
    ScenarioRoots();
    ScenarioReplies();
    ScenarioLeaf();
    ScenarioOrphan();
  }
}
