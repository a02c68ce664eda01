/** The products offered in each queue: `queue_products` rows that are switched on and off, never deleted. */
module QueueAssignments {
  import opened Options
  import W = WaitingOrder

  type ProductId = nat
  type QueueId = nat
  type BranchId = nat
  type OrgId = nat

  datatype Product = Product(org: OrgId, isActive: bool)
  datatype Assignment = Assignment(isActive: bool, displayOrder: nat)

  type Assignments = map<(QueueId, ProductId), Assignment>

  /** Stock is NULL, here None, when it is not limited. */
  datatype Db = Db(
    products: map<ProductId, Product>,
    activeQueues: set<QueueId>,
    assignments: Assignments,
    stock: map<(BranchId, ProductId), Option<nat>>)

  predicate IsShown(db: Db, q: QueueId, p: ProductId) {
    && q in db.activeQueues
    && (q, p) in db.assignments && db.assignments[(q, p)].isActive
    && p in db.products && db.products[p].isActive
  }

  /** `ORDER BY display_order, product_id`. */
  predicate InOrder(db: Db, q: QueueId, x: ProductId, y: ProductId) {
    && (q, x) in db.assignments && (q, y) in db.assignments
    && var a, b := db.assignments[(q, x)].displayOrder, db.assignments[(q, y)].displayOrder;
       a < b || (a == b && x < y)
  }

  ghost predicate Sorted(db: Db, q: QueueId, s: seq<ProductId>) {
    forall i, j :: 0 <= i < j < |s| ==> InOrder(db, q, s[i], s[j])
  }

  /** `s` is an answer to the query of `findProductIdsByQueue`. */
  ghost predicate IsProductList(db: Db, q: QueueId, s: seq<ProductId>) {
    (forall p :: p in s <==> IsShown(db, q, p)) && Sorted(db, q, s)
  }

  lemma {:induction false} SortedIsUnique(db: Db, q: QueueId, a: seq<ProductId>, b: seq<ProductId>)
    requires Sorted(db, q, a) && Sorted(db, q, b) && (forall p :: p in a <==> p in b)
    ensures a == b
    decreases |a|
  {
    assert |a| > 0 ==> a[0] in b;
    assert |b| > 0 ==> b[0] in a;
    if a != [] {
      assert a[0] in b && b[0] in a;
      assert a[0] == b[0];
      assert forall k :: 0 < k < |a| ==> InOrder(db, q, a[0], a[k]);
      assert forall k :: 0 < k < |b| ==> InOrder(db, q, b[0], b[k]);
      assert forall p :: p in a[1..] <==> p in a && p != a[0];
      assert forall p :: p in b[1..] <==> p in b && p != b[0];
      SortedIsUnique(db, q, a[1..], b[1..]);
      assert a == [a[0]] + a[1..] && b == [b[0]] + b[1..];
    }
  }

  /** Any finite set of a queue's assigned products can be put in order. */
  lemma {:induction false} SortedExists(db: Db, q: QueueId, ids: set<ProductId>) returns (s: seq<ProductId>)
    requires forall p :: p in ids ==> (q, p) in db.assignments
    ensures Sorted(db, q, s) && forall p :: p in s <==> p in ids
    decreases ids
  {
    if ids == {} {
      s := [];
    } else {
      var some :| some in ids;
      var rest := SortedExists(db, q, ids - {some});
      s := Insert(db, q, rest, some);
      assert forall p :: p in ids <==> p == some || p in ids - {some};
    }
  }

  lemma {:induction false} Insert(db: Db, q: QueueId, s: seq<ProductId>, x: ProductId) returns (t: seq<ProductId>)
    requires Sorted(db, q, s) && x !in s && (q, x) in db.assignments
    requires forall p :: p in s ==> (q, p) in db.assignments
    ensures Sorted(db, q, t) && forall p :: p in t <==> p in s || p == x
    decreases |s|
  {
    if s == [] {
      t := [x];
    } else if InOrder(db, q, s[|s| - 1], x) {
      t := s + [x];
      SortedSnoc(db, q, s, x);
    } else {
      var rest, last := s[..|s| - 1], s[|s| - 1];
      var front := Insert(db, q, rest, x);
      t := front + [last];
      assert s == rest + [last];
      assert forall p :: p in rest ==> InOrder(db, q, p, last);
      SortedSnoc(db, q, front, last);
    }
  }

  lemma SortedSnoc(db: Db, q: QueueId, s: seq<ProductId>, last: ProductId)
    requires Sorted(db, q, s) && forall p :: p in s ==> InOrder(db, q, p, last)
    ensures Sorted(db, q, s + [last])
  {
  }

  /** `findProductIdsByQueue`. */
  ghost function ProductIds(db: Db, q: QueueId): (s: seq<ProductId>)
    ensures IsProductList(db, q, s)
  {
    ListExists(db, q);
    var s :| IsProductList(db, q, s);
    s
  }

  lemma ListExists(db: Db, q: QueueId)
    ensures exists s :: IsProductList(db, q, s)
  {
    var s := SortedExists(db, q, set p | p in db.products && IsShown(db, q, p));
    assert IsProductList(db, q, s);
  }

  lemma IsTheProductList(db: Db, q: QueueId, s: seq<ProductId>)
    requires IsProductList(db, q, s)
    ensures ProductIds(db, q) == s
  {
    SortedIsUnique(db, q, ProductIds(db, q), s);
  }

  // ---------------------------------------------------------------- assigning

  /** `[...new Set(ids)]`: each id once, at its first occurrence. */
  function Dedup(ids: seq<ProductId>): seq<ProductId> {
    if ids == [] then []
    else
      var front, last := ids[..|ids| - 1], ids[|ids| - 1];
      Dedup(front) + if last in front then [] else [last]
  }

  lemma {:induction false} DedupElements(ids: seq<ProductId>)
    ensures forall p :: p in Dedup(ids) <==> p in ids
    ensures forall i, j :: 0 <= i < j < |Dedup(ids)| ==> Dedup(ids)[i] != Dedup(ids)[j]
  {
    if ids != [] {
      DedupElements(ids[..|ids| - 1]);
      assert ids == ids[..|ids| - 1] + [ids[|ids| - 1]];
    }
  }

  lemma {:induction false} FirstIn(s: seq<nat>, x: nat, i: nat)
    requires i < |s| && s[i] == x && x !in s[..i]
    ensures W.IndexOf(s, x) == i
  {
    var k := W.IndexOf(s, x);
    assert forall l :: 0 <= l < i ==> s[l] == s[..i][l];
    IndexIsFirst(s, x, 0, i);
  }

  lemma {:induction false} IndexIsFirst(s: seq<nat>, x: nat, from: nat, i: nat)
    requires from <= i < |s| && s[i] == x
    ensures W.IndexFrom(s, x, from) <= i
    decreases i - from
  {
    if s[from] != x {
      IndexIsFirst(s, x, from + 1, i);
    }
  }

  /** The deduplicated list keeps the order of first occurrences. */
  lemma {:induction false} DedupKeepsFirstOccurrences(ids: seq<ProductId>, i: nat, j: nat)
    requires i < j < |Dedup(ids)|
    ensures Dedup(ids)[i] in ids && Dedup(ids)[j] in ids
    ensures W.IndexOf(ids, Dedup(ids)[i]) < W.IndexOf(ids, Dedup(ids)[j])
  {
    var n := |ids| - 1;
    var front, last := ids[..n], ids[n];
    DedupElements(ids);
    DedupElements(front);
    var x, y := Dedup(ids)[i], Dedup(ids)[j];
    assert x in front;
    IndexInPrefix(ids, n, x);
    if j < |Dedup(front)| {
      DedupKeepsFirstOccurrences(front, i, j);
      IndexInPrefix(ids, n, y);
    } else {
      FirstIn(ids, last, n);
    }
  }

  lemma IndexInPrefix(s: seq<nat>, n: nat, x: nat)
    requires n <= |s| && x in s[..n]
    ensures W.IndexOf(s, x) == W.IndexOf(s[..n], x)
  {
    var k, l := W.IndexOf(s, x), W.IndexOf(s[..n], x);
    assert s[l] == x;
    IndexIsFirst(s, x, 0, l);
    assert s[..n][k] == x;
    IndexIsFirst(s[..n], x, 0, k);
  }

  predicate SyncRefused(db: Db, org: OrgId, ids: seq<ProductId>) {
    exists p :: p in ids && !(p in db.products && db.products[p].org == org && db.products[p].isActive)
  }

  function SwitchedOff(m: Assignments, q: QueueId): Assignments {
    map k | k in m :: if k.0 == q then m[k].(isActive := false) else m[k]
  }

  /** INSERT ... SELECT FROM UNNEST WITH ORDINALITY, switching existing rows back on. */
  function SwitchedOn(m: Assignments, q: QueueId, unique: seq<ProductId>): Assignments {
    m + map k: (QueueId, ProductId) | k in (set p | p in unique :: (q, p)) :: Assignment(true, W.IndexOf(unique, k.1))
  }

  function SyncedStock(db: Db, branch: BranchId, unique: seq<ProductId>): map<(BranchId, ProductId), Option<nat>> {
    (map p | p in unique :: (branch, p) := None) + db.stock
  }

  function Synced(db: Db, q: QueueId, org: OrgId, branch: BranchId, ids: seq<ProductId>): Db {
    if SyncRefused(db, org, ids) then db
    else db.(assignments := SwitchedOn(SwitchedOff(db.assignments, q), q, Dedup(ids)), stock := SyncedStock(db, branch, Dedup(ids)))
  }

  function SoftDeleted(db: Db, id: ProductId): Db {
    db.(products := if id in db.products then db.products[id := db.products[id].(isActive := false)] else db.products,
        assignments := map k | k in db.assignments ::
          if k.1 == id then db.assignments[k].(isActive := false) else db.assignments[k])
  }

  /** What is assigned is what is read back: the first occurrences, in order, whatever was assigned before. */
  lemma AssignmentRoundTrip(db: Db, q: QueueId, org: OrgId, branch: BranchId, ids: seq<ProductId>)
    requires q in db.activeQueues && !SyncRefused(db, org, ids)
    ensures ProductIds(Synced(db, q, org, branch, ids), q) == Dedup(ids)
    ensures forall p :: p in ids ==> (branch, p) in Synced(db, q, org, branch, ids).stock
  {
    var db', unique := Synced(db, q, org, branch, ids), Dedup(ids);
    DedupElements(ids);
    SwitchedOnRows(db.assignments, q, unique);
    forall p
      ensures p in unique <==> IsShown(db', q, p)
    {
      if p in unique { assert p in ids; }
    }
    IsTheProductList(db', q, unique);
  }

  /** After an assignment the queue's active rows are the assigned ones, ordered by their place in the list. */
  lemma SwitchedOnRows(m: Assignments, q: QueueId, unique: seq<ProductId>)
    requires forall i, j :: 0 <= i < j < |unique| ==> unique[i] != unique[j]
    ensures var m' := SwitchedOn(SwitchedOff(m, q), q, unique);
      && (forall p :: p in unique <==> (q, p) in m' && m'[(q, p)].isActive)
      && (forall i :: 0 <= i < |unique| ==> (q, unique[i]) in m' && m'[(q, unique[i])] == Assignment(true, i))
  {
    forall i | 0 <= i < |unique|
      ensures W.IndexOf(unique, unique[i]) == i
    {
      assert unique[i] in unique;
    }
  }

  /** Assigning to one queue leaves every other queue's list alone, and every inventory row there was. */
  lemma SyncTouchesOneQueue(db: Db, q: QueueId, org: OrgId, branch: BranchId, ids: seq<ProductId>, other: QueueId)
    requires other != q
    ensures ProductIds(Synced(db, q, org, branch, ids), other) == ProductIds(db, other)
    ensures Synced(db, q, org, branch, ids).products == db.products
    ensures Synced(db, q, org, branch, ids).activeQueues == db.activeQueues
    ensures forall k :: k in db.stock ==>
      k in Synced(db, q, org, branch, ids).stock && Synced(db, q, org, branch, ids).stock[k] == db.stock[k]
    ensures forall k :: k in Synced(db, q, org, branch, ids).stock && k !in db.stock ==>
      k.0 == branch && k.1 in ids && Synced(db, q, org, branch, ids).stock[k] == None
  {
    DedupElements(ids);
    var db' := Synced(db, q, org, branch, ids);
    var s := ProductIds(db, other);
    forall p
      ensures (other, p) in db'.assignments <==> (other, p) in db.assignments
      ensures (other, p) in db.assignments ==> db'.assignments[(other, p)] == db.assignments[(other, p)]
    {
    }
    assert forall p :: IsShown(db', other, p) <==> IsShown(db, other, p);
    assert forall x, y :: InOrder(db, other, x, y) ==> InOrder(db', other, x, y);
    IsTheProductList(db', other, s);
  }

  /** An assignment is accepted exactly when all its products are active ones of the organization. */
  lemma SyncsExactlyOwnActive(db: Db, org: OrgId, ids: seq<ProductId>)
    ensures !SyncRefused(db, org, ids) <==>
      forall i :: 0 <= i < |ids| ==> ids[i] in db.products && db.products[ids[i]] == Product(org, true)
  {
    forall i | 0 <= i < |ids|
      ensures ids[i] in ids
    {
    }
    assert forall p :: p in ids ==> exists i :: 0 <= i < |ids| && ids[i] == p;
  }

  /** A deleted product cannot be assigned again; all others, the queues and the stock stay as they are. */
  lemma DeletedStaysOut(db: Db, id: ProductId, org: OrgId, ids: seq<ProductId>)
    ensures id in ids ==> SyncRefused(SoftDeleted(db, id), org, ids)
    ensures id !in ids ==> (SyncRefused(SoftDeleted(db, id), org, ids) <==> SyncRefused(db, org, ids))
    ensures forall k :: k in SoftDeleted(db, id).assignments && k.1 == id ==> !SoftDeleted(db, id).assignments[k].isActive
    ensures SoftDeleted(db, id).stock == db.stock && SoftDeleted(db, id).activeQueues == db.activeQueues
    ensures forall k :: k in db.assignments && k.1 != id ==>
      k in SoftDeleted(db, id).assignments && SoftDeleted(db, id).assignments[k] == db.assignments[k]
  {
  }

  /** Deleting a product takes it out of every queue's list and moves nothing else. */
  lemma SoftDeleteTakesOut(db: Db, id: ProductId, q: QueueId)
    ensures ProductIds(SoftDeleted(db, id), q) == W.Without(ProductIds(db, q), id)
  {
    var db', s := SoftDeleted(db, id), ProductIds(db, q);
    var t := W.Without(s, id);
    assert forall x, y :: InOrder(db, q, x, y) ==> InOrder(db', q, x, y);
    assert forall i, j :: 0 <= i < j < |s| ==> InOrder(db, q, s[i], s[j]);
    if id in s { W.WithoutKeepsOthers(s, id); }
    assert forall p :: p in t <==> p in s && p != id;
    assert forall p :: IsShown(db', q, p) <==> IsShown(db, q, p) && p != id;
    IsTheProductList(db', q, t);
  }

  // ---------------------------------------------------------------- the tables

  class Repository {
    var products: map<ProductId, Product>
    var activeQueues: set<QueueId>
    var assignments: Assignments
    var stock: map<(BranchId, ProductId), Option<nat>>

    function Tables(): Db
      reads this
    {
      Db(products, activeQueues, assignments, stock)
    }

    constructor (db: Db)
      ensures Tables() == db
    {
      products, activeQueues, assignments, stock := db.products, db.activeQueues, db.assignments, db.stock;
    }

    /** Whether the rows found among the distinct ids are as many as the ids. */
    method AllInCatalogue(org: OrgId, ids: seq<ProductId>) returns (all: bool)
      ensures all <==> !SyncRefused(Tables(), org, ids)
    {
      var valid := set p | p in ids && p in products && products[p].org == org && products[p].isActive;
      var distinct := set p | p in ids;
      assert forall p :: p in ids <==> p in distinct;
      assert forall p :: p in distinct && p !in valid ==> p in ids;
      all := valid == distinct;
    }

    method Replace(q: QueueId, branch: BranchId, unique: seq<ProductId>)
      modifies `assignments, `stock
      ensures assignments == SwitchedOn(SwitchedOff(old(assignments), q), q, unique)
      ensures stock == SyncedStock(old(Tables()), branch, unique)
    {
      assignments := SwitchedOff(assignments, q);
      if unique == [] {
        return;
      }
      assignments := SwitchedOn(assignments, q, unique);
      stock := (map p | p in unique :: (branch, p) := None) + stock;
    }

    /** False is the error thrown for an id outside the catalogue. */
    method SyncProductsForQueue(q: QueueId, org: OrgId, branch: BranchId, ids: seq<ProductId>) returns (ok: bool)
      modifies this
      ensures Tables() == Synced(old(Tables()), q, org, branch, ids)
      ensures ok <==> !SyncRefused(old(Tables()), org, ids)
    {
      var unique := Dedup(ids);
      DedupElements(ids);
      ok := AllInCatalogue(org, unique);
      assert SyncRefused(Tables(), org, unique) <==> SyncRefused(Tables(), org, ids);
      if ok {
        Replace(q, branch, unique);
      }
    }

    method SoftDelete(id: ProductId)
      modifies this
      ensures Tables() == SoftDeleted(old(Tables()), id)
    {
      if id in products {
        products := products[id := products[id].(isActive := false)];
      }
      assignments := map k | k in assignments ::
        if k.1 == id && assignments[k].isActive then assignments[k].(isActive := false) else assignments[k];
    }
  }
}
