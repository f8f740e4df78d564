/**
 * app/api/data-element-categories/route.ts: the `buildTree` recursion of `GET`, which turns
 * the flat category list (ordered by sortOrder) into a forest by parent id.
 *
 * `buildTree(parentId)` keeps the categories whose `parentId` equals `parentId` and gives each
 * of them `children: buildTree(cat.id)`, overwriting the one-level `children` relation the ORM
 * fetched. In JavaScript the recursion is unbounded; here it carries fuel, and the lemmas
 * show that with unique ids (a primary key) fuel |categories| is never exhausted, so the
 * model is the unbounded recursion.
 */
module CategoryTree {
  import opened Wrappers
  import opened ApiResponse

  /** A category row; `children` is the ORM-fetched relation on input and the subtree on output. */
  datatype Category = Category(id: int, parentId: Option<int>, code: string, name: string, sortOrder: int, children: seq<Category>)

  /** `categories.filter(cat => cat.parentId === parentId)`, in input order. */
  function ChildrenOf(cats: seq<Category>, parent: Option<int>): (kids: seq<Category>)
    ensures |kids| <= |cats|
  {
    if cats == [] then []
    else (if cats[0].parentId == parent then [cats[0]] else []) + ChildrenOf(cats[1..], parent)
  }

  /** The children of `parent` are exactly the categories naming it. */
  lemma {:induction false} ChildOf(cats: seq<Category>, parent: Option<int>, c: Category)
    ensures c in ChildrenOf(cats, parent) <==> c in cats && c.parentId == parent
  {
    if cats != [] {
      ChildOf(cats[1..], parent, c);
      assert cats == [cats[0]] + cats[1..];
    }
  }

  /**
   * The filter keeps the matching rows in input order: filtering a concatenation concatenates
   * the filtered parts (and one row is kept exactly when it names the parent, by definition).
   */
  lemma {:induction false} ChildrenOfKeepsOrder(a: seq<Category>, b: seq<Category>, parent: Option<int>)
    ensures ChildrenOf(a + b, parent) == ChildrenOf(a, parent) + ChildrenOf(b, parent)
    decreases |a|
  {
    if a == [] {
      assert a + b == b;
    } else {
      ChildrenOfKeepsOrder(a[1..], b, parent);
      assert (a + b)[1..] == a[1..] + b;
    }
  }

  /** `buildTree(parent)` with at most `fuel` levels. */
  function Build(cats: seq<Category>, parent: Option<int>, fuel: nat): seq<Category>
    decreases fuel, 0, 0
  {
    if fuel == 0 then [] else Attach(cats, ChildrenOf(cats, parent), fuel - 1)
  }

  /** `.map(cat => ({ ...cat, children: buildTree(cat.id) }))` */
  function Attach(cats: seq<Category>, kids: seq<Category>, fuel: nat): (nodes: seq<Category>)
    ensures |nodes| == |kids|
    decreases fuel, 1, |kids|
  {
    if kids == [] then []
    else [kids[0].(children := Build(cats, Some(kids[0].id), fuel))] + Attach(cats, kids[1..], fuel)
  }

  /** The k-th node is the k-th child's row, its `children` replaced by the forest under its id. */
  lemma {:induction false} AttachAt(cats: seq<Category>, kids: seq<Category>, fuel: nat, k: nat)
    requires k < |kids|
    ensures SameRow(Attach(cats, kids, fuel)[k], kids[k])
    ensures Attach(cats, kids, fuel)[k].children == Build(cats, Some(kids[k].id), fuel)
    decreases k
  {
    if k > 0 {
      AttachAt(cats, kids[1..], fuel, k - 1);
      assert kids[1..][k - 1] == kids[k];
    }
  }

  /** `buildTree(null)`: the forest the route returns. */
  function BuildTree(cats: seq<Category>): seq<Category> {
    Build(cats, None, |cats|)
  }

  // ---------------------------------------------------------------------------
  // Chains of parent links

  predicate UniqueIds(cats: seq<Category>) {
    forall i, j :: 0 <= i < |cats| && 0 <= j < |cats| && cats[i].id == cats[j].id ==> i == j
  }

  /**
   * A path from a root down: `p[0]` has no parent and each next category's parent is the
   * previous one. The empty path stands for the level above the roots.
   */
  predicate IsChain(cats: seq<Category>, p: seq<Category>) {
    && (forall k :: 0 <= k < |p| ==> p[k] in cats)
    && (|p| > 0 ==> p[0].parentId.None?)
    && (forall k :: 0 < k < |p| ==> Linked(p, k))
  }

  /** The k-th category of the path names the one before it as its parent. */
  predicate Linked(p: seq<Category>, k: int)
    requires 0 < k < |p|
  {
    p[k].parentId == Some(p[k - 1].id)
  }

  /** The `parentId` under which the children of the chain's last category are found. */
  function EndOf(p: seq<Category>): Option<int> {
    if p == [] then None else Some(p[|p| - 1].id)
  }

  /** A category whose parent links reach a category with no parent. */
  ghost predicate Rooted(cats: seq<Category>, id: int) {
    exists p: seq<Category> :: IsChain(cats, p) && |p| > 0 && p[|p| - 1].id == id
  }

  /** Some chain through `p` continues past it down to the category with this id. */
  ghost predicate Below(cats: seq<Category>, p: seq<Category>, id: int) {
    exists q: seq<Category> :: IsChain(cats, q) && |q| > |p| && q[..|p|] == p && q[|q| - 1].id == id
  }

  lemma {:induction false} ChainExtend(cats: seq<Category>, p: seq<Category>, c: Category)
    requires IsChain(cats, p) && c in cats && c.parentId == EndOf(p)
    ensures IsChain(cats, p + [c])
  {
    var q := p + [c];
    forall k | 0 < k < |q| ensures Linked(q, k) {
      if k < |p| {
        assert Linked(p, k);
      }
    }
  }

  lemma {:induction false} ChainPrefix(cats: seq<Category>, p: seq<Category>, n: nat)
    requires IsChain(cats, p) && n <= |p|
    ensures IsChain(cats, p[..n])
  {
    forall k | 0 < k < n ensures Linked(p[..n], k) {
      assert Linked(p, k);
    }
  }

  /** With unique ids, two categories of the list with the same id are the same category. */
  lemma SameIdSameCategory(cats: seq<Category>, a: Category, b: Category)
    requires UniqueIds(cats) && a in cats && b in cats && a.id == b.id
    ensures a == b
  {
    var i :| 0 <= i < |cats| && cats[i] == a;
    var j :| 0 <= j < |cats| && cats[j] == b;
  }

  lemma DifferentCategoryDifferentId(cats: seq<Category>, a: Category, b: Category)
    requires UniqueIds(cats) && a in cats && b in cats && a != b
    ensures a.id != b.id
  {
    var i :| 0 <= i < |cats| && cats[i] == a;
    var j :| 0 <= j < |cats| && cats[j] == b;
  }

  lemma ChildrenMembers(cats: seq<Category>, parent: Option<int>)
    ensures forall c :: c in ChildrenOf(cats, parent) ==> c in cats && c.parentId == parent
  {
    forall c | c in ChildrenOf(cats, parent) ensures c in cats && c.parentId == parent {
      ChildOf(cats, parent, c);
    }
  }

  /** A child of the chain's end extends the chain, which is then still no longer than the list. */
  lemma ChildStep(cats: seq<Category>, p: seq<Category>, c: Category)
    requires UniqueIds(cats) && IsChain(cats, p) && c in ChildrenOf(cats, EndOf(p))
    ensures IsChain(cats, p + [c]) && EndOf(p + [c]) == Some(c.id) && |p| < |cats|
  {
    ChildOf(cats, EndOf(p), c);
    ChainExtend(cats, p, c);
    ChainLength(cats, p + [c]);
  }

  /** A chain whose end has a child is shorter than the list. */
  lemma HasChildBound(cats: seq<Category>, p: seq<Category>)
    requires UniqueIds(cats) && IsChain(cats, p) && ChildrenOf(cats, EndOf(p)) != []
    ensures |p| < |cats|
  {
    var kids := ChildrenOf(cats, EndOf(p));
    assert kids[0] in kids;
    ChildStep(cats, p, kids[0]);
  }

  /** Along a chain, no id repeats: a repeat would have to go back all the way to the root. */
  lemma {:induction false} ChainIdsDistinct(cats: seq<Category>, p: seq<Category>, a: nat, b: nat)
    requires UniqueIds(cats) && IsChain(cats, p) && a < b < |p|
    ensures p[a].id != p[b].id
    decreases a
  {
    assert Linked(p, b);
    if a == 0 {
      // p[b] has a parent and p[0] has none, so they are different categories.
      assert p[a].parentId != p[b].parentId;
    } else {
      assert Linked(p, a);
      ChainIdsDistinct(cats, p, a - 1, b - 1);
      assert p[a].parentId != p[b].parentId;
    }
    DifferentCategoryDifferentId(cats, p[a], p[b]);
  }

  function IdSet(cats: seq<Category>): set<int> {
    set c | c in cats :: c.id
  }

  lemma {:induction false} IdSetSize(cats: seq<Category>)
    ensures |IdSet(cats)| <= |cats|
  {
    if cats != [] {
      IdSetSize(cats[1..]);
      assert IdSet(cats) == {cats[0].id} + IdSet(cats[1..]);
    }
  }

  lemma SubsetSize(a: set<int>, b: set<int>)
    requires a <= b
    ensures |a| <= |b|
  {
    assert b == a + (b - a);
  }

  /** A chain has at most as many categories as the list: the depth of the forest is bounded. */
  lemma {:induction false} ChainLength(cats: seq<Category>, p: seq<Category>)
    requires UniqueIds(cats) && IsChain(cats, p)
    ensures |p| <= |cats|
  {
    var ids := set k | 0 <= k < |p| :: p[k].id;
    assert ids <= IdSet(cats);
    DistinctIdsCount(cats, p, |p|);
    SubsetSize(ids, IdSet(cats));
    IdSetSize(cats);
  }

  lemma {:induction false} DistinctIdsCount(cats: seq<Category>, p: seq<Category>, n: nat)
    requires UniqueIds(cats) && IsChain(cats, p) && n <= |p|
    ensures |set k | 0 <= k < n :: p[k].id| == n
  {
    if n > 0 {
      DistinctIdsCount(cats, p, n - 1);
      forall k | 0 <= k < n - 1 ensures p[k].id != p[n - 1].id {
        ChainIdsDistinct(cats, p, k, n - 1);
      }
      IdsStep(p, n);
    }
  }

  lemma IdsStep(p: seq<Category>, n: nat)
    requires 0 < n <= |p|
    requires forall k :: 0 <= k < n - 1 ==> p[k].id != p[n - 1].id
    ensures |set k | 0 <= k < n :: p[k].id| == |set k | 0 <= k < n - 1 :: p[k].id| + 1
  {
    var before := set k | 0 <= k < n - 1 :: p[k].id;
    var now := set k | 0 <= k < n :: p[k].id;
    assert now == before + {p[n - 1].id};
    assert p[n - 1].id !in before;
  }

  /** With unique ids, the chain down to a category is unique. */
  lemma {:induction false} ChainUnique(cats: seq<Category>, p: seq<Category>, q: seq<Category>)
    requires UniqueIds(cats) && IsChain(cats, p) && IsChain(cats, q)
    requires |p| > 0 && |q| > 0 && p[|p| - 1].id == q[|q| - 1].id
    ensures p == q
    decreases |p|
  {
    var a, b := p[|p| - 1], q[|q| - 1];
    SameIdSameCategory(cats, a, b);
    if |p| > 1 {
      assert Linked(p, |p| - 1);
    }
    if |q| > 1 {
      assert Linked(q, |q| - 1);
    }
    if |p| == 1 {
      assert |q| == 1;
      assert p == [a] && q == [b];
    } else {
      ChainPrefix(cats, p, |p| - 1);
      ChainPrefix(cats, q, |q| - 1);
      assert p[..|p| - 1][|p| - 2] == p[|p| - 2];
      assert q[..|q| - 1][|q| - 2] == q[|q| - 2];
      ChainUnique(cats, p[..|p| - 1], q[..|q| - 1]);
      assert p == p[..|p| - 1] + [a];
      assert q == q[..|q| - 1] + [b];
    }
  }

  // ---------------------------------------------------------------------------
  // Fuel |categories| is enough

  /** Below a chain of length d, any fuel of at least |cats| - d builds the same forest. */
  lemma {:induction false} FuelAdequate(cats: seq<Category>, p: seq<Category>, f1: nat, f2: nat)
    requires UniqueIds(cats) && IsChain(cats, p)
    requires f1 >= |cats| - |p| && f2 >= |cats| - |p|
    ensures Build(cats, EndOf(p), f1) == Build(cats, EndOf(p), f2)
    decreases f1, 1
  {
    var kids := ChildrenOf(cats, EndOf(p));
    if kids != [] {
      HasChildBound(cats, p);
      var a1, a2 := Attach(cats, kids, f1 - 1), Attach(cats, kids, f2 - 1);
      forall k | 0 <= k < |kids| ensures a1[k] == a2[k] {
        AttachAt(cats, kids, f1 - 1, k);
        AttachAt(cats, kids, f2 - 1, k);
        assert kids[k] in kids;
        ChildFuelAdequate(cats, p, kids[k], f1 - 1, f2 - 1);
      }
      assert a1 == a2;
    }
  }

  /** Below a child of the chain's end, one level less fuel is still enough. */
  lemma {:induction false} ChildFuelAdequate(cats: seq<Category>, p: seq<Category>, c: Category, f1: nat, f2: nat)
    requires UniqueIds(cats) && IsChain(cats, p) && c in ChildrenOf(cats, EndOf(p))
    requires f1 + 1 >= |cats| - |p| && f2 + 1 >= |cats| - |p|
    ensures Build(cats, Some(c.id), f1) == Build(cats, Some(c.id), f2)
    decreases f1, 2
  {
    ChildStep(cats, p, c);
    FuelAdequate(cats, p + [c], f1, f2);
  }

  /** The recursion of `buildTree(null)` ends within |categories| levels: more fuel changes nothing. */
  lemma {:induction false} BuildTreeTerminates(cats: seq<Category>, fuel: nat)
    requires UniqueIds(cats) && fuel >= |cats|
    ensures Build(cats, None, fuel) == BuildTree(cats)
  {
    FuelAdequate(cats, [], fuel, |cats|);
  }

  /** Nesting depth of a forest. */
  function Depth(forest: seq<Category>): nat {
    if forest == [] then 0
    else
      var d0, rest := 1 + Depth(forest[0].children), Depth(forest[1..]);
      if d0 >= rest then d0 else rest
  }

  lemma {:induction false} AttachDepth(cats: seq<Category>, kids: seq<Category>, fuel: nat)
    ensures Depth(Attach(cats, kids, fuel)) <= fuel + 1
    decreases fuel, 1, |kids|
  {
    if kids != [] {
      var nodes := Attach(cats, kids, fuel);
      BuildDepth(cats, Some(kids[0].id), fuel);
      AttachDepth(cats, kids[1..], fuel);
      assert nodes[1..] == Attach(cats, kids[1..], fuel);
    }
  }

  lemma {:induction false} BuildDepth(cats: seq<Category>, parent: Option<int>, fuel: nat)
    ensures Depth(Build(cats, parent, fuel)) <= fuel
    decreases fuel, 0, 0
  {
    if fuel > 0 {
      AttachDepth(cats, ChildrenOf(cats, parent), fuel - 1);
    }
  }

  /** The forest is never deeper than the number of categories. */
  lemma TreeDepthBounded(cats: seq<Category>)
    ensures Depth(BuildTree(cats)) <= |cats|
  {
    BuildDepth(cats, None, |cats|);
  }

  // ---------------------------------------------------------------------------
  // Shape: the forest satisfies the recursion equation of `buildTree`

  /** The same row: every field but `children` agrees. */
  predicate SameRow(a: Category, b: Category) {
    a.id == b.id && a.parentId == b.parentId && a.code == b.code && a.name == b.name && a.sortOrder == b.sortOrder
  }

  /** `buildTree(parent)` with enough fuel for any list with unique ids. */
  function Tree(cats: seq<Category>, parent: Option<int>): seq<Category> {
    Build(cats, parent, |cats|)
  }

  /**
   * Below the roots and below every category reachable from a root, the forest lists exactly
   * the categories naming that parent, in input order, each keeping its own row and carrying
   * as `children` the forest under its own id: the unbounded `buildTree` recursion.
   */
  lemma {:induction false} TreeUnfolds(cats: seq<Category>, p: seq<Category>)
    requires UniqueIds(cats) && IsChain(cats, p)
    ensures |Tree(cats, EndOf(p))| == |ChildrenOf(cats, EndOf(p))|
    ensures forall k :: 0 <= k < |Tree(cats, EndOf(p))| ==>
              && SameRow(Tree(cats, EndOf(p))[k], ChildrenOf(cats, EndOf(p))[k])
              && Tree(cats, EndOf(p))[k].children == Tree(cats, Some(ChildrenOf(cats, EndOf(p))[k].id))
  {
    var kids := ChildrenOf(cats, EndOf(p));
    var n := |cats|;
    if kids != [] {
      HasChildBound(cats, p);
      assert Tree(cats, EndOf(p)) == Attach(cats, kids, n - 1);
      forall k | 0 <= k < |kids|
        ensures SameRow(Attach(cats, kids, n - 1)[k], kids[k])
        ensures Attach(cats, kids, n - 1)[k].children == Tree(cats, Some(kids[k].id))
      {
        AttachAt(cats, kids, n - 1, k);
        assert kids[k] in kids;
        ChildFuelAdequate(cats, p, kids[k], n - 1, n);
      }
    }
  }

  /** The top level of the route's answer is the parentless categories, in input order. */
  lemma TreeRoots(cats: seq<Category>)
    requires UniqueIds(cats)
    ensures |BuildTree(cats)| == |ChildrenOf(cats, None)|
    ensures forall k :: 0 <= k < |BuildTree(cats)| ==> SameRow(BuildTree(cats)[k], ChildrenOf(cats, None)[k])
  {
    TreeUnfolds(cats, []);
  }

  // ---------------------------------------------------------------------------
  // Coverage: each rooted category appears once, every other category never

  /** How often the id occurs anywhere in the forest. */
  function Count(forest: seq<Category>, id: int): nat {
    if forest == [] then 0
    else (if forest[0].id == id then 1 else 0) + Count(forest[0].children, id) + Count(forest[1..], id)
  }

  /** Occurrences below a chain: one if the category lies below it, none otherwise. */
  lemma {:induction false} CountBuild(cats: seq<Category>, p: seq<Category>, fuel: nat, id: int)
    requires UniqueIds(cats) && IsChain(cats, p) && fuel >= |cats| - |p|
    ensures Count(Build(cats, EndOf(p), fuel), id) == if Below(cats, p, id) then 1 else 0
    decreases fuel, 0, 1
  {
    if ChildrenOf(cats, EndOf(p)) == [] {
      LeafLevel(cats, p, fuel, id);
    } else {
      CountInner(cats, p, fuel, id);
    }
  }

  /** The chain's end has children: the forest is their mapped list, and fuel remains for it. */
  lemma {:induction false} CountInner(cats: seq<Category>, p: seq<Category>, fuel: nat, id: int)
    requires UniqueIds(cats) && IsChain(cats, p) && fuel >= |cats| - |p| && ChildrenOf(cats, EndOf(p)) != []
    ensures Count(Build(cats, EndOf(p), fuel), id) == if Below(cats, p, id) then 1 else 0
    decreases fuel, 0, 0
  {
    HasChildBound(cats, p);
    CountLevel(cats, p, fuel - 1, id);
  }

  /** Occurrences in the forest made of all the children of the chain's end. */
  lemma {:induction false} CountLevel(cats: seq<Category>, p: seq<Category>, fuel: nat, id: int)
    requires UniqueIds(cats) && IsChain(cats, p) && fuel + 1 >= |cats| - |p|
    ensures Count(Attach(cats, ChildrenOf(cats, EndOf(p)), fuel), id) == if Below(cats, p, id) then 1 else 0
    decreases fuel, 2, 0
  {
    BelowViaChild(cats, p, id);
    ChildrenMembers(cats, EndOf(p));
    ChildrenUnique(cats, EndOf(p));
    CountAttach(cats, p, ChildrenOf(cats, EndOf(p)), fuel, id);
  }

  /** Where the chain's end has no children, nothing lies below it and the forest is empty. */
  lemma {:induction false} LeafLevel(cats: seq<Category>, p: seq<Category>, fuel: nat, id: int)
    requires IsChain(cats, p) && ChildrenOf(cats, EndOf(p)) == []
    ensures Build(cats, EndOf(p), fuel) == [] && !Below(cats, p, id)
  {
    BelowViaChild(cats, p, id);
    assert !Hit(cats, p, [], id);
  }

  /** The next category of a chain continuing past `p` is one of `p`'s children. */
  lemma {:induction false} BelowStep(cats: seq<Category>, p: seq<Category>, q: seq<Category>)
    requires IsChain(cats, q) && |q| > |p| && q[..|p|] == p
    ensures q[|p|] in ChildrenOf(cats, EndOf(p))
  {
    assert q[|p|] in cats;
    if |p| > 0 {
      assert Linked(q, |p|);
      assert q[|p| - 1] == p[|p| - 1];
    }
    ChildOf(cats, EndOf(p), q[|p|]);
  }

  /** Lying below `p` means lying at or below one of `p`'s children. */
  lemma {:induction false} BelowViaChild(cats: seq<Category>, p: seq<Category>, id: int)
    requires IsChain(cats, p)
    ensures Below(cats, p, id) <==> Hit(cats, p, ChildrenOf(cats, EndOf(p)), id)
  {
    var kids := ChildrenOf(cats, EndOf(p));
    if Below(cats, p, id) {
      BelowGivesHit(cats, p, id);
    }
    if Hit(cats, p, kids, id) {
      HitGivesBelow(cats, p, kids, id);
    }
  }

  lemma {:induction false} BelowGivesHit(cats: seq<Category>, p: seq<Category>, id: int)
    requires IsChain(cats, p) && Below(cats, p, id)
    ensures Hit(cats, p, ChildrenOf(cats, EndOf(p)), id)
  {
    var kids := ChildrenOf(cats, EndOf(p));
    var q: seq<Category> :| IsChain(cats, q) && |q| > |p| && q[..|p|] == p && q[|q| - 1].id == id;
    BelowStep(cats, p, q);
    var k :| 0 <= k < |kids| && kids[k] == q[|p|];
    assert q[..|p| + 1] == p + [kids[k]];
    assert AtOrBelow(cats, p + [kids[k]], id);
  }

  lemma {:induction false} HitGivesBelow(cats: seq<Category>, p: seq<Category>, kids: seq<Category>, id: int)
    requires Hit(cats, p, kids, id)
    ensures Below(cats, p, id)
  {
    var k :| 0 <= k < |kids| && AtOrBelow(cats, p + [kids[k]], id);
    var q: seq<Category> :| IsChain(cats, q) && |q| >= |p| + 1 && |q| > 0 && q[..|p| + 1] == p + [kids[k]] && q[|q| - 1].id == id;
    assert q[..|p|] == (q[..|p| + 1])[..|p|];
  }

  /** The category with this id is the last of `p`, or lies below it. */
  ghost predicate AtOrBelow(cats: seq<Category>, p: seq<Category>, id: int) {
    exists q: seq<Category> :: IsChain(cats, q) && |q| >= |p| && |q| > 0 && q[..|p|] == p && q[|q| - 1].id == id
  }

  /** Children of one parent have distinct ids when all ids are distinct. */
  lemma {:induction false} ChildrenUnique(cats: seq<Category>, parent: Option<int>)
    requires UniqueIds(cats)
    ensures UniqueIds(ChildrenOf(cats, parent))
  {
    if cats != [] {
      assert UniqueIds(cats[1..]) by {
        forall i, j | 0 <= i < |cats[1..]| && 0 <= j < |cats[1..]| && cats[1..][i].id == cats[1..][j].id
          ensures i == j
        {
          assert cats[i + 1].id == cats[j + 1].id;
        }
      }
      ChildrenUnique(cats[1..], parent);
      var rest := ChildrenOf(cats[1..], parent);
      forall c | c in rest ensures c.id != cats[0].id {
        ChildOf(cats[1..], parent, c);
        var j :| 0 <= j < |cats[1..]| && cats[1..][j] == c;
        assert cats[j + 1] == c;
      }
      var kids := ChildrenOf(cats, parent);
      if cats[0].parentId == parent {
        assert kids == [cats[0]] + rest;
        forall i | 0 < i < |kids| ensures kids[i].id != kids[0].id {
          assert kids[i] == rest[i - 1];
          assert rest[i - 1] in rest;
        }
        forall i, j | 0 < i < |kids| && 0 < j < |kids| && kids[i].id == kids[j].id ensures i == j {
          assert kids[i] == rest[i - 1] && kids[j] == rest[j - 1];
        }
      } else {
        assert kids == rest;
      }
    }
  }

  /** The category with this id is at or below one of the given children of the chain's end. */
  ghost predicate Hit(cats: seq<Category>, p: seq<Category>, kids: seq<Category>, id: int) {
    exists k :: 0 <= k < |kids| && AtOrBelow(cats, p + [kids[k]], id)
  }

  /** Occurrences in the mapped children: one if the category is at or below exactly one of them. */
  lemma {:induction false} CountAttach(cats: seq<Category>, p: seq<Category>, kids: seq<Category>, fuel: nat, id: int)
    requires UniqueIds(cats) && IsChain(cats, p) && fuel + 1 >= |cats| - |p|
    requires forall c :: c in kids ==> c in cats && c.parentId == EndOf(p)
    requires UniqueIds(kids)
    ensures Count(Attach(cats, kids, fuel), id) == if Hit(cats, p, kids, id) then 1 else 0
    decreases fuel, 1, |kids|
  {
    if kids != [] {
      assert kids[0] in kids;
      CountCons(cats, kids, fuel, id);
      CountFirst(cats, p, kids[0], fuel, id);
      TailChildren(cats, p, kids);
      CountAttach(cats, p, kids[1..], fuel, id);
      HitSplit(cats, p, kids, id);
    }
  }

  /** Occurrences in one child's node and the forest under it: one if it is at or below the child. */
  lemma {:induction false} CountFirst(cats: seq<Category>, p: seq<Category>, c: Category, fuel: nat, id: int)
    requires UniqueIds(cats) && IsChain(cats, p) && fuel + 1 >= |cats| - |p|
    requires c in cats && c.parentId == EndOf(p)
    ensures (if c.id == id then 1 else 0) + Count(Build(cats, Some(c.id), fuel), id)
         == if AtOrBelow(cats, p + [c], id) then 1 else 0
    decreases fuel, 0, 2
  {
    var pc := p + [c];
    ChainExtend(cats, p, c);
    assert EndOf(pc) == Some(c.id);
    CountBuild(cats, pc, fuel, id);
    AtOrBelowSplit(cats, pc, id);
  }

  /** Occurrences in mapped children: the first node, the forest under it, then the rest. */
  lemma CountCons(cats: seq<Category>, kids: seq<Category>, fuel: nat, id: int)
    requires kids != []
    ensures Count(Attach(cats, kids, fuel), id)
         == (if kids[0].id == id then 1 else 0) + Count(Build(cats, Some(kids[0].id), fuel), id) + Count(Attach(cats, kids[1..], fuel), id)
  {
    var nodes := Attach(cats, kids, fuel);
    assert nodes[1..] == Attach(cats, kids[1..], fuel);
  }

  /** The rest of a list of children with distinct ids is again such a list. */
  lemma TailChildren(cats: seq<Category>, p: seq<Category>, kids: seq<Category>)
    requires kids != [] && UniqueIds(kids)
    requires forall c :: c in kids ==> c in cats && c.parentId == EndOf(p)
    ensures UniqueIds(kids[1..])
    ensures forall c :: c in kids[1..] ==> c in cats && c.parentId == EndOf(p)
  {
    forall i, j | 0 <= i < |kids[1..]| && 0 <= j < |kids[1..]| && kids[1..][i].id == kids[1..][j].id
      ensures i == j
    {
      assert kids[i + 1].id == kids[j + 1].id;
    }
  }

  /** The category is hit by the first child or by the rest, and never by both. */
  lemma {:induction false} HitSplit(cats: seq<Category>, p: seq<Category>, kids: seq<Category>, id: int)
    requires UniqueIds(cats) && IsChain(cats, p) && kids != [] && UniqueIds(kids)
    ensures Hit(cats, p, kids, id) <==> AtOrBelow(cats, p + [kids[0]], id) || Hit(cats, p, kids[1..], id)
    ensures !(AtOrBelow(cats, p + [kids[0]], id) && Hit(cats, p, kids[1..], id))
  {
    if Hit(cats, p, kids, id) {
      var k :| 0 <= k < |kids| && AtOrBelow(cats, p + [kids[k]], id);
      if k > 0 {
        assert kids[1..][k - 1] == kids[k];
      }
    }
    if Hit(cats, p, kids[1..], id) {
      var k :| 0 <= k < |kids[1..]| && AtOrBelow(cats, p + [kids[1..][k]], id);
      assert kids[k + 1] == kids[1..][k];
      if AtOrBelow(cats, p + [kids[0]], id) {
        assert kids[0].id != kids[k + 1].id;
        OnlyOneChildLeads(cats, p, kids[0], kids[k + 1], id);
        assert false;
      }
    }
  }

  /** At or below c: c itself, or strictly below it (never both: a chain repeats no id). */
  lemma {:induction false} AtOrBelowSplit(cats: seq<Category>, pc: seq<Category>, id: int)
    requires UniqueIds(cats) && IsChain(cats, pc) && |pc| > 0
    ensures AtOrBelow(cats, pc, id) <==> pc[|pc| - 1].id == id || Below(cats, pc, id)
    ensures !(pc[|pc| - 1].id == id && Below(cats, pc, id))
  {
    var n := |pc|;
    if pc[n - 1].id == id {
      assert pc[..n] == pc;
      assert AtOrBelow(cats, pc, id);
      if Below(cats, pc, id) {
        var q: seq<Category> :| IsChain(cats, q) && |q| > n && q[..n] == pc && q[|q| - 1].id == id;
        assert q[n - 1] == pc[n - 1];
        ChainIdsDistinct(cats, q, n - 1, |q| - 1);
      }
    }
    if AtOrBelow(cats, pc, id) && pc[n - 1].id != id {
      var q: seq<Category> :| IsChain(cats, q) && |q| >= n && |q| > 0 && q[..n] == pc && q[|q| - 1].id == id;
      assert q[n - 1] == pc[n - 1];
      assert |q| > n;
      assert Below(cats, pc, id);
    }
  }

  /** Two different children cannot both lead to the same category: its chain is unique. */
  lemma {:induction false} OnlyOneChildLeads(cats: seq<Category>, p: seq<Category>, c1: Category, c2: Category, id: int)
    requires UniqueIds(cats) && IsChain(cats, p)
    requires AtOrBelow(cats, p + [c1], id) && AtOrBelow(cats, p + [c2], id)
    ensures c1 == c2
  {
    var n := |p| + 1;
    var q1: seq<Category> :| IsChain(cats, q1) && |q1| >= n && |q1| > 0 && q1[..n] == p + [c1] && q1[|q1| - 1].id == id;
    var q2: seq<Category> :| IsChain(cats, q2) && |q2| >= n && |q2| > 0 && q2[..n] == p + [c2] && q2[|q2| - 1].id == id;
    ChainUnique(cats, q1, q2);
    assert q1[n - 1] == c1 && q2[n - 1] == c2;
  }

  /**
   * Coverage of the route's answer: a category appears exactly once when its parent links reach
   * a root, and never otherwise (a dangling parent id or a cycle keeps it out). Ids that are not
   * in the list never appear.
   */
  lemma TreeCoverage(cats: seq<Category>, id: int)
    requires UniqueIds(cats)
    ensures Count(BuildTree(cats), id) == if Rooted(cats, id) then 1 else 0
  {
    CountBuild(cats, [], |cats|, id);
    if Below(cats, [], id) {
      var q: seq<Category> :| IsChain(cats, q) && |q| > 0 && q[..0] == [] && q[|q| - 1].id == id;
      assert Rooted(cats, id);
    }
    if Rooted(cats, id) {
      var q: seq<Category> :| IsChain(cats, q) && |q| > 0 && q[|q| - 1].id == id;
      assert q[..0] == [];
      assert Below(cats, [], id);
    }
  }

  /** A rooted category that has a parent finds that parent in the list. */
  lemma {:induction false} RootedParentPresent(cats: seq<Category>, c: Category)
    requires UniqueIds(cats) && c in cats && c.parentId.Some? && Rooted(cats, c.id)
    ensures exists d :: d in cats && d.id == c.parentId.value
  {
    var q: seq<Category> :| IsChain(cats, q) && |q| > 0 && q[|q| - 1].id == c.id;
    SameIdSameCategory(cats, q[|q| - 1], c);
    assert q[0].parentId.None?;
    assert |q| > 1;
    assert Linked(q, |q| - 1);
    assert q[|q| - 2] in cats;
  }

  /** A category whose parent is missing from the list is never in the forest. */
  lemma {:induction false} DanglingParentExcluded(cats: seq<Category>, c: Category)
    requires UniqueIds(cats) && c in cats && c.parentId.Some?
    requires forall d :: d in cats ==> d.id != c.parentId.value
    ensures Count(BuildTree(cats), c.id) == 0
  {
    TreeCoverage(cats, c.id);
    if Rooted(cats, c.id) {
      RootedParentPresent(cats, c);
      assert false;
    }
  }

  // ---------------------------------------------------------------------------
  // The route

  /**
   * `GET /api/data-element-categories`: 401 without a valid bearer token; otherwise the forest
   * built from `categories` (the rows as fetched, ordered by sortOrder).
   */
  function GetCategories(authorization: Option<string>, jwtVerify: string -> JwtOutcome, categories: seq<Category>): (r: Response<seq<Category>>)
    ensures GetAuthUser(authorization, jwtVerify).None? ==> r == UnauthorizedResponse(None)
    ensures GetAuthUser(authorization, jwtVerify).Some? ==>
      r.status == 200 && r.body.success && r.body.data == Some(BuildTree(categories))
  {
    if GetAuthUser(authorization, jwtVerify).None? then UnauthorizedResponse(None)
    else SuccessResponse(BuildTree(categories), None)
  }
}
