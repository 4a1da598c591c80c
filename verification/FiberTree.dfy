/** The tree of fibers: parent and children links, subtrees, and the order in which `cancel` visits them. */
module FiberTree {
  import opened Options
  import opened Fibers

  // ---------------------------------------------------------------------------------------------
  // Ascending order, as a BTreeSet iterates
  // ---------------------------------------------------------------------------------------------

  predicate IsLeast(s: set<nat>, m: nat) {
    m in s && forall x :: x in s ==> m <= x
  }

  lemma {:induction false} FindLeast(s: set<nat>) returns (m: nat)
    requires s != {}
    ensures IsLeast(s, m)
    decreases s
  {
    m :| m in s;
    if s != {m} {
      var n := FindLeast(s - {m});
      assert s == (s - {m}) + {m};
      m := if m < n then m else n;
    }
  }

  lemma LeastExists(s: set<nat>)
    requires s != {}
    ensures exists m :: IsLeast(s, m)
  {
    var m := FindLeast(s);
  }

  function Least(s: set<nat>): (m: nat)
    requires s != {}
    ensures m in s && forall x :: x in s ==> m <= x
  {
    LeastExists(s);
    var m :| IsLeast(s, m);
    m
  }

  function Ascending(s: set<nat>): (r: seq<nat>)
    ensures forall x :: x in r <==> x in s
    ensures forall i, j :: 0 <= i < j < |r| ==> r[i] < r[j]
  {
    if s == {} then [] else [Least(s)] + Ascending(s - {Least(s)})
  }

  // ---------------------------------------------------------------------------------------------
  // Shape
  // ---------------------------------------------------------------------------------------------

  /** Children exist and were created after their parent. */
  ghost predicate Shape(fs: Slab) {
    forall p, c {:trigger c in fs[p].children} ::
      p in fs && c in fs[p].children ==> c in fs && fs[p].stamp < fs[c].stamp
  }

  /** Fiber `f` has the root as it is, or hangs below an unfinished parent that lists it. */
  ghost predicate Linked(fs: Slab, f: nat)
    requires f in fs
  {
    if f == 0 then fs[f].parent.None?
    else
      && fs[f].parent.Some?
      && var p := fs[f].parent.value;
      && Unfinished(fs, p)
      && f in fs[p].children
      && fs[p].stamp < fs[f].stamp
  }

  /** Parent and children links agree and connect exactly the unfinished fibers, below slot 0. */
  ghost predicate Tree(fs: Slab) {
    && Unfinished(fs, 0)
    && (forall f {:trigger Linked(fs, f)} :: Unfinished(fs, f) ==> Linked(fs, f))
    && (forall p, c {:trigger c in fs[p].children} :: p in fs && c in fs[p].children ==>
          Unfinished(fs, p) && Unfinished(fs, c) && c != 0 && fs[c].parent == Some(p))
  }

  lemma TreeHasShape(fs: Slab)
    requires Tree(fs)
    ensures Shape(fs)
  {
    forall p, c | p in fs && c in fs[p].children ensures c in fs && fs[p].stamp < fs[c].stamp {
      assert Unfinished(fs, c) && Linked(fs, c);
    }
  }

  ghost function LaterThan(fs: Slab, stamp: nat): set<nat> {
    set f | f in fs && fs[f].stamp > stamp
  }

  // ---------------------------------------------------------------------------------------------
  // Subtrees
  // ---------------------------------------------------------------------------------------------

  /** `f` and its descendants in pre-order, children in ascending order of their slots. */
  function PreOrder(fs: Slab, f: nat): seq<nat>
    requires Shape(fs) && f in fs
    decreases LaterThan(fs, fs[f].stamp), 1, 0
  {
    [f] + PreOrderAll(fs, fs[f].stamp, Ascending(fs[f].children))
  }

  function PreOrderAll(fs: Slab, stamp: nat, cs: seq<nat>): seq<nat>
    requires Shape(fs) && forall c :: c in cs ==> c in fs && fs[c].stamp > stamp
    decreases LaterThan(fs, stamp), 0, |cs|
  {
    if cs == [] then []
    else
      assert cs[0] in LaterThan(fs, stamp) && cs[0] !in LaterThan(fs, fs[cs[0]].stamp);
      PreOrder(fs, cs[0]) + PreOrderAll(fs, stamp, cs[1..])
  }

  /** `g` lies in the subtree of `f`: following parents from `g` reaches `f`. */
  ghost predicate Below(fs: Slab, g: nat, f: nat)
    requires Tree(fs) && Unfinished(fs, g)
    decreases fs[g].stamp
  {
    assert Linked(fs, g);
    g == f || (g != 0 && Below(fs, fs[g].parent.value, f))
  }

  lemma {:induction false} BelowIsLater(fs: Slab, g: nat, f: nat)
    requires Tree(fs) && Unfinished(fs, g) && Below(fs, g, f)
    ensures Unfinished(fs, f) && fs[f].stamp <= fs[g].stamp
    decreases fs[g].stamp
  {
    assert Linked(fs, g);
    if g != f {
      BelowIsLater(fs, fs[g].parent.value, f);
    }
  }

  lemma {:induction false} BelowTransitive(fs: Slab, a: nat, b: nat, c: nat)
    requires Tree(fs) && Unfinished(fs, a) && Unfinished(fs, b) && Below(fs, a, b) && Below(fs, b, c)
    ensures Below(fs, a, c)
    decreases fs[a].stamp
  {
    assert Linked(fs, a);
    if a != b {
      BelowTransitive(fs, fs[a].parent.value, b, c);
    }
  }

  /** Two ancestors of one fiber are comparable. */
  lemma {:induction false} AncestorsAreLinear(fs: Slab, g: nat, a: nat, b: nat)
    requires Tree(fs) && Unfinished(fs, g) && Below(fs, g, a) && Below(fs, g, b)
    ensures Unfinished(fs, a) && Unfinished(fs, b)
    ensures Below(fs, a, b) || Below(fs, b, a)
    decreases fs[g].stamp
  {
    assert Linked(fs, g);
    BelowIsLater(fs, g, a);
    BelowIsLater(fs, g, b);
    if g != a && g != b {
      AncestorsAreLinear(fs, fs[g].parent.value, a, b);
    }
  }

  lemma {:induction false} EveryFiberIsBelowRoot(fs: Slab, g: nat)
    requires Tree(fs) && Unfinished(fs, g)
    ensures Below(fs, g, 0)
    decreases fs[g].stamp
  {
    assert Linked(fs, g);
    if g != 0 {
      EveryFiberIsBelowRoot(fs, fs[g].parent.value);
    }
  }

  lemma ChildIsBelow(fs: Slab, c: nat, f: nat)
    requires Tree(fs) && f in fs && c in fs[f].children
    ensures Unfinished(fs, c) && Below(fs, c, f) && !Below(fs, f, c)
  {
    assert Unfinished(fs, c) && Linked(fs, c);
    assert Below(fs, f, f);
    if Below(fs, f, c) {
      BelowIsLater(fs, f, c);
    }
  }

  /** Different children of one fiber have no common descendant. */
  lemma SiblingsAreDisjoint(fs: Slab, f: nat, c: nat, d: nat, g: nat)
    requires Tree(fs) && f in fs && c in fs[f].children && d in fs[f].children && c != d
    requires Unfinished(fs, g) && Below(fs, g, c)
    ensures !Below(fs, g, d)
  {
    if Below(fs, g, d) {
      AncestorsAreLinear(fs, g, c, d);
      assert Linked(fs, c) && Linked(fs, d);
      if Below(fs, c, d) {
        assert Below(fs, f, d);
        BelowIsLater(fs, f, d);
      } else {
        assert Below(fs, f, c);
        BelowIsLater(fs, f, c);
      }
    }
  }

  // ---------------------------------------------------------------------------------------------
  // Pre-order lists exactly the subtree, once
  // ---------------------------------------------------------------------------------------------

  ghost predicate NoDuplicates(s: seq<nat>) {
    forall i, j :: 0 <= i < j < |s| ==> s[i] != s[j]
  }

  lemma NoDuplicatesConcat(a: seq<nat>, b: seq<nat>)
    requires NoDuplicates(a) && NoDuplicates(b) && forall x :: x in a ==> x !in b
    ensures NoDuplicates(a + b)
  {
    forall i, j | 0 <= i < j < |a + b| ensures (a + b)[i] != (a + b)[j] {
      if i < |a| <= j {
        assert (a + b)[i] in a && (a + b)[j] in b;
      }
    }
  }

  lemma {:induction false} PreOrderSound(fs: Slab, f: nat)
    requires Tree(fs) && Shape(fs) && Unfinished(fs, f)
    ensures forall g :: g in PreOrder(fs, f) ==> Unfinished(fs, g) && Below(fs, g, f)
    ensures NoDuplicates(PreOrder(fs, f))
    decreases LaterThan(fs, fs[f].stamp), 1, 0
  {
    var cs := Ascending(fs[f].children);
    PreOrderAllSound(fs, f, cs);
    forall g | g in PreOrder(fs, f) ensures Unfinished(fs, g) && Below(fs, g, f) {
      if g != f {
        var c :| c in cs && Unfinished(fs, g) && Below(fs, g, c);
        ChildIsBelow(fs, c, f);
        BelowTransitive(fs, g, c, f);
      }
    }
    forall g | g in PreOrderAll(fs, fs[f].stamp, cs) ensures g != f {
      var c :| c in cs && Unfinished(fs, g) && Below(fs, g, c);
      ChildIsBelow(fs, c, f);
    }
    NoDuplicatesConcat([f], PreOrderAll(fs, fs[f].stamp, cs));
  }

  lemma {:induction false} PreOrderAllSound(fs: Slab, f: nat, cs: seq<nat>)
    requires Tree(fs) && Shape(fs) && Unfinished(fs, f)
    requires (forall c :: c in cs ==> c in fs[f].children) && NoDuplicates(cs)
    ensures forall g :: g in PreOrderAll(fs, fs[f].stamp, cs)
              ==> exists c :: c in cs && Unfinished(fs, g) && Below(fs, g, c)
    ensures NoDuplicates(PreOrderAll(fs, fs[f].stamp, cs))
    decreases LaterThan(fs, fs[f].stamp), 0, |cs|
  {
    if cs != [] {
      var c, rest := cs[0], cs[1..];
      assert Unfinished(fs, c) && c in LaterThan(fs, fs[f].stamp) && c !in LaterThan(fs, fs[c].stamp);
      PreOrderSound(fs, c);
      PreOrderAllSound(fs, f, rest);
      var a, b := PreOrder(fs, c), PreOrderAll(fs, fs[f].stamp, rest);
      forall g | g in a + b ensures exists d :: d in cs && Unfinished(fs, g) && Below(fs, g, d) {
        if g in a {
          assert c in cs && Unfinished(fs, g) && Below(fs, g, c);
        } else {
          var d :| d in rest && Unfinished(fs, g) && Below(fs, g, d);
          assert d in cs;
        }
      }
      forall g | g in a ensures g !in b {
        if g in b {
          var d :| d in rest && Unfinished(fs, g) && Below(fs, g, d);
          SiblingsAreDisjoint(fs, f, c, d, g);
        }
      }
      NoDuplicatesConcat(a, b);
    }
  }

  lemma {:induction false} PreOrderAllMember(fs: Slab, stamp: nat, cs: seq<nat>, c: nat, g: nat)
    requires Shape(fs) && (forall d :: d in cs ==> d in fs && fs[d].stamp > stamp)
    requires c in cs && g in PreOrder(fs, c)
    ensures g in PreOrderAll(fs, stamp, cs)
  {
    if cs[0] != c {
      PreOrderAllMember(fs, stamp, cs[1..], c, g);
    }
  }

  /** A listed fiber's children are listed too. */
  lemma {:induction false} PreOrderHasChildren(fs: Slab, f: nat, p: nat, c: nat)
    requires Tree(fs) && Shape(fs) && Unfinished(fs, f)
    requires p in PreOrder(fs, f) && p in fs && c in fs[p].children
    ensures c in PreOrder(fs, f)
    decreases LaterThan(fs, fs[f].stamp)
  {
    var cs := Ascending(fs[f].children);
    if p == f {
      assert c in fs && c in PreOrder(fs, c);
      PreOrderAllMember(fs, fs[f].stamp, cs, c, c);
    } else {
      var d := PreOrderAllSource(fs, fs[f].stamp, cs, p);
      assert d in LaterThan(fs, fs[f].stamp) && d !in LaterThan(fs, fs[d].stamp);
      PreOrderHasChildren(fs, d, p, c);
      PreOrderAllMember(fs, fs[f].stamp, cs, d, c);
    }
  }

  lemma {:induction false} PreOrderAllSource(fs: Slab, stamp: nat, cs: seq<nat>, g: nat) returns (c: nat)
    requires Shape(fs) && (forall d :: d in cs ==> d in fs && fs[d].stamp > stamp)
    requires g in PreOrderAll(fs, stamp, cs)
    ensures c in cs && g in PreOrder(fs, c)
  {
    if g in PreOrder(fs, cs[0]) {
      c := cs[0];
    } else {
      c := PreOrderAllSource(fs, stamp, cs[1..], g);
    }
  }

  lemma {:induction false} PreOrderComplete(fs: Slab, f: nat, g: nat)
    requires Tree(fs) && Shape(fs) && Unfinished(fs, f) && Unfinished(fs, g) && Below(fs, g, f)
    ensures g in PreOrder(fs, f)
    decreases fs[g].stamp
  {
    assert Linked(fs, g);
    if g != f {
      var p := fs[g].parent.value;
      PreOrderComplete(fs, f, p);
      PreOrderHasChildren(fs, f, p, g);
    }
  }

  /** Pre-order visits the subtree of `f`, all of it and each fiber once. */
  lemma PreOrderIsSubtree(fs: Slab, f: nat)
    requires Tree(fs) && Shape(fs) && Unfinished(fs, f)
    ensures forall g :: g in PreOrder(fs, f) <==> Unfinished(fs, g) && Below(fs, g, f)
    ensures NoDuplicates(PreOrder(fs, f))
  {
    PreOrderSound(fs, f);
    forall g | Unfinished(fs, g) && Below(fs, g, f) ensures g in PreOrder(fs, f) {
      PreOrderComplete(fs, f, g);
    }
  }

  // ---------------------------------------------------------------------------------------------
  // The order of the visit
  // ---------------------------------------------------------------------------------------------

  /** `g` and `h` lie below different children of one fiber, `g` below the one with the smaller slot. */
  ghost predicate LiesLeft(fs: Slab, g: nat, h: nat)
    requires Tree(fs) && Unfinished(fs, g) && Unfinished(fs, h)
  {
    exists p, c, d ::
      && p in fs && c in fs[p].children && d in fs[p].children && c < d && Below(fs, g, c) && Below(fs, h, d)
  }

  /** A fiber comes before its descendants, and before those below a sibling with a larger slot. */
  ghost predicate ComesFirst(fs: Slab, g: nat, h: nat) {
    Tree(fs) && Unfinished(fs, g) && Unfinished(fs, h) && (Below(fs, h, g) || LiesLeft(fs, g, h))
  }

  ghost predicate InVisitOrder(fs: Slab, visit: seq<nat>) {
    forall i, j :: 0 <= i < j < |visit| ==> ComesFirst(fs, visit[i], visit[j])
  }

  lemma InVisitOrderConcat(fs: Slab, a: seq<nat>, b: seq<nat>)
    requires InVisitOrder(fs, a) && InVisitOrder(fs, b)
    requires forall g, h :: g in a && h in b ==> ComesFirst(fs, g, h)
    ensures InVisitOrder(fs, a + b)
  {
    hide ComesFirst;
  }

  /** Pre-order visits parents before children, and siblings with all that is below them in the order of their slots. */
  lemma {:induction false} PreOrderIsOrdered(fs: Slab, f: nat)
    requires Tree(fs) && Shape(fs) && Unfinished(fs, f)
    ensures InVisitOrder(fs, PreOrder(fs, f))
    decreases LaterThan(fs, fs[f].stamp), 1, 0
  {
    var cs := Ascending(fs[f].children);
    PreOrderAllIsOrdered(fs, f, cs);
    PreOrderSound(fs, f);
    assert forall h :: h in PreOrderAll(fs, fs[f].stamp, cs) ==> h in PreOrder(fs, f);
    InVisitOrderConcat(fs, [f], PreOrderAll(fs, fs[f].stamp, cs));
  }

  lemma {:induction false} PreOrderAllIsOrdered(fs: Slab, f: nat, cs: seq<nat>)
    requires Tree(fs) && Shape(fs) && Unfinished(fs, f)
    requires (forall c :: c in cs ==> c in fs[f].children) && forall i, j :: 0 <= i < j < |cs| ==> cs[i] < cs[j]
    ensures InVisitOrder(fs, PreOrderAll(fs, fs[f].stamp, cs))
    decreases LaterThan(fs, fs[f].stamp), 0, |cs|
  {
    if cs != [] {
      var c, rest := cs[0], cs[1..];
      assert c in cs && c in fs[f].children;
      assert Unfinished(fs, c) && c in LaterThan(fs, fs[f].stamp) && c !in LaterThan(fs, fs[c].stamp);
      PreOrderIsOrdered(fs, c);
      PreOrderAllIsOrdered(fs, f, rest);
      PreOrderSound(fs, c);
      PreOrderAllSound(fs, f, rest);
      var a, b := PreOrder(fs, c), PreOrderAll(fs, fs[f].stamp, rest);
      forall g, h | g in a && h in b ensures ComesFirst(fs, g, h) {
        var d :| d in rest && Unfinished(fs, h) && Below(fs, h, d);
        assert c < d && LiesLeft(fs, g, h);
      }
      InVisitOrderConcat(fs, a, b);
    }
  }

  // ---------------------------------------------------------------------------------------------
  // Frames
  // ---------------------------------------------------------------------------------------------

  /** Fibers present in both slabs kept their parents. */
  ghost predicate SameParents(fs: Slab, gs: Slab) {
    forall f :: f in fs && f in gs ==> fs[f].parent == gs[f].parent
  }

  lemma {:induction false} BelowFrame(fs: Slab, gs: Slab, g: nat, f: nat)
    requires Tree(fs) && Tree(gs) && SameParents(fs, gs)
    requires Unfinished(fs, g) && Unfinished(gs, g)
    ensures Below(fs, g, f) <==> Below(gs, g, f)
    decreases fs[g].stamp
  {
    assert Linked(fs, g) && Linked(gs, g);
    if g != 0 {
      BelowFrame(fs, gs, fs[g].parent.value, f);
    }
  }

  /** The same fibers with the same children and creation stamps. */
  ghost predicate SameLinks(fs: Slab, gs: Slab) {
    && fs.Keys == gs.Keys
    && forall f :: f in fs ==> fs[f].children == gs[f].children && fs[f].stamp == gs[f].stamp
  }

  lemma {:induction false} PreOrderFrame(fs: Slab, gs: Slab, f: nat)
    requires Shape(fs) && Shape(gs) && SameLinks(fs, gs) && f in fs
    ensures PreOrder(fs, f) == PreOrder(gs, f)
    decreases LaterThan(fs, fs[f].stamp), 1, 0
  {
    PreOrderAllFrame(fs, gs, fs[f].stamp, Ascending(fs[f].children));
  }

  lemma {:induction false} PreOrderAllFrame(fs: Slab, gs: Slab, stamp: nat, cs: seq<nat>)
    requires Shape(fs) && Shape(gs) && SameLinks(fs, gs)
    requires forall c :: c in cs ==> c in fs && fs[c].stamp > stamp
    ensures PreOrderAll(fs, stamp, cs) == PreOrderAll(gs, stamp, cs)
    decreases LaterThan(fs, stamp), 0, |cs|
  {
    if cs != [] {
      assert cs[0] in LaterThan(fs, stamp) && cs[0] !in LaterThan(fs, fs[cs[0]].stamp);
      PreOrderFrame(fs, gs, cs[0]);
      PreOrderAllFrame(fs, gs, stamp, cs[1..]);
    }
  }

  lemma {:induction false} PreOrderAllAppend(fs: Slab, stamp: nat, cs: seq<nat>, c: nat)
    requires Shape(fs) && (forall d :: d in cs ==> d in fs && fs[d].stamp > stamp) && c in fs && fs[c].stamp > stamp
    ensures PreOrderAll(fs, stamp, cs + [c]) == PreOrderAll(fs, stamp, cs) + PreOrder(fs, c)
  {
    if cs == [] {
      assert cs + [c] == [c];
      assert PreOrderAll(fs, stamp, []) == [];
      assert PreOrderAll(fs, stamp, [c]) == PreOrder(fs, c) + PreOrderAll(fs, stamp, [c][1..]);
    } else {
      PreOrderAllAppend(fs, stamp, cs[1..], c);
      assert (cs + [c])[1..] == cs[1..] + [c];
    }
  }
}
