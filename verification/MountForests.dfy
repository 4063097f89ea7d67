/** When the native objects form a forest: walks up end, and moving a subtree keeps that exactly when
    it does not move below itself. */
module MountForests {
  import opened Wrappers
  import opened MountModel

  /** No cycles: each parent is of lower rank, so that walks up end. */
  ghost predicate Ranked(f: Forest, rank: Obj -> nat) {
    forall o :: o in f.widgets && f.widgets[o].parent in f.widgets ==> rank(f.widgets[o].parent) < rank(o)
  }

  ghost function NoHigher(f: Forest, rank: Obj -> nat, o: Obj): set<Obj> {
    set w | w in f.widgets && rank(w) <= rank(o)
  }

  /** Where parents never form a cycle, no walk is cut short: any number of steps from the number
      of objects on finds the same. */
  lemma {:induction false} WalkIsLongEnough(f: Forest, rank: Obj -> nat, o: Obj, a: Obj, m: nat, n: nat)
    requires Ranked(f, rank) && |NoHigher(f, rank, o)| <= m && |NoHigher(f, rank, o)| <= n
    ensures Reaches(f, o, a, m) <==> Reaches(f, o, a, n)
    decreases m
  {
    if o in f.widgets && o != a {
      assert o in NoHigher(f, rank, o);
      var p := f.widgets[o].parent;
      if p in f.widgets {
        assert NoHigher(f, rank, p) <= NoHigher(f, rank, o) - {o};
        Smaller(NoHigher(f, rank, p), NoHigher(f, rank, o), o);
        WalkIsLongEnough(f, rank, p, a, m - 1, n - 1);
      }
    }
  }

  lemma Smaller(a: set<Obj>, b: set<Obj>, o: Obj)
    requires a <= b - {o} && o in b
    ensures |a| < |b|
  {
    Subset(a, b - {o});
  }

  lemma {:induction false} Subset(a: set<Obj>, b: set<Obj>)
    requires a <= b
    ensures |a| <= |b|
    decreases a
  {
    if a != {} {
      var o :| o in a;
      Subset(a - {o}, b - {o});
    }
  }

  /** The bound on the walk, the number of objects, is no restriction where there is no cycle. */
  lemma UnderIsUnbounded(f: Forest, rank: Obj -> nat, o: Obj, a: Obj, steps: nat)
    requires Ranked(f, rank) && |f.widgets| <= steps
    ensures Under(f, o, a) <==> Reaches(f, o, a, steps)
  {
    Subset(NoHigher(f, rank, o), f.widgets.Keys);
    WalkIsLongEnough(f, rank, o, a, |f.widgets|, steps);
  }

  ghost predicate Acyclic(f: Forest) {
    exists rank: Obj -> nat :: Ranked(f, rank)
  }

  /** An object lies under `a` exactly when its parent does. */
  lemma ParentUnder(f: Forest, rank: Obj -> nat, o: Obj, a: Obj)
    requires Ranked(f, rank) && o in f.widgets && o != a
    ensures Under(f, o, a) <==> Under(f, f.widgets[o].parent, a)
  {
    var p := f.widgets[o].parent;
    assert Reaches(f, o, a, |f.widgets|) <==> |f.widgets| > 0 && Reaches(f, p, a, |f.widgets| - 1);
    if p in f.widgets {
      assert o in NoHigher(f, rank, o);
      assert NoHigher(f, rank, p) <= NoHigher(f, rank, o) - {o};
      Smaller(NoHigher(f, rank, p), NoHigher(f, rank, o), o);
      Subset(NoHigher(f, rank, o), f.widgets.Keys);
      assert |f.widgets.Keys| == |f.widgets|;
      WalkIsLongEnough(f, rank, p, a, |f.widgets| - 1, |f.widgets|);
    }
  }

  /** Moving a subtree elsewhere: what was below it now ranks above its new parent. */
  lemma ReparentRanks(f: Forest, rank: Obj -> nat, o: Obj, parent: Obj, index: nat)
    requires Ranked(f, rank) && o in f.widgets && !Under(f, parent, o)
    ensures Acyclic(Reparent(f, o, parent, index))
  {
    var g := Reparent(f, o, parent, index);
    var shifted: Obj -> nat := w => if Under(f, w, o) then rank(w) + rank(parent) + 1 else rank(w);
    forall w | w in g.widgets && g.widgets[w].parent in g.widgets
      ensures shifted(g.widgets[w].parent) < shifted(w)
    {
      if w != o {
        ParentUnder(f, rank, w, o);
      }
    }
    assert Ranked(g, shifted);
  }

  /** Walking up to `o` goes down in rank also after `o` was moved. */
  lemma {:induction false} WalkRanks(f: Forest, o: Obj, parent: Obj, index: nat, rank: Obj -> nat, w: Obj, steps: nat)
    requires o in f.widgets && Ranked(Reparent(f, o, parent, index), rank) && Reaches(f, w, o, steps)
    ensures rank(o) <= rank(w)
    decreases steps
  {
    if w != o {
      assert Reparent(f, o, parent, index).widgets[w] == f.widgets[w];
      WalkRanks(f, o, parent, index, rank, f.widgets[w].parent, steps - 1);
    }
  }

  /** Putting an object under another keeps the objects free of cycles exactly when the other is
      not in its subtree: what a move's preflight checks, and an insert's does not. */
  lemma ReparentAcyclic(f: Forest, o: Obj, parent: Obj, index: nat)
    requires Acyclic(f) && o in f.widgets
    ensures Acyclic(Reparent(f, o, parent, index)) <==> !Under(f, parent, o)
  {
    var rank: Obj -> nat :| Ranked(f, rank);
    if !Under(f, parent, o) {
      ReparentRanks(f, rank, o, parent, index);
    } else if Acyclic(Reparent(f, o, parent, index)) {
      var after: Obj -> nat :| Ranked(Reparent(f, o, parent, index), after);
      var g := Reparent(f, o, parent, index);
      assert g.widgets[o].parent == parent && parent in g.widgets;
      WalkRanks(f, o, parent, index, after, parent, |f.widgets|);
      assert false;
    }
  }
}
