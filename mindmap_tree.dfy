/** The hierarchy behind the mind map, as an arena of nodes numbered from the
    root (0). A node's identity (`d.data` in the component) is its index. */
module MindMapTree {
  import opened Common

  /** A node's two child arrays: `children`, which the layout follows, and
      `_children`, where a collapse parks them. None is null or undefined. */
  datatype Kids = Kids(shown: Option<seq<nat>>, hidden: Option<seq<nat>>)

  predicate ListWithin(n: nat, p: nat, o: Option<seq<nat>>) {
    o.Some? ==> forall j :: 0 <= j < |o.value| ==> p < o.value[j] < n
  }

  /** Every child listed by node p has an index above p and inside the arena,
      so walking down the hierarchy always terminates. */
  predicate Ordered(ks: seq<Kids>) {
    forall p :: 0 <= p < |ks| ==> ListWithin(|ks|, p, ks[p].shown) && ListWithin(|ks|, p, ks[p].hidden)
  }

  /** At most one of the two arrays is set. */
  predicate Exclusive(k: Kids) {
    !(k.shown.Some? && k.hidden.Some?)
  }

  /** The children a node owns, whether currently shown or hidden. */
  function Owned(k: Kids): seq<nat> {
    if k.shown.Some? then k.shown.value else if k.hidden.Some? then k.hidden.value else []
  }

  /** Every node has at most one parent: `d3.hierarchy` builds a fresh node
      object for each datum it visits. */
  predicate UniqueOwner(ks: seq<Kids>) {
    forall p, q, c :: 0 <= p < |ks| && 0 <= q < |ks| && c in Owned(ks[p]) && c in Owned(ks[q]) ==> p == q
  }

  // ---------------------------------------------------------------------
  // Expand / collapse (the click handler's swap)

  /** The click toggle: a node with `children` parks them in `_children`;
      any other node gets `_children` back as `children` and clears `_children`. */
  function Flip(k: Kids): (r: Kids)
    requires Exclusive(k)
    ensures Exclusive(r) && Owned(r) == Owned(k)
    ensures k.shown.Some? ==> r.shown.None? && r.hidden == k.shown
    ensures k.shown.None? ==> r.shown == k.hidden && r.hidden.None?
  {
    if k.shown.Some? then Kids(None, k.shown) else Kids(k.hidden, None)
  }

  /** Toggling twice restores the original pair. */
  lemma FlipTwice(k: Kids)
    requires Exclusive(k)
    ensures Flip(Flip(k)) == k
  {
  }

  /** Toggling a leaf leaves it without visible children. */
  lemma FlipLeaf(k: Kids)
    requires k.shown.None? && k.hidden.None?
    ensures Flip(k).shown.None? && Flip(k).hidden.None?
  {
  }

  // ---------------------------------------------------------------------
  // The visible hierarchy (what `d3.tree` lays out and `descendants()` lists)

  predicate IsShownChild(ks: seq<Kids>, p: nat, c: nat)
    requires p < |ks|
  {
    ks[p].shown.Some? && c in ks[p].shown.value
  }

  /** The nodes reachable from `k` through `children` arrays, in pre-order. */
  function Visible(ks: seq<Kids>, k: nat): (vs: seq<nat>)
    requires Ordered(ks) && k < |ks|
    ensures |vs| >= 1 && vs[0] == k
    ensures forall j :: 0 <= j < |vs| ==> k <= vs[j] < |ks|
    ensures forall j :: 1 <= j < |vs| ==> k < vs[j]
    decreases |ks| - k, 1, 0
  {
    [k] + (if ks[k].shown.Some? then VisibleUnder(ks, k, ks[k].shown.value) else [])
  }

  /** The visible nodes under the children `cs` of `p`, subtree after subtree. */
  function VisibleUnder(ks: seq<Kids>, p: nat, cs: seq<nat>): (vs: seq<nat>)
    requires Ordered(ks) && p < |ks|
    requires forall j :: 0 <= j < |cs| ==> p < cs[j] < |ks|
    ensures forall j :: 0 <= j < |vs| ==> p < vs[j] < |ks|
    ensures forall q :: q in vs <==> exists j :: 0 <= j < |cs| && q in Visible(ks, cs[j])
    decreases |ks| - p, 0, |cs|
  {
    if cs == [] then []
    else
      var rest := VisibleUnder(ks, p, cs[1..]);
      assert forall q :: q in rest <==> exists j :: 1 <= j < |cs| && q in Visible(ks, cs[j]) by {
        forall q | q in rest ensures exists j :: 1 <= j < |cs| && q in Visible(ks, cs[j]) {
          var j' :| 0 <= j' < |cs[1..]| && q in Visible(ks, cs[1..][j']);
          assert q in Visible(ks, cs[j' + 1]);
        }
        forall q | exists j :: 1 <= j < |cs| && q in Visible(ks, cs[j]) ensures q in rest {
          var j :| 1 <= j < |cs| && q in Visible(ks, cs[j]);
          assert cs[1..][j - 1] == cs[j];
        }
      }
      Visible(ks, cs[0]) + rest
  }

  lemma VisibleMembers(ks: seq<Kids>, k: nat, q: nat)
    requires Ordered(ks) && k < |ks|
    ensures q in Visible(ks, k) <==>
      q == k || (ks[k].shown.Some? && exists j :: 0 <= j < |ks[k].shown.value| && q in Visible(ks, ks[k].shown.value[j]))
  {
  }

  /** Exhaustive: every child in the `children` array of a visible node is visible. */
  lemma {:induction false} VisibleClosed(ks: seq<Kids>, k: nat, p: nat, c: nat)
    requires Ordered(ks) && k < |ks| && p < |ks|
    requires p in Visible(ks, k) && IsShownChild(ks, p, c)
    ensures c in Visible(ks, k)
    decreases |ks| - k
  {
    var cs := ks[p].shown.value;
    var i :| 0 <= i < |cs| && cs[i] == c;
    if p == k {
      VisibleMembers(ks, k, c);
      assert c in Visible(ks, cs[i]);
    } else {
      VisibleMembers(ks, k, p);
      var ks0 := ks[k].shown.value;
      var j :| 0 <= j < |ks0| && p in Visible(ks, ks0[j]);
      VisibleClosed(ks, ks0[j], p, c);
      VisibleMembers(ks, k, c);
    }
  }

  /** Exclusive: every visible node other than `k` is in the `children` array
      of a visible node, so nothing is visible except through `children`. */
  lemma {:induction false} VisibleSupported(ks: seq<Kids>, k: nat, q: nat)
    requires Ordered(ks) && k < |ks|
    requires q in Visible(ks, k) && q != k
    ensures exists p :: p in Visible(ks, k) && IsShownChild(ks, p, q)
    decreases |ks| - k
  {
    VisibleMembers(ks, k, q);
    var cs := ks[k].shown.value;
    var j :| 0 <= j < |cs| && q in Visible(ks, cs[j]);
    if q == cs[j] {
      assert IsShownChild(ks, k, q);
    } else {
      VisibleSupported(ks, cs[j], q);
      var p :| p in Visible(ks, cs[j]) && IsShownChild(ks, p, q);
      VisibleMembers(ks, k, p);
    }
  }

  /** A collapsed node's children are hidden: if `c` is owned by `q` alone and
      `q` has parked its children, `c` is not visible. */
  lemma CollapsedChildHidden(ks: seq<Kids>, k: nat, q: nat, c: nat)
    requires Ordered(ks) && k < |ks| && q < |ks| && c != k
    requires ks[q].shown.None?
    requires forall p :: 0 <= p < |ks| && p != q ==> c !in Owned(ks[p])
    ensures c !in Visible(ks, k)
  {
    if c in Visible(ks, k) {
      VisibleSupported(ks, k, c);
      assert false;
    }
  }

  /** The click's swap on node k keeps the arena well formed, every node keeps
      the children it owns, a collapse hides all of k's children and an
      expansion of a visible k shows them all. */
  lemma ToggleVisibility(ks: seq<Kids>, k: nat)
    requires Ordered(ks) && UniqueOwner(ks) && k < |ks| && Exclusive(ks[k])
    ensures Ordered(ks[k := Flip(ks[k])]) && UniqueOwner(ks[k := Flip(ks[k])])
    ensures forall p :: 0 <= p < |ks| ==> Owned(ks[k := Flip(ks[k])][p]) == Owned(ks[p])
    ensures ks[k].shown.Some? ==> forall c :: c in Owned(ks[k]) ==> c !in Visible(ks[k := Flip(ks[k])], 0)
    ensures ks[k].shown.None? && k in Visible(ks[k := Flip(ks[k])], 0) ==>
      forall c :: c in Owned(ks[k]) ==> c in Visible(ks[k := Flip(ks[k])], 0)
  {
    var ks' := ks[k := Flip(ks[k])];
    assert forall p :: 0 <= p < |ks| ==> Owned(ks'[p]) == Owned(ks[p]);
    forall c | c in Owned(ks[k]) ensures ks[k].shown.Some? ==> c !in Visible(ks', 0) {
      if ks[k].shown.Some? {
        CollapsedChildHidden(ks', 0, k, c);
      }
    }
    forall c | c in Owned(ks[k]) && k in Visible(ks', 0) ensures ks[k].shown.None? ==> c in Visible(ks', 0) {
      if ks[k].shown.None? {
        VisibleClosed(ks', 0, k, c);
      }
    }
  }

  // ---------------------------------------------------------------------
  // findParent (go-back)

  /** `findParent(node, target)`: depth-first, children in order, the first node
      whose `children` array holds `target`; None when there is none. */
  function FindParent(ks: seq<Kids>, node: nat, target: nat): (r: Option<nat>)
    requires Ordered(ks) && node < |ks|
    ensures r.Some? ==> r.value < |ks| && r.value in Visible(ks, node) && IsShownChild(ks, r.value, target)
    ensures r.None? ==> forall p :: p in Visible(ks, node) ==> !IsShownChild(ks, p, target)
    decreases |ks| - node, 1, 0
  {
    if ks[node].shown.None? then None
    else
      var r := FindParentAmong(ks, node, ks[node].shown.value, target);
      assert r.None? ==> forall p :: p in Visible(ks, node) ==> !IsShownChild(ks, p, target) by {
        if r.None? {
          forall p | p in Visible(ks, node) ensures !IsShownChild(ks, p, target) {
            VisibleMembers(ks, node, p);
          }
        }
      }
      r
  }

  /** The loop of `findParent` over the children `cs` of `node`. */
  function FindParentAmong(ks: seq<Kids>, node: nat, cs: seq<nat>, target: nat): (r: Option<nat>)
    requires Ordered(ks) && node < |ks|
    requires forall j :: 0 <= j < |cs| ==> node < cs[j] < |ks|
    ensures r.Some? ==>
      && r.value < |ks|
      && ((r.value == node && target in cs) ||
          (exists j :: 0 <= j < |cs| && r.value in Visible(ks, cs[j]) && IsShownChild(ks, r.value, target)))
    ensures r.None? ==>
      && target !in cs
      && forall j, p :: 0 <= j < |cs| && p in Visible(ks, cs[j]) ==> !IsShownChild(ks, p, target)
    decreases |ks| - node, 0, |cs|
  {
    if cs == [] then None
    else if cs[0] == target then Some(node)
    else
      match FindParent(ks, cs[0], target)
      case Some(p) => Some(p)
      case None =>
        var r := FindParentAmong(ks, node, cs[1..], target);
        assert r.Some? && r.value != node ==>
          exists j :: 0 <= j < |cs| && r.value in Visible(ks, cs[j]) && IsShownChild(ks, r.value, target) by {
          if r.Some? && r.value != node {
            var j :| 0 <= j < |cs[1..]| && r.value in Visible(ks, cs[1..][j]) && IsShownChild(ks, r.value, target);
            assert cs[1..][j] == cs[j + 1];
          }
        }
        assert r.None? ==> forall j, p :: 0 <= j < |cs| && p in Visible(ks, cs[j]) ==> !IsShownChild(ks, p, target) by {
          if r.None? {
            forall j, p | 0 <= j < |cs| && p in Visible(ks, cs[j]) ensures !IsShownChild(ks, p, target) {
              if j > 0 {
                assert cs[1..][j - 1] == cs[j];
              }
            }
          }
        }
        r
  }

  /** The loop returns at the first child that either is the target (giving
      `node` itself) or has the target's parent in its subtree (giving that
      parent): children before it are passed over. */
  lemma FindParentAmongFirst(ks: seq<Kids>, node: nat, cs: seq<nat>, target: nat, j: nat)
    requires Ordered(ks) && node < |ks|
    requires forall i :: 0 <= i < |cs| ==> node < cs[i] < |ks|
    requires j < |cs|
    requires forall i :: 0 <= i < j ==> cs[i] != target && FindParent(ks, cs[i], target).None?
    ensures cs[j] == target ==> FindParentAmong(ks, node, cs, target) == Some(node)
    ensures cs[j] != target && FindParent(ks, cs[j], target).Some? ==>
      FindParentAmong(ks, node, cs, target) == FindParent(ks, cs[j], target)
  {
    FindParentAmongSkip(ks, node, cs, target, j);
    assert cs[j..][0] == cs[j];
  }

  /** Children that neither are the target nor lead to its parent are passed over. */
  lemma {:induction false} FindParentAmongSkip(ks: seq<Kids>, node: nat, cs: seq<nat>, target: nat, j: nat)
    requires Ordered(ks) && node < |ks|
    requires forall i :: 0 <= i < |cs| ==> node < cs[i] < |ks|
    requires j <= |cs|
    requires forall i :: 0 <= i < j ==> cs[i] != target && FindParent(ks, cs[i], target).None?
    ensures FindParentAmong(ks, node, cs, target) == FindParentAmong(ks, node, cs[j..], target)
  {
    if j > 0 {
      var rest := cs[1..];
      assert cs[0] != target && FindParent(ks, cs[0], target).None?;
      assert FindParentAmong(ks, node, cs, target) == FindParentAmong(ks, node, rest, target);
      forall i | 0 <= i < j - 1 ensures rest[i] != target && FindParent(ks, rest[i], target).None? {
        assert rest[i] == cs[i + 1];
      }
      FindParentAmongSkip(ks, node, rest, target, j - 1);
      assert rest[j - 1..] == cs[j..];
    }
  }

  /** Every node has at most one parent, so go-back finds exactly the visible
      node whose `children` hold the target. */
  lemma FindParentUnique(ks: seq<Kids>, p: nat, target: nat)
    requires Ordered(ks) && UniqueOwner(ks) && |ks| > 0 && p < |ks|
    requires p in Visible(ks, 0) && IsShownChild(ks, p, target)
    ensures FindParent(ks, 0, target) == Some(p)
  {
    var r := FindParent(ks, 0, target);
    assert r.Some?;
    assert target in Owned(ks[r.value]) && target in Owned(ks[p]);
  }

  /** The root is nobody's child: from the root, go-back finds no parent. */
  lemma RootHasNoParent(ks: seq<Kids>)
    requires Ordered(ks) && |ks| > 0
    ensures FindParent(ks, 0, 0) == None
  {
  }

  // ---------------------------------------------------------------------
  // The keyed join (`selection.data(nodes, key)`)

  /** The enter, update and exit groups of a keyed join. */
  datatype Split = Split(enter: set<nat>, update: set<nat>, exit: set<nat>)

  /** Classifies keys: new only (enter), both (update), old only (exit). */
  function Join(before: set<nat>, after: set<nat>): (s: Split)
    ensures s.enter !! s.update && s.update !! s.exit && s.enter !! s.exit
    ensures s.enter + s.update == after && s.update + s.exit == before
  {
    Split(after - before, after * before, before - after)
  }

  /** The partition determines the join: any three pairwise disjoint groups
      that cover `after` (enter, update) and `before` (update, exit) are the join. */
  lemma JoinUnique(before: set<nat>, after: set<nat>, s: Split)
    requires s.enter !! s.update && s.update !! s.exit && s.enter !! s.exit
    requires s.enter + s.update == after && s.update + s.exit == before
    ensures s == Join(before, after)
  {
  }

  /** Links are keyed by their target, so when the link keys are the node
      keys without the root's key, before and after, the link join is the
      node join without the root's key. */
  lemma LinkJoinFollowsNodes(before: set<nat>, after: set<nat>, root: nat)
    ensures Join(before - {root}, after - {root}) ==
      Split(Join(before, after).enter - {root}, Join(before, after).update - {root}, Join(before, after).exit - {root})
  {
  }

  /** The keys bound to the nodes `vs`. */
  function KeysOf(id: seq<nat>, vs: seq<nat>): (keys: set<nat>)
    requires forall j :: 0 <= j < |vs| ==> vs[j] < |id|
    ensures forall j :: 0 <= j < |vs| ==> id[vs[j]] in keys
    ensures forall key :: key in keys ==> exists j :: 0 <= j < |vs| && id[vs[j]] == key
  {
    set j | 0 <= j < |vs| :: id[vs[j]]
  }
}
