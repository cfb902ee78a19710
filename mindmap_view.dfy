/** The mind-map component's view state: the D3 hierarchy nodes with their
    child arrays, keys and positions, the key counter of the current effect run,
    the keys bound to the drawn nodes and links, and the current and selected
    records. */
module MindMapView {
  import opened Common
  import opened MindMapTree

  /** Horizontal distance between tree levels. */
  const LevelWidth: int := 180
  /** `height / 2` for the 800-pixel canvas minus the top and bottom margins. */
  const RootStartX: int := 375

  datatype Point = Point(x: int, y: int)

  /** What one `update(source)` hands to the renderer: the node and link joins,
      where entering shapes start, and where exiting shapes go. */
  datatype Transition = Transition(nodes: Split, links: Split, enterFrom: Point, exitTo: Point)

  /** Distinct nodes never share a key. */
  ghost predicate KeysDistinct(id: seq<nat>) {
    forall a, b :: 0 <= a < |id| && 0 <= b < |id| && a != b && id[a] != 0 && id[b] != 0 ==> id[a] != id[b]
  }

  /** Every key handed out so far is at most the counter. */
  ghost predicate KeysBelow(id: seq<nat>, counter: nat) {
    forall a :: 0 <= a < |id| ==> id[a] <= counter
  }

  /** The key function's effect on the listed nodes, from keys `id0` and
      counter `counter0` to keys `id` and counter `counter`: a node that had a
      key keeps it, every listed node has one, unlisted nodes are untouched,
      fresh keys come from this run of the counter and differ from each other,
      and within one effect run (keys never above the counter) all keys stay
      distinct. */
  ghost predicate Keyed(nodes: seq<nat>, id0: seq<nat>, counter0: nat, id: seq<nat>, counter: nat) {
    && |id| == |id0| && counter >= counter0
    && (forall q :: 0 <= q < |id| && id0[q] != 0 ==> id[q] == id0[q])
    && (forall q :: 0 <= q < |id| && q in nodes ==> id[q] != 0)
    && (forall q :: 0 <= q < |id| && q !in nodes ==> id[q] == id0[q])
    && (forall q :: 0 <= q < |id| && id0[q] == 0 && id[q] != 0 ==> counter0 < id[q] <= counter)
    && (forall a, b ::
          0 <= a < |id| && 0 <= b < |id| && a != b && id0[a] == 0 && id0[b] == 0 && id[a] != 0 && id[b] != 0
          ==> id[a] != id[b])
    && (KeysDistinct(id0) && KeysBelow(id0, counter0) ==> KeysDistinct(id) && KeysBelow(id, counter))
  }

  /** The listed nodes move from `x1`, `y1` to the layout's x and their
      level's y; every other node keeps its position. */
  ghost predicate Placed(nodes: seq<nat>, layoutX: seq<int>, depth: seq<nat>, x1: seq<int>, y1: seq<int>, x: seq<int>, y: seq<int>) {
    && |x| == |y| == |depth| == |layoutX| == |x1| == |y1|
    && forall q :: 0 <= q < |x| ==>
      if q in nodes then x[q] == layoutX[q] && y[q] == depth[q] * LevelWidth
      else x[q] == x1[q] && y[q] == y1[q]
  }

  /** The listed nodes remember their position `x`, `y`; every other node
      keeps its remembered position: `x01`, `y01` become `x0`, `y0`. */
  ghost predicate Remembered(nodes: seq<nat>, x: seq<int>, y: seq<int>, x01: seq<int>, y01: seq<int>, x0: seq<int>, y0: seq<int>) {
    && |x0| == |y0| == |x| == |y| == |x01| == |y01|
    && forall q :: 0 <= q < |x0| ==>
      if q in nodes then x0[q] == x[q] && y0[q] == y[q]
      else x0[q] == x01[q] && y0[q] == y01[q]
  }

  /** One step of the key function: node q gets the next key unless it has one. */
  lemma KeyedStep(nodes: seq<nat>, q: nat, id0: seq<nat>, counter0: nat, id: seq<nat>, counter: nat)
    requires Keyed(nodes, id0, counter0, id, counter) && q < |id|
    ensures id[q] == 0 ==> Keyed(nodes + [q], id0, counter0, id[q := counter + 1], counter + 1)
    ensures id[q] != 0 ==> Keyed(nodes + [q], id0, counter0, id, counter)
  {
    if id[q] == 0 {
      var id' := id[q := counter + 1];
      assert id0[q] == 0;
      if KeysDistinct(id0) && KeysBelow(id0, counter0) {
        assert KeysBelow(id', counter + 1);
        forall a, b | 0 <= a < |id'| && 0 <= b < |id'| && a != b && id'[a] != 0 && id'[b] != 0
          ensures id'[a] != id'[b]
        {
          if a != q && b != q {
            assert id'[a] == id[a] && id'[b] == id[b];
          }
        }
      }
    }
  }

  /** The key function applied to `nodes` in order: a node without a key
      takes the next value of the counter. */
  method KeyNodes(nodes: seq<nat>, id0: seq<nat>, counter0: nat) returns (keys: seq<nat>, count: nat)
    requires forall j :: 0 <= j < |nodes| ==> nodes[j] < |id0|
    ensures Keyed(nodes, id0, counter0, keys, count)
  {
    keys, count := id0, counter0;
    for j := 0 to |nodes|
      invariant Keyed(nodes[..j], id0, counter0, keys, count)
    {
      var q := nodes[j];
      KeyedStep(nodes[..j], q, id0, counter0, keys, count);
      if keys[q] == 0 {
        count := count + 1;
        keys := keys[q := count];
      }
      assert nodes[..j + 1] == nodes[..j] + [q];
    }
    assert nodes[..|nodes|] == nodes;
  }

  /** With distinct keys, the keys of every node but the first are the keys
      of all nodes without the first node's key. */
  lemma LinkKeysAreNodeKeys(id: seq<nat>, nodes: seq<nat>)
    requires nodes != [] && forall j :: 0 <= j < |nodes| ==> nodes[j] < |id| && id[nodes[j]] != 0
    requires forall j :: 1 <= j < |nodes| ==> nodes[j] != nodes[0]
    requires KeysDistinct(id)
    ensures KeysOf(id, nodes[1..]) == KeysOf(id, nodes) - {id[nodes[0]]}
  {
    forall key | key in KeysOf(id, nodes[1..]) ensures key in KeysOf(id, nodes) - {id[nodes[0]]} {
      var j :| 0 <= j < |nodes[1..]| && id[nodes[1..][j]] == key;
      assert nodes[1..][j] == nodes[j + 1];
    }
    forall key | key in KeysOf(id, nodes) - {id[nodes[0]]} ensures key in KeysOf(id, nodes[1..]) {
      var j :| 0 <= j < |nodes| && id[nodes[j]] == key;
      assert j != 0;
      assert nodes[1..][j - 1] == nodes[j];
    }
  }

  /** The link keys and the link join of one update, given distinct keys:
      the root's key drops out of both. */
  lemma LinkJoin(id: seq<nat>, nodes: seq<nat>, nodeKeys0: set<nat>, linkKeys0: set<nat>)
    requires nodes != [] && forall j :: 0 <= j < |nodes| ==> nodes[j] < |id| && id[nodes[j]] != 0
    requires forall j :: 1 <= j < |nodes| ==> nodes[j] != nodes[0]
    ensures KeysDistinct(id) ==> KeysOf(id, nodes[1..]) == KeysOf(id, nodes) - {id[nodes[0]]}
    ensures KeysDistinct(id) && linkKeys0 == nodeKeys0 - {id[nodes[0]]} ==>
      var n := Join(nodeKeys0, KeysOf(id, nodes));
      Join(linkKeys0, KeysOf(id, nodes[1..])) == Split(n.enter - {id[nodes[0]]}, n.update - {id[nodes[0]]}, n.exit - {id[nodes[0]]})
  {
    if KeysDistinct(id) {
      LinkKeysAreNodeKeys(id, nodes);
      LinkJoinFollowsNodes(nodeKeys0, KeysOf(id, nodes), id[nodes[0]]);
    }
  }

  class MindMap {
    /** `children` / `_children` of each hierarchy node. */
    var kids: seq<Kids>
    /** `d.depth`, fixed when the hierarchy is built. */
    const depth: seq<nat>
    /** `d.id`; 0 stands for "not yet keyed" (the key function never hands out 0). */
    var id: seq<nat>
    var x: seq<int>
    var y: seq<int>
    var x0: seq<int>
    var y0: seq<int>
    /** The counter `i` the current effect run's closures share. */
    var counter: nat
    /** Keys bound to the `g.node` elements on screen. */
    var nodeKeys: set<nat>
    /** Keys bound to the `path.link` elements on screen. */
    var linkKeys: set<nat>
    var currentRoot: Option<nat>
    var selected: Option<nat>

    ghost predicate Valid()
      reads this
    {
      && |kids| >= 1
      && Ordered(kids)
      && |depth| == |id| == |x| == |y| == |x0| == |y0| == |kids|
      && depth[0] == 0
      && (forall p :: 0 <= p < |kids| ==> Exclusive(kids[p]))
      && UniqueOwner(kids)
      && (forall p, j :: 0 <= p < |kids| && 0 <= j < |Owned(kids[p])| ==> depth[Owned(kids[p])[j]] == depth[p] + 1)
      && (currentRoot.Some? ==> currentRoot.value < |kids|)
      && (selected.Some? ==> selected.value < |kids|)
    }

    /** The hierarchy as `d3.hierarchy(data)` builds it: node 0 is the root,
        `children[p]` lists p's children (a leaf gets no `children` array), and
        the root starts at (height / 2, 0). `currentRoot` is set when the data
        record has a non-empty name. */
    constructor (children: seq<seq<nat>>, depths: seq<nat>, rootName: string)
      requires |children| >= 1 && |depths| == |children| && depths[0] == 0
      requires forall p, j :: 0 <= p < |children| && 0 <= j < |children[p]| ==>
        p < children[p][j] < |children| && depths[children[p][j]] == depths[p] + 1
      requires forall p, q, c :: 0 <= p < |children| && 0 <= q < |children| && c in children[p] && c in children[q] ==> p == q
      ensures Valid() && |kids| == |children|
      ensures forall p :: 0 <= p < |kids| ==>
        kids[p] == Kids(if children[p] == [] then None else Some(children[p]), None)
      ensures depth == depths && id == seq(|children|, _ => 0) && counter == 0
      ensures x0[0] == RootStartX && y0[0] == 0
      ensures nodeKeys == {} && linkKeys == {} && selected == None
      ensures currentRoot == if rootName != [] then Some(0) else None
    {
      var n := |children|;
      kids := seq(n, p requires 0 <= p < n => Kids(if children[p] == [] then None else Some(children[p]), None));
      depth := depths;
      id := seq(n, _ => 0);
      x := seq(n, _ => 0);
      y := seq(n, _ => 0);
      x0 := seq(n, p => if p == 0 then RootStartX else 0);
      y0 := seq(n, _ => 0);
      counter := 0;
      nodeKeys := {};
      linkKeys := {};
      currentRoot := if rootName != [] then Some(0) else None;
      selected := None;
      new;
      assert forall p :: 0 <= p < n ==> Owned(kids[p]) == children[p];
    }

    /** The visible nodes, as `treeData.descendants()` lists them (pre-order here). */
    function VisibleNodes(): (vs: seq<nat>)
      reads this`kids
      requires Ordered(kids) && |kids| >= 1
      ensures |vs| >= 1 && vs[0] == 0
      ensures forall j :: 0 <= j < |vs| ==> vs[j] < |kids|
      ensures forall j :: 1 <= j < |vs| ==> vs[j] != 0
    {
      Visible(kids, 0)
    }

    /** The keyed join's key function over the visible nodes:
        `d.id || (d.id = ++i)`. */
    method AssignKeys(nodes: seq<nat>)
      requires Valid()
      requires forall j :: 0 <= j < |nodes| ==> nodes[j] < |kids|
      modifies this`id, this`counter
      ensures Valid()
      ensures Keyed(nodes, old(id), old(counter), id, counter)
    {
      id, counter := KeyNodes(nodes, id, counter);
    }

    /** Lines 46-49: the layout's x for each visible node, and y at its depth. */
    method PlaceNodes(nodes: seq<nat>, layoutX: seq<int>)
      requires Valid() && |layoutX| == |kids|
      requires forall j :: 0 <= j < |nodes| ==> nodes[j] < |kids|
      modifies this`x, this`y
      ensures Valid()
      ensures Placed(nodes, layoutX, depth, old(x), old(y), x, y)
    {
      for j := 0 to |nodes|
        invariant Valid()
        invariant forall q :: 0 <= q < |kids| ==>
          if q in nodes[..j] then x[q] == layoutX[q] && y[q] == depth[q] * LevelWidth
          else x[q] == old(x[q]) && y[q] == old(y[q])
      {
        var q := nodes[j];
        x := x[q := layoutX[q]];
        y := y[q := depth[q] * LevelWidth];
        assert nodes[..j + 1] == nodes[..j] + [q];
      }
      assert nodes[..|nodes|] == nodes;
    }

    /** Lines 101-104: every visible node remembers where it now is. */
    method RememberPositions(nodes: seq<nat>)
      requires Valid()
      requires forall j :: 0 <= j < |nodes| ==> nodes[j] < |kids|
      modifies this`x0, this`y0
      ensures Valid()
      ensures Remembered(nodes, x, y, old(x0), old(y0), x0, y0)
    {
      for j := 0 to |nodes|
        invariant Valid()
        invariant forall q :: 0 <= q < |kids| ==>
          if q in nodes[..j] then x0[q] == x[q] && y0[q] == y[q]
          else x0[q] == old(x0[q]) && y0[q] == old(y0[q])
      {
        var q := nodes[j];
        x0 := x0[q := x[q]];
        y0 := y0[q := y[q]];
        assert nodes[..j + 1] == nodes[..j] + [q];
      }
      assert nodes[..|nodes|] == nodes;
    }

    /** `update(source)`: lay out the visible hierarchy, key its nodes, join
        nodes and links against what is on screen, and remember positions.
        `layoutX` is the x the tree layout computes for each node. */
    method Update(source: nat, layoutX: seq<int>) returns (t: Transition)
      requires Valid() && source < |kids| && |layoutX| == |kids|
      modifies this`id, this`counter, this`x, this`y, this`x0, this`y0, this`nodeKeys, this`linkKeys
      ensures Valid()
      ensures Keyed(VisibleNodes(), old(id), old(counter), id, counter)
      ensures Placed(VisibleNodes(), layoutX, depth, old(x), old(y), x, y)
      ensures Remembered(VisibleNodes(), x, y, old(x0), old(y0), x0, y0)
      ensures nodeKeys == KeysOf(id, VisibleNodes())
      ensures linkKeys == KeysOf(id, VisibleNodes()[1..])
      ensures t.nodes == Join(old(nodeKeys), nodeKeys)
      ensures t.links == Join(old(linkKeys), linkKeys)
      ensures t.enterFrom == Point(old(x0[source]), old(y0[source]))
      ensures t.exitTo == Point(x[source], y[source])
      // links are keyed by their target: every visible node but the root
      ensures KeysDistinct(id) ==> linkKeys == nodeKeys - {id[0]}
      ensures KeysDistinct(id) && old(linkKeys) == old(nodeKeys) - {id[0]} ==>
        t.links == Split(t.nodes.enter - {id[0]}, t.nodes.update - {id[0]}, t.nodes.exit - {id[0]})
    {
      var nodes := VisibleNodes();
      PlaceNodes(nodes, layoutX);
      AssignKeys(nodes);
      ghost var keys, count := id, counter;
      var enterFrom := Point(x0[source], y0[source]);
      var newNodeKeys := KeysOf(id, nodes);
      var newLinkKeys := KeysOf(id, nodes[1..]);
      var nodeSplit := Join(nodeKeys, newNodeKeys);
      var linkSplit := Join(linkKeys, newLinkKeys);
      LinkJoin(id, nodes, nodeKeys, linkKeys);
      nodeKeys := newNodeKeys;
      linkKeys := newLinkKeys;
      t := Transition(nodeSplit, linkSplit, enterFrom, Point(x[source], y[source]));
      RememberPositions(nodes);
      assert id == keys && counter == count && VisibleNodes() == nodes;
    }

    /** `handleClick(event, d)` on node k: select it and, unless it is the
        current root, swap its child arrays in place and redraw from it.
        `layoutX` is the layout of the hierarchy after the swap. */
    method HandleClick(k: nat, layoutX: seq<int>) returns (t: Option<Transition>)
      requires Valid() && k < |kids| && |layoutX| == |kids|
      modifies this
      ensures Valid()
      ensures selected == Some(k) && currentRoot == old(currentRoot)
      ensures old(currentRoot) == Some(k) ==>
        && kids == old(kids) && t.None? && id == old(id) && counter == old(counter)
        && x == old(x) && y == old(y) && x0 == old(x0) && y0 == old(y0)
        && nodeKeys == old(nodeKeys) && linkKeys == old(linkKeys)
      ensures old(currentRoot) != Some(k) ==> kids == old(kids)[k := Flip(old(kids)[k])] && t.Some?
      // the redraw from k: `update(d)` on the toggled hierarchy
      ensures old(currentRoot) != Some(k) ==>
        && Keyed(VisibleNodes(), old(id), old(counter), id, counter)
        && Placed(VisibleNodes(), layoutX, depth, old(x), old(y), x, y)
        && Remembered(VisibleNodes(), x, y, old(x0), old(y0), x0, y0)
        && nodeKeys == KeysOf(id, VisibleNodes())
        && linkKeys == KeysOf(id, VisibleNodes()[1..])
        && t.value.nodes == Join(old(nodeKeys), nodeKeys)
        && t.value.links == Join(old(linkKeys), linkKeys)
        && t.value.enterFrom == Point(old(x0[k]), old(y0[k]))
        && t.value.exitTo == Point(x[k], y[k])
      // collapsing hides every child of k; expanding a visible k shows them all
      ensures old(currentRoot) != Some(k) && old(kids[k]).shown.Some? ==>
        forall c :: c in Owned(kids[k]) ==> c !in VisibleNodes()
      ensures old(currentRoot) != Some(k) && old(kids[k]).shown.None? && k in VisibleNodes() ==>
        forall c :: c in Owned(kids[k]) ==> c in VisibleNodes()
    {
      selected := Some(k);
      if currentRoot != Some(k) {
        Toggle(k);
        var tr := Update(k, layoutX);
        t := Some(tr);
      } else {
        t := None;
      }
    }

    /** The swap of `d.children` and `d._children` on node k. */
    method Toggle(k: nat)
      requires Valid() && k < |kids|
      modifies this`kids
      ensures Valid() && kids == old(kids)[k := Flip(old(kids)[k])]
      ensures old(kids[k]).shown.Some? ==> forall c :: c in Owned(kids[k]) ==> c !in VisibleNodes()
      ensures old(kids[k]).shown.None? && k in VisibleNodes() ==> forall c :: c in Owned(kids[k]) ==> c in VisibleNodes()
    {
      ToggleVisibility(kids, k);
      kids := kids[k := Flip(kids[k])];
    }

    /** The drawing effect: nothing before there is a current root; otherwise a
        fresh render's counter (`let i = 0`) and `update(root)`. */
    method RunEffect(layoutX: seq<int>) returns (t: Option<Transition>)
      requires Valid() && |layoutX| == |kids|
      modifies this
      ensures Valid() && kids == old(kids) && currentRoot == old(currentRoot) && selected == old(selected)
      ensures old(currentRoot).None? ==>
        && t.None? && id == old(id) && counter == old(counter)
        && x == old(x) && y == old(y) && x0 == old(x0) && y0 == old(y0)
        && nodeKeys == old(nodeKeys) && linkKeys == old(linkKeys)
      // a fresh render restarts the counter (`let i = 0`) and runs `update(root)`
      ensures old(currentRoot).Some? ==>
        && t.Some?
        && Keyed(VisibleNodes(), old(id), 0, id, counter)
        && Placed(VisibleNodes(), layoutX, depth, old(x), old(y), x, y)
        && Remembered(VisibleNodes(), x, y, old(x0), old(y0), x0, y0)
        && nodeKeys == KeysOf(id, VisibleNodes())
        && linkKeys == KeysOf(id, VisibleNodes()[1..])
        && t.value.nodes == Join(old(nodeKeys), nodeKeys)
        && t.value.links == Join(old(linkKeys), linkKeys)
        && t.value.enterFrom == Point(old(x0[0]), old(y0[0]))
        && t.value.exitTo == Point(x[0], y[0])
      ensures old(currentRoot).Some? ==> forall q :: q in VisibleNodes() ==> id[q] != 0
    {
      if currentRoot.None? {
        t := None;
        return;
      }
      counter := 0;
      var tr := Update(0, layoutX);
      t := Some(tr);
    }

    /** `handleGoBack()`: move the current root to its parent when
        `findParent` finds one; otherwise nothing changes. */
    method GoBack()
      requires Valid()
      modifies this`currentRoot
      ensures Valid()
      ensures old(currentRoot).None? ==> currentRoot == old(currentRoot)
      ensures old(currentRoot).Some? ==>
        currentRoot == (match FindParent(kids, 0, old(currentRoot).value)
                        case Some(p) => Some(p)
                        case None => old(currentRoot))
      // a node has one parent: when the current root is shown under a visible node, that node
      ensures forall p ::
        (0 <= p < |kids| && old(currentRoot).Some? && p in VisibleNodes() && IsShownChild(kids, p, old(currentRoot).value))
        ==> currentRoot == Some(p)
      // the data effect only ever sets the root record, which has no parent
      ensures old(currentRoot) == Some(0) ==> currentRoot == Some(0)
    {
      if currentRoot.None? {
        return;
      }
      var parent := FindParent(kids, 0, currentRoot.value);
      RootHasNoParent(kids);
      forall p | 0 <= p < |kids| && p in VisibleNodes() && IsShownChild(kids, p, currentRoot.value)
        ensures parent == Some(p)
      {
        FindParentUnique(kids, p, currentRoot.value);
      }
      if parent.Some? {
        currentRoot := parent;
      }
    }
  }
}
