/**
 * The display-node expand/collapse state machine of the D3 tree viewer.
 *
 * The viewer keeps a read-only data table `treeData.children` that maps a
 * 0-based node id to the list of its children's ids, which the table stores
 * 1-based. Beside it lives a tree of display nodes, each carrying the id of
 * the data node it shows and two optional lists of display children: the
 * visible ones (`children`) and the collapsed ones (`_children`, here
 * `hidden`). A click on a display node toggles between them, and the very
 * first click materialises one level of display children from the table.
 */
module TreeVis {

  datatype Option<T> = None | Some(value: T)

  /** The three states `click` distinguishes, in the order it tests them. */
  datatype Phase = Expanded | Collapsed | NeverExpanded

  /**
   * The pair of optional child lists of one display node. `None` is the
   * JavaScript `null` (or a deleted field); any list, the empty one
   * included, is truthy.
   */
  datatype Slots<T> = Slots(children: Option<seq<T>>, hidden: Option<seq<T>>)

  function PhaseOf<T>(s: Slots<T>): Phase
  {
    if s.children.Some? then Expanded
    else if s.hidden.Some? then Collapsed
    else NeverExpanded
  }

  /** Never both lists at once. */
  predicate AtMostOne<T>(s: Slots<T>)
  {
    s.children.None? || s.hidden.None?
  }

  /** The node has been expanded at some point: exactly one list is present. */
  predicate ExactlyOne<T>(s: Slots<T>)
  {
    s.children.Some? != s.hidden.Some?
  }

  /** The list of display children a node holds, shown or collapsed. */
  function Materialized<T>(s: Slots<T>): seq<T>
    requires s.children.Some? || s.hidden.Some?
  {
    if s.children.Some? then s.children.value else s.hidden.value
  }

  /**
   * The states a node can be in between clicks: never expanded, or holding
   * exactly one list, and that list not empty (the layout deletes an empty
   * one, see `Redraw`).
   */
  predicate Settled<T>(s: Slots<T>)
  {
    || (s.children.None? && s.hidden.None?)
    || (ExactlyOne(s) && Materialized(s) != [])
  }

  /**
   * The three branches of `click` on the two lists of a node. `initial`
   * stands for the children `initializeChildren` builds; it is used only
   * when the node has never been expanded.
   */
  function Toggle<T>(s: Slots<T>, initial: seq<T>): (r: Slots<T>)
    ensures ExactlyOne(r)
    ensures PhaseOf(r) == (if PhaseOf(s) == Expanded then Collapsed else Expanded)
    ensures Materialized(r) == if PhaseOf(s) == NeverExpanded then initial else Materialized(s)
  {
    if s.children.Some? then Slots(None, s.children)
    else if s.hidden.Some? then Slots(s.hidden, None)
    else Slots(Some(initial), None)
  }

  /**
   * The one effect of the redraw `update(d)` on the modelled state: the D3 v3
   * tree layout it runs deletes the `children` field of a node it reaches
   * whose `children` array is empty.
   */
  function Redraw<T>(s: Slots<T>): (r: Slots<T>)
    ensures r.children != Some([])
    ensures s.children == Some([]) ==> r.children == None
    ensures r.hidden == s.hidden
    ensures s.children != Some([]) ==> r == s
  {
    if s.children == Some([]) then Slots(None, s.hidden) else s
  }

  /** A whole click: the branch of `click`, then the redraw. */
  function ClickStep<T>(s: Slots<T>, initial: seq<T>): (r: Slots<T>)
    ensures AtMostOne(r)
    ensures r.children != Some([])
    ensures Settled(s) ==> Settled(r)
    ensures PhaseOf(s) == Expanded ==> r == Slots(None, s.children)
    ensures PhaseOf(s) == Collapsed && s.hidden.value != [] ==> r == Slots(s.hidden, None)
    ensures PhaseOf(s) == NeverExpanded ==> (PhaseOf(r) == NeverExpanded <==> initial == [])
    ensures PhaseOf(s) == NeverExpanded && initial != [] ==> r == Slots(Some(initial), None)
  {
    Redraw(Toggle(s, initial))
  }

  /** Collapsing and then uncollapsing gives back the very same state. */
  lemma ClickTwiceFromExpanded<T>(s: Slots<T>, a: seq<T>, b: seq<T>)
    requires Settled(s) && PhaseOf(s) == Expanded
    ensures ClickStep(ClickStep(s, a), b) == s
  {
  }

  /** Uncollapsing and then collapsing gives back the very same state. */
  lemma ClickTwiceFromCollapsed<T>(s: Slots<T>, a: seq<T>, b: seq<T>)
    requires Settled(s) && PhaseOf(s) == Collapsed
    ensures ClickStep(ClickStep(s, a), b) == s
  {
  }

  /** The state after `n` successive clicks on one node. */
  function Clicks<T>(s: Slots<T>, n: nat, initial: seq<T>): Slots<T>
    decreases n
  {
    if n == 0 then s else Clicks(ClickStep(s, initial), n - 1, initial)
  }

  /** One click on a never-expanded leaf builds `[]`, which the redraw deletes. */
  lemma LeafClickIsFixedPoint<T>()
    ensures var leaf: Slots<T> := Slots(None, None); ClickStep(leaf, []) == leaf
  {
  }

  /**
   * A node whose data node has no children is never expanded: every click
   * builds an empty list, which the redraw deletes again.
   */
  lemma {:induction false} LeafStaysUnexpanded<T>(n: nat)
    ensures var leaf: Slots<T> := Slots(None, None); Clicks(leaf, n, []) == leaf
    decreases n
  {
    if n > 0 {
      LeafClickIsFixedPoint<T>();
      LeafStaysUnexpanded<T>(n - 1);
    }
  }

  /**
   * Once a node holds a non-empty list, no number of further clicks rebuilds
   * or loses its display children, and it alternates between Expanded and
   * Collapsed.
   */
  lemma {:induction false} ClicksKeepChildren<T>(s: Slots<T>, n: nat, initial: seq<T>)
    requires ExactlyOne(s) && Materialized(s) != []
    ensures ExactlyOne(Clicks(s, n, initial))
    ensures Materialized(Clicks(s, n, initial)) == Materialized(s)
    ensures PhaseOf(Clicks(s, n, initial)) == PhaseOf(s) <==> n % 2 == 0
    decreases n
  {
    if n > 0 {
      ClicksKeepChildren(ClickStep(s, initial), n - 1, initial);
    }
  }

  /** Converts the table's 1-based child ids to 0-based data ids, in order. */
  function DataIDs(stored: seq<int>): (r: seq<int>)
    ensures |r| == |stored|
    ensures forall i :: 0 <= i < |stored| ==> r[i] == stored[i] - 1
  {
    if stored == [] then [] else [stored[0] - 1] + DataIDs(stored[1..])
  }

  /**
   * The data ids of the display children of data node `id`: none when the
   * table has no entry for it.
   */
  function ChildDataIDs(table: map<int, seq<int>>, id: int): (r: seq<int>)
    ensures id !in table ==> r == []
    ensures id in table ==> |r| == |table[id]|
    ensures id in table ==> forall i :: 0 <= i < |r| ==> r[i] == table[id][i] - 1
  {
    if id in table then DataIDs(table[id]) else []
  }

  /** A display node: the data node it shows and its two child lists. */
  class DisplayNode {
    const dataID: int
    var children: Option<seq<DisplayNode>>
    var hidden: Option<seq<DisplayNode>>

    function View(): Slots<DisplayNode>
      reads this
    {
      Slots(children, hidden)
    }

    /** `createDisplayNode(id)`: a node in the never-expanded state. */
    constructor (id: int)
      ensures dataID == id
      ensures children == None && hidden == None
    {
      dataID := id;
      children := None;
      hidden := None;
    }
  }

  /**
   * `kids` are pairwise distinct, never-expanded display nodes showing the
   * data nodes `ids`, position by position.
   */
  ghost predicate Unexpanded(kids: seq<DisplayNode>, ids: seq<int>)
    reads set k | k in kids
  {
    && |kids| == |ids|
    && (forall i :: 0 <= i < |kids| ==> kids[i].dataID == ids[i])
    && (forall i :: 0 <= i < |kids| ==> kids[i].children == None && kids[i].hidden == None)
    && (forall i, j :: 0 <= i < j < |kids| ==> kids[i] != kids[j])
  }

  /** One rendered tree: the data table it shows and its root display node. */
  class TreeView {
    const treeChildren: map<int, seq<int>>
    const root: DisplayNode

    /** The start of `showTree`: the root display node, never expanded. */
    constructor (treeChildren: map<int, seq<int>>, rootID: int)
      ensures this.treeChildren == treeChildren
      ensures fresh(root)
      ensures root.dataID == rootID && root.View() == Slots(None, None)
    {
      this.treeChildren := treeChildren;
      root := new DisplayNode(rootID);
    }

    /** `initializeChildren(d)`: one level of fresh display children. */
    method InitializeChildren(d: DisplayNode)
      modifies d
      ensures d.hidden == old(d.hidden)
      ensures d.children.Some?
      ensures Unexpanded(d.children.value, ChildDataIDs(treeChildren, d.dataID))
      ensures forall k :: 0 <= k < |d.children.value| ==> fresh(d.children.value[k])
    {
      ghost var ids := ChildDataIDs(treeChildren, d.dataID);
      var stored: seq<int> := [];
      if d.dataID in treeChildren {
        stored := treeChildren[d.dataID];
      }
      d.children := Some([]);
      var i := 0;
      while i < |stored|
        invariant 0 <= i <= |stored| == |ids|
        invariant d.hidden == old(d.hidden)
        invariant d.children.Some? && |d.children.value| == i
        invariant Unexpanded(d.children.value, ids[..i])
        invariant forall k :: 0 <= k < i ==> fresh(d.children.value[k])
      {
        var node := new DisplayNode(stored[i] - 1);
        d.children := Some(d.children.value + [node]);
        assert ids[..i + 1] == ids[..i] + [stored[i] - 1];
        i := i + 1;
      }
      assert ids[..i] == ids;
    }

    /**
     * `click(d)`: collapse, uncollapse, or expand for the first time, then
     * redraw. `d` is assumed to be reached by the layout from the root, which
     * does not hold during the exit transition after an ancestor collapses.
     */
    method Click(d: DisplayNode)
      modifies d
      ensures old(PhaseOf(d.View())) != NeverExpanded ==> d.View() == ClickStep(old(d.View()), [])
      ensures old(PhaseOf(d.View())) == NeverExpanded && ChildDataIDs(treeChildren, d.dataID) == [] ==>
        d.View() == ClickStep(old(d.View()), [])
      ensures old(PhaseOf(d.View())) == NeverExpanded && ChildDataIDs(treeChildren, d.dataID) != [] ==>
        && d.children.Some?
        && d.View() == ClickStep(old(d.View()), d.children.value)
        && Unexpanded(d.children.value, ChildDataIDs(treeChildren, d.dataID))
        && (forall k :: 0 <= k < |d.children.value| ==> fresh(d.children.value[k]))
    {
      if d.children.Some? {
        d.hidden := d.children;
        d.children := None;
      } else if d.hidden.Some? {
        d.children := d.hidden;
        d.hidden := None;
      } else {
        InitializeChildren(d);
      }
      // update(d): the layout, which reaches d from the root, deletes an
      // empty `children` array
      if d.children == Some([]) {
        d.children := None;
      }
    }
  }
}
