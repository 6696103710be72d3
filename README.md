# D3Trees tree viewer: display-node state machine

This project models the expand/collapse logic of the browser-side tree viewer of
D3Trees.jl (`js/tree_vis.js`). The viewer is handed a read-only data table,
`treeData.children`, that maps a 0-based data-node id to the ids of its children,
stored 1-based. It keeps a separate tree of *display nodes*. Each display node records
the data node it shows (`dataID`) and two optional lists of display children: the
visible list `children` and the collapsed list `_children`.

Clicking a display node does one of three things:

- if `children` is set, the node collapses: the list moves to `_children`;
- otherwise, if `_children` is set, the node uncollapses: the list moves back;
- otherwise the node has never been expanded, and `initializeChildren` builds one
  level of fresh display children from the table.

Every click ends with the redraw `update(d)`. That redraw runs the D3 v3 tree layout
(js/tree_vis.js:114). The layout visits every node it reaches from the root through
`children`, and it deletes the `children` field of each such node whose `children`
array is empty. So a click on a reached node whose data node has no children builds
an empty list, and the redraw removes it again. The node stays never expanded, and
every later click initialises it afresh. So a leaf never ends up Expanded with an
empty child list.

The model lives in one module, `TreeVis` (`tree_vis.dfy`):

- `Slots<T>` is the pair of optional lists. `None` stands for JavaScript `null` or a
  deleted field. `Some(xs)` stands for any array, and that includes the empty array,
  which JavaScript treats as true.
- `Toggle` is the three-way branch of `click` on a `Slots` value. `Redraw` is the one
  effect of the redraw on it. `ClickStep` is the whole click, `Redraw` after `Toggle`.
- `Settled` describes the states a node can be in between clicks. Either it has no
  list, or it has exactly one list and that list is not empty.
- `DataIDs` and `ChildDataIDs` convert the stored 1-based ids to 0-based data ids. A
  data node with no entry in the table gets no children.
- The JavaScript object literal becomes the class `DisplayNode`. `_children` is the
  field `hidden`. `dataID` is a `const`, because nothing in the source ever
  reassigns it.
- The class `TreeView` holds the table (`treeChildren`, a `map<int, seq<int>>`) and the
  root display node. Its methods `InitializeChildren` and `Click` change only the node
  they are given, as their `modifies d` clauses say.

## Model

| member | source | states |
|---|---|---|
| `TreeVis.DisplayNode.constructor` | js/tree_vis.js:76-81 | a new display node shows data node `id` and has both child lists null (never expanded) |
| `TreeVis.TreeView.constructor` | js/tree_vis.js:69 | the initial state: a fresh root display node for `rootID`, never expanded, over the given table |
| `TreeVis.DataIDs` | js/tree_vis.js:89-92 | the 0-based ids keep the stored list's length and order, and each is exactly the stored id minus one |
| `TreeVis.ChildDataIDs` | js/tree_vis.js:85-93 | a node with no table entry gets no children; otherwise it gets one child per stored id, in order, each with the id minus one |
| `TreeVis.TreeView.InitializeChildren` | js/tree_vis.js:83-94 | afterwards `children` is set. It holds one fresh, pairwise distinct, never-expanded node per entry of `ChildDataIDs`, in order. `_children` and the table are unchanged |
| `TreeVis.Toggle` | js/tree_vis.js:199-212 | after the branch of `click`, exactly one list is set, whatever the state before. Expanded goes to Collapsed; Collapsed and never-expanded go to Expanded. The held list survives unchanged, except that a never-expanded node receives the initialised list |
| `TreeVis.Redraw` | js/tree_vis.js:114 | the effect of the layout run by `update(d)` at 213 on a node it reaches: an empty `children` array is deleted, so the field becomes null. Afterwards `children` is never an empty array, `_children` is untouched, and a node without an empty `children` array is left exactly as it was |
| `TreeVis.ClickStep` | js/tree_vis.js:199-214 | after a whole click, at most one list is set and `children` is never an empty array. Settled states stay settled. An Expanded node is collapsed with its list intact. A Collapsed node with a non-empty list is uncollapsed with that list, and `_children` becomes null. A never-expanded node stays never expanded exactly when the initialised list is empty. Otherwise it becomes Expanded over exactly the initialised list, with `_children` null |
| `TreeVis.TreeView.Click` | js/tree_vis.js:199-214 | the node's new lists are `ClickStep` of its old ones. If a never-expanded node's data node has children, it gets the non-empty lists `InitializeChildren` specifies, and `_children` stays null. If it has none, the node stays never expanded. No other existing object changes |
| `TreeVis.ClickTwiceFromExpanded` | js/tree_vis.js:201-208 | from a settled Expanded node, collapse then uncollapse restores the identical state with no re-initialisation |
| `TreeVis.ClickTwiceFromCollapsed` | js/tree_vis.js:201-208 | from a settled Collapsed node, uncollapse then collapse restores the identical state |
| `TreeVis.LeafClickIsFixedPoint` | js/tree_vis.js:199-214 | one click on a never-expanded node whose data node has no children leaves it never expanded: line 87 builds `[]` and the redraw at 213 deletes it |
| `TreeVis.LeafStaysUnexpanded` | js/tree_vis.js:199-214 | a node without data children is still never expanded after any number of clicks. Each click builds an empty list (through line 87), and the layout run by the redraw at 213 deletes it |
| `TreeVis.ClicksKeepChildren` | js/tree_vis.js:199-212 | once a node holds a non-empty list, any number of further clicks keeps exactly one list set and the same display children. The node is in its starting phase exactly when the number of clicks is even |

## Left out

- The script bootstrap (`loadScript`, `run`, js/tree_vis.js:1-31) is left out. It is DOM script injection with asynchronous load callbacks.
- The SVG setup and sizing in `showTree` (js/tree_vis.js:36-65) and the `x0`/`y0` coordinates of the root (70-71) are left out. They are jQuery/D3 calls and floating-point geometry.
- `update(source)` (js/tree_vis.js:101-196) is left out except for one effect of its call at the end of `click` (213). It does the D3 layout, the transitions and the `d.id = ++i` render key. The D3 library is not part of this model.
- `TreeVis.TreeView.Click` models only one effect of the layout, the deletion of an empty `children` array, and it does so only on the clicked node.
  - It assumes the layout reaches the clicked node from the root through `children`.
  - That is not so for a node whose ancestor has just been collapsed. Such a node keeps its click handler (js/tree_vis.js:126) for the 750 ms exit transition (153-156). A click on it during that time keeps an empty `children` array. Clicks during an exit transition are not modelled.
  - The layout applies the deletion to every node it reaches, not only to the clicked one. For reached nodes, no other node holds an empty `children` array after an earlier redraw, and nodes created since then start with null.
- The `console.log` calls are logging only and are left out.
- The viewer loads no data beyond the table embedded in the page.
- `TreeVis.TreeView.Click` does not record that the `_children` list it stores is the same JavaScript array object as the old `children` list, and vice versa. Sequences are values here, so only equal contents is stated. Nothing in the file mutates these arrays after `initializeChildren` fills them, so nothing observable is lost.
