# SuperconductingCircuitBuilder: a verified model of the schematic engine

SuperconductingCircuitBuilder is an editor for superconducting circuit
schematics: two-terminal elements (capacitors, Josephson junctions,
inductors) sit on a grid, their terminals are nodes, and connections run from
each element to a node as orthogonal wires, possibly bent at anchors. This
project models the part of the program that is not widget code. It covers two
copies of that engine.

**The current engine** (`sccircuitbuilder/` plus the undo history):

- `Caretaker` (module `Caretakers`): the undo/redo history. It is a class
  with the history and the cursor as fields. Each method is proved equal to a
  step function on a `History` value. Lemmas state what the steps do at and
  between the ends of the history.
- Wire routing (`Routing`, `Records`): `Wire.rewire`/`Wire.wire` as a
  function of origin, destination and departure vector `d`. It is proved to
  give a unit-step path of Manhattan length with one bend, which follows the
  orientation rule. The methods build the link list with the source's loops.
- Connection editing (`Paths`, `Connections`): a connection's wires and
  anchors must form a chain from the element through every anchor to the
  destination node. `press` splits a wire at a new anchor and `remove_anchor`
  joins the two wires around an anchor; both keep the chain.
  `change_dest`, `reorient`, `in_bbox` and the `ConnectionMomento` walk are
  modelled as well.
- The `Circuit` container (`Circuits`): the object graph is an arena of
  records addressed by integer handles (`Records.Heap`) instead of Python's
  cyclic references. The model covers:
  - adding and removing records;
  - dense renumbering of nodes;
  - the cascades of `remove_element` and `remove_connection`;
  - `add_circuit`, `clear` and iteration.
- Nodes (`Nodes`): node and ground creation, `drop` (a merge onto another
  node) and `split` (one new node per element).
- Saving and restoring (`Mementos`): the circuit memento with its temporary
  ground indices, and `load` of nodes and grounds. `_setup_nodes` and
  `_setup_connection` are modelled with round-trip lemmas from capture to load.

**The legacy engine** (the root-level `connection.py`, `node.py`,
`branch_element.py`, `canvas_element.py`):

- The router with anchors and the elbow detour (`LegacyRouting`).
- The live canvas objects as a `Board` value (`LegacyBoard`), with:
  - specification functions for `Node.merge`/`drag`, `Connection.in_bbox`
    and `Anchor.merge`/`delete`;
  - `BranchElement.__init__`/`in_bbox`/`drag`/`rotate` (`LegacyElements`);
  - the element export line (`LegacyExport`);
  - the shared base class `CanvasElement` (`CanvasElements`).
- `LegacyScenes.Scene`: a class holding the canvas tables as fields. Each
  method performs one operation step by step, with the source's loops, and is
  proved to leave `Contents()` equal to the specification function of the old
  contents.

Coordinates are integers. The grid pitch `SPACING` is 50, as in
`constants.py`. Python's `round(v / SPACING)` is written out exactly for
integers, ties to even included (`Geometry.GridIndex`).

## Model

| member | source | states |
|---|---|---|
| Caretakers.Caretaker.constructor | src/SuperConductingCircuitBuilder/caretaker.py:5-7 | A fresh caretaker has an empty history and cursor -1. |
| Caretakers.Caretaker.AddSnapshot | src/SuperConductingCircuitBuilder/caretaker.py:9-13 | The new state is `SnapshotStep` of the old: the cursor advances, the history is cut at it when the cursor lies inside, and the snapshot is appended. |
| Caretakers.Caretaker.Undo | src/SuperConductingCircuitBuilder/caretaker.py:15-20 | State and outcome are `UndoStep` of the old state: the cursor moves back and the entry there is returned, or `UndoRedoException` is raised with the cursor left moved. |
| Caretakers.Caretaker.Redo | src/SuperConductingCircuitBuilder/caretaker.py:22-28 | State and outcome are `RedoStep` of the old state: the cursor moves forward, and the cursor is not put back when the step fails. |
| Caretakers.Caretaker.Restore | src/SuperConductingCircuitBuilder/caretaker.py:30-33 | Returns `history[index]` without changing state. For index in [-1, len) it fails exactly when the index is -1. |
| Caretakers.SnapshotWithinHistory | src/SuperConductingCircuitBuilder/caretaker.py:9-13 | With the cursor inside the history, `add_snapshot` advances it by one, keeps `history[..idx]`, drops every later entry and leaves `len == idx + 1`. |
| Caretakers.RedoFailsAfterSnapshot | src/SuperConductingCircuitBuilder/caretaker.py:9-28 | A `redo` straight after `add_snapshot` raises and leaves the cursor one past the end. |
| Caretakers.UndoWithinHistory | src/SuperConductingCircuitBuilder/caretaker.py:15-18 | From a cursor of at least 1, `undo` decrements it and returns the entry at the new cursor. |
| Caretakers.UndoAtFirstEntry | src/SuperConductingCircuitBuilder/caretaker.py:15-20 | From cursor 0, `undo` raises and leaves the cursor at -1. |
| Caretakers.RedoWithinHistory | src/SuperConductingCircuitBuilder/caretaker.py:22-25 | Below the last entry, `redo` increments the cursor and returns the entry there. |
| Caretakers.RedoAtLastEntry | src/SuperConductingCircuitBuilder/caretaker.py:22-33 | At the last entry, `redo` raises and leaves the cursor at `len(history)`. |
| Caretakers.RestoreInRange | src/SuperConductingCircuitBuilder/caretaker.py:30-33 | For i in [-1, len), `restore(i)` fails exactly when i is -1 and otherwise gives `history[i]`. |
| Caretakers.SnapshotsFromFresh | src/SuperConductingCircuitBuilder/caretaker.py:9-13 | n snapshots on a fresh caretaker make up the whole history, in order, with the cursor on the last one. |
| Caretakers.SnapshotsAppend | src/SuperConductingCircuitBuilder/caretaker.py:9-13 | Snapshots pushed with the cursor on the last entry are appended to the history. |
| Caretakers.UndoRunFrom | src/SuperConductingCircuitBuilder/caretaker.py:15-20 | k undos from cursor c return the entries c-1, c-2, ... in turn. The (c+1)-th undo raises. The cursor ends at c-k. |
| Caretakers.UndoCountAfterSnapshots | src/SuperConductingCircuitBuilder/caretaker.py:9-20 | After n snapshots on a fresh caretaker, `undo` succeeds exactly n-1 times and then raises. |
| Caretakers.SecondUndoReadsFromTheEnd | src/SuperConductingCircuitBuilder/caretaker.py:15-33 | Because the cursor is not restored, a second `undo` after one that failed reads `history[-2]`, Python's negative index, and succeeds. |
| Caretakers.SnapshotAfterFailedRedo | src/SuperConductingCircuitBuilder/caretaker.py:9-28 | After a failed `redo`, the next `add_snapshot` leaves the cursor one past the end, and an `undo` then returns the snapshot just pushed. |
| Records.RewiredIsRoute | sccircuitbuilder/connection.py:117-138 | A rewired wire keeps its ends and `d`. Its links are the route from the start cell, `round(origin/SPACING) + d`, to the destination's cell. |
| Records.NewWire | sccircuitbuilder/connection.py:108-115 | The `Wire` constructor stores origin, destination and `d`, and leaves the wire routed. |
| Records.RewireWire | sccircuitbuilder/connection.py:117-138 | `Wire.rewire` replaces the links by the route computed from the current positions. |
| Routing.RouteLength | sccircuitbuilder/connection.py:141-158 | The number of links is `abs(tx-ox) + abs(ty-oy)`, and the route is empty exactly when o is t. |
| Routing.RouteLegs | sccircuitbuilder/connection.py:153-158 | The route is the x run then the y run, or the y run then the x run, as the orientation says. |
| Routing.RouteConnects | sccircuitbuilder/connection.py:143-158 | A non-empty route starts at o, moves one unit on one axis at a time, ends one unit from t and never visits t. |
| Routing.FirstStepAxis | sccircuitbuilder/connection.py:129-136 | The first step goes along x when x goes first and o and t differ in x, and along y in the symmetric case. For a departure along x, the wire first runs along x unless x would overshoot the target, and then it runs along y. For a departure along y, it first runs along y unless y would overshoot, and then it runs along x. With no departure it runs along x first. |
| Routing.XRunStepwise | sccircuitbuilder/connection.py:143-146 | Consecutive links of an x run are one unit step apart. |
| Routing.YRunStepwise | sccircuitbuilder/connection.py:148-151 | Consecutive links of a y run are one unit step apart. |
| Routing.AppendXRun | sccircuitbuilder/connection.py:143-146 | The `range(ox, tx, disp)` loop appends exactly `XRun` to the links. |
| Routing.AppendYRun | sccircuitbuilder/connection.py:148-151 | The `range(oy, ty, disp)` loop appends exactly `YRun` to the links. |
| Routing.WireLinks | sccircuitbuilder/connection.py:141-158 | `wire` on an emptied list leaves exactly `Route(o, t, orientation)`. |
| Routing.RewireLinks | sccircuitbuilder/connection.py:117-138 | `rewire` clears the links and gives `WireRoute(origin, dest, d)`, so the result depends only on those three. |
| Routing.LinkHitOnGrid | sccircuitbuilder/connection.py:191-197 | With a half-width of at most SPACING/2, a grid point hits exactly the link of its own cell. |
| Paths.SplitHopChained | sccircuitbuilder/connection.py:46-54 | Splitting a hop at a new anchor keeps a path between the same ends, with the anchor as a new stop. |
| Paths.MergeHopsChained | sccircuitbuilder/connection.py:69-80 | Merging the two hops around a stop keeps a path between the same ends, without that stop. |
| Connections.ChainCounts | sccircuitbuilder/connection.py:46-80 | A chained connection has exactly one wire more than it has anchors. |
| Connections.PathUnique | sccircuitbuilder/connection.py:93-101 | The path order of a chained connection is unique: from wire 0, each next wire is the one starting where the previous one ends. |
| Connections.NewConnChained | sccircuitbuilder/connection.py:10-25 | A new connection, with one wire and no anchors, is chained from its element to its node. |
| Connections.NewConnectionOk | sccircuitbuilder/connection.py:10-25 | The new connection is listed by the circuit, in the store and chained, and nothing else changes. |
| Connections.NewConnection | sccircuitbuilder/connection.py:10-25 | The constructor creates the record, registers it and gives it its first, routed wire. |
| Connections.RewireKeepsPath | sccircuitbuilder/connection.py:56-58 | Rerouting every wire changes no end, so a path stays a path. |
| Connections.RewireAllPlaces | sccircuitbuilder/connection.py:56-58 | Rerouting reads only the positions of elements, nodes and anchors. |
| Connections.RewiredTwice | sccircuitbuilder/connection.py:117-118 | Rerouting twice gives what rerouting once gives, because `rewire` starts from empty links. |
| Connections.RewireConnection | sccircuitbuilder/connection.py:56-58 | Every wire of the connection is rerouted in turn, and nothing else changes. |
| Connections.PressKeepsPath | sccircuitbuilder/connection.py:46-54 | After a press the path runs through the new anchor, with the new wire right after the split one. |
| Connections.PressSpecOk | sccircuitbuilder/connection.py:46-54 | A press adds one anchor, at the snapped cursor, and one wire with `d = (0,0)`. It keeps wires = anchors + 1 and the circuit closed, and changes no other connection. |
| Connections.PressSpecChained | sccircuitbuilder/connection.py:46-54 | A press keeps a chained connection chained. |
| Connections.PressRouted | sccircuitbuilder/connection.py:52-54 | Routing the new wire in its constructor changes nothing once every wire is rerouted. |
| Connections.Press | sccircuitbuilder/connection.py:46-54 | With an anchor selected nothing changes. Otherwise the store becomes `PressSpec` and the new anchor is the selection. |
| Connections.InBbox | sccircuitbuilder/connection.py:33-44 | Anchors are tested first, in list order. Then each wire's links after the first are tested. The selection is the first hit, and no hit means every test failed. |
| Connections.RedirectKeepsPath | sccircuitbuilder/connection.py:60-62 | Redirecting wire j keeps a given path exactly when j is the last wire of that path. Any other wire of the path would then end at a node before the last hop. |
| Connections.ChangeDestKeepsPath | sccircuitbuilder/connection.py:60-62 | The as-written `change_dest` keeps a given path exactly when the last wire of the list is the last wire of that path. |
| Connections.RedirectAfterPressBreaksChain | sccircuitbuilder/connection.py:46-62 | A fresh connection pressed twice on its first wire and then redirected by the as-written `change_dest` no longer forms a path. |
| Connections.ChangeDestOnPathKeepsChain | sccircuitbuilder/connection.py:60-62 | The corrected `change_dest` redirects the wire that ends at the destination, and keeps every chained connection chained to the new node. |
| Connections.ChangeDest | sccircuitbuilder/connection.py:60-62 | The destination and the last wire in the list now end at the new node, as written. |
| Connections.ChangeDestFixed | sccircuitbuilder/connection.py:60-62 | Finds the wire ending at the old destination and redirects it, giving `ChangeDestOnPath`. |
| Connections.ReorientKeepsPath | sccircuitbuilder/connection.py:64-67 | `reorient` keeps the path, and four reorients restore the first wire's `d`. |
| Connections.Reorient | sccircuitbuilder/connection.py:64-67 | The first wire's `d` is turned a quarter, `(a,b)` to `(b,-a)`, and that wire alone is rerouted. |
| Connections.RemoveAnchorKeepsPath | sccircuitbuilder/connection.py:69-80 | Removing an anchor merges the wires into and out of it. The path stays a path without that stop. |
| Connections.RemoveAnchorSpecOk | sccircuitbuilder/connection.py:69-80 | `remove_anchor` keeps the circuit closed and the connection chained, with one anchor and one wire fewer, and drops the anchor from the circuit's list. |
| Connections.FindHeadTail | sccircuitbuilder/connection.py:70-76 | The loop finds the last wire ending at the anchor and the last wire starting at it. |
| Connections.RemoveAnchor | sccircuitbuilder/connection.py:69-80 | The new store is `RemoveAnchorSpec` of the old. |
| Connections.AnchorDelete | sccircuitbuilder/connection.py:218-219 | `Anchor.delete` is `remove_anchor` on the anchor's own connection. |
| Connections.FirstStartingAt | sccircuitbuilder/connection.py:96-99 | Returns the first wire whose origin is the given end, or -1 when none is. |
| Connections.WalkStep | sccircuitbuilder/connection.py:93-101 | From the i-th wire of the path, the next wire found is the (i+1)-th, and the walk stops after the last. |
| Connections.StopsAreAnchors | sccircuitbuilder/connection.py:93-95 | Every stop on the path is one of the connection's anchors. |
| Connections.CaptureConnection | sccircuitbuilder/connection.py:88-103 | The memento records the destination's index, the first wire's `d` and the anchor positions in path order. |
| Circuits.RenumberNumbers | sccircuitbuilder/circuit.py:36-39 | Over a repeat-free list, the record at position i gets index i+1, and records not listed are untouched. |
| Circuits.AddNodeKeepsDense | sccircuitbuilder/circuit.py:49-51 | An added node gets index N+1 and goes last, so dense numbering stays dense. |
| Circuits.DetachStepEffect | sccircuitbuilder/circuit.py:22-26 | A node whose only element is the removed one is deleted. A shared node drops that element from its list. |
| Circuits.DetachNodesEffect | sccircuitbuilder/circuit.py:22-26 | The node loop succeeds exactly when each node visited k times has at least k elements and lists this one at least k times. The exception is a node with exactly k elements: it needs the element only k-1 times, because the last visit drops the node unchecked, and it must be in its node or ground list. A node visited as many times as it has elements leaves the node list; any other node has the element removed k times. Numbering stays dense. |
| Circuits.DetachSameNodeTwice | sccircuitbuilder/circuit.py:22-26 | An element whose two slots hold the same node, which lists it twice, is removable, and the second visit takes that node out of the node and ground lists. |
| Circuits.DetachOkWithoutElement | sccircuitbuilder/circuit.py:20-26 | Removing the element from the list first does not change what the node loop may do. |
| Circuits.RemoveElementCascade | sccircuitbuilder/circuit.py:20-28 | After `remove_element` the element is gone, and so are its connections and their anchors. Every other connection stays. A node whose elements are all this element's slots on it is gone, and any other node has the element removed once per slot, repeated slots included. |
| Circuits.AddCircuitRenumbers | sccircuitbuilder/circuit.py:53-62 | After `add_circuit` all five lists are concatenated, and nodes are numbered 1..N with the other's nodes after this one's. |
| Circuits.ItemsCoverCircuit | sccircuitbuilder/circuit.py:70-71 | Iteration visits elements, nodes, grounds, anchors and connections, each list in order, and nothing else. |
| Circuits.Circuit.constructor | sccircuitbuilder/circuit.py:9-15 | A new circuit has five empty lists. |
| Circuits.Circuit.AddElement | sccircuitbuilder/circuit.py:17-18 | The element is appended; nothing else changes. |
| Circuits.Circuit.AddGround | sccircuitbuilder/circuit.py:30-31 | The ground is appended; nothing else changes. |
| Circuits.Circuit.AddConnection | sccircuitbuilder/circuit.py:41-42 | The connection is appended; nothing else changes. |
| Circuits.Circuit.AddAnchor | sccircuitbuilder/circuit.py:64-65 | The anchor is appended; nothing else changes. |
| Circuits.Circuit.RemoveAnchor | sccircuitbuilder/circuit.py:67-68 | The first occurrence of the anchor leaves the list. |
| Circuits.Circuit.AddNode | sccircuitbuilder/circuit.py:49-51 | The node gets index len+1 and is appended. |
| Circuits.Circuit.RenumberNodes | sccircuitbuilder/circuit.py:38-39 | The renumbering loop leaves `Renumber` of the node list. |
| Circuits.Circuit.RemoveNode | sccircuitbuilder/circuit.py:36-39 | The node is removed and the rest are renumbered 1..N in list order. |
| Circuits.Circuit.RemoveGround | sccircuitbuilder/circuit.py:33-34 | The ground is removed; nothing is renumbered. |
| Circuits.Circuit.DeleteNode | sccircuitbuilder/node.py:80-81 | `Node.delete` removes a node from the nodes, and `Ground.delete` removes a ground from the grounds (node.py lines 129-130). |
| Circuits.Circuit.RemoveConnection | sccircuitbuilder/circuit.py:44-47 | The connection leaves the list, and then each of its anchors leaves the anchor list. |
| Circuits.RemoveConnectionSpec | sccircuitbuilder/circuit.py:44-47 | The circuit stays closed, no record changes, and the lists lose exactly the connection and, as a multiset, its anchors. |
| Circuits.Circuit.DetachElement | sccircuitbuilder/circuit.py:22-26 | The node loop of `remove_element` gives `DetachNodes`, one node visit per slot, repeated slots included. |
| Circuits.Circuit.RemoveConnections | sccircuitbuilder/circuit.py:27-28 | Each of the element's connections is removed with its anchors. |
| Circuits.Circuit.RemoveElement | sccircuitbuilder/circuit.py:20-28 | The new state is `RemoveElementSpec` of the old. |
| Circuits.Circuit.AddCircuit | sccircuitbuilder/circuit.py:53-62 | The new state is `AddCircuitSpec`: five lists appended and every node renumbered. |
| Circuits.Circuit.Clear | sccircuitbuilder/circuit.py:73-78 | All five lists are empty and the records are untouched. |
| Nodes.SnapPointOnGrid | sccircuitbuilder/node.py:12-13 | A snapped point is on the grid. |
| Nodes.OnGridFixed | sccircuitbuilder/node.py:12-13 | Snapping a point on the grid leaves it in place. |
| Nodes.NewNodeOk | sccircuitbuilder/node.py:12-22 | A new node is a plain node on the grid, last in the node list with index N+1, and a dense numbering stays dense. |
| Nodes.NewGroundOk | sccircuitbuilder/node.py:118-119 | A new ground is on the grid with index 0 and last among the grounds. The node list is untouched. |
| Nodes.NewNode | sccircuitbuilder/node.py:12-22 | The circuit becomes `NewNodeSpec`, and the handle returned is the new record. |
| Nodes.NewGround | sccircuitbuilder/node.py:93-119 | The circuit becomes `NewGroundSpec`, and the handle returned is the new record. |
| Nodes.RedirectEachEffect | sccircuitbuilder/node.py:30-31 | Every listed connection now ends at the other node, every chained one stays chained, and unlisted ones are untouched. |
| Nodes.ReplaceEachEffect | sccircuitbuilder/node.py:32-35 | In every listed element each slot holding the dropped node holds the other, and nothing else changes. |
| Nodes.ReplacedLeavesNone | sccircuitbuilder/node.py:32-35 | After repointing to a different node, no slot holds the dropped node. |
| Nodes.DropKeepsCircuit | sccircuitbuilder/node.py:24-29 | After `drop` the circuit is closed and kinded, the dropped node is gone and the nodes are numbered 1..N. |
| Nodes.DropMovesLinks | sccircuitbuilder/node.py:27-35 | The other node holds the dropped node's connections and elements. Every such connection ends at it, every slot refers to it, and chained connections stay chained. |
| Nodes.Drop | sccircuitbuilder/node.py:24-35 | A no-op unless the target is a node or ground; otherwise the circuit becomes `DropSpec`. |
| Nodes.RedirectAll | sccircuitbuilder/node.py:30-31 | The loop gives `RedirectEach`. |
| Nodes.ReplaceAll | sccircuitbuilder/node.py:32-35 | The loop gives `ReplaceEach`. |
| Nodes.FindConnTo | sccircuitbuilder/node.py:67-70 | Returns the position of the last connection ending at the node, or -1 when there is none. |
| Nodes.SplitOneEffect | sccircuitbuilder/node.py:64-78 | A pass succeeds exactly when some connection of the element ends at the node. It then makes a new plain node, last in the list, at the snapped `SplitPoint`. The new node holds exactly the element and the element's last connection to the old node. That connection alone is redirected there, with its anchors cleared. Every slot of the element that held the old node now holds the new one, and nothing else changes. |
| Nodes.SplitEachEffect | sccircuitbuilder/node.py:64-78 | The loop makes one new node per element, in order, numbered densely after the existing nodes. Each new node stands at its `SplitPoint` and holds a connection of its element that ended at the old node, now redirected to it. An element's first pass repoints all of its slots on the old node to that pass's node, and elements outside the loop are untouched. |
| Nodes.SplitOk | sccircuitbuilder/node.py:61-78 | `split` of a node with several elements, when every pass finds a connection: the node leaves the list. Each element gets a node of its own at its `SplitPoint`, snapped, holding the connection moved to it, and the element's slots on the old node are repointed to it. |
| Nodes.SplitRepeatedOrphan | sccircuitbuilder/node.py:64-78 | When the node holds one element in both slots, with a connection from each, the first pass repoints both slots to the first new node. The second pass's node lists the element, but the element lists it in no slot. |
| Nodes.SplitClearsPath | sccircuitbuilder/node.py:71 | A moved connection that passed through anchors keeps its extra wires, so it no longer forms a path. |
| Nodes.SplitElement | sccircuitbuilder/node.py:64-78 | One pass, in the source's order, gives `SplitOne`. |
| Nodes.Split | sccircuitbuilder/node.py:61-78 | Nothing changes with at most one element; otherwise the circuit becomes `SplitSpec`. |
| Nodes.SplitAll | sccircuitbuilder/node.py:63-77 | The loop over the elements gives `SplitEach`, stopping at the first element that fails. |
| Mementos.TaggedEffect | sccircuitbuilder/circuit.py:166-167 | Only the listed grounds' indices change. Ground i gets `base + i`. |
| Mementos.ZeroedAfterTagged | sccircuitbuilder/circuit.py:166-174 | Tagging and then zeroing is zeroing alone. |
| Mementos.CaptureRestoresIndices | sccircuitbuilder/circuit.py:164-174 | When grounds are at index 0, the capture leaves every node record as it found it. |
| Mementos.CaptureIndicesApart | sccircuitbuilder/circuit.py:164-174 | During the capture the nodes are numbered 1..N and every ground index is at least N+5, so no saved ground index equals a saved node index, and distinct grounds differ. |
| Mementos.Capture | sccircuitbuilder/circuit.py:164-174 | Records the node count and the ground, node and connection mementos taken with the temporary indices, then resets every ground to 0. |
| Mementos.TagGrounds | sccircuitbuilder/circuit.py:166-167 | The loop gives `Tagged`. |
| Mementos.ZeroGrounds | sccircuitbuilder/circuit.py:173-174 | The loop gives `Zeroed`. |
| Mementos.CaptureAll | sccircuitbuilder/circuit.py:172 | One `ConnectionMomento` per connection, in order. |
| Mementos.LoadNodeOne | sccircuitbuilder/circuit.py:93-95 | One loaded node is a plain node, last in the list, at the snapped location, with the saved index. |
| Mementos.LoadGroundOne | sccircuitbuilder/circuit.py:98-101 | One loaded ground is last among the grounds, at the snapped location, with index 0 and the saved turns mod 4. |
| Mementos.LoadNodesEffect | sccircuitbuilder/circuit.py:92-95 | One plain node is appended per memento, in order, and nothing else changes. |
| Mementos.LoadGroundsEffect | sccircuitbuilder/circuit.py:97-101 | One ground is appended per memento, in order, and nothing else changes. |
| Mementos.LoadRestores | sccircuitbuilder/circuit.py:84-101 | Loading onto a cleared circuit lists one node per node memento and one ground per ground memento, in saved order, with the saved indices aligned to the nodes. |
| Mementos.LoadedRoundTrip | sccircuitbuilder/node.py:83-88 | Taking `NodeMemento` of a loaded record gives the saved memento back, for grid locations and unturned nodes. |
| Mementos.CaptureLoadRoundTrip | sccircuitbuilder/circuit.py:84-101 | Capture and then load onto a cleared circuit gives back every node and ground memento, with nodes numbered densely again. |
| Mementos.Load | sccircuitbuilder/circuit.py:84-89 | The new state is `LoadSpec`: saved indices recorded, then nodes, then grounds loaded. |
| Mementos.LoadNodesM | sccircuitbuilder/circuit.py:92-95 | The loop gives `LoadNodes`. |
| Mementos.LoadGroundsM | sccircuitbuilder/circuit.py:97-101 | The loop gives `LoadGrounds`. |
| Mementos.Restore | sccircuitbuilder/circuit.py:80-82 | `restore` is `clear` then `load`. |
| Mementos.AttachEachEffect | sccircuitbuilder/circuit.py:129-135 | Attaching handles appends them to the element's slots and the element to each node, once per occurrence, and nothing else. |
| Mementos.ResolvedFindsSaved | sccircuitbuilder/circuit.py:130-131 | With aligned indices, each lookup finds the node that carries the index looked up. |
| Mementos.SetupNodesOk | sccircuitbuilder/circuit.py:129-135 | The element's slots are the resolved nodes and then the resolved grounds, and each of them lists the element. |
| Mementos.SetupNodes | sccircuitbuilder/circuit.py:129-135 | The two loops give `SetupNodesSpec`. |
| Mementos.AttachAll | sccircuitbuilder/circuit.py:130-132 | One loop gives `AttachEach` of the resolved handles. |
| Mementos.DestRoundTrip | sccircuitbuilder/circuit.py:138-145 | A saved node index resolves to the node that carries it. Any other index falls back to the first ground saved under it. |
| Mementos.AnchorChainOk | sccircuitbuilder/circuit.py:146-152 | The saved anchor points become new anchors in order, and the wires run element, anchors in order, destination. |
| Mementos.ChainWiresPath | sccircuitbuilder/circuit.py:146-152 | The chain wires through distinct anchors form the connection's path, stopping at the anchors in order. |
| Mementos.CapturedChain | sccircuitbuilder/connection.py:88-103 | The memento of a connection whose path stops at anchors at given points records exactly those points. |
| Mementos.SetupConnectionShape | sccircuitbuilder/circuit.py:137-154 | The loaded connection is a new record, listed by the circuit, its destination and its element, with new anchors at the saved points. |
| Mementos.SetupConnectionRoundTrip | sccircuitbuilder/circuit.py:137-154 | A loaded connection forms a path through its anchors in saved order. Capturing it again gives the saved points, the saved `d` and its destination's current index. |
| Mementos.SetupConnection | sccircuitbuilder/circuit.py:137-154 | The new state is `SetupConnectionSpec`. |
| Mementos.AnchorChain | sccircuitbuilder/circuit.py:146-153 | The anchors and then the wire chain, as in `SetupConnectionSpec`. |
| Mementos.AddAnchors | sccircuitbuilder/circuit.py:147-148 | The anchor loop gives `AddAnchorsSpec`. |
| Mementos.ChainUp | sccircuitbuilder/circuit.py:149-153 | The wire part gives `ChainStore`. |
| Mementos.ChainStore | sccircuitbuilder/circuit.py:149-153 | Only the connection being set up changes. It keeps its ends and anchors, its wires run element, anchors in order, destination, and every wire end lies in the store. |
| Geometry.SnapIsNearest | canvas_element.py:27-29 | A snapped value is a multiple of SPACING, at most SPACING/2 away, and no multiple is nearer. |
| Geometry.SnapIdempotent | canvas_element.py:27-29 | Snapping a grid point leaves it in place. |
| Geometry.TurnedPeriodic | sccircuitbuilder/node.py:72 | `ROT_MAT^n` applied to a vector depends only on n mod 4. |
| Geometry.FourTurnsAfter | branch_element.py:63-68 | Four more quarter turns change nothing. |
| Geometry.TurnAboutFourTimes | branch_element.py:70-77 | Four quarter turns about one centre restore a point, and each turn keeps its distance from the centre. |
| Geometry.RotationsCount | canvas_element.py:16-18 | From a counter in 0..3, n rotations give (rot+n) mod 4, so four restore it. |
| CanvasElements.DefaultBoxHitsOwnCell | canvas_element.py:20-25 | With the default SPACING/2 box, the test is the strict box test. A grid element is hit only by points that snap to it. |
| CanvasElements.SnapsToNearbyGridLine | canvas_element.py:27-29 | A value less than SPACING/2 from a grid line snaps onto it. |
| CanvasElements.PassedBoxIsDropped | canvas_element.py:5-11 | A box passed to the constructor is never stored, and `in_bbox` then fails. |
| CanvasElements.CanvasElement.constructor | canvas_element.py:5-11 | Position and counter are stored. The box is the default SPACING/2 box when none was passed, and left unset otherwise. |
| CanvasElements.CanvasElement.Rotate | canvas_element.py:16-18 | The counter becomes (rot+1) mod 4, and nothing else changes. |
| CanvasElements.CanvasElement.Drag | canvas_element.py:27-29 | x and y become `SPACING*round(v/SPACING)`. |
| LegacyRouting.XRunWithoutHit | connection.py:48-63 | Without a departure the legacy x run is the plain run. |
| LegacyRouting.YRunWithoutHit | connection.py:66-79 | Without a departure the legacy y run is the plain run. |
| LegacyRouting.LegacyLegWithoutDeparture | connection.py:46-98 | With `d = [0,0]` a legacy leg is exactly the current engine's route. |
| LegacyRouting.XRunSkipsOrigin | connection.py:48-63 | With a departure, an x run never contains the origin's cell: the elbow replaces it by three cells one row off. |
| LegacyRouting.XRunStepwise | connection.py:48-63 | The x elbow keeps the run connected: consecutive links are one unit step apart. |
| LegacyRouting.YElbowJumps | connection.py:66-79 | The y elbow breaks the path. A vertical run back through the origin's column jumps diagonally to the first elbow cell, and the origin's cell is still appended. |
| LegacyRouting.LegsSnoc | connection.py:34-41 | The legs through the anchors are the legs to the last anchor followed by the last leg. |
| LegacyRouting.RouteWithoutAnchors | connection.py:42-43 | With no anchors the route is one leg from the start cell to the destination's cell. |
| LegacyRouting.AppendLegacyXRun | connection.py:48-63 | The `linkx` loops append exactly `LegacyXRun`. |
| LegacyRouting.AppendLegacyYRun | connection.py:66-79 | The `linky` loops append exactly `LegacyYRun`. |
| LegacyRouting.AppendLeg | connection.py:81-98 | `wire` appends exactly `LegacyLeg`, with the orientation rule. |
| LegacyRouting.WireThroughAnchors | connection.py:34-41 | The anchor loop appends the legs through the anchor cells in list order. |
| LegacyRouting.LegacyRewire | connection.py:22-43 | `rewire` leaves exactly `LegacyRoute` of the origin, the departure, the anchors and the destination. |
| LegacyBoard.NodeDragEffect | node.py:25-28 | The node sits on the grid point nearest p, each of its connections is routed for the new geometry, and everything else keeps its state. |
| LegacyBoard.NodeMergeEffect | node.py:15-23 | s's lists grow by o's and o's lists are unchanged. o's connections end at s. Exactly the slots that held o, in o's elements, now hold s. |
| LegacyBoard.NodeMergeDetaches | node.py:15-23 | On a consistent board nothing points at o after a merge, and the board stays consistent. |
| LegacyBoard.ConnectionInBboxClosed | connection.py:112-123 | A click on a connection keeps the board closed. |
| LegacyBoard.ConnectionInBboxEffect | connection.py:112-123 | True exactly when a link after the first is hit. Then a new anchor is appended at the hit link's position on the grid, and it becomes the active object. Otherwise nothing changes. |
| LegacyBoard.InBboxAppends | connection.py:121 | After a successful click the new anchor is the last of its connection's anchors. |
| LegacyBoard.AnchorMergeEffect | connection.py:151-154 | o's connection keeps the length of its anchor list, and only o's first slot now holds a. o leaves the top layer. |
| LegacyBoard.InBboxThenDelete | connection.py:156-158 | Deleting the anchor a click just created gives back the anchor list and the top layer as they were. |
| LegacyElements.NewElementClosed | branch_element.py:11-33 | A new element keeps the board closed. |
| LegacyElements.MergedSlotsShared | node.py:15-23 | Merging a new element's first node into its second leaves the board closed. Both slots then hold one node, which lists the element twice. That node is not exclusive, so the slots are not distinct but every repeated node is shared. |
| LegacyElements.DistinctRepeatsShared | branch_element.py:56-58 | An element whose slots are distinct meets the shared-repeat condition of the drag and rotate lemmas. |
| LegacyElements.NewElementConsistent | branch_element.py:27-31 | After construction each node lists its connection and this element, so back references stay consistent. |
| LegacyElements.NewElementShape | branch_element.py:11-33 | The element is at (x·SPACING, y·SPACING). Node 0 is at +2·SPACING on x, node 1 at -2·SPACING, and each lists exactly its one connection and the element. `connections[i]` goes to `nodes[i]` with `d = [±s, 0]`, routed. The two connections join the end of the canvas's top layer in creation order, because `Connection.__init__` calls `add_object` with its default layer (connection.py:16). Existing records are unchanged. |
| LegacyElements.NewElementLeads | branch_element.py:24-25 | A capacitor's or junction's lead is one link long. An inductor's departure of 2 makes its leads end at the node's own cell. |
| LegacyElements.NewElementExport | branch_element.py:80-141 | A new element exports as its kind's tag and defaults: "C" with 0.02, "JJ" with 1.2 then 21, "L" with 1.2. |
| LegacyElements.ElementInBboxEffect | branch_element.py:47-52 | `disps` records each node's offset from the element, in node order. The answer is the strict SPACING/2 box test. |
| LegacyElements.DragNodes | branch_element.py:56-58 | When every node repeated in the element's slots is shared (as after a merge), the first i nodes are at their drag targets and no other node moves. |
| LegacyElements.ElementDragKeeps | branch_element.py:54-58 | A drag keeps every reference, and so the board stays closed and consistent. |
| LegacyElements.ElementDragEffect | branch_element.py:54-58 | The element moves to the grid point nearest p. Each exclusive, anchor-free node with a recorded offset moves to that offset from the new centre, snapped. Other nodes stay. Holds whenever every repeated slot's node is shared, as after a merge. |
| LegacyElements.ClickDragKeepsOffsets | branch_element.py:47-58 | On a grid-aligned board a click followed by a drag keeps every exclusive node's offset from the element, and the other nodes stay put. Holds whenever every repeated slot's node is shared, as after a merge. |
| LegacyElements.TurnConnsEffect | branch_element.py:63-68 | With distinct connections, the first i have `d` turned from `(a,b)` to `(b,-a)`. Nothing but links changes elsewhere. |
| LegacyElements.TurnNodesEffect | branch_element.py:70-77 | When every node repeated in the element's slots is shared (as after a merge), each of the first i nodes is turned about the centre exactly when it is exclusive. |
| LegacyElements.ElementRotateEffect | branch_element.py:61-77 | The counter advances mod 4 and every connection's `d` is turned. Exactly the exclusive nodes are turned about the centre, and others stay put. Holds whenever every repeated slot's node is shared, as after a merge. |
| LegacyElements.ElementRotateKeeps | branch_element.py:61-77 | A rotation keeps every reference, so the board stays closed and consistent. |
| LegacyElements.DepartsFourTimes | branch_element.py:63-68 | Four turns of the same connections give back every departure. |
| LegacyElements.NodesFourTimes | branch_element.py:70-77 | Four turns of the same exclusive nodes about one centre give back every node. |
| LegacyElements.FourRotations | branch_element.py:61-77 | Four rotations restore everything but the links: counters, departures and node positions. Holds whenever every repeated slot's node is shared, as after a merge. |
| LegacyExport.NatStrRoundTrip | branch_element.py:41 | Parsing the decimal digits of n gives n. |
| LegacyExport.IntStrRoundTrip | branch_element.py:41 | Parsing `str(i)` gives i, negative numbers included. |
| LegacyExport.SplitJoin | branch_element.py:35-41 | Splitting a comma join of comma-free pieces gives the pieces back. |
| LegacyExport.TerminatedIsJoin | branch_element.py:36-39 | Every value followed by a comma is the comma join plus one trailing comma. |
| LegacyExport.PropsStringJoins | branch_element.py:39-40 | The properties part is the comma join of the values, and empty when there are none. |
| LegacyExport.ExportLineShape | branch_element.py:41 | The line is `- [`, the comma join of its pieces, and `]`. |
| LegacyExport.ExportRoundTrip | branch_element.py:35-41 | The line starts with "- [" and ends with "]". Its fields are the name, both indices and the values, in insertion order, and the index fields parse back to the indices. |
| LegacyScenes.Scene.AnchorPositions | connection.py:36-37 | Reads the anchors' positions in list order. |
| LegacyScenes.Scene.Rewire | connection.py:22-43 | The board becomes `Rewired`: only this connection's links change, and they become its route. |
| LegacyScenes.Scene.RewireAll | node.py:27-28 | Each listed connection is rerouted in turn, giving `RewireEach`. |
| LegacyScenes.Scene.NodeDrag | node.py:25-28 | The board becomes `NodeDragSpec` of the old one. |
| LegacyScenes.Scene.NodeMerge | node.py:15-23 | The three loops give `NodeMergeSpec` of the old board. |
| LegacyScenes.Scene.ConnectionInBbox | connection.py:112-123 | Board and answer are `ConnectionInBboxSpec` of the old board. |
| LegacyScenes.Scene.AnchorMerge | connection.py:151-154 | The board becomes `AnchorMergeSpec`. |
| LegacyScenes.Scene.AnchorDelete | connection.py:156-158 | The board becomes `AnchorDeleteSpec`. |
| LegacyScenes.Scene.NewElement | branch_element.py:11-33 | The new element is the next handle, and the board becomes `NewElementSpec`, top-layer entries of the two connections included. |
| LegacyScenes.Scene.ElementInBbox | branch_element.py:47-52 | Board and answer are `ElementInBboxSpec` of the old board. |
| LegacyScenes.Scene.ElementDrag | branch_element.py:54-58 | The board becomes `ElementDragSpec` of the old one. |
| LegacyScenes.Scene.DragLoop | branch_element.py:56-58 | The loop over the first k pairs gives `DragNodes`. |
| LegacyScenes.Scene.DragStep | branch_element.py:57-58 | One pass gives `DragOne`. |
| LegacyScenes.Scene.ElementRotate | branch_element.py:61-77 | The board becomes `ElementRotateSpec` of the old one. |
| LegacyScenes.Scene.TurnConnsLoop | branch_element.py:63-68 | The loop gives `TurnConns`. |
| LegacyScenes.Scene.TurnNodesLoop | branch_element.py:70-77 | The loop gives `TurnNodes`. |
| LegacyScenes.Scene.TurnConnection | branch_element.py:64-68 | One pass gives `TurnOne`: `d` is turned and the connection rewired. |
| LegacyScenes.Scene.TurnNode | branch_element.py:71-77 | One pass gives `TurnNodeOne`: an exclusive node is turned and its counter advances. |

## Left out

- Rendering is not modelled: every `paint`, `draw` and `toolbar`, and every
  `canvas.redraw()`. In the legacy engine `redraw` reroutes every connection
  as it draws. After `BranchElement.rotate` the model therefore keeps the
  links computed while the nodes had not yet moved, until the next rewire.
- The Qt and Tk widgets, mouse and gesture routing, zoom and pan, toolbars and
  file dialogs are not modelled, and neither are `pickle` save, load and
  import. Only the memento values are modelled.
- Property values are floats in the source. They are kept as their text, so
  `__str__` is modelled on strings and float formatting is not modelled.
- Coordinates are integers. Python's float `round` is modelled exactly for
  integers, ties to even included. Non-integer cursor positions are not
  modelled.
- The current `branch_element.py`, `canvas_element.py`, `constants.py`
  (`Point`, `ROT_MAT`, `snaptogrid`) and `ElementMomento` are not part of
  this model. Points are integer pairs and `ROT_MAT` is the integer quarter
  turn. `_load_element`, which needs `BranchElement` and `ElementMomento`, is
  left out; the node and connection setup it calls is modelled.
- The selection of the current engine (`selected_anchor`, `selected_wire`) is
  an argument and a result of the methods, not a field.
- Connections.Press: pressing with nothing selected fails in the source (an
  attribute read on `None`). The model requires a selection.
- Nodes.Drop: the canvas never drops a node onto itself, and the model
  requires two different nodes. The source's `drop` of a ground onto a node
  would call `remove_node` on a ground and fail. The model requires the
  dropped record to be a plain node.
- Nodes.RedirectEachEffect: `drop` (sccircuitbuilder/node.py:31) calls the
  source's `change_dest`, which rewrites the last wire of the wire list
  (see Findings). The model uses the corrected `ChangeDestOnPath`, which
  rewrites the wire that ends the path, so the chain preservation stated
  here holds for the corrected `change_dest` only.
- Nodes.RedirectAll: uses the corrected `change_dest`, as above.
- Nodes.DropMovesLinks: uses the corrected `change_dest`, as above; with the
  source's, a pressed connection can lose its path to the new node.
- Nodes.Drop: uses the corrected `change_dest`, as above.
- Nodes.SplitOneEffect: `split` (sccircuitbuilder/node.py:75) also calls the
  source's `change_dest`; the model uses the corrected `ChangeDestOnPath`.
  The two rewrite the same wire whenever the last wire of the list is the
  one that ends at the node.
- Nodes.SplitEachEffect: uses the corrected `change_dest`, as above.
- Nodes.SplitOk: uses the corrected `change_dest`, as above.
- Nodes.SplitElement: uses the corrected `change_dest`, as above.
- Nodes.SplitAll: uses the corrected `change_dest`, as above.
- Circuits.AddCircuitRenumbers: `add_circuit` also sets `elt.circuit = self`
  on every item of the other circuit (sccircuitbuilder/circuit.py:54-55).
  Items carry no owner field in the model, so this re-parenting is not
  modelled; `Circuits.Circuit.AddCircuit` leaves it out as well.
- Nodes.Split: in the source, an element with no connection to the node makes
  the loop fail on `conn.anchors` (`None`). The model stops at that element
  and returns false. `SplitOk` is stated for nodes whose elements all have a
  connection to them.
- Connections.RemoveAnchor: `remove_anchor` raises `ValueError` when the
  anchor is not in the connection's anchor list or not in the circuit's, and
  fails on `None` when no wire ends or starts at it. The first case happens
  after `split` has cleared the list (sccircuitbuilder/node.py:71) while the
  anchor still exists. The model requires all of these, so the failures are
  not modelled. `RemoveAnchorSpec` has the same preconditions.
- Connections.AnchorDelete: `Anchor.delete` calls `remove_anchor` on the
  anchor's own connection and fails in the same cases, for example on an
  anchor whose connection was split. The model requires them.
- LegacyScenes.Scene.AnchorMerge: `toplayer.remove(other)` (connection.py:152)
  raises `ValueError` when the other anchor is not on the top layer, and
  `index` (line 153) does so when it is not in its connection's list. No
  modelled code puts an anchor on the top layer, so the model requires both,
  as `AnchorMergeSpec` does.
- LegacyScenes.Scene.AnchorDelete: `toplayer.remove(self)` (connection.py:157)
  and `anchors.remove(self)` (line 158) raise `ValueError` in the same way.
  The model requires both, as `AnchorDeleteSpec` does, and
  `InBboxThenDelete` assumes the top-layer insertion.
- Mementos.Capture: it records what is proved for chained connections only
  (`Chains`). The walk of a connection that is not a path is not specified.
- Mementos.LoadedRoundTrip: `_load_nodes` does not restore a node's turns, so
  the round trip is stated for unturned nodes.
- `Node.drag` of the current engine and `Ground.toolbar` are widget glue on
  top of `CanvasElement.drag`, which is not part of this model.
- Python's cyclic object references become integer handles into tables.
  Aliasing between a Python object and its own argument is therefore
  excluded: LegacyBoard.NodeMergeSpec requires `s != o`.
- LegacyBoard.AnchorMergeSpec: as in the source, the moved anchor keeps its
  old `connection` attribute.
- The legacy node index (`node.idx`, used by `__str__`) is assigned by the
  canvas, which is not part of this model. It is a parameter of
  `LegacyElements.ElementExport`.
- `CanvasElement` objects on the legacy canvas always have the default box:
  nothing in the modelled code passes one.
- Integer widths do not arise: Python integers are unbounded, as in Dafny.

## Findings

| source | as written | input that shows it | evidently intended | confidence | as-written member | corrected member |
|---|---|---|---|---|---|---|
| sccircuitbuilder/connection.py:60-62 | `change_dest` redirects `wires[-1]`. `press` appends each new wire at the end of the list (line 52), so the last wire in the list need not be the last wire of the path. | Take a fresh connection and press its first wire twice. The list holds w0, w1, w2, but the path order is w0, w2, w1. Then `change_dest(n)` redirects w2, and w1 still ends at the old node. | The wire that ends at the destination is redirected, so the connection stays a chain to the new node. | not executed | Connections.RedirectAfterPressBreaksChain | Connections.ChangeDestOnPathKeepsChain |
