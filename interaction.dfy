/** The diagram's interaction bookkeeping: the hover neighbourhood and the
    opacities it assigns, the drag pin/unpin and `alphaTarget` state, and
    the page state that the toggle, the search and the data load update. */
module Interaction {
  import opened Wrappers
  import opened Records
  import opened GraphModel

  // ---------------------------------------------------------------------
  // Hover
  // ---------------------------------------------------------------------

  /** Some link joins `a` and `b`, in either direction. */
  ghost predicate Adjacent(links: seq<Link>, a: string, b: string)
  {
    exists l :: l in links && ((l.source == a && l.target == b) || (l.target == a && l.source == b))
  }

  /** The other endpoint of every link at `h`: targets of links leaving `h`
      and sources of links entering it. */
  ghost function Neighbours(links: seq<Link>, h: string): set<string>
  {
    (set l | l in links && l.source == h :: l.target) + (set l | l in links && l.target == h :: l.source)
  }

  lemma NeighboursSnoc(links: seq<Link>, l: Link, h: string)
    ensures Neighbours(links + [l], h)
         == Neighbours(links, h) + (if l.source == h then {l.target} else {})
                                 + (if l.target == h then {l.source} else {})
  {
    assert forall m :: m in links + [l] <==> m in links || m == l;
  }

  /** The neighbour set is exactly the adjacency relation at `h`. */
  lemma NeighboursAreAdjacent(links: seq<Link>, h: string, x: string)
    ensures x in Neighbours(links, h) <==> Adjacent(links, h, x)
  {
    if Adjacent(links, h, x) {
      var l :| l in links && ((l.source == h && l.target == x) || (l.target == h && l.source == x));
      if l.source == h && l.target == x {
        assert x in (set l | l in links && l.source == h :: l.target);
      } else {
        assert x in (set l | l in links && l.target == h :: l.source);
      }
    }
  }

  /** Adjacency has no direction: `b` is highlighted when hovering `a`
      exactly when `a` is highlighted when hovering `b`. */
  lemma AdjacentSymmetric(links: seq<Link>, a: string, b: string)
    ensures Adjacent(links, a, b) <==> Adjacent(links, b, a)
  {
  }

  /** The mouse-over handler's pass over the drawn links, collecting the
      ids connected to the hovered node `h`. */
  method ConnectedNodes(links: seq<Link>, h: string) returns (connected: set<string>)
    ensures forall x :: x in connected <==> Adjacent(links, h, x)
  {
    connected := {};
    for i := 0 to |links|
      invariant connected == Neighbours(links[..i], h)
    {
      var l := links[i];
      assert links[..i + 1] == links[..i] + [l];
      NeighboursSnoc(links[..i], l, h);
      if l.source == h {
        connected := connected + {l.target};
      }
      if l.target == h {
        connected := connected + {l.source};
      }
    }
    assert links[..|links|] == links;
    forall x ensures x in connected <==> Adjacent(links, h, x) {
      NeighboursAreAdjacent(links, h, x);
    }
  }

  /** The opacity a node gets while `h` is hovered: full for the hovered
      node and its neighbours, 0.3 for the rest. */
  function NodeOpacity(h: string, connected: set<string>, id: string): (o: real)
    ensures o == 1.0 || o == 0.3
    ensures o == 1.0 <==> id == h || id in connected
  {
    if id == h || id in connected then 1.0 else 0.3
  }

  /** The opacity a link gets while `h` is hovered: full for links at `h`,
      0.1 for the rest. */
  function LinkOpacity(l: Link, h: string): (o: real)
    ensures o == 1.0 || o == 0.1
    ensures o == 1.0 <==> l.source == h || l.target == h
  {
    if l.source == h || l.target == h then 1.0 else 0.1
  }

  /** While hovering, both endpoints of every emphasised link are
      emphasised too, so no full-opacity link runs into a faded node. */
  lemma EmphasisedLinkHasEmphasisedEnds(links: seq<Link>, h: string, connected: set<string>, l: Link)
    requires forall x :: x in connected <==> Adjacent(links, h, x)
    requires l in links && LinkOpacity(l, h) == 1.0
    ensures NodeOpacity(h, connected, l.source) == 1.0
    ensures NodeOpacity(h, connected, l.target) == 1.0
  {
    if l.source == h {
      assert Adjacent(links, h, l.target);
    } else {
      assert Adjacent(links, h, l.source);
    }
  }

  /** Hovering a node no link touches emphasises that node alone. */
  lemma IsolatedHover(links: seq<Link>, h: string, connected: set<string>, id: string)
    requires forall x :: x in connected <==> Adjacent(links, h, x)
    requires forall l :: l in links ==> l.source != h && l.target != h
    ensures NodeOpacity(h, connected, id) == 1.0 <==> id == h
  {
    assert !Adjacent(links, h, id);
  }

  /** The drawn diagram: the node elements (by id), the line elements, and
      the `opacity` style of each. An element whose style was never set
      shows at 1. */
  class Scene {
    var nodeIds: seq<string>
    var links: seq<Link>
    var nodeOpacity: map<string, real>
    var linkOpacity: seq<real>

    ghost predicate Valid()
      reads this
    {
      nodeOpacity.Keys == (set id | id in nodeIds) && |linkOpacity| == |links|
    }

    /** The elements for a filtered graph, as first drawn. */
    constructor(g: Graph)
      ensures nodeIds == seq(|g.nodes|, i requires 0 <= i < |g.nodes| => g.nodes[i].id)
      ensures links == g.links
      ensures forall id :: id in nodeOpacity ==> nodeOpacity[id] == 1.0
      ensures forall i :: 0 <= i < |linkOpacity| ==> linkOpacity[i] == 1.0
      ensures Valid()
    {
      var ids := seq(|g.nodes|, i requires 0 <= i < |g.nodes| => g.nodes[i].id);
      nodeIds := ids;
      links := g.links;
      nodeOpacity := map id | id in ids :: 1.0;
      linkOpacity := seq(|g.links|, i => 1.0);
    }

    /** The mouse-over handler for node `h`: neighbours and `h` at full
        opacity, every other node at 0.3; links at `h` at full opacity,
        every other link at 0.1. */
    method MouseOver(h: string)
      requires Valid()
      modifies this
      ensures Valid()
      ensures nodeIds == old(nodeIds) && links == old(links)
      ensures forall id :: id in nodeOpacity ==>
        (nodeOpacity[id] == 1.0 <==> id == h || Adjacent(links, h, id))
      ensures forall id :: id in nodeOpacity ==> nodeOpacity[id] == 1.0 || nodeOpacity[id] == 0.3
      ensures forall i :: 0 <= i < |links| ==>
        (linkOpacity[i] == 1.0 <==> links[i].source == h || links[i].target == h)
      ensures forall i :: 0 <= i < |links| ==> linkOpacity[i] == 1.0 || linkOpacity[i] == 0.1
    {
      var ls, ids := links, nodeIds;
      var connected := ConnectedNodes(ls, h);
      nodeOpacity := map id | id in ids :: NodeOpacity(h, connected, id);
      linkOpacity := seq(|ls|, i requires 0 <= i < |ls| => LinkOpacity(ls[i], h));
    }

    /** The mouse-out handler: every node back to 1, every link to 0.6. */
    method MouseOut()
      requires Valid()
      modifies this
      ensures Valid()
      ensures nodeIds == old(nodeIds) && links == old(links)
      ensures forall id :: id in nodeOpacity ==> nodeOpacity[id] == 1.0
      ensures forall i :: 0 <= i < |linkOpacity| ==> linkOpacity[i] == 0.6
    {
      var ids := nodeIds;
      nodeOpacity := map id | id in ids :: 1.0;
      linkOpacity := seq(|links|, i => 0.6);
    }
  }

  // ---------------------------------------------------------------------
  // Drag
  // ---------------------------------------------------------------------

  /** A node object as the simulation holds it: its position and its pin
      (`fx`, `fy`; `None` stands for null). */
  class SimNode {
    const id: string
    var x: real
    var y: real
    var fx: Option<real>
    var fy: Option<real>

    /** A node enters the simulation unpinned. */
    constructor(id: string, x: real, y: real)
      ensures this.id == id && this.x == x && this.y == y
      ensures fx == None && fy == None
    {
      this.id := id;
      this.x := x;
      this.y := y;
      fx := None;
      fy := None;
    }

    predicate Pinned()
      reads this
    {
      fx.Some? || fy.Some?
    }
  }

  /** The part of the simulation the drag handlers touch: its alpha target
      and whether its timer runs. */
  class Simulation {
    var alphaTarget: real
    var running: bool

    /** A fresh simulation runs towards an alpha target of 0. */
    constructor()
      ensures alphaTarget == 0.0 && running
    {
      alphaTarget := 0.0;
      running := true;
    }
  }

  /** A drag event: how many other drag gestures are active, and the
      pointer position. */
  datatype DragEvent = DragEvent(active: nat, x: real, y: real)

  /** `dragstarted`: the first concurrent gesture reheats the simulation
      (alpha target 0.3, restart); the node is pinned where it stands. */
  method DragStarted(sim: Simulation, d: SimNode, e: DragEvent)
    modifies sim, d
    ensures d.fx == Some(d.x) && d.fy == Some(d.y)
    ensures d.x == old(d.x) && d.y == old(d.y)
    ensures e.active == 0 ==> sim.alphaTarget == 0.3 && sim.running
    ensures e.active != 0 ==> sim.alphaTarget == old(sim.alphaTarget) && sim.running == old(sim.running)
  {
    if e.active == 0 {
      sim.alphaTarget := 0.3;
      sim.running := true;
    }
    d.fx := Some(d.x);
    d.fy := Some(d.y);
  }

  /** `dragged`: the pin follows the pointer. */
  method Dragged(d: SimNode, e: DragEvent)
    modifies d
    ensures d.fx == Some(e.x) && d.fy == Some(e.y)
    ensures d.x == old(d.x) && d.y == old(d.y)
  {
    d.fx := Some(e.x);
    d.fy := Some(e.y);
  }

  /** `dragended`: the last concurrent gesture lets the simulation cool
      (alpha target 0); the node is unpinned. */
  method DragEnded(sim: Simulation, d: SimNode, e: DragEvent)
    modifies sim, d
    ensures d.fx == None && d.fy == None
    ensures d.x == old(d.x) && d.y == old(d.y)
    ensures e.active == 0 ==> sim.alphaTarget == 0.0
    ensures e.active != 0 ==> sim.alphaTarget == old(sim.alphaTarget)
    ensures sim.running == old(sim.running)
  {
    if e.active == 0 {
      sim.alphaTarget := 0.0;
    }
    d.fx := None;
    d.fy := None;
  }

  /** A gesture up to its last move: the node is pinned at the last pointer
      position (where it was picked up when it did not move). */
  method DragMoves(sim: Simulation, d: SimNode, start: DragEvent, moves: seq<DragEvent>)
    modifies sim, d
    ensures d.x == old(d.x) && d.y == old(d.y)
    ensures |moves| == 0 ==> d.fx == Some(old(d.x)) && d.fy == Some(old(d.y))
    ensures |moves| > 0 ==> d.fx == Some(moves[|moves| - 1].x) && d.fy == Some(moves[|moves| - 1].y)
    ensures start.active == 0 ==> sim.alphaTarget == 0.3 && sim.running
  {
    DragStarted(sim, d, start);
    for i := 0 to |moves|
      invariant d.x == old(d.x) && d.y == old(d.y)
      invariant i == 0 ==> d.fx == Some(old(d.x)) && d.fy == Some(old(d.y))
      invariant i > 0 ==> d.fx == Some(moves[i - 1].x) && d.fy == Some(moves[i - 1].y)
      invariant start.active == 0 ==> sim.alphaTarget == 0.3 && sim.running
    {
      Dragged(d, moves[i]);
    }
  }

  /** A whole single gesture: afterwards the node is free again, its
      position is what the simulation left, the simulation cools, and no
      other node's pin was touched. */
  method DragGesture(sim: Simulation, d: SimNode, others: set<SimNode>,
                     start: DragEvent, moves: seq<DragEvent>, end: DragEvent)
    modifies sim, d
    ensures !d.Pinned()
    ensures d.x == old(d.x) && d.y == old(d.y)
    ensures start.active == 0 ==> sim.running
    ensures end.active == 0 ==> sim.alphaTarget == 0.0
    ensures forall n :: n in others && n != d ==> n.fx == old(n.fx) && n.fy == old(n.fy)
  {
    DragMoves(sim, d, start, moves);
    DragEnded(sim, d, end);
  }

  // ---------------------------------------------------------------------
  // Page state
  // ---------------------------------------------------------------------

  /** The component state the handlers update: the loaded data, the
      visibility map, the search box and the highlight set. */
  class ViewState {
    var data: Graph
    var visibleTypes: map<string, bool>
    var searchTerm: string
    var highlighted: set<string>

    /** The initial state: no data, every type shown, no search. */
    constructor()
      ensures data == Graph([], []) && visibleTypes == DefaultVisible
      ensures searchTerm == "" && highlighted == {}
    {
      data := Graph([], []);
      visibleTypes := DefaultVisible;
      searchTerm := "";
      highlighted := {};
    }

    /** Loading a response stores its transformed form. */
    method Ingest(p: Payload)
      modifies this
      ensures data == Transform(p)
      ensures visibleTypes == old(visibleTypes) && searchTerm == old(searchTerm)
      ensures highlighted == old(highlighted)
    {
      data := Transform(p);
    }

    /** `toggleNodeType(t)`. */
    method ToggleNodeType(t: string)
      modifies this
      ensures visibleTypes == Toggled(old(visibleTypes), t)
      ensures data == old(data) && searchTerm == old(searchTerm) && highlighted == old(highlighted)
    {
      visibleTypes := Toggled(visibleTypes, t);
    }

    /** `handleSearch(term)`: records the term and highlights what it
        matches in the whole data set, hidden types included. */
    method HandleSearch(term: string)
      modifies this
      ensures searchTerm == term
      ensures highlighted == MatchingIds(data.nodes, term)
      ensures data == old(data) && visibleTypes == old(visibleTypes)
    {
      var nodes := data.nodes;
      var matches := Search(nodes, term);
      searchTerm := term;
      highlighted := matches;
    }

    /** What the diagram draws. */
    function Shown(): (g: Graph)
      reads this
      ensures NoDangling(g)
      ensures forall n :: n in g.nodes <==> n in data.nodes && Visible(visibleTypes, n.nodeType)
    {
      FilteredData(data, visibleTypes)
    }
  }
}
