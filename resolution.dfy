/** What happens to the page's links once the diagram has been drawn.
    Drawing hands the filtered links to the simulation's link force, which
    replaces each link's `source` and `target` id by the node object with
    that id, in place, on the very link objects the page keeps. The link
    filter then tests those fields against a set of id strings. */
module Resolution {
  import opened Records
  import opened GraphModel
  import opened Fixture

  /** A link endpoint: still an id, or already the node object. */
  datatype Endpoint = IdRef(id: string) | NodeRef(node: Node)

  /** A link as the page holds it between renders. */
  datatype LiveLink = LiveLink(source: Endpoint, target: Endpoint, relationship: string, strength: real)

  /** A freshly loaded link: both endpoints are ids. */
  function Live(l: Link): LiveLink
  {
    LiveLink(IdRef(l.source), IdRef(l.target), l.relationship, l.strength)
  }

  function LiveAll(ls: seq<Link>): (r: seq<LiveLink>)
    ensures |r| == |ls|
    ensures forall i :: 0 <= i < |ls| ==> r[i] == Live(ls[i])
  {
    if ls == [] then [] else [Live(ls[0])] + LiveAll(ls[1..])
  }

  /** The id an endpoint stands for. */
  function EndpointId(e: Endpoint): string
  {
    match e
    case IdRef(id) => id
    case NodeRef(n) => n.id
  }

  // ---------------------------------------------------------------------
  // Resolution by the link force

  /** The link force's id lookup (`nodeById`): each node under its id, a
      later node replacing an earlier one with the same id. */
  function ById(nodes: seq<Node>): (m: map<string, Node>)
    ensures m.Keys == NodeIds(nodes)
    ensures forall k :: k in m ==> m[k].id == k && m[k] in nodes
  {
    if nodes == [] then map[]
    else
      var init, last := nodes[..|nodes| - 1], nodes[|nodes| - 1];
      assert nodes == init + [last];
      var m := ById(init)[last.id := last];
      assert forall n :: n in nodes <==> n in init || n == last;
      m
  }

  /** An id endpoint the lookup can resolve; a node endpoint needs none. */
  predicate Resolvable(e: Endpoint, byId: map<string, Node>)
  {
    e.IdRef? ==> e.id in byId
  }

  /** The link force's initialisation of one endpoint: an id becomes the
      node with that id; a node stays. */
  function ResolveEndpoint(e: Endpoint, byId: map<string, Node>): (r: Endpoint)
    requires Resolvable(e, byId)
    ensures r.NodeRef?
    ensures (forall k :: k in byId ==> byId[k].id == k) ==> EndpointId(r) == EndpointId(e)
  {
    match e
    case IdRef(id) => NodeRef(byId[id])
    case NodeRef(_) => e
  }

  function ResolveLink(l: LiveLink, byId: map<string, Node>): LiveLink
    requires Resolvable(l.source, byId) && Resolvable(l.target, byId)
  {
    l.(source := ResolveEndpoint(l.source, byId), target := ResolveEndpoint(l.target, byId))
  }

  // ---------------------------------------------------------------------
  // The link filter as written

  /** `ids.has(endpoint)`: a set of strings holds no node object. */
  predicate Has(ids: set<string>, e: Endpoint)
  {
    e.IdRef? && e.id in ids
  }

  /** The link test of `getFilteredData` as written: only a link whose two
      endpoints are still ids can pass, and it passes exactly when the id
      test passes. */
  predicate KeepAsWritten(ids: set<string>, l: LiveLink)
    ensures KeepAsWritten(ids, l) ==> l.source.IdRef? && l.target.IdRef?
    ensures l.source.IdRef? && l.target.IdRef? ==> (KeepAsWritten(ids, l) <==> KeepById(ids, l))
  {
    Has(ids, l.source) && Has(ids, l.target)
  }

  function FilterLinksAsWritten(ids: set<string>, links: seq<LiveLink>): seq<LiveLink>
  {
    Filter(links, (l: LiveLink) => KeepAsWritten(ids, l))
  }

  /** The page's links after a render with node ids `ids`: every link that
      passed the filter has been resolved in place; the others are as they
      were. */
  function AfterRender(links: seq<LiveLink>, ids: set<string>, byId: map<string, Node>): (r: seq<LiveLink>)
    requires ids <= byId.Keys
    ensures |r| == |links|
  {
    seq(|links|, i requires 0 <= i < |links| =>
      if KeepAsWritten(ids, links[i]) then ResolveLink(links[i], byId) else links[i])
  }

  /** Before any render the test as written is the id test the rest of the
      model uses. */
  lemma {:induction false} AsWrittenBeforeRender(ids: set<string>, ls: seq<Link>)
    ensures FilterLinksAsWritten(ids, LiveAll(ls))
         == LiveAll(Filter(ls, (l: Link) => l.source in ids && l.target in ids))
  {
    var keep := (l: Link) => l.source in ids && l.target in ids;
    var keepLive := (l: LiveLink) => KeepAsWritten(ids, l);
    if ls != [] {
      AsWrittenBeforeRender(ids, ls[1..]);
      assert LiveAll(ls) == [Live(ls[0])] + LiveAll(ls[1..]);
      FilterCons(Live(ls[0]), LiveAll(ls[1..]), keepLive);
      var head := if keep(ls[0]) then [ls[0]] else [];
      assert Filter(ls, keep) == head + Filter(ls[1..], keep);
      LiveAllAppend(head, Filter(ls[1..], keep));
    }
  }

  lemma {:induction false} LiveAllAppend(a: seq<Link>, b: seq<Link>)
    ensures LiveAll(a + b) == LiveAll(a) + LiveAll(b)
  {
    if a != [] {
      assert (a + b)[1..] == a[1..] + b;
      LiveAllAppend(a[1..], b);
    }
  }

  /** After a render, the test as written rejects every link that render
      drew, whatever types are visible next time. */
  lemma DrawnLinksVanish(links: seq<LiveLink>, ids: set<string>, byId: map<string, Node>,
                         later: set<string>, i: int)
    requires ids <= byId.Keys
    requires 0 <= i < |links| && KeepAsWritten(ids, links[i])
    ensures !KeepAsWritten(later, AfterRender(links, ids, byId)[i])
  {
  }

  /** Links whose endpoints are both node objects stay as they are through
      any render, and no render draws them, whatever types are visible. */
  lemma ResolvedLinksStayHidden(links: seq<LiveLink>, later: set<string>, byId: map<string, Node>)
    requires later <= byId.Keys
    requires forall l :: l in links ==> l.source.NodeRef? && l.target.NodeRef?
    ensures AfterRender(links, later, byId) == links
    ensures FilterLinksAsWritten(later, links) == []
  {
    FilterNone(links, (l: LiveLink) => KeepAsWritten(later, l));
  }

  /** For a graph without dangling links, all types shown: the first
      render draws every link and turns the endpoints of every link into
      node objects, so the next render draws none, and by
      `ResolvedLinksStayHidden` neither does any render after it. */
  lemma {:induction false} LinksVanishAfterFirstRender(g: Graph)
    requires NoDangling(g)
    ensures FilterLinksAsWritten(NodeIds(g.nodes), LiveAll(g.links)) == LiveAll(g.links)
    ensures forall l :: l in AfterRender(LiveAll(g.links), NodeIds(g.nodes), ById(g.nodes)) ==>
      l.source.NodeRef? && l.target.NodeRef?
    ensures FilterLinksAsWritten(NodeIds(g.nodes),
              AfterRender(LiveAll(g.links), NodeIds(g.nodes), ById(g.nodes))) == []
  {
    var ids := NodeIds(g.nodes);
    var links := LiveAll(g.links);
    FilterAll(g.links, (l: Link) => l.source in ids && l.target in ids);
    AsWrittenBeforeRender(ids, g.links);
    var after := AfterRender(links, ids, ById(g.nodes));
    forall l | l in after ensures l.source.NodeRef? && l.target.NodeRef? {
      var i :| 0 <= i < |after| && after[i] == l;
      assert g.links[i] in g.links;
      assert KeepAsWritten(ids, links[i]);
    }
    ResolvedLinksStayHidden(after, ids, ById(g.nodes));
  }

  /** The fallback data: the first render draws its four links, every
      later render (after a search, say) draws none. */
  lemma FallbackLosesLinks()
    ensures |FilterLinksAsWritten(NodeIds(Fallback().nodes), LiveAll(Fallback().links))| == 4
    ensures FilterLinksAsWritten(NodeIds(Fallback().nodes),
              AfterRender(LiveAll(Fallback().links), NodeIds(Fallback().nodes), ById(Fallback().nodes))) == []
  {
    FallbackClosed();
    LinksVanishAfterFirstRender(Fallback());
  }

  /** A link a render did not draw comes through that render as it was, so
      a later render tests it afresh: hidden links are not lost, they come
      back once their endpoints are shown again. */
  lemma UndrawnLinksReturn(links: seq<LiveLink>, ids: set<string>, byId: map<string, Node>,
                           later: set<string>, i: int)
    requires ids <= byId.Keys
    requires 0 <= i < |links| && !KeepAsWritten(ids, links[i])
    ensures AfterRender(links, ids, byId)[i] == links[i]
    ensures KeepAsWritten(later, AfterRender(links, ids, byId)[i]) == KeepAsWritten(later, links[i])
  {
  }

  /** The fallback data, People hidden, then shown again: the render with
      People hidden draws only `applies`; the next render, all types shown,
      draws the three links that render left alone. */
  lemma FallbackHiddenLinksReturn()
    ensures FilterLinksAsWritten({"I001", "PR001", "M001"}, LiveAll(Fallback().links)) == [Live(Applies)]
    ensures {"I001", "PR001", "M001"} <= ById(Fallback().nodes).Keys
    ensures FilterLinksAsWritten(NodeIds(Fallback().nodes),
              AfterRender(LiveAll(Fallback().links), {"I001", "PR001", "M001"}, ById(Fallback().nodes)))
         == [Live(Leads), Live(JakobMentored), Live(MarinaMentored)]
  {
    FallbackLiveLinks();
    FallbackIds();
    HiddenPeopleRender(LiveAll(Fallback().links));
    PeopleShownAgainRender(LiveAll(Fallback().links), ById(Fallback().nodes));
  }

  lemma FallbackLiveLinks()
    ensures LiveAll(Fallback().links) == [Live(Leads), Live(JakobMentored), Live(MarinaMentored), Live(Applies)]
  {
  }

  lemma FallbackIds()
    ensures NodeIds(Fallback().nodes) == {"P001", "P002", "I001", "PR001", "M001"}
  {
    var g := Fallback();
    assert g.nodes == [Jakob, Marina, Waag, RiverSync, ForestWalking];
    assert Jakob in g.nodes && Marina in g.nodes && Waag in g.nodes;
    assert RiverSync in g.nodes && ForestWalking in g.nodes;
  }

  /** The render with People hidden, on the fallback's fresh links, draws
      only `applies`. */
  lemma HiddenPeopleRender(links: seq<LiveLink>)
    requires links == [Live(Leads), Live(JakobMentored), Live(MarinaMentored), Live(Applies)]
    ensures FilterLinksAsWritten({"I001", "PR001", "M001"}, links) == [Live(Applies)]
  {
    PeopleIdsNotShown();
    var keep := (l: LiveLink) => KeepAsWritten({"I001", "PR001", "M001"}, l);
    assert links[0].source == IdRef("P001") && links[1].source == IdRef("P001");
    assert links[2].source == IdRef("P002");
    assert links[3].source == IdRef("PR001") && links[3].target == IdRef("M001");
    assert !keep(links[0]) && !keep(links[1]) && !keep(links[2]) && keep(links[3]);
    Filter4(links, keep);
  }

  /** The render after it, all types shown, draws the three links the
      first one left alone, for any lookup that knows the shown ids. */
  lemma PeopleShownAgainRender(links: seq<LiveLink>, byId: map<string, Node>)
    requires links == [Live(Leads), Live(JakobMentored), Live(MarinaMentored), Live(Applies)]
    requires {"I001", "PR001", "M001"} <= byId.Keys
    ensures FilterLinksAsWritten({"P001", "P002", "I001", "PR001", "M001"},
              AfterRender(links, {"I001", "PR001", "M001"}, byId))
         == [Live(Leads), Live(JakobMentored), Live(MarinaMentored)]
  {
    PeopleIdsNotShown();
    var after := AfterRender(links, {"I001", "PR001", "M001"}, byId);
    assert links[0].source == IdRef("P001") && links[1].source == IdRef("P001");
    assert links[2].source == IdRef("P002");
    assert links[0].target == IdRef("PR001") && links[1].target == IdRef("I001");
    assert links[2].target == IdRef("I001");
    assert !KeepAsWritten({"I001", "PR001", "M001"}, links[0]);
    assert !KeepAsWritten({"I001", "PR001", "M001"}, links[1]);
    assert !KeepAsWritten({"I001", "PR001", "M001"}, links[2]);
    assert after[0] == links[0] && after[1] == links[1] && after[2] == links[2];
    assert after[3].source.NodeRef?;
    var keep := (l: LiveLink) => KeepAsWritten({"P001", "P002", "I001", "PR001", "M001"}, l);
    assert keep(after[0]) && keep(after[1]) && keep(after[2]) && !keep(after[3]);
    Filter4(after, keep);
  }

  /** The people's ids are not among the ids of the other three nodes. */
  lemma PeopleIdsNotShown()
    ensures "P001" !in {"I001", "PR001", "M001"} && "P002" !in {"I001", "PR001", "M001"}
  {
    assert "P001"[0] != "I001"[0] && "P001"[0] != "M001"[0] && |"P001"| != |"PR001"|;
    assert "P002"[0] != "I001"[0] && "P002"[0] != "M001"[0] && |"P002"| != |"PR001"|;
  }

  /** Filtering a four-element sequence, element by element. */
  lemma Filter4<T(!new)>(s: seq<T>, keep: T -> bool)
    requires |s| == 4
    ensures Filter(s, keep) == Kept(s[0], keep) + (Kept(s[1], keep) + (Kept(s[2], keep) + Kept(s[3], keep)))
  {
    assert Filter(s, keep) == Kept(s[0], keep) + Filter(s[1..], keep);
    assert s[1..][1..] == s[2..] && s[2..][1..] == s[3..] && s[3..][1..] == [];
    assert Filter(s[1..], keep) == Kept(s[1], keep) + Filter(s[2..], keep);
    assert Filter(s[2..], keep) == Kept(s[2], keep) + Filter(s[3..], keep);
    assert Filter(s[3..], keep) == Kept(s[3], keep) + Filter(s[3..][1..], keep);
    assert Kept(s[3], keep) + [] == Kept(s[3], keep);
  }

  /** What the filter keeps of one element. */
  function Kept<T>(x: T, keep: T -> bool): seq<T>
  {
    if keep(x) then [x] else []
  }

  // ---------------------------------------------------------------------
  // The link filter by endpoint id

  /** The intended link test: compare the ids the endpoints stand for. */
  predicate KeepById(ids: set<string>, l: LiveLink)
  {
    EndpointId(l.source) in ids && EndpointId(l.target) in ids
  }

  function FilterLinksById(ids: set<string>, links: seq<LiveLink>): seq<LiveLink>
  {
    Filter(links, (l: LiveLink) => KeepById(ids, l))
  }

  /** The id test does not see a render: on every link it decides as it did
      before, for any later set of ids, when the lookup stores each node
      under its own id. */
  lemma ByIdSurvivesRender(links: seq<LiveLink>, ids: set<string>, byId: map<string, Node>,
                           later: set<string>, i: int)
    requires ids <= byId.Keys
    requires forall k :: k in byId ==> byId[k].id == k
    requires 0 <= i < |links|
    ensures KeepById(later, AfterRender(links, ids, byId)[i]) == KeepById(later, links[i])
  {
  }

  /** The id test agrees with the model's filter before a render. */
  lemma {:induction false} ByIdBeforeRender(ids: set<string>, ls: seq<Link>)
    ensures FilterLinksById(ids, LiveAll(ls))
         == LiveAll(Filter(ls, (l: Link) => l.source in ids && l.target in ids))
  {
    var keep := (l: Link) => l.source in ids && l.target in ids;
    var keepLive := (l: LiveLink) => KeepById(ids, l);
    if ls != [] {
      ByIdBeforeRender(ids, ls[1..]);
      assert LiveAll(ls) == [Live(ls[0])] + LiveAll(ls[1..]);
      FilterCons(Live(ls[0]), LiveAll(ls[1..]), keepLive);
      var head := if keep(ls[0]) then [ls[0]] else [];
      assert Filter(ls, keep) == head + Filter(ls[1..], keep);
      LiveAllAppend(head, Filter(ls[1..], keep));
    }
  }

  /** For a graph without dangling links, the id test keeps every link on
      every render. */
  lemma LinksStayByIdAfterRender(g: Graph)
    requires NoDangling(g)
    ensures FilterLinksById(NodeIds(g.nodes),
              AfterRender(LiveAll(g.links), NodeIds(g.nodes), ById(g.nodes)))
         == AfterRender(LiveAll(g.links), NodeIds(g.nodes), ById(g.nodes))
  {
    var ids := NodeIds(g.nodes);
    var links := LiveAll(g.links);
    var after := AfterRender(links, ids, ById(g.nodes));
    forall l | l in after ensures KeepById(ids, l) {
      var i :| 0 <= i < |after| && after[i] == l;
      assert g.links[i] in g.links;
      ByIdSurvivesRender(links, ids, ById(g.nodes), ids, i);
    }
    FilterAll(after, (l: LiveLink) => KeepById(ids, l));
  }

  /** With the id test, the fallback data keeps its four links after the
      first render. */
  lemma FallbackKeepsLinksById()
    ensures |FilterLinksById(NodeIds(Fallback().nodes),
               AfterRender(LiveAll(Fallback().links), NodeIds(Fallback().nodes), ById(Fallback().nodes)))| == 4
  {
    FallbackClosed();
    LinksStayByIdAfterRender(Fallback());
  }
}
