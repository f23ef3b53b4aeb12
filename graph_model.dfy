/** The frontend's graph model: the payload transform applied on ingest, the
    per-type visibility map and the filter it drives, the text search that
    builds the highlight set, the dim rule, and the two lookup tables the
    diagram uses (type to colour, relationship to spring distance). */
module GraphModel {
  import opened Wrappers
  import opened Records
  import opened Text

  // ---------------------------------------------------------------------
  // Ingest

  /** A link as the `/api/graph-data` payload carries it; `strength` may be
      absent (or null). */
  datatype RawLink = RawLink(sourceId: string, targetId: string,
                             relationshipType: string, strength: Option<real>)

  /** The payload; either array may be missing. */
  datatype Payload = Payload(nodes: Option<seq<Node>>, links: Option<seq<RawLink>>)

  /** A link in the shape the diagram uses. */
  datatype Link = Link(source: string, target: string, relationship: string, strength: real)

  /** The graph held by the page: nodes and links in payload order. */
  datatype Graph = Graph(nodes: seq<Node>, links: seq<Link>)

  /** `link.strength || 1.0`: a missing strength and a strength of 0 are both
      falsy and become 1.0; every other strength is kept. */
  function StrengthOrDefault(s: Option<real>): (r: real)
    ensures r != 0.0
    ensures s.Some? && s.value != 0.0 ==> r == s.value
    ensures s.None? || s.value == 0.0 ==> r == 1.0
  {
    match s
    case Some(v) => if v != 0.0 then v else 1.0
    case None => 1.0
  }

  /** One link renamed into the diagram's shape. */
  function TransformLink(l: RawLink): Link
  {
    Link(l.sourceId, l.targetId, l.relationshipType, StrengthOrDefault(l.strength))
  }

  /** The payload transform applied after a successful fetch: the nodes as
      they came, one link per payload link, none with strength 0. */
  function Transform(p: Payload): (g: Graph)
    ensures g.nodes == (if p.nodes.Some? then p.nodes.value else [])
    ensures |g.links| == (if p.links.Some? then |p.links.value| else 0)
    ensures forall l :: l in g.links ==> l.strength != 0.0
  {
    var links := if p.links.Some? then p.links.value else [];
    Graph(if p.nodes.Some? then p.nodes.value else [],
          seq(|links|, i requires 0 <= i < |links| => TransformLink(links[i])))
  }

  /** Every link of the payload reappears at the same position with its
      fields renamed and its strength defaulted; nodes pass through; missing
      arrays become empty. */
  lemma TransformShape(p: Payload)
    ensures Transform(p).nodes == (if p.nodes.Some? then p.nodes.value else [])
    ensures p.links.None? ==> Transform(p).links == []
    ensures p.links.Some? ==> |Transform(p).links| == |p.links.value|
    ensures p.links.Some? ==> forall i :: 0 <= i < |p.links.value| ==>
      var raw, l := p.links.value[i], Transform(p).links[i];
      && l.source == raw.sourceId && l.target == raw.targetId
      && l.relationship == raw.relationshipType
      && (raw.strength.Some? && raw.strength.value != 0.0 ==> l.strength == raw.strength.value)
      && (raw.strength.None? || raw.strength.value == 0.0 ==> l.strength == 1.0)
  {
    if p.links.Some? {
      forall i | 0 <= i < |p.links.value|
        ensures Transform(p).links[i] == TransformLink(p.links.value[i])
      {
      }
    }
  }

  /** A payload whose links only name nodes it carries ingests into a graph
      without dangling links: the renaming keeps every endpoint. */
  lemma TransformKeepsClosure(p: Payload)
    requires p.nodes.Some? && p.links.Some?
    requires forall l :: l in p.links.value ==>
      (exists n :: n in p.nodes.value && n.id == l.sourceId) &&
      (exists n :: n in p.nodes.value && n.id == l.targetId)
    ensures NoDangling(Transform(p))
  {
    var g := Transform(p);
    forall l | l in g.links ensures l.source in NodeIds(g.nodes) && l.target in NodeIds(g.nodes) {
      var i :| 0 <= i < |g.links| && g.links[i] == l;
      var raw := p.links.value[i];
      assert raw in p.links.value && l == TransformLink(raw);
      var s :| s in p.nodes.value && s.id == raw.sourceId;
      var t :| t in p.nodes.value && t.id == raw.targetId;
      assert s in g.nodes && t in g.nodes;
    }
  }

  // ---------------------------------------------------------------------
  // Visibility

  /** The entity types and the initial visibility map: all four shown. */
  const NodeTypes: set<string> := {"People", "Institutions", "Projects", "Methods"}
  const DefaultVisible: map<string, bool> :=
    map["People" := true, "Institutions" := true, "Projects" := true, "Methods" := true]

  /** The keys a plain object literal inherits from `Object.prototype`. Read
      through it, each gives a function (or, for `__proto__`, an object), so
      each is truthy. */
  const ObjectPrototypeKeys: set<string> :=
    {"constructor", "hasOwnProperty", "isPrototypeOf", "propertyIsEnumerable",
     "toLocaleString", "toString", "valueOf", "__proto__",
     "__defineGetter__", "__defineSetter__", "__lookupGetter__", "__lookupSetter__"}

  /** `visibleTypes[t]` taken as a truth value. An own key gives its
      boolean. A missing key reads as `undefined`, which is falsy, unless it
      names an inherited member, which is truthy. */
  predicate Visible(v: map<string, bool>, t: string)
    ensures t in v ==> (Visible(v, t) <==> v[t])
  {
    if t in v then v[t] else t in ObjectPrototypeKeys
  }

  /** A missing entity type reads as hidden; a missing inherited key reads
      as shown. */
  lemma VisibleReads(v: map<string, bool>, t: string)
    ensures t !in v && t in NodeTypes ==> !Visible(v, t)
    ensures t !in v && t in ObjectPrototypeKeys ==> Visible(v, t)
  {
  }

  /** `toggleNodeType(t)`: `{...prev, [t]: !prev[t]}`. */
  function Toggled(v: map<string, bool>, t: string): (r: map<string, bool>)
    ensures r.Keys == v.Keys + {t}
    ensures Visible(r, t) == !Visible(v, t)
    ensures forall k :: k in v && k != t ==> r[k] == v[k]
  {
    v[t := !Visible(v, t)]
  }

  /** Toggling flips the visibility of exactly one type. */
  lemma ToggleFlipsOnlyThatType(v: map<string, bool>, t: string, u: string)
    ensures Visible(Toggled(v, t), u) == (if u == t then !Visible(v, u) else Visible(v, u))
  {
  }

  /** Toggling a key twice restores the map when the key was present; for a
      key that was absent it leaves the key present with the value it read
      as before, so visibility is restored either way. */
  lemma ToggleTwice(v: map<string, bool>, t: string)
    ensures t in v ==> Toggled(Toggled(v, t), t) == v
    ensures Toggled(Toggled(v, t), t) == v[t := Visible(v, t)]
    ensures forall u :: Visible(Toggled(Toggled(v, t), t), u) == Visible(v, u)
  {
    if t in v {
      assert Toggled(Toggled(v, t), t).Keys == v.Keys;
    }
  }

  // ---------------------------------------------------------------------
  // Filter

  /** `s.filter(keep)`. */
  function Filter<T(!new)>(s: seq<T>, keep: T -> bool): (r: seq<T>)
    ensures |r| <= |s|
    ensures forall x :: x in r <==> x in s && keep(x)
  {
    if s == [] then []
    else (if keep(s[0]) then [s[0]] else []) + Filter(s[1..], keep)
  }

  /** One step of the filter. */
  lemma FilterCons<T(!new)>(x: T, s: seq<T>, keep: T -> bool)
    ensures Filter([x] + s, keep) == (if keep(x) then [x] else []) + Filter(s, keep)
  {
    assert ([x] + s)[1..] == s;
  }

  /** Filtering distributes over concatenation, so it keeps the relative order
      of the elements it keeps. */
  lemma {:induction false} FilterAppend<T(!new)>(a: seq<T>, b: seq<T>, keep: T -> bool)
    ensures Filter(a + b, keep) == Filter(a, keep) + Filter(b, keep)
  {
    if a == [] {
      assert a + b == b;
    } else {
      assert (a + b)[1..] == a[1..] + b;
      FilterAppend(a[1..], b, keep);
    }
  }

  /** Filtering keeps every occurrence of a kept element and none of the
      others. */
  lemma {:induction false} FilterCount<T(!new)>(s: seq<T>, keep: T -> bool, x: T)
    ensures multiset(Filter(s, keep))[x] == if keep(x) then multiset(s)[x] else 0
  {
    if s != [] {
      FilterCount(s[1..], keep, x);
      assert s == [s[0]] + s[1..];
    }
  }

  /** Filtering twice with the same test is filtering once. */
  lemma {:induction false} FilterIdempotent<T(!new)>(s: seq<T>, keep: T -> bool)
    ensures Filter(Filter(s, keep), keep) == Filter(s, keep)
  {
    if s != [] {
      FilterIdempotent(s[1..], keep);
      var head := if keep(s[0]) then [s[0]] else [];
      FilterAppend(head, Filter(s[1..], keep), keep);
    }
  }

  /** Filtering keeps everything when every element passes. */
  lemma {:induction false} FilterAll<T(!new)>(s: seq<T>, keep: T -> bool)
    requires forall x :: x in s ==> keep(x)
    ensures Filter(s, keep) == s
  {
    if s != [] {
      FilterAll(s[1..], keep);
    }
  }

  /** Filtering keeps nothing when no element passes. */
  lemma {:induction false} FilterNone<T(!new)>(s: seq<T>, keep: T -> bool)
    requires forall x :: x in s ==> !keep(x)
    ensures Filter(s, keep) == []
  {
    if s != [] {
      FilterNone(s[1..], keep);
    }
  }

  /** The ids of a list of nodes. */
  function NodeIds(nodes: seq<Node>): set<string>
  {
    set n | n in nodes :: n.id
  }

  /** The ids of a list, one node at a time. */
  lemma NodeIdsCons(n: Node, s: seq<Node>)
    ensures NodeIds([n] + s) == {n.id} + NodeIds(s)
  {
    assert forall m :: m in [n] + s <==> m == n || m in s;
  }

  /** No link of the graph names a node the graph does not hold. */
  predicate NoDangling(g: Graph)
  {
    forall l :: l in g.links ==> l.source in NodeIds(g.nodes) && l.target in NodeIds(g.nodes)
  }

  /** `getFilteredData`: the nodes whose type is visible, then the links both
      of whose endpoints are among the kept nodes. */
  function FilteredData(g: Graph, v: map<string, bool>): (r: Graph)
    ensures forall n :: n in r.nodes <==> n in g.nodes && Visible(v, n.nodeType)
    ensures forall l :: l in r.links <==>
      l in g.links && l.source in NodeIds(r.nodes) && l.target in NodeIds(r.nodes)
    ensures NoDangling(r)
  {
    var nodes := Filter(g.nodes, (n: Node) => Visible(v, n.nodeType));
    var ids := NodeIds(nodes);
    Graph(nodes, Filter(g.links, (l: Link) => l.source in ids && l.target in ids))
  }

  /** A node whose type is not a key of the visibility map but names an
      inherited member (a type "constructor", say) is drawn, not hidden. */
  lemma InheritedTypeIsShown(g: Graph, v: map<string, bool>, n: Node)
    requires n in g.nodes && n.nodeType !in v && n.nodeType in ObjectPrototypeKeys
    ensures n in FilteredData(g, v).nodes
  {
    VisibleReads(v, n.nodeType);
  }

  /** A link survives the filter exactly when the types of both its endpoint
      nodes are visible (for a graph whose ids are unique). */
  lemma FilteredLinkIff(g: Graph, v: map<string, bool>, l: Link)
    requires forall m, n :: m in g.nodes && n in g.nodes && m.id == n.id ==> m == n
    requires l in g.links && NoDangling(g)
    ensures l in FilteredData(g, v).links <==>
      (forall n :: n in g.nodes && (n.id == l.source || n.id == l.target) ==> Visible(v, n.nodeType))
  {
    var r := FilteredData(g, v);
    assert l.source in NodeIds(g.nodes) && l.target in NodeIds(g.nodes);
    var s :| s in g.nodes && s.id == l.source;
    var t :| t in g.nodes && t.id == l.target;
    if Visible(v, s.nodeType) && Visible(v, t.nodeType) {
      assert s in r.nodes && t in r.nodes;
    }
  }

  /** Applying the filter to its own output changes nothing. */
  lemma FilteredDataIdempotent(g: Graph, v: map<string, bool>)
    ensures FilteredData(FilteredData(g, v), v) == FilteredData(g, v)
  {
    var r := FilteredData(g, v);
    var keepNode := (n: Node) => Visible(v, n.nodeType);
    FilterIdempotent(g.nodes, keepNode);
    var ids := NodeIds(r.nodes);
    FilterAll(r.links, (l: Link) => l.source in ids && l.target in ids);
  }

  /** With every type of the graph visible, a graph without dangling links
      passes the filter unchanged. */
  lemma FilteredDataAllVisible(g: Graph, v: map<string, bool>)
    requires NoDangling(g)
    requires forall n :: n in g.nodes ==> Visible(v, n.nodeType)
    ensures FilteredData(g, v) == g
  {
    FilterAll(g.nodes, (n: Node) => Visible(v, n.nodeType));
    var ids := NodeIds(g.nodes);
    FilterAll(g.links, (l: Link) => l.source in ids && l.target in ids);
  }

  // ---------------------------------------------------------------------
  // Search and highlight

  /** `term.trim() === ''`. */
  predicate IsBlank(term: string)
  {
    Trim(term) == ""
  }

  /** `node.f && node.f.toLowerCase().includes(term.toLowerCase())`: a null or
      empty column is falsy and never matches. */
  predicate FieldMatches(n: Node, f: Field, term: string)
  {
    f in n.attrs && n.attrs[f] != "" && ContainsIgnoringCase(n.attrs[f], term)
  }

  /** The five columns the frontend search looks at: name, bio, description,
      methods and category. A match needs a column at least as long as the
      term. */
  predicate MatchesTerm(n: Node, term: string)
    ensures MatchesTerm(n, term) ==>
      |term| <= |n.name| || exists f :: f in n.attrs && |term| <= |n.attrs[f]|
  {
    || ContainsIgnoringCase(n.name, term)
    || FieldMatches(n, Bio, term)
    || FieldMatches(n, Description, term)
    || FieldMatches(n, Methods, term)
    || FieldMatches(n, Category, term)
  }

  /** The ids of the nodes a term matches. */
  ghost function MatchedIds(nodes: seq<Node>, term: string): set<string>
  {
    set n | n in nodes && MatchesTerm(n, term) :: n.id
  }

  /** The ids `handleSearch` collects for a term, as a set description. */
  ghost function MatchingIds(nodes: seq<Node>, term: string): set<string>
  {
    if IsBlank(term) then {} else MatchedIds(nodes, term)
  }

  /** The matched ids of a list, one node at a time. */
  lemma MatchedIdsCons(n: Node, s: seq<Node>, term: string)
    ensures MatchedIds([n] + s, term)
         == (if MatchesTerm(n, term) then {n.id} else {}) + MatchedIds(s, term)
  {
    assert forall m :: m in [n] + s <==> m == n || m in s;
  }

  /** The matched ids of a list extended by one node at its end. */
  lemma MatchedIdsSnoc(s: seq<Node>, n: Node, term: string)
    ensures MatchedIds(s + [n], term)
         == MatchedIds(s, term) + (if MatchesTerm(n, term) then {n.id} else {})
  {
    assert forall m :: m in s + [n] <==> m in s || m == n;
  }

  /** `handleSearch(term)`: the highlight set for a term, built by a pass over
      every node of the unfiltered data. It is empty for a blank term, and
      otherwise holds exactly the ids of the matching nodes. The untrimmed
      term is the one matched. */
  method Search(nodes: seq<Node>, term: string) returns (matches: set<string>)
    ensures matches == MatchingIds(nodes, term)
    ensures IsBlank(term) ==> matches == {}
    ensures !IsBlank(term) ==>
      forall id :: id in matches <==> exists n :: n in nodes && n.id == id && MatchesTerm(n, term)
  {
    matches := {};
    if IsBlank(term) {
      return;
    }
    var i := 0;
    while i < |nodes|
      invariant 0 <= i <= |nodes|
      invariant matches == MatchedIds(nodes[..i], term)
    {
      var n := nodes[i];
      assert nodes[..i + 1] == nodes[..i] + [n];
      MatchedIdsSnoc(nodes[..i], n, term);
      if MatchesTerm(n, term) {
        matches := matches + {n.id};
      }
      i := i + 1;
    }
    assert nodes[..i] == nodes;
  }

  /** An id is in `MatchingIds` exactly when the term is not blank and some
      node with that id matches it. */
  lemma MatchingIdsIff(nodes: seq<Node>, term: string, id: string)
    ensures id in MatchingIds(nodes, term) <==>
      !IsBlank(term) && exists n :: n in nodes && n.id == id && MatchesTerm(n, term)
  {
  }

  /** The search does not depend on the case of the term. */
  lemma MatchesTermIgnoresCase(n: Node, term: string)
    ensures MatchesTerm(n, Lower(term)) == MatchesTerm(n, term)
  {
    LowerIdempotent(term);
  }

  /** Every node's own name finds it. */
  lemma NameFindsNode(n: Node)
    ensures MatchesTerm(n, n.name)
  {
    ContainsSelf(n.name);
  }

  /** `highlightedNodes.size > 0 && !highlightedNodes.has(id)`: the style
      rule that fades a node. A faded node is one that stands beside some
      other, highlighted node. */
  predicate Dimmed(highlighted: set<string>, id: string)
    ensures Dimmed(highlighted, id) ==> exists k :: k in highlighted && k != id
  {
    highlighted != {} && id !in highlighted
  }

  /** An empty highlight set dims nothing, whether it comes from a blank
      term or from a term that matched nothing; a non-empty set dims exactly
      the ids outside it. */
  lemma DimRule(highlighted: set<string>)
    ensures highlighted == {} ==> forall id :: !Dimmed(highlighted, id)
    ensures highlighted != {} ==> forall id :: Dimmed(highlighted, id) <==> id !in highlighted
  {
  }

  /** A non-blank term that matches nothing yields an empty highlight set,
      and so dims no node, exactly as a blank term does. */
  lemma ZeroMatchSearchDimsNothing(nodes: seq<Node>, term: string)
    requires forall n :: n in nodes ==> !MatchesTerm(n, term)
    ensures MatchingIds(nodes, term) == {}
    ensures forall id :: !Dimmed(MatchingIds(nodes, term), id)
  {
  }

  // ---------------------------------------------------------------------
  // Lookup tables

  /** `getNodeColor(type)`. */
  function NodeColor(t: string): (c: string)
    ensures t in NodeTypes <==> c != "#999"
  {
    match t
    case "People" => "#5F5BA3"
    case "Institutions" => "#DC2680"
    case "Projects" => "#EB631A"
    case "Methods" => "#F8AE15"
    case _ => "#999"
  }

  /** The four entity types get four different colours, none of them the
      fallback grey. */
  lemma NodeColorDistinct(t: string, u: string)
    requires t in NodeTypes && u in NodeTypes && t != u
    ensures NodeColor(t) != NodeColor(u)
  {
  }

  /** The link force's rest length for a relationship kind. */
  function LinkDistance(relationship: string): (d: int)
    ensures d in {150, 180, 200, 220}
    ensures relationship !in {"leads", "develops", "applies", "supports"} ==> d == 180
  {
    match relationship
    case "leads" => 150
    case "develops" => 180
    case "applies" => 200
    case "supports" => 220
    case _ => 180
  }

  /** The table's entries: leads is the shortest spring, supports the
      longest, and only develops shares the default. */
  lemma LinkDistanceTable(r: string)
    ensures LinkDistance("leads") == 150 && LinkDistance("applies") == 200
    ensures LinkDistance("supports") == 220 && LinkDistance("develops") == 180
    ensures LinkDistance("leads") <= LinkDistance(r) <= LinkDistance("supports")
    ensures r != "leads" && r != "applies" && r != "supports" ==> LinkDistance(r) == LinkDistance("develops")
  {
  }

  /** The other simulation constants, kept as data: charge strength,
      collision radius and the viewport of the diagram. */
  const ChargeStrength: int := -500
  const CollisionRadius: int := 120
  const Width: int := 1000
  const Height: int := 700
}
