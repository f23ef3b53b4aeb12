/** The backend's node and link tables and the endpoints over them. The
    database session is the pair of maps itself: a committed change is an
    assignment to them, and an endpoint that raises leaves them as they
    were. */
module Store {
  import opened Wrappers
  import opened Records
  import opened Text
  import GraphModel

  /** The failures the endpoints report. */
  datatype ApiError =
    | NodeNotFound     // 404 "Node not found"
    | LinkNotFound     // 404 "Link not found"
    | DuplicateNode    // 400 "Node with this ID already exists"
    | MissingEndpoint  // 400 "Source or target node does not exist"
    | DuplicateLink    // the primary-key violation on `links.id`, not caught

  /** The HTTP status of each failure. */
  function Status(e: ApiError): (code: int)
    ensures code == 404 <==> e == NodeNotFound || e == LinkNotFound
    ensures code == 400 <==> e == DuplicateNode || e == MissingEndpoint
    ensures code == 500 <==> e == DuplicateLink
  {
    match e
    case NodeNotFound => 404
    case LinkNotFound => 404
    case DuplicateNode => 400
    case MissingEndpoint => 400
    case DuplicateLink => 500
  }

  type NodeTable = map<string, Node>
  type LinkTable = map<string, StoredLink>

  // ---------------------------------------------------------------------
  // Table invariants

  /** Every row is stored under its own primary key. */
  ghost predicate Keyed(nodes: NodeTable, links: LinkTable)
  {
    && (forall id :: id in nodes ==> nodes[id].id == id)
    && (forall id :: id in links ==> links[id].id == id)
  }

  /** Referential integrity: both endpoints of every link are nodes. */
  ghost predicate Referential(nodes: NodeTable, links: LinkTable)
  {
    forall id :: id in links ==> links[id].sourceId in nodes && links[id].targetId in nodes
  }

  /** Whether link `l` has `id` as an endpoint. */
  predicate Touches(l: StoredLink, id: string)
  {
    l.sourceId == id || l.targetId == id
  }

  /** The link table after the cascade of deleting node `id`: exactly the
      links that do not touch it survive, unchanged. */
  function Cascade(links: LinkTable, id: string): (r: LinkTable)
    ensures forall k :: k in r <==> k in links && !Touches(links[k], id)
    ensures forall k :: k in r ==> r[k] == links[k]
  {
    map k | k in links && !Touches(links[k], id) :: links[k]
  }

  /** Deleting a node with its cascade keeps both invariants. */
  lemma DeleteKeepsIntegrity(nodes: NodeTable, links: LinkTable, id: string)
    requires Keyed(nodes, links) && Referential(nodes, links)
    ensures Keyed(nodes - {id}, Cascade(links, id))
    ensures Referential(nodes - {id}, Cascade(links, id))
  {
  }

  /** Without the cascade, deleting a node that a link touches would leave
      that link dangling. */
  lemma DeleteWithoutCascadeDangles(nodes: NodeTable, links: LinkTable, id: string, k: string)
    requires k in links && Touches(links[k], id)
    ensures !Referential(nodes - {id}, links)
  {
  }

  /** Adding a link whose endpoints exist keeps both invariants. */
  lemma AddLinkKeepsIntegrity(nodes: NodeTable, links: LinkTable, l: StoredLink)
    requires Keyed(nodes, links) && Referential(nodes, links)
    requires l.sourceId in nodes && l.targetId in nodes
    ensures Keyed(nodes, links[l.id := l]) && Referential(nodes, links[l.id := l])
  {
  }

  // ---------------------------------------------------------------------
  // Partial update

  /** A `PUT /api/nodes/{id}` body: `name` and `type` are required; an
      optional column is in `attrs` only when the request sets it, with
      `None` for an explicit null. There is no `id`. */
  datatype NodePatch = NodePatch(name: string, nodeType: string, attrs: map<Field, Option<string>>)

  /** The value column `f` takes under the patch. */
  function PatchedAttr(n: Node, p: NodePatch, f: Field): Option<string>
  {
    if f in p.attrs then p.attrs[f] else Attr(n, f)
  }

  /** The node after the patch: the supplied columns overwritten, every
      other column and the id kept. */
  function ApplyPatch(n: Node, p: NodePatch): (r: Node)
    ensures r.id == n.id && r.name == p.name && r.nodeType == p.nodeType
    ensures forall f :: Attr(r, f) == PatchedAttr(n, p, f)
  {
    var attrs := map f | f in n.attrs.Keys + p.attrs.Keys && PatchedAttr(n, p, f).Some?
                  :: PatchedAttr(n, p, f).value;
    var r := Node(n.id, p.name, p.nodeType, attrs);
    assert forall f :: Attr(r, f) == PatchedAttr(n, p, f) by {
      forall f ensures Attr(r, f) == PatchedAttr(n, p, f) {
        if PatchedAttr(n, p, f).Some? {
          assert f in n.attrs.Keys + p.attrs.Keys;
        }
      }
    }
    r
  }

  /** Sending the same update twice is the same as sending it once. */
  lemma PatchIdempotent(n: Node, p: NodePatch)
    ensures ApplyPatch(ApplyPatch(n, p), p) == ApplyPatch(n, p)
  {
    var once := ApplyPatch(n, p);
    var twice := ApplyPatch(once, p);
    forall f ensures Attr(twice, f) == Attr(once, f) {
      assert PatchedAttr(once, p, f) == PatchedAttr(n, p, f);
    }
    AttrsDetermineNode(twice, once);
  }

  /** Nodes agreeing on the id, the two mandatory columns and every
      optional column are equal. */
  lemma AttrsDetermineNode(a: Node, b: Node)
    requires a.id == b.id && a.name == b.name && a.nodeType == b.nodeType
    requires forall f :: Attr(a, f) == Attr(b, f)
    ensures a == b
  {
    assert forall f :: f in a.attrs <==> Attr(a, f).Some?;
    assert a.attrs == b.attrs;
  }

  // ---------------------------------------------------------------------
  // Search

  /** `column.ilike('%q%')`: a null column never matches; SQLite folds case
      only on ASCII letters. */
  predicate ColumnLike(n: Node, f: Field, q: string)
  {
    f in n.attrs && ContainsIgnoringCase(n.attrs[f], q)
  }

  /** The backend search looks at name, bio, description and methods. A
      match needs a column at least as long as the query. */
  predicate BackendMatches(n: Node, q: string)
    ensures BackendMatches(n, q) ==>
      |q| <= |n.name| || exists f :: f in n.attrs && |q| <= |n.attrs[f]|
  {
    || ContainsIgnoringCase(n.name, q)
    || ColumnLike(n, Bio, q)
    || ColumnLike(n, Description, q)
    || ColumnLike(n, Methods, q)
  }

  /** The empty query matches every node, through its non-null name. */
  lemma EmptyQueryMatchesAll(n: Node)
    ensures BackendMatches(n, "")
  {
    ContainsEmpty(Lower(n.name));
  }

  /** The frontend with an empty box highlights nothing, while the backend
      with `q=""` returns every node. */
  lemma EmptyQueryDiffers(nodes: seq<Node>, n: Node)
    ensures GraphModel.MatchingIds(nodes, "") == {}
    ensures BackendMatches(n, "")
  {
    assert GraphModel.IsBlank("");
    EmptyQueryMatchesAll(n);
  }

  /** A node found only through its category: the frontend highlights it,
      the backend does not return it. */
  lemma CategoryOnlyDiffers(n: Node, q: string)
    requires GraphModel.FieldMatches(n, Category, q)
    requires !ContainsIgnoringCase(n.name, q)
    requires !ColumnLike(n, Bio, q) && !ColumnLike(n, Description, q) && !ColumnLike(n, Methods, q)
    ensures GraphModel.MatchesTerm(n, q)
    ensures !BackendMatches(n, q)
  {
  }

  /** The backend search does not look at any column other than name, bio,
      description and methods: setting or clearing one changes no result. */
  lemma BackendIgnoresOtherColumns(n: Node, q: string, f: Field, c: Option<string>)
    requires f != Bio && f != Description && f != Methods
    ensures BackendMatches(n.(attrs := if c.Some? then n.attrs[f := c.value] else n.attrs - {f}), q)
        == BackendMatches(n, q)
  {
  }

  /** Every node the backend search returns passes the frontend's match
      test too: the frontend searches a superset of the columns, and an
      empty column, which only the backend can match, only matches the empty
      query, which every name contains as well. */
  lemma BackendMatchIsFrontendMatch(n: Node, q: string)
    ensures BackendMatches(n, q) ==> GraphModel.MatchesTerm(n, q)
  {
    if BackendMatches(n, q) && Lower(q) == "" {
      ContainsEmpty(Lower(n.name));
    }
  }

  /** An empty column matches the empty query in the backend (it is not
      null) but never in the frontend, where an empty string is falsy. */
  lemma EmptyColumnDiffers(n: Node, f: Field)
    requires f in n.attrs && n.attrs[f] == ""
    ensures ColumnLike(n, f, "")
    ensures !GraphModel.FieldMatches(n, f, "")
  {
    ContainsEmpty(Lower(""));
  }

  // ---------------------------------------------------------------------
  // The store

  /** The `nodes` and `links` tables. */
  class GraphStore {
    var nodes: NodeTable
    var links: LinkTable

    ghost predicate Valid()
      reads this
    {
      Keyed(nodes, links) && Referential(nodes, links)
    }

    /** An empty database. */
    constructor()
      ensures nodes == map[] && links == map[]
      ensures Valid()
    {
      nodes := map[];
      links := map[];
    }

    /** `GET /api/nodes/{id}`. */
    method GetNode(id: string) returns (r: Result<Node, ApiError>)
      ensures id in nodes ==> r == Ok(nodes[id])
      ensures id !in nodes ==> r == Err(NodeNotFound)
    {
      if id in nodes {
        r := Ok(nodes[id]);
      } else {
        r := Err(NodeNotFound);
      }
    }

    /** `GET /api/nodes?node_type=t`: an absent or empty type lists every
      node; otherwise exactly the nodes of that type. */
    method GetNodes(nodeType: Option<string>) returns (r: set<Node>)
      ensures nodeType == None || nodeType == Some("") ==> r == nodes.Values
      ensures nodeType != None && nodeType != Some("") ==>
        forall n :: n in r <==> n in nodes.Values && n.nodeType == nodeType.value
    {
      if nodeType.Some? && nodeType.value != "" {
        r := set n | n in nodes.Values && n.nodeType == nodeType.value;
      } else {
        r := nodes.Values;
      }
    }

    /** `GET /api/search?q=...`: exactly the nodes whose name, bio,
      description or methods contain `q`, ignoring case. */
    method SearchNodes(q: string) returns (r: set<Node>)
      ensures forall n :: n in r <==> n in nodes.Values && BackendMatches(n, q)
    {
      r := set n | n in nodes.Values && BackendMatches(n, q);
    }

    /** `POST /api/nodes`. A taken id is refused and nothing changes;
        otherwise the node is stored under its id. */
    method CreateNode(n: Node) returns (r: Result<Node, ApiError>)
      requires Valid()
      modifies this
      ensures Valid()
      ensures n.id in old(nodes) ==> r == Err(DuplicateNode) && nodes == old(nodes) && links == old(links)
      ensures n.id !in old(nodes) ==> r == Ok(n) && nodes == old(nodes)[n.id := n] && links == old(links)
    {
      if n.id in nodes {
        return Err(DuplicateNode);
      }
      nodes := nodes[n.id := n];
      r := Ok(n);
    }

    /** `PUT /api/nodes/{id}`: the mandatory columns and each supplied
        optional column are written to the stored row one after the other;
        the id and the links stay as they are. */
    method UpdateNode(id: string, p: NodePatch) returns (r: Result<Node, ApiError>)
      requires Valid()
      modifies this
      ensures Valid()
      ensures links == old(links)
      ensures id !in old(nodes) ==> r == Err(NodeNotFound) && nodes == old(nodes)
      ensures id in old(nodes) ==>
        && r == Ok(ApplyPatch(old(nodes)[id], p))
        && nodes == old(nodes)[id := ApplyPatch(old(nodes)[id], p)]
    {
      if id !in nodes {
        return Err(NodeNotFound);
      }
      var n := nodes[id];
      var attrs := n.attrs;
      var todo := p.attrs.Keys;
      while todo != {}
        invariant todo <= p.attrs.Keys
        invariant forall f :: (if f in attrs then Some(attrs[f]) else None)
                           == (if f in p.attrs && f !in todo then p.attrs[f] else Attr(n, f))
        decreases todo
      {
        var f :| f in todo;
        if p.attrs[f].Some? {
          attrs := attrs[f := p.attrs[f].value];
        } else {
          attrs := attrs - {f};
        }
        todo := todo - {f};
      }
      var updated := Node(id, p.name, p.nodeType, attrs);
      forall f ensures Attr(updated, f) == Attr(ApplyPatch(n, p), f) {
        assert Attr(updated, f) == (if f in attrs then Some(attrs[f]) else None);
      }
      AttrsDetermineNode(updated, ApplyPatch(n, p));
      nodes := nodes[id := updated];
      r := Ok(updated);
    }

    /** `DELETE /api/nodes/{id}`: the node goes, and with it exactly the
        links that touch it. */
    method DeleteNode(id: string) returns (r: Result<(), ApiError>)
      requires Valid()
      modifies this
      ensures Valid()
      ensures id !in old(nodes) ==> r == Err(NodeNotFound) && nodes == old(nodes) && links == old(links)
      ensures id in old(nodes) ==>
        r == Ok(()) && nodes == old(nodes) - {id} && links == Cascade(old(links), id)
    {
      if id !in nodes {
        return Err(NodeNotFound);
      }
      DeleteKeepsIntegrity(nodes, links, id);
      links := Cascade(links, id);
      nodes := nodes - {id};
      r := Ok(());
    }

    /** `POST /api/links`: refused when an endpoint is missing, and when the
        id is taken (the insert's primary-key violation, rolled back);
        otherwise the link is stored under its id. */
    method CreateLink(l: StoredLink) returns (r: Result<StoredLink, ApiError>)
      requires Valid()
      modifies this
      ensures Valid()
      ensures nodes == old(nodes)
      ensures l.sourceId !in old(nodes) || l.targetId !in old(nodes) ==>
        r == Err(MissingEndpoint) && links == old(links)
      ensures l.sourceId in old(nodes) && l.targetId in old(nodes) && l.id in old(links) ==>
        r == Err(DuplicateLink) && links == old(links)
      ensures l.sourceId in old(nodes) && l.targetId in old(nodes) && l.id !in old(links) ==>
        r == Ok(l) && links == old(links)[l.id := l]
    {
      if l.sourceId !in nodes || l.targetId !in nodes {
        return Err(MissingEndpoint);
      }
      if l.id in links {
        return Err(DuplicateLink);
      }
      AddLinkKeepsIntegrity(nodes, links, l);
      links := links[l.id := l];
      r := Ok(l);
    }

    /** `DELETE /api/links/{id}`: removes that link and nothing else. */
    method DeleteLink(id: string) returns (r: Result<(), ApiError>)
      requires Valid()
      modifies this
      ensures Valid()
      ensures nodes == old(nodes)
      ensures id !in old(links) ==> r == Err(LinkNotFound) && links == old(links)
      ensures id in old(links) ==> r == Ok(()) && links == old(links) - {id}
    {
      if id !in links {
        return Err(LinkNotFound);
      }
      links := links - {id};
      r := Ok(());
    }
  }

  /** Creating a node and then reading it back returns the node. */
  method CreateThenGet(s: GraphStore, n: Node) returns (created: Result<Node, ApiError>, read: Result<Node, ApiError>)
    requires s.Valid()
    modifies s
    ensures s.Valid()
    ensures n.id !in old(s.nodes) ==> created == Ok(n) && read == Ok(n)
    ensures n.id in old(s.nodes) ==> created == Err(DuplicateNode) && read == Ok(old(s.nodes)[n.id])
  {
    created := s.CreateNode(n);
    read := s.GetNode(n.id);
  }
}
