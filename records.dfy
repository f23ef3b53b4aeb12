/** The record shapes shared by the backend tables and the frontend graph:
    a node row and a link row, with their column lists. */
module Records {
  import opened Wrappers

  /** The optional text columns of a node; absent from a node's `attrs` when
      they are null. */
  datatype Field =
    | Bio | Description | Website | Connections | Budget | Methods
    | InvolvedInstitutions | Category | Steps | Challenges | Conditions | LinksText

  /** A node row: `id`, the two mandatory columns `name` and `type`, and the
      optional columns that are set. */
  datatype Node = Node(id: string, name: string, nodeType: string, attrs: map<Field, string>)

  /** A link row as stored and returned by the backend: `strength` is always
      present there, since its column defaults to 1.0. */
  datatype StoredLink = StoredLink(id: string, sourceId: string, targetId: string,
                                   relationshipType: string, strength: real)

  /** The column `f` of node `n`, `None` when it is null. */
  function Attr(n: Node, f: Field): (r: Option<string>)
    ensures r.Some? <==> f in n.attrs
    ensures r.Some? ==> r.value == n.attrs[f]
  {
    if f in n.attrs then Some(n.attrs[f]) else None
  }
}
