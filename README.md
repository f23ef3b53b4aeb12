# VOICE Platform relationship graph: a Dafny model

The VOICE Platform shows a graph of People, Institutions, Projects and
Methods joined by typed links (leads, develops, applies, supports,
mentored_by and others). A FastAPI/SQLAlchemy backend stores the nodes and
links. A React page draws them as a d3 force diagram.

This project models the core of both sides and proves properties of the
model.

- **Frontend page** (`frontend/src/App.js`):
  - the payload transform on ingest;
  - the per-type visibility map and its toggle;
  - the node and link filter;
  - the text search that builds the highlight set, and the dim rule;
  - the colour table and the relationship-to-distance table;
  - the hover neighbourhood and the opacities it sets;
  - the drag pin/unpin handlers and the simulation's alpha target;
  - the built-in fallback data set, as a fixture with proved scenarios.
- **Backend endpoints** (`backend/endpoints.py`): get, list, create, update
  and delete nodes; create and delete links; search. They are modelled as
  a class holding the two tables as maps. An error datatype stands in for
  the HTTP exceptions.

Files, one module each:

| file | module | contents |
|---|---|---|
| `wrappers.dfy` | `Wrappers` | `Option`, `Result` |
| `records.dfy` | `Records` | node and link rows, the optional columns |
| `text.dfy` | `Text` | ASCII lower-casing, substring search, ECMAScript `trim` |
| `graph_model.dfy` | `GraphModel` | ingest, visibility, filter, search, dim rule, tables |
| `interaction.dfy` | `Interaction` | hover, drag, and the page state as classes |
| `store.dfy` | `Store` | the backend tables and endpoints |
| `fixture_texts.dfy` | `FixtureTexts` | letter facts about the fallback texts |
| `fixture.dfy` | `Fixture` | the fallback data and scenarios on it |
| `resolution.dfy` | `Resolution` | how links behave after the first render (see Findings) |

## Model

| member | source | states |
|---|---|---|
| Records.Attr | backend/models/db.py:20-31 | A node's optional column is present exactly when it is set, with its stored value. |
| GraphModel.StrengthOrDefault | frontend/src/App.js:64 | `strength \|\| 1.0`: the result is never 0. A missing or zero strength becomes 1.0; any other strength is kept. |
| GraphModel.Transform | frontend/src/App.js:58-66 | The nodes come through as they were, with a missing array read as empty. There is one link per payload link, and none has strength 0. |
| GraphModel.TransformShape | frontend/src/App.js:58-66 | Nodes pass through and a missing array becomes empty. Each link reappears at the same index with its source, target and relationship renamed and its strength defaulted. |
| GraphModel.TransformKeepsClosure | frontend/src/App.js:58-66 | A payload whose links name only nodes it carries ingests into a graph with no dangling link. |
| GraphModel.Visible | frontend/src/App.js:142 | `visibleTypes[t]` as a truth value: an own key reads as its boolean. A missing key is falsy, except the members inherited from `Object.prototype`, which are truthy. |
| GraphModel.VisibleReads | frontend/src/App.js:28-33 | A missing entity type reads as hidden, and a missing inherited key such as "constructor" reads as shown. |
| GraphModel.Toggled | frontend/src/App.js:134-139 | Toggling adds the key if it is absent and flips that type's visibility. Every other key keeps its value. |
| GraphModel.ToggleFlipsOnlyThatType | frontend/src/App.js:134-139 | Toggle `t` changes the visibility of `t` and of no other type. |
| GraphModel.ToggleTwice | frontend/src/App.js:134-139 | Toggling twice restores every type's visibility. It restores the map itself when the key was present. An absent key comes back holding the value it read as before. |
| GraphModel.Filter | frontend/src/App.js:142 | `Array.filter`: never longer than the input; holds exactly the input's elements that pass. |
| GraphModel.FilterAppend | frontend/src/App.js:142-146 | Filtering distributes over concatenation, so the kept elements stay in their original order. |
| GraphModel.FilterCount | frontend/src/App.js:142-146 | Each kept element occurs as often as in the input; a rejected one not at all. |
| GraphModel.FilterIdempotent | frontend/src/App.js:142-146 | Filtering twice with one test is filtering once. |
| GraphModel.FilterAll | frontend/src/App.js:142-146 | When every element passes, the filter returns its input. |
| GraphModel.FilterNone | frontend/src/App.js:142-146 | When no element passes, the filter returns the empty list. |
| GraphModel.FilteredData | frontend/src/App.js:141-149 | Kept nodes are exactly those of a visible type. Kept links are exactly those whose two endpoints are among the kept nodes. The result has no dangling link. |
| GraphModel.InheritedTypeIsShown | frontend/src/App.js:142 | A node whose type is not a key of the map but names an inherited member is drawn. |
| GraphModel.FilteredLinkIff | frontend/src/App.js:141-149 | For a graph with unique ids and no dangling links: a link survives exactly when the types of both its endpoint nodes are visible. |
| GraphModel.FilteredDataIdempotent | frontend/src/App.js:141-149 | Filtering the filtered graph again changes nothing. |
| GraphModel.FilteredDataAllVisible | frontend/src/App.js:141-149 | With every type visible, a graph without dangling links comes through unchanged. |
| GraphModel.Search | frontend/src/App.js:151-168 | The loop over all nodes returns the highlight set. It is empty for a blank term. Otherwise it holds exactly the ids of the nodes whose name, bio, description, methods or category contains the term, ignoring case. |
| GraphModel.MatchesTerm | frontend/src/App.js:158-162 | The search test over name, bio, description, methods and category. A match needs a searched column at least as long as the term. |
| GraphModel.MatchingIdsIff | frontend/src/App.js:153-165 | An id is highlighted exactly when the term is not blank and a node with that id matches. |
| GraphModel.MatchedIdsSnoc | frontend/src/App.js:157-165 | Appending a node adds its id to the matched set exactly when it matches. |
| GraphModel.MatchesTermIgnoresCase | frontend/src/App.js:158-162 | The match result is the same for a term and its lower-cased form. |
| GraphModel.NameFindsNode | frontend/src/App.js:158 | Every node is found by its own name. |
| GraphModel.Dimmed | frontend/src/App.js:247 | The fade rule. A faded node always stands beside some other, highlighted node. |
| GraphModel.DimRule | frontend/src/App.js:247 | An empty highlight set dims nothing. A non-empty one dims exactly the ids outside it. |
| GraphModel.ZeroMatchSearchDimsNothing | frontend/src/App.js:153-167 | A term matching no node gives an empty highlight set and dims no node, just as a blank term does. |
| GraphModel.NodeColor | frontend/src/App.js:170-183 | A type gets a colour other than the fallback `#999` exactly when it is one of the four entity types. |
| GraphModel.NodeColorDistinct | frontend/src/App.js:170-183 | The four entity types get four different colours. |
| GraphModel.LinkDistance | frontend/src/App.js:210-223 | A link's rest length is one of 150, 180, 200 and 220. Any relationship outside the four named kinds gets 180. |
| GraphModel.LinkDistanceTable | frontend/src/App.js:210-223 | leads 150, develops 180, applies 200, supports 220. Every rest length lies between the leads length and the supports length, and every relationship other than leads, applies and supports gets the develops length. |
| Text.LowerChar | frontend/src/App.js:158 | Lower-casing maps A-Z to a-z and leaves every other character alone. |
| Text.Lower | frontend/src/App.js:158 | `toLowerCase` keeps the length and lower-cases each character in place. |
| Text.Contains | frontend/src/App.js:158 | `includes`: a string only contains terms no longer than itself. |
| Text.ContainsIff | frontend/src/App.js:158 | `includes` holds exactly when the term occurs at some index. |
| Text.ContainsEmpty | backend/endpoints.py:153 | The empty term occurs in every string. |
| Text.LowerIdempotent | frontend/src/App.js:158 | Lower-casing twice is lower-casing once. |
| Text.TrimStart | frontend/src/App.js:153 | The result is a suffix of the input, and everything dropped is whitespace. It does not start with whitespace. |
| Text.TrimEnd | frontend/src/App.js:153 | The result is a prefix of the input, and everything dropped is whitespace. It does not end with whitespace. |
| Text.Trim | frontend/src/App.js:153 | `trim` gives a slice of the input, at the point where the leading whitespace ends. The slice neither starts nor ends with whitespace. |
| Text.BlankIff | frontend/src/App.js:153 | `term.trim() === ''` exactly when every character of the term is whitespace. |
| Interaction.ConnectedNodes | frontend/src/App.js:260-264 | The loop over the drawn links returns exactly the ids joined to the hovered node by a link, in either direction. |
| Interaction.NeighboursAreAdjacent | frontend/src/App.js:260-264 | The neighbour set is exactly the adjacency relation at the hovered node. |
| Interaction.AdjacentSymmetric | frontend/src/App.js:261-264 | Hovering `a` emphasises `b` exactly when hovering `b` emphasises `a`. |
| Interaction.NodeOpacity | frontend/src/App.js:266-267 | A node's opacity while hovering is 1 or 0.3. It is 1 exactly for the hovered node and its neighbours. |
| Interaction.LinkOpacity | frontend/src/App.js:268-269 | A link's opacity while hovering is 1 or 0.1. It is 1 exactly for links at the hovered node. |
| Interaction.EmphasisedLinkHasEmphasisedEnds | frontend/src/App.js:260-269 | Both endpoints of every full-opacity link are at full opacity. |
| Interaction.IsolatedHover | frontend/src/App.js:260-267 | Hovering a node no link touches emphasises that node alone. |
| Interaction.Scene.constructor | frontend/src/App.js:230-246 | The drawn elements: one node element per drawn node, one line per drawn link. Every one starts at opacity 1. |
| Interaction.Scene.MouseOver | frontend/src/App.js:260-269 | Every node and link gets the opacity the hover rule gives it, stated through adjacency. The element lists do not change. |
| Interaction.Scene.MouseOut | frontend/src/App.js:276-277 | Every node goes back to opacity 1 and every link to 0.6. |
| Interaction.DragStarted | frontend/src/App.js:311-315 | The node is pinned where it stands. When no other gesture is active the alpha target becomes 0.3 and the timer runs. |
| Interaction.Dragged | frontend/src/App.js:317-320 | The pin moves to the pointer; the position fields are left alone. |
| Interaction.DragEnded | frontend/src/App.js:322-326 | The node is unpinned. When no other gesture is active the alpha target becomes 0. |
| Interaction.DragMoves | frontend/src/App.js:311-320 | After start and moves the pin sits at the last pointer position, or where the node was picked up when it did not move. |
| Interaction.DragGesture | frontend/src/App.js:311-326 | After a whole gesture the node is free again and the simulation cools. No other node's pin changes. |
| Interaction.ViewState.constructor | frontend/src/App.js:22-36 | The page starts with no data, all four types shown, an empty search box and no highlight. |
| Interaction.ViewState.Ingest | frontend/src/App.js:58-67 | A load stores the transformed payload and leaves the rest of the state alone. |
| Interaction.ViewState.ToggleNodeType | frontend/src/App.js:134-139 | The visibility map becomes its toggled form; nothing else changes. |
| Interaction.ViewState.HandleSearch | frontend/src/App.js:151-168 | The search box holds the term, and the highlight set is the matching-id set over all data, hidden types included. |
| Interaction.ViewState.Shown | frontend/src/App.js:189 | The drawn graph has no dangling link and holds exactly the loaded nodes of a visible type. |
| Fixture.Fallback | frontend/src/App.js:81-127 | `getFallbackData()`: five nodes, the first two of them People, and four links, transcribed from the literal. |
| Fixture.FallbackClosed | frontend/src/App.js:81-127 | No link of the fallback data names a missing node. |
| Fixture.NoPeopleVisibility | frontend/src/App.js:28-33 | Toggling People off the default map hides People and keeps the other three types shown. |
| Fixture.HidePeopleNodes | frontend/src/App.js:141-142 | With People hidden and the rest shown, the fallback nodes filter to the institution, the project and the method, in that order. |
| Fixture.HidePeopleScenario | frontend/src/App.js:141-149 | Hiding People in the fallback data leaves Waag, RiverSync and Forest Walking, and only the `applies` link. |
| Fixture.ForestScenario | frontend/src/App.js:151-168 | Searching "forest" in the fallback data highlights M001 alone. |
| Fixture.NoMatchScenario | frontend/src/App.js:151-168 | Searching "xyz-none" in the fallback data highlights nothing, so no node is dimmed. |
| Store.Status | backend/endpoints.py:70 | Not found gives 404, a duplicate node or a missing endpoint 400, and a duplicate link id 500. |
| Store.Cascade | backend/endpoints.py:108-111 | Exactly the links that touch the deleted node are removed; the others survive unchanged. |
| Store.DeleteKeepsIntegrity | backend/endpoints.py:101-115 | Deleting a node with its cascade keeps every row under its key and every link's endpoints present. |
| Store.DeleteWithoutCascadeDangles | backend/endpoints.py:108-111 | Without the cascade, deleting a touched node would leave a dangling link. |
| Store.AddLinkKeepsIntegrity | backend/endpoints.py:126-137 | Adding a link whose endpoints exist keeps both table invariants. |
| Store.ApplyPatch | backend/endpoints.py:94-95 | The update keeps the id, writes name and type, and gives each optional column the patched value or keeps the stored one. |
| Store.PatchIdempotent | backend/endpoints.py:87-99 | Sending the same update twice has the effect of sending it once. |
| Store.AttrsDetermineNode | backend/models/db.py:14-31 | Two rows that agree on every column are the same row. |
| Store.EmptyQueryMatchesAll | backend/endpoints.py:153-159 | `q=""` matches every node, through its non-null name. |
| Store.EmptyQueryDiffers | backend/endpoints.py:150-161 | The empty query highlights nothing in the frontend, but the backend returns every node. |
| Store.BackendMatches | backend/endpoints.py:154-159 | The `ilike` filter over name, bio, description and methods. A match needs a column at least as long as the query. |
| Store.CategoryOnlyDiffers | backend/endpoints.py:154-159 | For every node and query: when only the category matches, the frontend highlights the node and the backend search does not return it. |
| Store.BackendIgnoresOtherColumns | backend/endpoints.py:154-159 | Setting or clearing any column other than name, bio, description and methods never changes whether the backend search returns a node. |
| Store.BackendMatchIsFrontendMatch | backend/endpoints.py:154-159 | Every node the backend search returns also passes the frontend's match test. |
| Store.EmptyColumnDiffers | backend/endpoints.py:154-159 | An empty column matches `q=""` in the backend but never in the frontend. |
| Store.GraphStore.constructor | backend/models/db.py:14-45 | A fresh database has empty tables and satisfies both invariants. |
| Store.GraphStore.GetNode | backend/endpoints.py:65-71 | A stored id returns its row; an unknown id returns NodeNotFound. |
| Store.GraphStore.GetNodes | backend/endpoints.py:56-63 | An absent or empty type lists every node. Otherwise the result is exactly the nodes of that type. |
| Store.GraphStore.SearchNodes | backend/endpoints.py:150-161 | Exactly the stored nodes whose name, bio, description or methods contain `q`, ignoring case. |
| Store.GraphStore.CreateNode | backend/endpoints.py:73-85 | A taken id gives DuplicateNode and leaves both tables alone. Otherwise the node is stored under its id. |
| Store.GraphStore.UpdateNode | backend/endpoints.py:87-99 | An unknown id gives NodeNotFound and nothing changes. Otherwise the row becomes its patched form and is returned; links stay. |
| Store.GraphStore.DeleteNode | backend/endpoints.py:101-115 | An unknown id gives NodeNotFound. Otherwise the node goes, together with exactly the links touching it. The invariants are kept. |
| Store.GraphStore.CreateLink | backend/endpoints.py:123-137 | A missing endpoint gives MissingEndpoint and a taken link id gives DuplicateLink, both leaving the tables alone. Otherwise the link is stored under its id. |
| Store.GraphStore.DeleteLink | backend/endpoints.py:139-148 | An unknown id gives LinkNotFound. Otherwise exactly that link is removed; the nodes stay. |
| Store.CreateThenGet | backend/endpoints.py:65-85 | Creating a node with a fresh id and reading it back returns it. With a taken id the read returns the old row. |
| Resolution.KeepAsWritten | frontend/src/App.js:144-146 | The link test as written: only a link whose two endpoints are still ids can pass. On such a link it agrees with the id test. |
| Resolution.LiveAll | frontend/src/App.js:144-146 | A freshly loaded list of links keeps its length. Each link has id endpoints. |
| Resolution.ById | frontend/src/App.js:210 | The link force's lookup holds exactly the node ids, each node under its own id. |
| Resolution.ResolveEndpoint | frontend/src/App.js:210 | Initialising a link turns each endpoint into a node object that stands for the same id. |
| Resolution.AfterRender | frontend/src/App.js:209-210 | A render resolves the drawn links in place and keeps the count. |
| Resolution.AsWrittenBeforeRender | frontend/src/App.js:144-146 | Before the first render, the link test as written agrees with the id-based filter. |
| Resolution.DrawnLinksVanish | frontend/src/App.js:144-146 | After a render the test as written rejects every link that render drew, whatever ids are tested next. |
| Resolution.ResolvedLinksStayHidden | frontend/src/App.js:144-146 | Links whose endpoints are both node objects come through any render unchanged, and no render draws them. |
| Resolution.UndrawnLinksReturn | frontend/src/App.js:144-146 | A link a render did not draw comes through that render as it was, so any later render tests it as if that render had not happened. |
| Resolution.LinksVanishAfterFirstRender | frontend/src/App.js:141-149 | For a graph without dangling links, with every node shown, the first render draws every link and turns every endpoint into a node object. So the next render draws none, and by ResolvedLinksStayHidden nor does any render after it. |
| Resolution.FallbackLosesLinks | frontend/src/App.js:81-149 | The fallback data draws its four links once, then none. |
| Resolution.FallbackHiddenLinksReturn | frontend/src/App.js:144-146 | On the fallback data with People hidden the render draws only `applies`; the next render, every type shown, draws `leads` and both `mentored_by` links. |
| Resolution.ByIdSurvivesRender | frontend/src/App.js:144-146 | The id test gives the same answer on a link before and after a render. |
| Resolution.ByIdBeforeRender | frontend/src/App.js:144-146 | Before a render, the id test agrees with the model's filter. |
| Resolution.LinksStayByIdAfterRender | frontend/src/App.js:141-149 | With the id test, every link of a graph without dangling links is kept on every later render. |
| Resolution.FallbackKeepsLinksById | frontend/src/App.js:81-149 | With the id test, the fallback data keeps its four links after the first render. |

Two consequences of the code worth stating:

- A search that matches nothing leaves the highlight set empty. By the dim
  rule at `frontend/src/App.js:247`, it fades no node, exactly as a blank
  search does (`GraphModel.ZeroMatchSearchDimsNothing`,
  `Fixture.NoMatchScenario`).
- Ingest drops no record (`GraphModel.Transform`). A link naming a node
  that is not there passes through, and the filter drops it from the
  drawn graph.

## Left out

- The d3 force physics: velocities, the charge and collision forces, and
  the tick that moves nodes. The constants (-500, radius 120, viewport
  1000x700) are kept as data only. `SimNode.x` and `SimNode.y` are never
  changed by the model.
- Zoom, pan, the zoom level display, stroke widths, the scale transition
  on hover, click-to-select, the side panel, the modal dialogs and the
  simple (non-graph) view. These are rendering only.
- React's state batching and effects. Each handler is modelled as one
  atomic update of `ViewState`.
- The fetch itself, the loading and error flags, and the API URL setting.
  A load is a `Payload` parameter to `ViewState.Ingest`.
- The fallback path on a failed fetch. The fallback data is a fixture
  (`Fixture.Fallback`); it is not transformed.
- `get_graph_data`, `get_links` and `read_root`. They are plain reads of
  the tables.
- `initialize_data` and `backend/populate_data.py`. These are bulk loads of
  seed data.
- The SQL session, commits and refreshes. A committed change is an
  assignment to the table maps.
- Store.GraphStore.CreateLink: a duplicate link id makes the insert fail
  on the primary key. The exception is not caught and the request
  answers 500. The model returns `Err(DuplicateLink)` and leaves the table
  unchanged, taking the session rollback as complete.
- Store.GraphStore.SearchNodes: LIKE wildcards (`%`, `_`) inside `q` are taken
  literally. Only ASCII letters fold case, as SQLite's `ilike` does.
- Store.BackendMatches: the wildcards `%` and `_` inside `q` are taken
  literally. So the model's `q = "%"` matches only columns holding a `%`,
  while the pattern `%%%` the source builds matches every non-null
  column, the empty one included. The model's promise that a match needs
  a column at least as long as the query holds only under this reading.
  Only ASCII letters fold case.
- Text.LowerChar: only ASCII letters A-Z are folded; `toLowerCase` folds
  letters outside ASCII too.
- Text.Lower: only ASCII letters are lower-cased. JavaScript's
  `toLowerCase` also folds letters outside ASCII.
- Strengths are exact reals. NaN, which is also falsy in `strength || 1.0`,
  is not modelled.
- Query results are sets. The order SQLite returns rows in is not modelled.
- Resolution.ResolveEndpoint requires that every id endpoint names a drawn
  node. For an unknown id, d3's link force throws "node not found"; the
  model does not cover that throw.
- Interaction.Scene: link opacity starts at 1, since the line elements
  have no `opacity` style before the first hover. Their `stroke-opacity`
  of 0.6 is not modelled.
- Interaction.DragGesture: the alpha target and timer are stated only for
  a gesture that starts and ends alone (`active == 0`). Concurrent
  multi-touch gestures keep whatever the other gestures set.

## Findings

| source | as written | input that shows it | evidently intended | confidence | as-written member | corrected member |
|---|---|---|---|---|---|---|
| frontend/src/App.js:144-146 with 210 | `getFilteredData` tests `filteredNodeIds.has(link.source)`. After the graph's first render, `d3.forceLink(currentData.links)` has replaced `source` and `target` on those same link objects with node objects, which are not strings in the id set. A link that one render drew never passes the test again, whatever is shown next. So once a render with every type shown has drawn every link, every later render draws no links at all, whether it follows a search, a type toggle or a switch back to the graph view (the effect's dependencies, line 331). A data reload (the Refresh button, line 454) builds fresh link objects with string endpoints (lines 60-65, 81-127). After it, each render draws only links whose two endpoints are shown and that no earlier render since the load has drawn: a link hidden at one render keeps its string endpoints and is drawn by a later render that shows both its ends. | The fallback data in graph view: the first render draws 4 links; then type any search term and the diagram re-renders with 0 links. | Test the ids the endpoints stand for (`link.source.id ?? link.source`), so that the filter gives the same answer before and after a render. | not executed | Resolution.LinksVanishAfterFirstRender, Resolution.FallbackLosesLinks, Resolution.DrawnLinksVanish, Resolution.FallbackHiddenLinksReturn | Resolution.LinksStayByIdAfterRender, Resolution.FallbackKeepsLinksById (the id-based GraphModel.FilteredData is the filter the rest of the model uses) |
