/** The page's fallback data set (five nodes, four links), and the behaviour
    of the filter and the search on it. */
module Fixture {
  import opened Records
  import opened Text
  import opened GraphModel
  import opened FixtureTexts

  // The longer texts are written as two or three concatenated pieces; the
  // value is the same text.
  const Jakob: Node := Node("P001", "Jakob Kukula", "People",
    map[Bio := "Multidisciplinary creator " + "working in art, design and music...",
        Website := "https://www.spreeberlin.de/",
        Connections := "Waag (Lead Mentor)"])
  const Marina: Node := Node("P002", "Marina Wainer", "People",
    map[Bio := "Paris-based " + "interactive artist...",
        Website := "http://marinaestelawainer.com",
        Connections := "Waag (Lead Mentor)"])
  const Waag: Node := Node("I001", "Waag Futurelab", "Institutions",
    map[Bio := "Research institute" + " for " + "technology and society...",
        Website := "https://waag.org/"])
  const RiverSync: Node := Node("PR001", "RiverSync", "Projects",
    map[Description := "Transdisciplinary artistic " + "intervention...",
        Budget := "12,000 Euros"])
  const ForestWalking: Node := Node("M001", "Forest Walking Method", "Methods",
    map[Description := "Immersive, " + "participatory approach...",
        Category := "Environmental"])

  const Leads: Link := Link("P001", "PR001", "leads", 1.0)
  const JakobMentored: Link := Link("P001", "I001", "mentored_by", 0.7)
  const MarinaMentored: Link := Link("P002", "I001", "mentored_by", 0.7)
  const Applies: Link := Link("PR001", "M001", "applies", 0.9)

  /** `getFallbackData()`: five nodes, of which the first two are People,
      and four links. */
  function Fallback(): (g: Graph)
    ensures |g.nodes| == 5 && |g.links| == 4
    ensures g.nodes[0].nodeType == "People" && g.nodes[1].nodeType == "People"
  {
    Graph([Jakob, Marina, Waag, RiverSync, ForestWalking],
          [Leads, JakobMentored, MarinaMentored, Applies])
  }

  /** The fallback data has no dangling link. */
  lemma FallbackClosed()
    ensures NoDangling(Fallback())
  {
    var ids := NodeIds(Fallback().nodes);
    assert Jakob in Fallback().nodes && Marina in Fallback().nodes && Waag in Fallback().nodes;
    assert RiverSync in Fallback().nodes && ForestWalking in Fallback().nodes;
    assert {"P001", "P002", "I001", "PR001", "M001"} <= ids;
  }

  /** The visibility map after hiding People. */
  const NoPeople: map<string, bool> := Toggled(DefaultVisible, "People")

  /** Toggling People off the default map hides People and only People. */
  lemma NoPeopleVisibility()
    ensures !Visible(NoPeople, "People") && Visible(NoPeople, "Institutions")
    ensures Visible(NoPeople, "Projects") && Visible(NoPeople, "Methods")
  {
    ToggleFlipsOnlyThatType(DefaultVisible, "People", "Institutions");
    ToggleFlipsOnlyThatType(DefaultVisible, "People", "Projects");
    ToggleFlipsOnlyThatType(DefaultVisible, "People", "Methods");
  }

  /** Under any visibility map that hides People and shows the other three
      types, the institution, the project and the method remain. */
  lemma HidePeopleNodes(v: map<string, bool>)
    requires !Visible(v, "People") && Visible(v, "Institutions")
    requires Visible(v, "Projects") && Visible(v, "Methods")
    ensures Filter([Jakob, Marina, Waag, RiverSync, ForestWalking], (n: Node) => Visible(v, n.nodeType))
         == [Waag, RiverSync, ForestWalking]
  {
    var keepNode := (n: Node) => Visible(v, n.nodeType);
    assert [Jakob, Marina, Waag, RiverSync, ForestWalking] == [Jakob] + [Marina, Waag, RiverSync, ForestWalking];
    FilterCons(Jakob, [Marina, Waag, RiverSync, ForestWalking], keepNode);
    FilterCons(Marina, [Waag, RiverSync, ForestWalking], keepNode);
    FilterCons(Waag, [RiverSync, ForestWalking], keepNode);
    FilterCons(RiverSync, [ForestWalking], keepNode);
    FilterCons(ForestWalking, [], keepNode);
  }

  /** Of the four links only `applies` joins two of the remaining nodes. */
  lemma HidePeopleLinks(ids: set<string>)
    requires ids == {"I001", "PR001", "M001"}
    ensures Filter([Leads, JakobMentored, MarinaMentored, Applies],
                   (l: Link) => l.source in ids && l.target in ids) == [Applies]
  {
    var keepLink := (l: Link) => l.source in ids && l.target in ids;
    assert !keepLink(Leads) && !keepLink(JakobMentored) && !keepLink(MarinaMentored);
    assert keepLink(Applies);
    assert [Leads, JakobMentored, MarinaMentored, Applies] == [Leads] + [JakobMentored, MarinaMentored, Applies];
    FilterCons(Leads, [JakobMentored, MarinaMentored, Applies], keepLink);
    FilterCons(JakobMentored, [MarinaMentored, Applies], keepLink);
    FilterCons(MarinaMentored, [Applies], keepLink);
    FilterCons(Applies, [], keepLink);
  }

  /** Hiding People leaves the institution, the project and the method, and
      only the `applies` link; the `leads` link and both `mentored_by` links
      go with the two people. */
  lemma HidePeopleScenario()
    ensures FilteredData(Fallback(), NoPeople) == Graph([Waag, RiverSync, ForestWalking], [Applies])
  {
    var g := Fallback();
    assert g == Graph([Jakob, Marina, Waag, RiverSync, ForestWalking],
                      [Leads, JakobMentored, MarinaMentored, Applies]);
    NoPeopleVisibility();
    HidePeopleNodes(NoPeople);
    var nodes := [Waag, RiverSync, ForestWalking];
    NodeIdsCons(Waag, [RiverSync, ForestWalking]);
    NodeIdsCons(RiverSync, [ForestWalking]);
    NodeIdsCons(ForestWalking, []);
    HidePeopleLinks(NodeIds(nodes));
  }

  /** A node is not found by a term when neither its name nor any of the
      four searched optional columns it has contains the term. */
  lemma NodeMisses(n: Node, term: string)
    requires !ContainsIgnoringCase(n.name, term)
    requires Bio in n.attrs ==> !ContainsIgnoringCase(n.attrs[Bio], term)
    requires Description in n.attrs ==> !ContainsIgnoringCase(n.attrs[Description], term)
    requires Methods !in n.attrs && Category !in n.attrs
    ensures !MatchesTerm(n, term)
  {
  }

  /** A node is not found by a term holding a letter that appears, in
      neither case, in its name or in any searched column it has. */
  lemma NodeLacksLetter(n: Node, term: string, c: char)
    requires 'a' <= c <= 'z' && c in Lower(term)
    requires c !in n.name && (c as int - 32) as char !in n.name
    requires forall f :: f in n.attrs && f in {Bio, Description, Methods, Category} ==>
      c !in n.attrs[f] && (c as int - 32) as char !in n.attrs[f]
    ensures !MatchesTerm(n, term)
  {
    MissingLetter(n.name, term, c);
    forall f | f in n.attrs && f in {Bio, Description, Methods, Category}
      ensures !ContainsIgnoringCase(n.attrs[f], term)
    {
      MissingLetter(n.attrs[f], term, c);
    }
  }

  /** A term holding the letter c and no space is not in a text of the
      form head, space, word, space, tail when c is in neither head nor
      tail and the word is shorter than the term. */
  lemma MissesAcrossWords(head: string, mid: string, word: string, tail: string, term: string, c: char)
    requires mid == [' '] + word + [' ']
    requires 'a' <= c <= 'z' && c in Lower(term) && ' ' !in Lower(term)
    requires c !in head && (c as int - 32) as char !in head
    requires c !in tail && (c as int - 32) as char !in tail
    requires |word| < |term|
    ensures !ContainsIgnoringCase(head + mid + tail, term)
  {
    var t := Lower(term);
    assert head + mid + tail == head + [' '] + word + [' '] + tail;
    LowerAppend(head + [' '] + word + [' '], tail);
    LowerAppend(head + [' '] + word, [' ']);
    LowerAppend(head + [' '], word);
    LowerAppend(head, [' ']);
    assert Lower([' ']) == [' '];
    ContainsSplit(Lower(head) + [' '] + Lower(word), ' ', Lower(tail), t);
    ContainsSplit(Lower(head), ' ', Lower(word), t);
    MissingLetter(head, term, c);
    ContainsLonger(Lower(word), t);
    MissingLetter(tail, term, c);
  }

  /** Searching "forest" finds the Forest Walking Method by its name. */
  lemma ForestFindsMethod(term: string)
    requires term == "forest"
    ensures MatchesTerm(ForestWalking, term)
  {
    assert Lower(term) == "forest";
    assert Lower(ForestWalking.name)[0..6] == "forest";
    OccurrenceContains(Lower(ForestWalking.name), Lower(term), 0);
  }

  /** "forest" is not blank, and holds the letters f and o. */
  lemma ForestTerm(term: string)
    requires term == "forest"
    ensures !IsBlank(term)
    ensures 'f' in Lower(term) && 'o' in Lower(term) && ' ' !in Lower(term)
    ensures |term| > 3
  {
    BlankIff(term);
    assert !IsWhitespace(term[0]);
    assert Lower(term) == "forest";
  }

  /** "xyz-none" is not blank, and holds the letter x. */
  lemma NoneTerm(term: string)
    requires term == "xyz-none"
    ensures !IsBlank(term)
    ensures 'x' in Lower(term)
  {
    BlankIff(term);
    assert !IsWhitespace(term[0]);
    assert Lower(term)[0] == 'x';
  }

  /** Jakob Kukula is not found by a term holding an f. */
  lemma JakobMissesF(term: string)
    requires 'f' in Lower(term)
    ensures !MatchesTerm(Jakob, term)
  {
    ShortNamesLacksF("Jakob Kukula");
    CreatorPieceLacksF("Multidisciplinary creator ");
    ArtPieceLacksF("working in art, design and music...");
    NodeLacksLetter(Jakob, term, 'f');
  }

  /** Marina Wainer is not found by a term holding an f. */
  lemma MarinaMissesF(term: string)
    requires 'f' in Lower(term)
    ensures !MatchesTerm(Marina, term)
  {
    ShortNamesLacksF("Marina Wainer");
    ShortNamesLacksF("Paris-based ");
    ArtistPieceLacksF("interactive artist...");
    NodeLacksLetter(Marina, term, 'f');
  }

  /** RiverSync is not found by a term holding an f. */
  lemma RiverSyncMissesF(term: string)
    requires 'f' in Lower(term)
    ensures !MatchesTerm(RiverSync, term)
  {
    ShortNamesLacksF("RiverSync");
    ArtisticPieceLacksF("Transdisciplinary artistic ");
    InterventionPieceLacksF("intervention...");
    NodeLacksLetter(RiverSync, term, 'f');
  }

  /** Jakob Kukula is not found by a term holding an x. */
  lemma JakobMissesX(term: string)
    requires 'x' in Lower(term)
    ensures !MatchesTerm(Jakob, term)
  {
    ShortNamesLacksX("Jakob Kukula");
    CreatorPieceLacksX("Multidisciplinary creator ");
    ArtPieceLacksX("working in art, design and music...");
    NodeLacksLetter(Jakob, term, 'x');
  }

  /** Marina Wainer is not found by a term holding an x. */
  lemma MarinaMissesX(term: string)
    requires 'x' in Lower(term)
    ensures !MatchesTerm(Marina, term)
  {
    ShortNamesLacksX("Marina Wainer");
    ShortNamesLacksX("Paris-based ");
    ArtistPieceLacksX("interactive artist...");
    NodeLacksLetter(Marina, term, 'x');
  }

  /** RiverSync is not found by a term holding an x. */
  lemma RiverSyncMissesX(term: string)
    requires 'x' in Lower(term)
    ensures !MatchesTerm(RiverSync, term)
  {
    ShortNamesLacksX("RiverSync");
    ArtisticPieceLacksX("Transdisciplinary artistic ");
    InterventionPieceLacksX("intervention...");
    NodeLacksLetter(RiverSync, term, 'x');
  }

  /** Waag Futurelab is not found by a term holding an x. */
  lemma WaagMissesX(term: string)
    requires 'x' in Lower(term)
    ensures !MatchesTerm(Waag, term)
  {
    InstitutionNameLacksX("Waag Futurelab");
    InstitutePieceLacksX("Research institute");
    ShortPiecesLacksX(" for ");
    SocietyPieceLacksX("technology and society...");
    NodeLacksLetter(Waag, term, 'x');
  }

  /** The Forest Walking Method is not found by a term holding an x. */
  lemma ForestWalkingMissesX(term: string)
    requires 'x' in Lower(term)
    ensures !MatchesTerm(ForestWalking, term)
  {
    MethodNameLacksX("Forest Walking Method");
    ShortPiecesLacksX("Immersive, ");
    ApproachPieceLacksX("participatory approach...");
    ShortPiecesLacksX("Environmental");
    NodeLacksLetter(ForestWalking, term, 'x');
  }

  /** Waag Futurelab is not found by a term like "forest" (one holding f
      and o, no space, and longer than three letters): its name has no o,
      and the only f of its bio begins the word "for". */
  lemma WaagMissesForest(term: string)
    requires 'f' in Lower(term) && 'o' in Lower(term) && ' ' !in Lower(term)
    requires |term| > 3
    ensures !MatchesTerm(Waag, term)
  {
    InstitutionNameLacksO("Waag Futurelab");
    MissingLetter(Waag.name, term, 'o');
    WaagBioMissesForest(Waag.attrs[Bio], term);
    NodeMisses(Waag, term);
  }

  /** The institution's bio, "Research institute for technology and
      society...", holds f, o, r, e, s and t but not the word "forest". */
  lemma WaagBioMissesForest(bio: string, term: string)
    requires bio == "Research institute" + " for " + "technology and society..."
    requires 'f' in Lower(term) && ' ' !in Lower(term) && |term| > 3
    ensures !ContainsIgnoringCase(bio, term)
  {
    InstitutePieceLacksF("Research institute");
    SocietyPieceLacksF("technology and society...");
    MissesAcrossWords("Research institute", " for ", "for", "technology and society...", term, 'f');
  }

  /** The ids matched in a list of five nodes of which only the last may
      match. */
  lemma LastOfFiveMatches(a: Node, b: Node, c: Node, d: Node, e: Node, term: string)
    requires !MatchesTerm(a, term) && !MatchesTerm(b, term)
    requires !MatchesTerm(c, term) && !MatchesTerm(d, term)
    ensures MatchedIds([a, b, c, d, e], term) == if MatchesTerm(e, term) then {e.id} else {}
  {
    assert [a, b, c, d, e] == [a] + ([b] + ([c] + ([d] + [e])));
    MatchedIdsCons(e, [], term);
    MatchedIdsCons(d, [e], term);
    MatchedIdsCons(c, [d] + [e], term);
    MatchedIdsCons(b, [c] + ([d] + [e]), term);
    MatchedIdsCons(a, [b] + ([c] + ([d] + [e])), term);
  }

  /** The ids of the fallback nodes matching a term, given which of them
      match. */
  lemma FallbackMatches(term: string)
    requires !IsBlank(term)
    requires !MatchesTerm(Jakob, term) && !MatchesTerm(Marina, term)
    requires !MatchesTerm(Waag, term) && !MatchesTerm(RiverSync, term)
    ensures MatchingIds(Fallback().nodes, term) == if MatchesTerm(ForestWalking, term) then {"M001"} else {}
  {
    LastOfFiveMatches(Jakob, Marina, Waag, RiverSync, ForestWalking, term);
  }

  /** `handleSearch("forest")` on the fallback data highlights M001 only. */
  lemma ForestScenario()
    ensures MatchingIds(Fallback().nodes, "forest") == {"M001"}
  {
    var term := "forest";
    ForestTerm(term);
    JakobMissesF(term);
    MarinaMissesF(term);
    WaagMissesForest(term);
    RiverSyncMissesF(term);
    ForestFindsMethod(term);
    FallbackMatches(term);
  }

  /** A term that matches nothing ("xyz-none") gives the empty highlight
      set, and the diagram then dims no node at all. */
  lemma NoMatchScenario()
    ensures MatchingIds(Fallback().nodes, "xyz-none") == {}
    ensures forall id :: !Dimmed(MatchingIds(Fallback().nodes, "xyz-none"), id)
  {
    var term := "xyz-none";
    NoneTerm(term);
    JakobMissesX(term);
    MarinaMissesX(term);
    WaagMissesX(term);
    RiverSyncMissesX(term);
    ForestWalkingMissesX(term);
    FallbackMatches(term);
  }
}
