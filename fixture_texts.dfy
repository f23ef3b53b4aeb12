/** Letters that do not occur in pieces of the fallback data's texts, each
    fact stated on its own. The search scenarios of `Fixture` use them: one
    small lemma per piece and letter keeps each proof obligation small,
    where the same facts asserted inside a scenario are too costly. */
module FixtureTexts {
  /** The short names and pieces hold no f, in either case. */
  lemma ShortNamesLacksF(s: string)
    requires s == "Jakob Kukula" || s == "Marina Wainer" || s == "RiverSync" || s == "Paris-based "
    ensures 'f' !in s && 'F' !in s
  {
  }

  /** The short names and pieces hold no x, in either case. */
  lemma ShortNamesLacksX(s: string)
    requires s == "Jakob Kukula" || s == "Marina Wainer" || s == "RiverSync" || s == "Paris-based "
    ensures 'x' !in s && 'X' !in s
  {
  }

  /** "Multidisciplinary creator " holds no f, in either case. */
  lemma CreatorPieceLacksF(s: string)
    requires s == "Multidisciplinary creator "
    ensures 'f' !in s && 'F' !in s
  {
  }

  /** "Multidisciplinary creator " holds no x, in either case. */
  lemma CreatorPieceLacksX(s: string)
    requires s == "Multidisciplinary creator "
    ensures 'x' !in s && 'X' !in s
  {
  }

  /** "working in art, design and music..." holds no f, in either case. */
  lemma ArtPieceLacksF(s: string)
    requires s == "working in art, design and music..."
    ensures 'f' !in s && 'F' !in s
  {
  }

  /** "working in art, design and music..." holds no x, in either case. */
  lemma ArtPieceLacksX(s: string)
    requires s == "working in art, design and music..."
    ensures 'x' !in s && 'X' !in s
  {
  }

  /** "interactive artist..." holds no f, in either case. */
  lemma ArtistPieceLacksF(s: string)
    requires s == "interactive artist..."
    ensures 'f' !in s && 'F' !in s
  {
  }

  /** "interactive artist..." holds no x, in either case. */
  lemma ArtistPieceLacksX(s: string)
    requires s == "interactive artist..."
    ensures 'x' !in s && 'X' !in s
  {
  }

  /** "Transdisciplinary artistic " holds no f, in either case. */
  lemma ArtisticPieceLacksF(s: string)
    requires s == "Transdisciplinary artistic "
    ensures 'f' !in s && 'F' !in s
  {
  }

  /** "Transdisciplinary artistic " holds no x, in either case. */
  lemma ArtisticPieceLacksX(s: string)
    requires s == "Transdisciplinary artistic "
    ensures 'x' !in s && 'X' !in s
  {
  }

  /** "intervention..." holds no f, in either case. */
  lemma InterventionPieceLacksF(s: string)
    requires s == "intervention..."
    ensures 'f' !in s && 'F' !in s
  {
  }

  /** "intervention..." holds no x, in either case. */
  lemma InterventionPieceLacksX(s: string)
    requires s == "intervention..."
    ensures 'x' !in s && 'X' !in s
  {
  }

  /** "Research institute" holds no f, in either case. */
  lemma InstitutePieceLacksF(s: string)
    requires s == "Research institute"
    ensures 'f' !in s && 'F' !in s
  {
  }

  /** "Research institute" holds no x, in either case. */
  lemma InstitutePieceLacksX(s: string)
    requires s == "Research institute"
    ensures 'x' !in s && 'X' !in s
  {
  }

  /** "technology and society..." holds no f, in either case. */
  lemma SocietyPieceLacksF(s: string)
    requires s == "technology and society..."
    ensures 'f' !in s && 'F' !in s
  {
  }

  /** "technology and society..." holds no x, in either case. */
  lemma SocietyPieceLacksX(s: string)
    requires s == "technology and society..."
    ensures 'x' !in s && 'X' !in s
  {
  }

  /** The institution's name holds no o, in either case. */
  lemma InstitutionNameLacksO(s: string)
    requires s == "Waag Futurelab"
    ensures 'o' !in s && 'O' !in s
  {
  }

  /** The institution's name holds no x, in either case. */
  lemma InstitutionNameLacksX(s: string)
    requires s == "Waag Futurelab"
    ensures 'x' !in s && 'X' !in s
  {
  }

  /** The short pieces of the institution's and the method's texts hold no x, in either case. */
  lemma ShortPiecesLacksX(s: string)
    requires s == " for " || s == "Immersive, " || s == "Environmental"
    ensures 'x' !in s && 'X' !in s
  {
  }

  /** The method's name holds no x, in either case. */
  lemma MethodNameLacksX(s: string)
    requires s == "Forest Walking Method"
    ensures 'x' !in s && 'X' !in s
  {
  }

  /** "participatory approach..." holds no x, in either case. */
  lemma ApproachPieceLacksX(s: string)
    requires s == "participatory approach..."
    ensures 'x' !in s && 'X' !in s
  {
  }
}
