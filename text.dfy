/** Character and string helpers shared by the frontend search and the backend
    `ilike` search: ASCII case folding, substring containment, and the
    whitespace trimming that decides whether a search term is blank. */
module Text {

  /** Lower-cases one ASCII letter; every other character is left as it is. */
  function LowerChar(c: char): (r: char)
    ensures 'A' <= c <= 'Z' ==> 'a' <= r <= 'z' && r as int == c as int + 32
    ensures !('A' <= c <= 'Z') ==> r == c
  {
    if 'A' <= c <= 'Z' then (c as int + 32) as char else c
  }

  /** `s.toLowerCase()` (and SQL `lower(s)`), restricted to ASCII letters. */
  function Lower(s: string): (r: string)
    ensures |r| == |s|
    ensures forall i :: 0 <= i < |s| ==> r[i] == LowerChar(s[i])
  {
    seq(|s|, i requires 0 <= i < |s| => LowerChar(s[i]))
  }

  /** `t` occurs in `s` starting at index `i`. */
  ghost predicate OccursAt(s: string, t: string, i: int)
  {
    0 <= i && i + |t| <= |s| && s[i..i + |t|] == t
  }

  /** `s.includes(t)`: some suffix of `s` starts with `t`. */
  predicate Contains(s: string, t: string)
    ensures Contains(s, t) ==> |t| <= |s|
    decreases |s|
  {
    (|t| <= |s| && s[..|t|] == t) || (|s| > 0 && Contains(s[1..], t))
  }

  /** Case-insensitive containment, as `a.toLowerCase().includes(b.toLowerCase())`
      and `a ILIKE '%b%'` compute it. */
  predicate ContainsIgnoringCase(s: string, t: string)
  {
    Contains(Lower(s), Lower(t))
  }

  /** An occurrence found by Contains, at the index where it starts. */
  lemma {:induction false} OccurrenceOf(s: string, t: string) returns (i: int)
    requires Contains(s, t)
    ensures OccursAt(s, t, i)
    decreases |s|
  {
    if |t| <= |s| && s[..|t|] == t {
      i := 0;
    } else {
      var j := OccurrenceOf(s[1..], t);
      assert s[1..][j..j + |t|] == s[j + 1..j + 1 + |t|];
      i := j + 1;
    }
  }

  /** An occurrence at any index makes Contains hold. */
  lemma {:induction false} OccurrenceContains(s: string, t: string, i: int)
    requires OccursAt(s, t, i)
    ensures Contains(s, t)
    decreases i
  {
    if i > 0 {
      assert s[1..][i - 1..i - 1 + |t|] == s[i..i + |t|];
      OccurrenceContains(s[1..], t, i - 1);
    }
  }

  /** The recursive definition of Contains agrees with "some index holds an
      occurrence". */
  lemma ContainsIff(s: string, t: string)
    ensures Contains(s, t) <==> exists i :: OccursAt(s, t, i)
  {
    if Contains(s, t) {
      var i := OccurrenceOf(s, t);
    }
    if exists i :: OccursAt(s, t, i) {
      var i :| OccursAt(s, t, i);
      OccurrenceContains(s, t, i);
    }
  }

  /** Every string contains the empty string. */
  lemma ContainsEmpty(s: string)
    ensures Contains(s, "")
  {
    assert OccursAt(s, "", 0);
    ContainsIff(s, "");
  }

  /** Every string contains itself, whatever its case. */
  lemma ContainsSelf(s: string)
    ensures ContainsIgnoringCase(s, s)
  {
    assert OccursAt(Lower(s), Lower(s), 0);
    ContainsIff(Lower(s), Lower(s));
  }

  /** An occurrence of `t` in `a + [c] + b` lies inside `a` or inside `b` when
      `c` is not a character of `t`. */
  lemma ContainsSplit(a: string, c: char, b: string, t: string)
    requires c !in t
    ensures Contains(a + [c] + b, t) ==> Contains(a, t) || Contains(b, t)
  {
    var s := a + [c] + b;
    if Contains(s, t) {
      var i := OccurrenceOf(s, t);
      assert forall k :: 0 <= k < |t| ==> s[i + k] == t[k] by {
        forall k | 0 <= k < |t| ensures s[i + k] == t[k] {
          assert s[i..i + |t|][k] == s[i + k];
        }
      }
      assert s[|a|] == c;
      if i + |t| <= |a| {
        assert s[i..i + |t|] == a[i..i + |t|];
        OccurrenceContains(a, t, i);
      } else {
        assert i > |a|;
        assert s[i..i + |t|] == b[i - |a| - 1..i - |a| - 1 + |t|];
        OccurrenceContains(b, t, i - |a| - 1);
      }
    }
  }

  /** A string missing one of the characters of `t` does not contain `t`. */
  lemma MissingChar(s: string, t: string, k: int)
    requires 0 <= k < |t| && t[k] !in s
    ensures !Contains(s, t)
  {
    forall i ensures !OccursAt(s, t, i) {
      if 0 <= i && i + |t| <= |s| {
        assert s[i..i + |t|][k] == s[i + k];
        assert s[i + k] in s;
      }
    }
    ContainsIff(s, t);
  }

  /** A string cannot contain a longer one. */
  lemma ContainsLonger(s: string, t: string)
    requires |t| > |s|
    ensures !Contains(s, t)
  {
    ContainsIff(s, t);
  }

  /** A string that holds a letter of `t` in neither case does not contain
      `t`, ignoring case. */
  lemma MissingLetter(s: string, t: string, c: char)
    requires 'a' <= c <= 'z' && c in Lower(t)
    requires c !in s && (c as int - 32) as char !in s
    ensures !ContainsIgnoringCase(s, t)
  {
    LowerHasLetter(s, c);
    var k :| 0 <= k < |Lower(t)| && Lower(t)[k] == c;
    MissingChar(Lower(s), Lower(t), k);
  }

  /** Lower-casing distributes over concatenation. */
  lemma LowerAppend(a: string, b: string)
    ensures Lower(a + b) == Lower(a) + Lower(b)
  {
  }

  /** Lower-casing is idempotent. */
  lemma LowerIdempotent(s: string)
    ensures Lower(Lower(s)) == Lower(s)
  {
  }

  /** A lower-case letter can only appear in `Lower(s)` if `s` holds it in
      one of its two cases. */
  lemma LowerHasLetter(s: string, c: char)
    requires 'a' <= c <= 'z'
    requires c !in s && (c as int - 32) as char !in s
    ensures c !in Lower(s)
  {
    forall i | 0 <= i < |s| ensures Lower(s)[i] != c {
      assert s[i] in s;
    }
  }

  /** The characters `String.prototype.trim` removes: the ECMAScript
      WhiteSpace and LineTerminator code points. */
  predicate IsWhitespace(c: char)
  {
    || c == '\t' || c == '\n' || c == '\U{000B}' || c == '\U{000C}' || c == '\r'
    || c == ' ' || c == '\U{00A0}' || c == '\U{1680}'
    || ('\U{2000}' <= c <= '\U{200A}')
    || c == '\U{2028}' || c == '\U{2029}' || c == '\U{202F}' || c == '\U{205F}'
    || c == '\U{3000}' || c == '\U{FEFF}'
  }

  /** `s` with its leading whitespace removed. */
  function TrimStart(s: string): (r: string)
    ensures |r| <= |s| && r == s[|s| - |r|..]
    ensures forall i :: 0 <= i < |s| - |r| ==> IsWhitespace(s[i])
    ensures r != [] ==> !IsWhitespace(r[0])
    decreases |s|
  {
    if s != [] && IsWhitespace(s[0]) then TrimStart(s[1..]) else s
  }

  /** `s` with its trailing whitespace removed. */
  function TrimEnd(s: string): (r: string)
    ensures |r| <= |s| && r == s[..|r|]
    ensures forall i :: |r| <= i < |s| ==> IsWhitespace(s[i])
    ensures r != [] ==> !IsWhitespace(r[|r| - 1])
    decreases |s|
  {
    if s != [] && IsWhitespace(s[|s| - 1]) then TrimEnd(s[..|s| - 1]) else s
  }

  /** `s.trim()`: a slice of `s` that neither starts nor ends with
      whitespace. */
  function Trim(s: string): (r: string)
    ensures OccursAt(s, r, |s| - |TrimStart(s)|)
    ensures r != [] ==> !IsWhitespace(r[0]) && !IsWhitespace(r[|r| - 1])
  {
    TrimShape(s);
    TrimEnd(TrimStart(s))
  }

  /** What `Trim` promises, about its body. */
  lemma TrimShape(s: string)
    ensures OccursAt(s, TrimEnd(TrimStart(s)), |s| - |TrimStart(s)|)
    ensures var r := TrimEnd(TrimStart(s));
      r != [] ==> !IsWhitespace(r[0]) && !IsWhitespace(r[|r| - 1])
  {
    var u := TrimStart(s);
    var r := TrimEnd(u);
    PrefixOfSuffixOccurs(s, |s| - |u|, u, r);
    assert r != [] ==> r[0] == u[0];
  }

  /** A prefix of the suffix of `s` from `k` occurs in `s` at `k`. */
  lemma PrefixOfSuffixOccurs(s: string, k: nat, u: string, r: string)
    requires k <= |s| && u == s[k..] && |r| <= |u| && r == u[..|r|]
    ensures OccursAt(s, r, k)
  {
    assert forall i :: 0 <= i < |r| ==> r[i] == s[k + i];
    assert s[k..k + |r|] == r;
  }

  /** `term.trim() === ''` holds exactly when every character of the term is
      whitespace (in particular for the empty term). */
  lemma BlankIff(s: string)
    ensures Trim(s) == "" <==> forall i :: 0 <= i < |s| ==> IsWhitespace(s[i])
  {
    var u := TrimStart(s);
    if Trim(s) == "" {
      assert u == [];
    }
    if forall i :: 0 <= i < |s| ==> IsWhitespace(s[i]) {
      assert u == [];
    }
  }
}
