/**
 * Whitespace trimming as performed by JavaScript's `String.prototype.trim`, which both the
 * schema's `trim: true` setters and the client form handler use.
 *
 * The trimming functions and their lemmas take the set of trimmed characters as a parameter
 * `ws`; `Trim` fixes it to the ECMAScript whitespace.
 */
module Text {

  /** ECMAScript WhiteSpace and LineTerminator code points, the characters `trim` removes:
      TAB, LF, VT, FF, CR, SPACE, NBSP, OGHAM SPACE MARK, EN QUAD to HAIR SPACE, LINE and
      PARAGRAPH SEPARATOR, NARROW NBSP, MEDIUM MATHEMATICAL SPACE, IDEOGRAPHIC SPACE, BOM. */
  const Whitespace: string :=
    "\t\n\U{B}\U{C}\r \U{A0}\U{1680}"
    + "\U{2000}\U{2001}\U{2002}\U{2003}\U{2004}\U{2005}\U{2006}\U{2007}\U{2008}\U{2009}\U{200A}"
    + "\U{2028}\U{2029}\U{202F}\U{205F}\U{3000}\U{FEFF}"

  predicate IsWhitespace(c: char)
  {
    c in Whitespace
  }

  /** `s` with its leading characters from `ws` removed. */
  function TrimStart(s: string, ws: string): (r: string)
    ensures |r| <= |s|
  {
    if s != [] && s[0] in ws then TrimStart(s[1..], ws) else s
  }

  /** `TrimStart` removes a prefix made of characters from `ws`, and stops at the first
      character that is not one of them. */
  lemma {:induction false} TrimStartShape(s: string, ws: string)
    ensures TrimStart(s, ws) == s[|s| - |TrimStart(s, ws)|..]
    ensures forall i :: 0 <= i < |s| - |TrimStart(s, ws)| ==> s[i] in ws
    ensures TrimStart(s, ws) != [] ==> TrimStart(s, ws)[0] !in ws
  {
    if s != [] && s[0] in ws {
      var r := TrimStart(s[1..], ws);
      TrimStartShape(s[1..], ws);
      assert s[1..][|s| - 1 - |r|..] == s[|s| - |r|..];
      forall i | 0 < i < |s| - |r| ensures s[i] in ws {
        assert s[i] == s[1..][i - 1];
      }
    }
  }

  /** `s` with its trailing characters from `ws` removed. */
  function TrimEnd(s: string, ws: string): (r: string)
    ensures |r| <= |s|
  {
    if s != [] && s[|s| - 1] in ws then TrimEnd(s[..|s| - 1], ws) else s
  }

  /** `TrimEnd` removes a suffix made of characters from `ws`, and stops at the last
      character that is not one of them. */
  lemma {:induction false} TrimEndShape(s: string, ws: string)
    ensures TrimEnd(s, ws) == s[..|TrimEnd(s, ws)|]
    ensures forall i :: |TrimEnd(s, ws)| <= i < |s| ==> s[i] in ws
    ensures TrimEnd(s, ws) != [] ==> TrimEnd(s, ws)[|TrimEnd(s, ws)| - 1] !in ws
  {
    if s != [] && s[|s| - 1] in ws {
      var r := TrimEnd(s[..|s| - 1], ws);
      TrimEndShape(s[..|s| - 1], ws);
      assert s[..|s| - 1][..|r|] == s[..|r|];
      forall i | |r| <= i < |s| - 1 ensures s[i] in ws {
        assert s[i] == s[..|s| - 1][i];
      }
    }
  }

  /** `s` with its leading and trailing characters from `ws` removed. */
  function TrimBy(s: string, ws: string): string
  {
    TrimEnd(TrimStart(s, ws), ws)
  }

  /** `s` neither starts nor ends with a character from `ws`. */
  predicate TrimmedBy(s: string, ws: string)
  {
    s != [] ==> s[0] !in ws && s[|s| - 1] !in ws
  }

  /** The number of leading characters `TrimBy` removes. */
  function LeadingBy(s: string, ws: string): nat
  {
    |s| - |TrimStart(s, ws)|
  }

  /** The slice that `TrimBy` keeps. */
  lemma TrimBySlice(s: string, ws: string)
    ensures LeadingBy(s, ws) + |TrimBy(s, ws)| <= |s|
    ensures TrimBy(s, ws) == s[LeadingBy(s, ws)..LeadingBy(s, ws) + |TrimBy(s, ws)|]
  {
    TrimStartShape(s, ws);
    var t := TrimStart(s, ws);
    TrimEndShape(t, ws);
    var r := TrimEnd(t, ws);
    var lo := LeadingBy(s, ws);
    assert t == s[lo..];
    assert r == t[..|r|];
  }

  /** Every character after the slice that `TrimBy` keeps is in `ws`. */
  lemma TrimByTail(s: string, ws: string)
    ensures forall i :: LeadingBy(s, ws) + |TrimBy(s, ws)| <= i < |s| ==> s[i] in ws
  {
    TrimStartShape(s, ws);
    var t := TrimStart(s, ws);
    TrimEndShape(t, ws);
    var r := TrimEnd(t, ws);
    var lo := LeadingBy(s, ws);
    assert t == s[lo..];
    forall i | lo + |r| <= i < |s| ensures s[i] in ws {
      var j := i - lo;
      assert |r| <= j < |t| && s[i] == t[j];
    }
  }

  /** The result of `TrimBy` neither starts nor ends with a character from `ws`. */
  lemma TrimByTrims(s: string, ws: string)
    ensures TrimmedBy(TrimBy(s, ws), ws)
  {
    TrimStartShape(s, ws);
    var t := TrimStart(s, ws);
    TrimEndShape(t, ws);
    var r := TrimEnd(t, ws);
    if r != [] {
      assert r[0] == t[0];
    }
  }

  /** A string that neither starts nor ends with a character from `ws` is left as it is. */
  lemma TrimByOfTrimmed(s: string, ws: string)
    requires TrimmedBy(s, ws)
    ensures TrimBy(s, ws) == s
  {
    TrimStartShape(s, ws);
    var t := TrimStart(s, ws);
    assert |t| == |s|;
    TrimEndShape(t, ws);
    var r := TrimEnd(t, ws);
    assert |r| == |t|;
  }

  /** `s.trim()`. */
  function Trim(s: string): string
  {
    TrimBy(s, Whitespace)
  }

  /** `s` neither starts nor ends with whitespace: what `trim` leaves. */
  predicate IsTrimmed(s: string)
  {
    TrimmedBy(s, Whitespace)
  }

  /** The number of leading whitespace characters `trim` removes from `s`. */
  function Leading(s: string): nat
  {
    LeadingBy(s, Whitespace)
  }

  /** What `trim` returns: the slice of `s` that starts after its leading whitespace and
      stops before its trailing whitespace; it neither starts nor ends with whitespace. */
  lemma TrimShape(s: string)
    ensures Leading(s) + |Trim(s)| <= |s|
    ensures Trim(s) == s[Leading(s)..Leading(s) + |Trim(s)|]
    ensures forall i :: 0 <= i < Leading(s) ==> IsWhitespace(s[i])
    ensures forall i :: Leading(s) + |Trim(s)| <= i < |s| ==> IsWhitespace(s[i])
    ensures IsTrimmed(Trim(s))
  {
    TrimStartShape(s, Whitespace);
    TrimBySlice(s, Whitespace);
    TrimByTail(s, Whitespace);
    TrimByTrims(s, Whitespace);
  }

  /** A string that neither starts nor ends with whitespace is its own trim. */
  lemma TrimOfTrimmed(s: string)
    requires IsTrimmed(s)
    ensures Trim(s) == s
  {
    TrimByOfTrimmed(s, Whitespace);
  }

  /** Trimming twice is trimming once. */
  lemma TrimIdempotent(s: string)
    ensures Trim(Trim(s)) == Trim(s)
  {
    TrimByTrims(s, Whitespace);
    TrimByOfTrimmed(Trim(s), Whitespace);
  }

  /** `s.trim()` is empty exactly when every character of `s` is whitespace. */
  lemma TrimEmptyIff(s: string)
    ensures Trim(s) == [] <==> forall i :: 0 <= i < |s| ==> IsWhitespace(s[i])
  {
    TrimShape(s);
    assert Trim(s) != [] ==> s[Leading(s)] == Trim(s)[0];
  }
}
