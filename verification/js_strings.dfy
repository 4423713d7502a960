/**
 * The few JavaScript string operations the analyzer relies on:
 * `includes`, `replace` with a global literal pattern, `replace` with a
 * string pattern (first occurrence only), and `trim`.
 */
module JsStrings {
  import opened Wrappers

  /** The characters `String.prototype.trim` strips: ECMAScript WhiteSpace and LineTerminator. */
  predicate IsJsSpace(c: char) {
    c == '\t' || c == '\n' || c == '\U{000B}' || c == '\U{000C}' || c == '\r' || c == ' '
    || c == '\U{00A0}' || c == '\U{1680}' || ('\U{2000}' <= c <= '\U{200A}')
    || c == '\U{2028}' || c == '\U{2029}' || c == '\U{202F}' || c == '\U{205F}'
    || c == '\U{3000}' || c == '\U{FEFF}'
  }

  /** `s.includes(sub)`: `sub` occurs somewhere in `s`. */
  predicate Contains(s: string, sub: string)
    decreases |s|
  {
    sub <= s || (|s| > 0 && Contains(s[1..], sub))
  }

  /** `sub` occurs in `s` starting at index `i`. */
  predicate OccursAt(s: string, sub: string, i: int) {
    0 <= i && i + |sub| <= |s| && s[i..i + |sub|] == sub
  }

  /** A string that contains `sub` has an index where `sub` occurs. */
  lemma {:induction false} ContainsOccurs(s: string, sub: string)
    requires Contains(s, sub)
    ensures exists i :: OccursAt(s, sub, i)
    decreases |s|
  {
    if sub <= s {
      assert OccursAt(s, sub, 0);
    } else {
      ContainsOccurs(s[1..], sub);
      var i :| OccursAt(s[1..], sub, i);
      OccursShift(s, sub, i + 1);
    }
  }

  /** An occurrence at any index makes `s` contain `sub`. */
  lemma {:induction false} OccursContains(s: string, sub: string, i: int)
    requires OccursAt(s, sub, i)
    ensures Contains(s, sub)
    decreases i
  {
    if i == 0 {
      assert sub <= s;
    } else {
      OccursShift(s, sub, i);
      OccursContains(s[1..], sub, i - 1);
    }
  }

  /** The recursive `Contains` agrees with "there is an index where `sub` occurs". */
  lemma ContainsIffOccurs(s: string, sub: string)
    ensures Contains(s, sub) <==> exists i :: OccursAt(s, sub, i)
  {
    if Contains(s, sub) {
      ContainsOccurs(s, sub);
    }
    if exists i :: OccursAt(s, sub, i) {
      var i :| OccursAt(s, sub, i);
      OccursContains(s, sub, i);
    }
  }

  /** An occurrence inside a slice is an occurrence in the whole string. */
  lemma ContainsInSlice(s: string, sub: string, lo: int, hi: int)
    requires 0 <= lo <= hi <= |s|
    requires Contains(s[lo..hi], sub)
    ensures Contains(s, sub)
  {
    ContainsIffOccurs(s[lo..hi], sub);
    var i :| OccursAt(s[lo..hi], sub, i);
    var w := s[lo..hi][i..i + |sub|];
    assert forall k :: 0 <= k < |w| ==> w[k] == s[lo + i + k];
    assert s[lo + i..lo + i + |sub|] == w;
    assert OccursAt(s, sub, lo + i);
    ContainsIffOccurs(s, sub);
  }

  /** A string that contains `sub + more` contains `sub`. */
  lemma {:induction false} ContainsExtended(s: string, sub: string, more: string)
    requires Contains(s, sub + more)
    ensures Contains(s, sub)
    decreases |s|
  {
    if (sub + more) <= s {
      assert sub <= s by { assert s[..|sub|] == (sub + more)[..|sub|] == sub; }
    } else {
      ContainsExtended(s[1..], sub, more);
    }
  }

  // ---------------------------------------------------------------------
  // `s.replace(/pat/g, '')` for a literal pattern: every occurrence, found
  // left to right without overlap, is removed.
  // ---------------------------------------------------------------------

  function RemoveAll(s: string, pat: string): string
    requires |pat| > 0
    decreases |s|
  {
    if |s| < |pat| then s
    else if pat <= s then RemoveAll(s[|pat|..], pat)
    else [s[0]] + RemoveAll(s[1..], pat)
  }

  /** A string that does not start a match keeps its first character. */
  lemma RemoveAllKeepsHead(s: string, pat: string)
    requires |pat| > 0 && |s| > 0 && s[0] != pat[0]
    ensures |RemoveAll(s, pat)| > 0 && RemoveAll(s, pat)[0] == s[0]
  {
  }

  /** Removing a pattern that does not occur changes nothing. */
  lemma {:induction false} RemoveAllAbsent(s: string, pat: string)
    requires |pat| > 0
    requires !Contains(s, pat)
    ensures RemoveAll(s, pat) == s
    decreases |s|
  {
    if |s| >= |pat| {
      RemoveAllAbsent(s[1..], pat);
      assert [s[0]] + s[1..] == s;
    }
  }

  /**
   * A prefix free of the pattern's first character passes through untouched:
   * no match can start inside it.
   */
  lemma {:induction false} RemoveAllPlainPrefix(b: string, t: string, pat: string)
    requires |pat| > 0
    requires forall k :: 0 <= k < |b| ==> b[k] != pat[0]
    ensures RemoveAll(b + t, pat) == b + RemoveAll(t, pat)
    decreases |b|
  {
    if |b| == 0 {
      assert b + t == t;
    } else {
      var s := b + t;
      if |s| < |pat| {
        // too short to hold a match: the suffix `t` is shorter still
        assert RemoveAll(t, pat) == t;
      } else {
        assert s[0] == b[0] && !(pat <= s);
        assert RemoveAll(s, pat) == [b[0]] + RemoveAll(s[1..], pat);
        assert s[1..] == b[1..] + t;
        RemoveAllPlainPrefix(b[1..], t, pat);
        assert [b[0]] + (b[1..] + RemoveAll(t, pat)) == b + RemoveAll(t, pat);
      }
    }
  }

  // ---------------------------------------------------------------------
  // `s.trim()`
  // ---------------------------------------------------------------------

  /** How many whitespace characters `s` starts with. */
  function LeadingSpaces(s: string): (n: nat)
    ensures n <= |s|
    ensures forall k :: 0 <= k < n ==> IsJsSpace(s[k])
    ensures n == |s| || !IsJsSpace(s[n])
    decreases |s|
  {
    if |s| > 0 && IsJsSpace(s[0]) then 1 + LeadingSpaces(s[1..]) else 0
  }

  /** How many whitespace characters `s` ends with. */
  function TrailingSpaces(s: string): (n: nat)
    ensures n <= |s|
    ensures forall k :: |s| - n <= k < |s| ==> IsJsSpace(s[k])
    ensures n == |s| || !IsJsSpace(s[|s| - 1 - n])
    decreases |s|
  {
    if |s| > 0 && IsJsSpace(s[|s| - 1]) then 1 + TrailingSpaces(s[..|s| - 1]) else 0
  }

  /**
   * `s.trim()`: what is left once the leading and the trailing whitespace are
   * cut. The front cut is the leading whitespace run (LeadingSpaces), the
   * back cut holds only whitespace, and the result neither starts nor ends
   * with whitespace.
   */
  function Trim(s: string): (r: string)
    ensures LeadingSpaces(s) + |r| <= |s|
    ensures r == s[LeadingSpaces(s)..LeadingSpaces(s) + |r|]
    ensures forall k :: LeadingSpaces(s) + |r| <= k < |s| ==> IsJsSpace(s[k])
    ensures r == [] || (!IsJsSpace(r[0]) && !IsJsSpace(r[|r| - 1]))
  {
    var lead := LeadingSpaces(s);
    var rest := s[lead..];
    var t := TrailingSpaces(rest);
    assert forall k :: lead + |rest| - t <= k < |s| ==> s[k] == rest[k - lead];
    rest[..|rest| - t]
  }

  /** Trim only cuts whitespace: its result is a slice of its input with nothing but whitespace on either side. */
  lemma TrimIsSlice(s: string)
    ensures exists lo, hi ::
      && 0 <= lo <= hi <= |s| && Trim(s) == s[lo..hi]
      && (forall k :: 0 <= k < lo ==> IsJsSpace(s[k]))
      && (forall k :: hi <= k < |s| ==> IsJsSpace(s[k]))
  {
    var lo := LeadingSpaces(s);
    var hi := lo + |Trim(s)|;
    assert Trim(s) == s[lo..hi];
  }

  /**
   * Trim is the only such cut: any slice with whitespace on either side and
   * no whitespace at its own ends is the trim.
   */
  lemma TrimCharacterized(s: string, lo: int, hi: int)
    requires 0 <= lo <= hi <= |s|
    requires forall k :: 0 <= k < lo ==> IsJsSpace(s[k])
    requires forall k :: hi <= k < |s| ==> IsJsSpace(s[k])
    requires lo == hi || (!IsJsSpace(s[lo]) && !IsJsSpace(s[hi - 1]))
    ensures Trim(s) == s[lo..hi]
  {
    var lead := LeadingSpaces(s);
    var r := Trim(s);
    if lo == hi {
      assert lead == |s|;
    } else {
      assert lead == lo;
      assert lead + |r| == hi;
    }
  }

  /** A string with no surrounding whitespace is its own trim. */
  lemma TrimOfTrimmed(s: string)
    requires s == [] || (!IsJsSpace(s[0]) && !IsJsSpace(s[|s| - 1]))
    ensures Trim(s) == s
  {
    assert LeadingSpaces(s) == 0;
    assert s[0..] == s;
    assert TrailingSpaces(s) == 0;
  }

  /** Trim is idempotent. */
  lemma TrimIdempotent(s: string)
    ensures Trim(Trim(s)) == Trim(s)
  {
    TrimOfTrimmed(Trim(s));
  }

  /** Trimming cannot create an occurrence of anything. */
  lemma TrimKeepsAbsence(s: string, sub: string)
    requires !Contains(s, sub)
    ensures !Contains(Trim(s), sub)
  {
    TrimIsSlice(s);
    var lo, hi :| 0 <= lo <= hi <= |s| && Trim(s) == s[lo..hi];
    if Contains(Trim(s), sub) {
      ContainsInSlice(s, sub, lo, hi);
    }
  }

  // ---------------------------------------------------------------------
  // `s.replace(pat, '')` with a string pattern: only the first occurrence.
  // ---------------------------------------------------------------------

  /** Shifting by one character: an occurrence at `j >= 1` in `s` is one at `j - 1` in `s[1..]`. */
  lemma OccursShift(s: string, pat: string, j: int)
    requires 1 <= j && |s| > 0
    ensures OccursAt(s, pat, j) <==> OccursAt(s[1..], pat, j - 1)
  {
    if j + |pat| <= |s| {
      assert s[1..][j - 1..j - 1 + |pat|] == s[j..j + |pat|];
    }
  }

  /** The index of the first occurrence of `pat` in `s` (`s.indexOf(pat)`), if any. */
  function IndexOf(s: string, pat: string): (r: Option<nat>)
    ensures r.None? ==> !Contains(s, pat)
    ensures r.Some? ==> OccursAt(s, pat, r.value)
    ensures r.Some? ==> forall j :: 0 <= j < r.value ==> !OccursAt(s, pat, j)
    decreases |s|
  {
    if pat <= s then Some(0)
    else if |s| == 0 then None
    else match IndexOf(s[1..], pat)
      case None => None
      case Some(i) =>
        assert forall j :: 1 <= j <= i + 1 ==> (OccursAt(s, pat, j) <==> OccursAt(s[1..], pat, j - 1)) by {
          forall j | 1 <= j <= i + 1
            ensures OccursAt(s, pat, j) <==> OccursAt(s[1..], pat, j - 1)
          {
            OccursShift(s, pat, j);
          }
        }
        Some(i + 1)
  }

  /** `s.replace(pat, '')`: removes the first occurrence of `pat`, if any. */
  function RemoveFirst(s: string, pat: string): string
    decreases |s|
  {
    if pat <= s then s[|pat|..]
    else if |s| == 0 then s
    else [s[0]] + RemoveFirst(s[1..], pat)
  }

  /** Putting the first character back in front of a cut made in `s[1..]`. */
  lemma ConsCut(s: string, i: nat, n: nat)
    requires 1 + i + n <= |s|
    ensures [s[0]] + (s[1..][..i] + s[1..][i + n..]) == s[..i + 1] + s[i + 1 + n..]
  {
    assert s[1..][..i] == s[1..i + 1];
    assert s[1..][i + n..] == s[i + 1 + n..];
    assert [s[0]] + s[1..i + 1] == s[..i + 1];
  }

  /** Without an occurrence, `replace` changes nothing. */
  lemma {:induction false} RemoveFirstAbsent(s: string, pat: string)
    requires !Contains(s, pat)
    ensures RemoveFirst(s, pat) == s
    decreases |s|
  {
    if |s| > 0 {
      RemoveFirstAbsent(s[1..], pat);
      assert [s[0]] + s[1..] == s;
    }
  }

  /** A first occurrence at `i >= 1` is a first occurrence at `i - 1` in the tail. */
  lemma FirstOccurrenceInTail(s: string, pat: string, i: nat)
    requires 1 <= i && OccursAt(s, pat, i)
    requires forall j :: 0 <= j < i ==> !OccursAt(s, pat, j)
    ensures OccursAt(s[1..], pat, i - 1)
    ensures forall j :: 0 <= j < i - 1 ==> !OccursAt(s[1..], pat, j)
  {
    OccursShift(s, pat, i);
    forall j | 0 <= j < i - 1
      ensures !OccursAt(s[1..], pat, j)
    {
      OccursShift(s, pat, j + 1);
    }
  }

  /** With a first occurrence at `i`, `replace` cuts exactly that one. */
  lemma {:induction false} RemoveFirstAt(s: string, pat: string, i: nat)
    requires OccursAt(s, pat, i)
    requires forall j :: 0 <= j < i ==> !OccursAt(s, pat, j)
    ensures RemoveFirst(s, pat) == s[..i] + s[i + |pat|..]
    decreases i
  {
    if i == 0 {
      assert pat <= s;
      assert s[..0] + s[|pat|..] == s[|pat|..];
    } else {
      assert !OccursAt(s, pat, 0);
      var tail := s[1..];
      FirstOccurrenceInTail(s, pat, i);
      calc {
        RemoveFirst(s, pat);
        [s[0]] + RemoveFirst(tail, pat);
        { RemoveFirstAt(tail, pat, i - 1); }
        [s[0]] + (tail[..i - 1] + tail[i - 1 + |pat|..]);
        { ConsCut(s, i - 1, |pat|); }
        s[..i] + s[i + |pat|..];
      }
    }
  }

  /**
   * RemoveFirst cuts exactly the first occurrence found by IndexOf and keeps
   * everything around it; with no occurrence the string is unchanged.
   */
  lemma RemoveFirstCutsFirstOccurrence(s: string, pat: string)
    ensures IndexOf(s, pat).None? ==> RemoveFirst(s, pat) == s
    ensures IndexOf(s, pat).Some? ==>
      var i := IndexOf(s, pat).value;
      i + |pat| <= |s| && RemoveFirst(s, pat) == s[..i] + s[i + |pat|..]
  {
    match IndexOf(s, pat)
    case None => RemoveFirstAbsent(s, pat);
    case Some(i) => RemoveFirstAt(s, pat, i);
  }
}
