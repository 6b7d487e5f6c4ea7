/** The string operations the ticker-list loader and the sector classifier rely on:
    Python's `str.strip`, `str.upper` (on ASCII letters), the substring test `sub in s`
    and `str.replace(old, "")`. */
module Text {

  /** Python's `str.isspace` for one character: the characters `str.strip()` removes. */
  predicate IsSpace(c: char)
  {
    || c == ' '
    || ('\t' <= c <= '\r')
    || ('\U{1C}' <= c <= '\U{1F}')
    || c == '\U{85}' || c == '\U{A0}' || c == '\U{1680}'
    || ('\U{2000}' <= c <= '\U{200A}')
    || c == '\U{2028}' || c == '\U{2029}' || c == '\U{202F}' || c == '\U{205F}' || c == '\U{3000}'
  }

  predicate IsLower(c: char)
  {
    'a' <= c <= 'z'
  }

  function ToUpper(c: char): (u: char)
    ensures !IsLower(u)
    ensures IsSpace(u) <==> IsSpace(c)
    ensures IsLower(c) ==> u as int == c as int - 32
    ensures !IsLower(c) ==> u == c
  {
    if IsLower(c) then (c as int - 32) as char else c
  }

  /** `s.upper()`, restricted to ASCII letters: each character upper-cased in place. */
  function Upper(s: string): (r: string)
    ensures |r| == |s|
    ensures forall i :: 0 <= i < |s| ==> r[i] == ToUpper(s[i])
    ensures forall i :: 0 <= i < |r| ==> !IsLower(r[i])
  {
    seq(|s|, i requires 0 <= i < |s| => ToUpper(s[i]))
  }

  /** Every character of `s` is whitespace (so the empty text is blank). */
  predicate AllSpace(s: string)
  {
    forall k :: 0 <= k < |s| ==> IsSpace(s[k])
  }

  /** How many whitespace characters `s` starts with. */
  function LeadingSpaces(s: string): (n: nat)
    ensures n <= |s|
  {
    if s != [] && IsSpace(s[0]) then 1 + LeadingSpaces(s[1..]) else 0
  }

  /** How many whitespace characters `s` ends with. */
  function TrailingSpaces(s: string): (n: nat)
    ensures n <= |s|
  {
    if s != [] && IsSpace(s[|s| - 1]) then 1 + TrailingSpaces(s[..|s| - 1]) else 0
  }

  /** The leading run is all whitespace and stops at the first other character. */
  lemma {:induction false} LeadingSpacesSpec(s: string)
    ensures AllSpace(s[..LeadingSpaces(s)])
    ensures LeadingSpaces(s) < |s| ==> !IsSpace(s[LeadingSpaces(s)])
  {
    if s != [] && IsSpace(s[0]) {
      LeadingSpacesSpec(s[1..]);
      var n := LeadingSpaces(s[1..]);
      assert s[..n + 1] == [s[0]] + s[1..][..n];
      if n + 1 < |s| { assert s[n + 1] == s[1..][n]; }
    }
  }

  /** The trailing run is all whitespace and stops at the last other character. */
  lemma {:induction false} TrailingSpacesSpec(s: string)
    ensures AllSpace(s[|s| - TrailingSpaces(s)..])
    ensures TrailingSpaces(s) < |s| ==> !IsSpace(s[|s| - 1 - TrailingSpaces(s)])
  {
    if s != [] && IsSpace(s[|s| - 1]) {
      var init := s[..|s| - 1];
      TrailingSpacesSpec(init);
      var n := TrailingSpaces(init);
      assert s[|s| - (n + 1)..] == init[|init| - n..] + [s[|s| - 1]];
      if n + 1 < |s| { assert s[|s| - 1 - (n + 1)] == init[|init| - 1 - n]; }
    }
  }

  /** Neither end of `s` is whitespace. */
  predicate IsStripped(s: string)
  {
    s == [] || (!IsSpace(s[0]) && !IsSpace(s[|s| - 1]))
  }

  /** `r` is what is left of `s` once the whitespace before position `i` and after
      position `i + |r|` is cut off. */
  ghost predicate IsStripOf(s: string, r: string, i: int)
  {
    && 0 <= i <= |s| - |r|
    && r == s[i..i + |r|]
    && AllSpace(s[..i])
    && AllSpace(s[i + |r|..])
  }

  /** `s.strip()`: the leading whitespace is cut off, then the trailing whitespace of
      what is left. */
  function Strip(s: string): (r: string)
    ensures |r| <= |s|
    ensures IsStripped(s) ==> r == s
  {
    var t := s[LeadingSpaces(s)..];
    t[..|t| - TrailingSpaces(t)]
  }

  /** `s.strip()` keeps one contiguous slice of `s` and cuts off only whitespace before
      and after it. */
  lemma StripIsSlice(s: string)
    ensures IsStripOf(s, Strip(s), LeadingSpaces(s))
  {
    var i := LeadingSpaces(s);
    var t := s[i..];
    var m := TrailingSpaces(t);
    var r := t[..|t| - m];
    assert r == s[i..i + |r|];
    assert AllSpace(s[..i]) by { LeadingSpacesSpec(s); }
    assert AllSpace(s[i + |r|..]) by {
      TrailingSpacesSpec(t);
      assert t[|t| - m..] == s[i + |r|..];
    }
  }

  /** `s.strip()` keeps no whitespace at either end, and it is empty exactly when `s` is
      blank. */
  lemma StripSpec(s: string)
    ensures IsStripped(Strip(s))
    ensures Strip(s) == [] <==> AllSpace(s)
  {
    var i := LeadingSpaces(s);
    var t := s[i..];
    var m := TrailingSpaces(t);
    var r := Strip(s);
    assert r == t[..|t| - m];
    LeadingSpacesSpec(s);
    if r != [] {
      TrailingSpacesSpec(t);
      assert r[0] == s[i];
      assert r[|r| - 1] == t[|t| - 1 - m];
      assert !IsSpace(s[i]);
    } else {
      TrailingSpacesSpec(t);
      assert s[..i] == s;
    }
  }

  /** Stripping twice is stripping once. */
  lemma StripIdempotent(s: string)
    ensures Strip(Strip(s)) == Strip(s)
  {
    StripSpec(s);
  }

  /** `sub` sits in `s` starting at position `i`. */
  predicate OccursAt(s: string, sub: string, i: int)
  {
    0 <= i && i + |sub| <= |s| && s[i..i + |sub|] == sub
  }

  /** `sub` occurs in `s` at some position: the meaning of Python's `sub in s`. */
  ghost predicate Occurs(s: string, sub: string)
  {
    exists i :: OccursAt(s, sub, i)
  }

  lemma OccursShift(s: string, sub: string)
    requires |sub| <= |s| && s[..|sub|] != sub
    ensures Occurs(s, sub) <==> Occurs(s[1..], sub)
  {
    if Occurs(s, sub) {
      var i :| OccursAt(s, sub, i);
      assert i != 0;
      assert s[1..][i - 1..i - 1 + |sub|] == s[i..i + |sub|];
      assert OccursAt(s[1..], sub, i - 1);
    }
    if Occurs(s[1..], sub) {
      var i :| OccursAt(s[1..], sub, i);
      assert s[i + 1..i + 1 + |sub|] == s[1..][i..i + |sub|];
      assert OccursAt(s, sub, i + 1);
    }
  }

  /** A text lacking one of the characters of `sub` cannot contain `sub`. */
  lemma MissingCharNotOccurs(s: string, sub: string, k: nat)
    requires k < |sub| && sub[k] !in s
    ensures !Occurs(s, sub)
  {
    forall i | 0 <= i && i + |sub| <= |s| ensures !OccursAt(s, sub, i) {
      assert s[i..i + |sub|][k] == s[i + k];
    }
  }

  /** Python's `sub in s`, computed by scanning `s` from the left. */
  function Contains(s: string, sub: string): (b: bool)
    ensures b <==> Occurs(s, sub)
    decreases |s|
  {
    if |sub| > |s| then false
    else if s[..|sub|] == sub then assert OccursAt(s, sub, 0); true
    else OccursShift(s, sub); Contains(s[1..], sub)
  }

  /** `s.replace(pat, "")`: occurrences of `pat` are removed left to right, without
      rescanning what the removal brings together. */
  function RemoveAll(s: string, pat: string): (r: string)
    requires pat != []
    ensures |r| <= |s|
    decreases |s|
  {
    if |pat| <= |s| && s[..|pat|] == pat then RemoveAll(s[|pat|..], pat)
    else if s == [] then []
    else [s[0]] + RemoveAll(s[1..], pat)
  }

  /** Text that does not contain `pat` is left as it is. */
  lemma {:induction false} RemoveAllAbsent(s: string, pat: string)
    requires pat != [] && !Occurs(s, pat)
    ensures RemoveAll(s, pat) == s
    decreases |s|
  {
    if s != [] {
      assert !(|pat| <= |s| && s[..|pat|] == pat) by {
        if |pat| <= |s| && s[..|pat|] == pat { assert OccursAt(s, pat, 0); }
      }
      if |pat| <= |s| {
        OccursShift(s, pat);
      } else {
        forall i ensures !OccursAt(s[1..], pat, i) { }
      }
      RemoveAllAbsent(s[1..], pat);
    }
  }

  /** Under the conditions of RemoveAllKeepsPrefix, `pat` does not start a non-empty
      stem followed by the rest. */
  lemma NoOccurrenceAtJoin(stem: string, rest: string, pat: string)
    requires pat != [] && forall k :: 0 < k < |pat| ==> pat[k] != pat[0]
    requires !Occurs(stem, pat)
    requires rest == [] || rest[0] == pat[0]
    requires stem != []
    ensures !(|pat| <= |stem + rest| && (stem + rest)[..|pat|] == pat)
    ensures |pat| <= |stem| ==> stem[..|pat|] != pat
    ensures forall i :: 0 <= i < |stem| < i + |pat| ==> !OccursAt(stem + rest, pat, i)
  {
    var s := stem + rest;
    forall i | 0 <= i < |stem| < i + |pat| ensures !OccursAt(s, pat, i) {
      if i + |pat| <= |s| {
        assert s[i..i + |pat|][|stem| - i] == rest[0] != pat[|stem| - i];
      }
    }
    if |pat| <= |stem| {
      assert !OccursAt(stem, pat, 0);
      assert s[..|pat|] == stem[..|pat|];
    } else if |pat| <= |s| {
      assert s[..|pat|][|stem|] == rest[0] != pat[|stem|];
    }
  }

  /** A stem that does not contain `pat` passes through unchanged when what follows it
      starts a new occurrence of `pat`, provided the first character of `pat` does not
      recur in it (as with ".txt"): no occurrence can then straddle the two parts. */
  lemma {:induction false} RemoveAllKeepsPrefix(stem: string, rest: string, pat: string)
    requires pat != [] && forall k :: 0 < k < |pat| ==> pat[k] != pat[0]
    requires !Occurs(stem, pat)
    requires rest == [] || rest[0] == pat[0]
    ensures RemoveAll(stem + rest, pat) == stem + RemoveAll(rest, pat)
    decreases |stem|
  {
    if stem == [] {
      assert stem + rest == rest;
    } else {
      var s := stem + rest;
      NoOccurrenceAtJoin(stem, rest, pat);
      assert !Occurs(stem[1..], pat) by {
        if |pat| <= |stem| {
          OccursShift(stem, pat);
        } else {
          forall i ensures !OccursAt(stem[1..], pat, i) { }
        }
      }
      assert s[1..] == stem[1..] + rest;
      RemoveAllKeepsPrefix(stem[1..], rest, pat);
      assert stem == [stem[0]] + stem[1..];
    }
  }

  /** An occurrence of `pat` at the front is dropped. */
  lemma RemoveAllLeading(pat: string, rest: string)
    requires pat != []
    ensures RemoveAll(pat + rest, pat) == RemoveAll(rest, pat)
  {
    var s := pat + rest;
    assert s[..|pat|] == pat && s[|pat|..] == rest;
  }
}
