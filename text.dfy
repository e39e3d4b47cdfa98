/**
 * The two string operations the name lookup uses: Python's `str.strip()` with
 * no argument, and `str.casefold()` restricted to ASCII letters.
 */
module Text {

  /** The characters for which Python's `str.isspace()` holds. */
  predicate IsSpace(c: char) {
    ('\U{0009}' <= c <= '\U{000D}') || ('\U{001C}' <= c <= '\U{0020}') ||
    c == '\U{0085}' || c == '\U{00A0}' || c == '\U{1680}' || ('\U{2000}' <= c <= '\U{200A}') ||
    c == '\U{2028}' || c == '\U{2029}' || c == '\U{202F}' || c == '\U{205F}' || c == '\U{3000}'
  }

  /** Every character of `s` is whitespace (vacuously so for ""). */
  predicate IsBlank(s: string) {
    forall i :: 0 <= i < |s| ==> IsSpace(s[i])
  }

  /** The number of whitespace characters `s` starts with. */
  function LeadingSpaces(s: string): (n: nat)
    ensures n <= |s|
    ensures forall i :: 0 <= i < n ==> IsSpace(s[i])
    ensures n < |s| ==> !IsSpace(s[n])
    decreases |s|
  {
    if s != [] && IsSpace(s[0]) then
      var n := LeadingSpaces(s[1..]);
      assert forall i :: 1 <= i < n + 1 ==> s[i] == s[1..][i - 1];
      n + 1
    else 0
  }

  /** The number of whitespace characters `s` ends with. */
  function TrailingSpaces(s: string): (n: nat)
    ensures n <= |s|
    ensures forall i :: |s| - n <= i < |s| ==> IsSpace(s[i])
    ensures n < |s| ==> !IsSpace(s[|s| - n - 1])
    decreases |s|
  {
    if s != [] && IsSpace(s[|s| - 1]) then
      TrailingSpaces(s[..|s| - 1]) + 1
    else 0
  }

  /**
   * `str.strip()`: the middle part of `s` that neither starts nor ends with
   * whitespace, once the whitespace around it is cut off; it is "" exactly
   * when `s` is blank.
   */
  function Strip(s: string): (r: string)
    ensures exists k :: 0 <= k <= |s| - |r| && r == s[k..k + |r|] && IsBlank(s[..k]) && IsBlank(s[k + |r|..])
    ensures r == [] || (!IsSpace(r[0]) && !IsSpace(r[|r| - 1]))
    ensures r == [] <==> IsBlank(s)
  {
    var lead := LeadingSpaces(s);
    if lead == |s| then
      assert IsBlank(s[..lead]) && IsBlank(s[lead..]);
      []
    else
      var trail := TrailingSpaces(s);
      assert lead < |s| - trail;
      var r := s[lead..|s| - trail];
      assert IsBlank(s[..lead]) && IsBlank(s[lead + |r|..]);
      assert r[0] == s[lead] && r[|r| - 1] == s[|s| - trail - 1];
      r
  }

  /** Stripping twice strips nothing more. */
  lemma StripIdempotent(s: string)
    ensures Strip(Strip(s)) == Strip(s)
  {
    var r := Strip(s);
    if r != [] {
      assert LeadingSpaces(r) == 0;
      assert TrailingSpaces(r) == 0;
      assert r[0..|r|] == r;
    }
  }

  /** An ASCII capital letter. */
  predicate IsUpper(c: char) {
    'A' <= c <= 'Z'
  }

  /** `c` with an ASCII capital letter replaced by its small letter. */
  function Lower(c: char): (d: char)
    ensures !IsUpper(d)
    ensures IsUpper(c) ==> 'a' <= d <= 'z' && d as int == c as int + 32
    ensures !IsUpper(c) ==> d == c
  {
    if IsUpper(c) then (c as int - 'A' as int + 'a' as int) as char else c
  }

  /**
   * `str.casefold()` on ASCII: every capital letter becomes small, every other
   * character is kept, and the length is unchanged.
   */
  function CaseFold(s: string): (r: string)
    ensures |r| == |s|
    ensures forall i :: 0 <= i < |s| ==> r[i] == Lower(s[i])
    ensures forall i :: 0 <= i < |s| ==> !IsUpper(r[i])
    ensures forall i :: 0 <= i < |s| && !IsUpper(s[i]) ==> r[i] == s[i]
    decreases |s|
  {
    if s == [] then [] else [Lower(s[0])] + CaseFold(s[1..])
  }

  /** `a` and `b` differ at most in the case of their letters. */
  predicate SameUpToCase(a: string, b: string) {
    |a| == |b| && forall i :: 0 <= i < |a| ==> Lower(a[i]) == Lower(b[i])
  }

  /** Strings that differ only in case fold to the same string. */
  lemma {:induction false} CaseFoldAgrees(a: string, b: string)
    requires SameUpToCase(a, b)
    ensures CaseFold(a) == CaseFold(b)
  {
    assert forall i :: 0 <= i < |a| ==> CaseFold(a)[i] == CaseFold(b)[i];
  }

  /** Case does not decide whitespace: `a` and `b` have whitespace at the same positions. */
  lemma {:induction false} SpacesAgree(a: string, b: string)
    requires SameUpToCase(a, b)
    ensures forall i :: 0 <= i < |a| ==> (IsSpace(a[i]) <==> IsSpace(b[i]))
  {
    forall i | 0 <= i < |a| ensures IsSpace(a[i]) <==> IsSpace(b[i]) {
      assert IsSpace(a[i]) <==> IsSpace(Lower(a[i]));
      assert IsSpace(b[i]) <==> IsSpace(Lower(b[i]));
    }
  }

  /** Strings with whitespace at the same positions have whitespace runs of the same lengths. */
  lemma SpaceRunsAgree(a: string, b: string)
    requires |a| == |b|
    requires forall i :: 0 <= i < |a| ==> (IsSpace(a[i]) <==> IsSpace(b[i]))
    ensures LeadingSpaces(a) == LeadingSpaces(b)
    ensures TrailingSpaces(a) == TrailingSpaces(b)
  {
  }

  /** Cutting both strings at the same positions keeps them equal up to case. */
  lemma {:induction false} SliceAgrees(a: string, b: string, lo: nat, hi: nat)
    requires SameUpToCase(a, b) && lo <= hi <= |a|
    ensures SameUpToCase(a[lo..hi], b[lo..hi])
  {
    assert forall i :: 0 <= i < hi - lo ==> a[lo..hi][i] == a[lo + i] && b[lo..hi][i] == b[lo + i];
  }

  /** Unless `s` is blank, its leading and trailing whitespace runs do not meet. */
  lemma {:induction false} RunsApart(s: string)
    requires LeadingSpaces(s) < |s|
    ensures LeadingSpaces(s) < |s| - TrailingSpaces(s)
  {
    var lead, trail := LeadingSpaces(s), TrailingSpaces(s);
    assert !IsSpace(s[lead]);
  }

  /** `Strip` cuts exactly the leading and the trailing whitespace run. */
  lemma {:induction false} StripCutsRuns(s: string)
    ensures LeadingSpaces(s) == |s| ==> Strip(s) == []
    ensures LeadingSpaces(s) < |s| ==>
      && LeadingSpaces(s) < |s| - TrailingSpaces(s)
      && Strip(s) == s[LeadingSpaces(s)..|s| - TrailingSpaces(s)]
  {
    if LeadingSpaces(s) < |s| {
      RunsApart(s);
    }
  }

  /** Strings that differ only in case strip to strings that differ only in case. */
  lemma {:induction false} StripAgrees(a: string, b: string)
    requires SameUpToCase(a, b)
    ensures SameUpToCase(Strip(a), Strip(b))
  {
    SpacesAgree(a, b);
    SpaceRunsAgree(a, b);
    StripCutsRuns(a);
    StripCutsRuns(b);
    var lead, trail := LeadingSpaces(a), TrailingSpaces(a);
    if lead < |a| {
      SliceAgrees(a, b, lead, |a| - trail);
    }
  }

  /** Folding a folded string changes nothing, so folded names compare as a fixed point. */
  lemma {:induction false} CaseFoldIdempotent(s: string)
    ensures CaseFold(CaseFold(s)) == CaseFold(s)
    decreases |s|
  {
    if s != [] {
      CaseFoldIdempotent(s[1..]);
      assert CaseFold(s)[1..] == CaseFold(s[1..]);
    }
  }
}
