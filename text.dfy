/** The JavaScript string operations the core relies on: `includes`, `indexOf`,
    the second piece of `split`, `trim`, `endsWith`, `toLowerCase` and the
    decimal rendering of a non-negative integer. Strings are sequences of
    Unicode scalar values. */
module Text {
  import opened Wrappers

  /** `pat` occurs in `s` starting at index `i`. */
  predicate OccursAt(s: string, pat: string, i: nat)
  {
    i + |pat| <= |s| && s[i..i + |pat|] == pat
  }

  /** The first occurrence of `pat` at or after index `k`. */
  function IndexFrom(s: string, pat: string, k: nat): (r: Option<nat>)
    requires k <= |s|
    ensures r.Some? ==> k <= r.value && OccursAt(s, pat, r.value)
    ensures r.Some? ==> forall j :: k <= j < r.value ==> !OccursAt(s, pat, j)
    ensures r.None? ==> forall j :: k <= j <= |s| ==> !OccursAt(s, pat, j)
    decreases |s| - k
  {
    if OccursAt(s, pat, k) then Some(k)
    else if k == |s| then None
    else IndexFrom(s, pat, k + 1)
  }

  /** `s.indexOf(pat)`, with None for -1. */
  function IndexOf(s: string, pat: string): (r: Option<nat>)
    ensures r.Some? ==> OccursAt(s, pat, r.value) && forall j :: 0 <= j < r.value ==> !OccursAt(s, pat, j)
    ensures r.None? <==> forall j :: 0 <= j <= |s| ==> !OccursAt(s, pat, j)
  {
    IndexFrom(s, pat, 0)
  }

  /** `s.includes(pat)`. */
  predicate Contains(s: string, pat: string)
  {
    IndexOf(s, pat).Some?
  }

  /** A pattern longer than the text does not occur in it; this settles the
      marker tests on short literal names in the examples about them. */
  lemma ShorterNotContained(s: string, pat: string)
    requires |s| < |pat|
    ensures !Contains(s, pat)
  {
  }

  /** The text of `t` before the first occurrence of `sep`, or all of `t`. */
  function TakeUntil(t: string, sep: string): (r: string)
    ensures |r| <= |t| && r == t[..|r|]
    ensures |r| == |t| || OccursAt(t, sep, |r|)
    ensures forall m :: 0 <= m < |r| ==> !OccursAt(t, sep, m)
  {
    match IndexOf(t, sep)
    case None => t
    case Some(j) => t[..j]
  }

  /** A piece cut before the first occurrence of `sep` does not contain `sep`. */
  lemma TakeUntilExcludes(t: string, sep: string)
    requires sep != []
    ensures !Contains(TakeUntil(t, sep), sep)
  {
    var r := TakeUntil(t, sep);
    forall m | 0 <= m <= |r| ensures !OccursAt(r, sep, m) {
      if OccursAt(r, sep, m) {
        assert r[m..m + |sep|] == t[m..m + |sep|];
        assert OccursAt(t, sep, m);
      }
    }
  }

  /** `r` is the text of `s` from index `k` up to the end of `s` or up to the
      next occurrence of `sep`, whichever comes first: it ends at the end or
      where `sep` occurs, and `sep` starts nowhere before that. */
  predicate PieceAt(s: string, sep: string, k: nat, r: string)
  {
    && k + |r| <= |s| && s[k..k + |r|] == r
    && (k + |r| == |s| || OccursAt(s, sep, k + |r|))
    && (forall j :: k <= j < k + |r| ==> !OccursAt(s, sep, j))
  }

  /** The piece `TakeUntil` cuts from the suffix of `s` at `k`, read back in
      `s`. */
  lemma TakeUntilSuffix(s: string, k: nat, sep: string)
    requires k <= |s|
    ensures PieceAt(s, sep, k, TakeUntil(s[k..], sep))
    ensures sep != [] ==> !Contains(TakeUntil(s[k..], sep), sep)
  {
    var rest := s[k..];
    var r := TakeUntil(rest, sep);
    if |r| < |rest| {
      assert OccursAt(rest, sep, |r|);
      assert rest[|r|..|r| + |sep|] == s[k + |r|..k + |r| + |sep|];
    }
    forall j | k <= j < k + |r| ensures !OccursAt(s, sep, j) {
      if OccursAt(s, sep, j) {
        assert rest[j - k..j - k + |sep|] == s[j..j + |sep|];
        assert OccursAt(rest, sep, j - k);
      }
    }
    if sep != [] {
      TakeUntilExcludes(rest, sep);
    }
  }

  /** `s.split(sep)[1]` for a non-empty separator that occurs in `s`: the text
      from just after the first occurrence of `sep` up to the next occurrence,
      or to the end. */
  function SplitSecond(s: string, sep: string): (r: string)
    requires sep != [] && Contains(s, sep)
    ensures PieceAt(s, sep, IndexOf(s, sep).value + |sep|, r)
    ensures !Contains(r, sep)
  {
    var k := IndexOf(s, sep).value + |sep|;
    TakeUntilSuffix(s, k, sep);
    TakeUntil(s[k..], sep)
  }

  /** The characters JavaScript's `String.prototype.trim` removes: white space
      and line terminators. */
  predicate IsWhitespace(c: char)
  {
    || c == ' ' || c == '\t' || c == '\n' || c == '\r'
    || c == '\U{000B}' || c == '\U{000C}' || c == '\U{00A0}' || c == '\U{1680}'
    || ('\U{2000}' <= c <= '\U{200A}')
    || c == '\U{2028}' || c == '\U{2029}' || c == '\U{202F}' || c == '\U{205F}'
    || c == '\U{3000}' || c == '\U{FEFF}'
  }

  function TrimStart(s: string): (r: string)
    ensures |r| <= |s| && r == s[|s| - |r|..]
    ensures forall k :: 0 <= k < |s| - |r| ==> IsWhitespace(s[k])
    ensures r == [] || !IsWhitespace(r[0])
  {
    if s == [] || !IsWhitespace(s[0]) then s else TrimStart(s[1..])
  }

  function TrimEnd(s: string): (r: string)
    ensures |r| <= |s| && r == s[..|r|]
    ensures forall k :: |r| <= k < |s| ==> IsWhitespace(s[k])
    ensures r == [] || !IsWhitespace(r[|r| - 1])
  {
    if s == [] || !IsWhitespace(s[|s| - 1]) then s else TrimEnd(s[..|s| - 1])
  }

  /** `s.trim()`: the longest middle part that neither starts nor ends with
      white space, everything cut off being white space. */
  function Trim(s: string): (r: string)
    ensures exists i, j :: 0 <= i <= j <= |s| && r == s[i..j]
                           && (forall k :: 0 <= k < i ==> IsWhitespace(s[k]))
                           && (forall k :: j <= k < |s| ==> IsWhitespace(s[k]))
    ensures r == [] || (!IsWhitespace(r[0]) && !IsWhitespace(r[|r| - 1]))
  {
    var t := TrimStart(s);
    var r := TrimEnd(t);
    assert r == s[|s| - |t|..|s| - |t| + |r|];
    assert r != [] ==> r[0] == t[0];
    r
  }

  /** Trimming text that is already trimmed changes nothing. */
  lemma TrimIdempotent(s: string)
    ensures Trim(Trim(s)) == Trim(s)
  {
    var r := Trim(s);
    assert TrimStart(r) == r;
    assert TrimEnd(r) == r;
  }

  /** `s.endsWith(suffix)`. */
  predicate EndsWith(s: string, suffix: string)
  {
    |suffix| <= |s| && s[|s| - |suffix|..] == suffix
  }

  /** `c.toLowerCase()` on the ASCII letters; every other character is kept. */
  function LowerChar(c: char): (r: char)
    ensures 'A' <= c <= 'Z' ==> 'a' <= r <= 'z' && r as int == c as int - 'A' as int + 'a' as int
    ensures !('A' <= c <= 'Z') ==> r == c
  {
    if 'A' <= c <= 'Z' then (c as int - 'A' as int + 'a' as int) as char else c
  }

  /** `s.toLowerCase()`, restricted to ASCII letters. */
  function ToLower(s: string): (r: string)
    ensures |r| == |s|
    ensures forall k :: 0 <= k < |s| ==> r[k] == LowerChar(s[k])
  {
    seq(|s|, k requires 0 <= k < |s| => LowerChar(s[k]))
  }

  function DigitChar(d: nat): (c: char)
    requires d < 10
    ensures '0' <= c <= '9' && c as int - '0' as int == d
  {
    ('0' as int + d) as char
  }

  /** The number a run of decimal digits spells, most significant first. */
  function DigitsValue(s: string): nat
    requires forall k :: 0 <= k < |s| ==> '0' <= s[k] <= '9'
  {
    if s == [] then 0 else DigitsValue(s[..|s| - 1]) * 10 + (s[|s| - 1] as int - '0' as int)
  }

  /** `${n}` for a non-negative integer: its decimal digits, no leading zero. */
  function DecimalString(n: nat): (r: string)
    ensures r != []
    ensures forall k :: 0 <= k < |r| ==> '0' <= r[k] <= '9'
    ensures |r| > 1 ==> r[0] != '0'
    ensures DigitsValue(r) == n
  {
    if n < 10 then
      var r := [DigitChar(n)];
      assert r[..0] == [];
      r
    else
      var prefix := DecimalString(n / 10);
      var r := prefix + [DigitChar(n % 10)];
      assert r[..|r| - 1] == prefix;
      r
  }
}
