/** The three array operations the source applies to lists of records:
    `findIndex`, replacing the element at the index `findIndex` returned,
    and `filter`. */
module Lists {

  /** `s.findIndex(p)`: the first index whose element satisfies `p`, or -1. */
  function FirstIndex<T>(s: seq<T>, p: T -> bool): (r: int)
    ensures -1 <= r < |s|
    ensures r == -1 <==> forall j :: 0 <= j < |s| ==> !p(s[j])
    ensures r >= 0 ==> p(s[r]) && forall j :: 0 <= j < r ==> !p(s[j])
  {
    if |s| == 0 then -1
    else if p(s[0]) then 0
    else
      var k := FirstIndex(s[1..], p);
      if k == -1 then -1 else k + 1
  }

  /** `i = s.findIndex(p); if (i !== -1) s[i] = f(s[i])`: only the first match
      is rewritten. */
  function ReplaceFirst<T>(s: seq<T>, p: T -> bool, f: T -> T): (r: seq<T>)
    ensures |r| == |s|
    ensures FirstIndex(s, p) == -1 ==> r == s
    ensures FirstIndex(s, p) >= 0 ==> r[FirstIndex(s, p)] == f(s[FirstIndex(s, p)])
    ensures forall j :: 0 <= j < |s| && j != FirstIndex(s, p) ==> r[j] == s[j]
  {
    var i := FirstIndex(s, p);
    if i == -1 then s else s[i := f(s[i])]
  }

  /** `s.filter(x => !p(x))`: every element satisfying `p` dropped, the others
      kept in order. */
  function RemoveWhere<T>(s: seq<T>, p: T -> bool): (r: seq<T>)
    ensures |r| <= |s|
    ensures forall j :: 0 <= j < |r| ==> !p(r[j])
    ensures forall x :: x in s && !p(x) ==> x in r
    ensures forall x :: x in r ==> x in s
    ensures |r| == |s| <==> forall j :: 0 <= j < |s| ==> !p(s[j])
  {
    if |s| == 0 then []
    else if p(s[0]) then RemoveWhere(s[1..], p)
    else [s[0]] + RemoveWhere(s[1..], p)
  }

  /** Filtering commutes with concatenation: what survives from a prefix comes
      before what survives from the rest, so relative order is kept. */
  lemma {:induction false} RemoveWhereAppend<T>(a: seq<T>, b: seq<T>, p: T -> bool)
    ensures RemoveWhere(a + b, p) == RemoveWhere(a, p) + RemoveWhere(b, p)
  {
    if |a| > 0 {
      assert (a + b)[1..] == a[1..] + b;
      RemoveWhereAppend(a[1..], b, p);
    } else {
      assert a + b == b;
    }
  }

  /** Removing twice with the same predicate removes nothing more. */
  lemma {:induction false} RemoveWhereIdempotent<T>(s: seq<T>, p: T -> bool)
    ensures RemoveWhere(RemoveWhere(s, p), p) == RemoveWhere(s, p)
  {
    if |s| > 0 {
      RemoveWhereIdempotent(s[1..], p);
      if !p(s[0]) {
        var rest := RemoveWhere(s[1..], p);
        assert ([s[0]] + rest)[1..] == rest;
      }
    }
  }
}
