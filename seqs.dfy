/** Sequence helpers for the JavaScript array idioms of the source:
    `Array.from(new Set(xs))` and `xs.slice(0, n)`. */
module Seqs {

  predicate NoDuplicates<T(==)>(s: seq<T>) {
    forall i, j | 0 <= i < j < |s| :: s[i] != s[j]
  }

  /** `Array.from(new Set(s))`: the distinct elements of `s`, each kept at its
      first occurrence, in order. */
  function Dedup<T(==)>(s: seq<T>): (r: seq<T>)
    ensures NoDuplicates(r)
    ensures forall i | 0 <= i < |r| :: r[i] in s
    ensures forall i | 0 <= i < |s| :: s[i] in r
    ensures |r| <= |s|
  {
    if s == [] then []
    else
      var front := Dedup(s[..|s| - 1]);
      var last := s[|s| - 1];
      assert s == s[..|s| - 1] + [last];
      if last in front then front else front + [last]
  }

  /** Deduplicating a longer run only appends to what a shorter prefix gave:
      the order of first occurrences is kept. */
  lemma {:induction false} DedupPrefix<T>(s: seq<T>, k: nat)
    requires k <= |s|
    ensures |Dedup(s[..k])| <= |Dedup(s)|
    ensures Dedup(s[..k]) == Dedup(s)[..|Dedup(s[..k])|]
  {
    if k < |s| {
      var t := s[..|s| - 1];
      assert t[..k] == s[..k];
      DedupPrefix(t, k);
    } else {
      assert s[..k] == s;
    }
  }

  /** Deduplication keeps exactly the elements of `s`. */
  lemma DedupMembers<T>(s: seq<T>)
    ensures forall x :: x in Dedup(s) <==> x in s
  {
    forall x | x in Dedup(s)
      ensures x in s
    {
      var i :| 0 <= i < |Dedup(s)| && Dedup(s)[i] == x;
    }
    forall x | x in s
      ensures x in Dedup(s)
    {
      var i :| 0 <= i < |s| && s[i] == x;
    }
  }

  /** The first element survives deduplication in first place. */
  lemma DedupHead<T>(s: seq<T>)
    requires s != []
    ensures Dedup(s) != [] && Dedup(s)[0] == s[0]
  {
    DedupPrefix(s, 1);
    assert Dedup(s[..1]) == [s[0]];
  }

  /** `s.slice(0, n)`. */
  function Take<T>(s: seq<T>, n: nat): (r: seq<T>)
    ensures |r| == if |s| < n then |s| else n
    ensures r == s[..|r|]
  {
    if |s| <= n then s else s[..n]
  }

  /** How many elements of `s` satisfy `p`. */
  function CountIf<T>(s: seq<T>, p: T -> bool): (n: nat)
    ensures n <= |s|
  {
    if s == [] then 0 else CountIf(s[..|s| - 1], p) + (if p(s[|s| - 1]) then 1 else 0)
  }
}
