/** Generic facts about sequences used throughout the model: distinctness,
    first-occurrence lookup, first-seen de-duplication (the key order of an
    insertion-ordered dictionary), order-preserving subsequences and sums. */
module Sequences {

  /** No value occurs twice in `s`. */
  ghost predicate Distinct<T>(s: seq<T>)
  {
    forall i, j :: 0 <= i < j < |s| ==> s[i] != s[j]
  }

  /** Position of the first `x` in `s`, or `|s|` when `x` does not occur. */
  function IndexOf<T(==)>(s: seq<T>, x: T): (k: nat)
    ensures k <= |s|
    ensures k < |s| ==> s[k] == x
    ensures forall j :: 0 <= j < k ==> s[j] != x
  {
    if |s| == 0 then 0
    else if s[0] == x then 0
    else 1 + IndexOf(s[1..], x)
  }

  lemma IndexOfMember<T>(s: seq<T>, x: T)
    ensures IndexOf(s, x) < |s| <==> x in s
  {
  }

  /** The values of `s`, each once, in the order of their first occurrence. */
  function FirstSeen<T(==)>(s: seq<T>): (r: seq<T>)
    ensures forall i :: 0 <= i < |r| ==> r[i] in s
    ensures Distinct(r)
  {
    if |s| == 0 then []
    else
      var p := s[..|s| - 1];
      FirstSeen(p) + (if s[|s| - 1] in p then [] else [s[|s| - 1]])
  }

  /** First-seen de-duplication loses no value. */
  lemma {:induction false} FirstSeenMember<T>(s: seq<T>, x: T)
    ensures x in FirstSeen(s) <==> x in s
  {
    if |s| > 0 {
      var p := s[..|s| - 1];
      assert s == p + [s[|s| - 1]];
      FirstSeenMember(p, x);
    }
  }

  /** `a` is `b` with some elements deleted and the rest kept in order. */
  predicate Subseq<T(==)>(a: seq<T>, b: seq<T>)
    decreases |b|
  {
    if |a| == 0 then true
    else if |b| == 0 then false
    else
      (a[|a| - 1] == b[|b| - 1] && Subseq(a[..|a| - 1], b[..|b| - 1]))
      || Subseq(a, b[..|b| - 1])
  }

  lemma SubseqExtendRight<T>(a: seq<T>, b: seq<T>, x: T)
    requires Subseq(a, b)
    ensures Subseq(a, b + [x])
  {
    assert (b + [x])[..|b|] == b;
  }

  lemma SubseqExtendBoth<T>(a: seq<T>, b: seq<T>, x: T)
    requires Subseq(a, b)
    ensures Subseq(a + [x], b + [x])
  {
    assert (a + [x])[..|a|] == a;
    assert (b + [x])[..|b|] == b;
  }

  /** Appending a value does not move the first occurrence of a value
      already present, and a new value is found at the end. */
  lemma IndexOfSnoc<T>(p: seq<T>, x: T, y: T)
    ensures y in p ==> IndexOf(p + [x], y) == IndexOf(p, y)
    ensures y !in p ==> IndexOf(p + [x], y) == if y == x then |p| else |p| + 1
  {
    IndexOfMember(p, y);
    IndexOfMember(p + [x], y);
    var k := IndexOf(p, y);
    if k < |p| {
      assert (p + [x])[k] == y;
    }
  }

  /** First-seen de-duplication lists every value of `s`, ordered by the
      position of its first occurrence in `s`. */
  lemma {:induction false} FirstSeenOrdered<T>(s: seq<T>)
    ensures forall i :: 0 <= i < |s| ==> s[i] in FirstSeen(s)
    ensures forall i, j :: 0 <= i < j < |FirstSeen(s)| ==>
      IndexOf(s, FirstSeen(s)[i]) < IndexOf(s, FirstSeen(s)[j])
  {
    forall i | 0 <= i < |s| ensures s[i] in FirstSeen(s) {
      FirstSeenMember(s, s[i]);
    }
    if |s| > 0 {
      var p, x := s[..|s| - 1], s[|s| - 1];
      assert s == p + [x];
      FirstSeenOrdered(p);
      var rp, r := FirstSeen(p), FirstSeen(s);
      forall i | 0 <= i < |rp| ensures IndexOf(s, rp[i]) == IndexOf(p, rp[i]) < |p| {
        FirstSeenMember(p, rp[i]);
        IndexOfSnoc(p, x, rp[i]);
        IndexOfMember(p, rp[i]);
      }
      if x in p {
        assert r == rp;
      } else {
        assert r == rp + [x];
        IndexOfSnoc(p, x, x);
      }
    }
  }

  /** First-seen de-duplication keeps the original order. */
  lemma {:induction false} FirstSeenIsSubseq<T>(s: seq<T>)
    ensures Subseq(FirstSeen(s), s)
  {
    if |s| > 0 {
      var p := s[..|s| - 1];
      assert s == p + [s[|s| - 1]];
      FirstSeenIsSubseq(p);
      if s[|s| - 1] in p {
        assert FirstSeen(s) == FirstSeen(p);
        SubseqExtendRight(FirstSeen(p), p, s[|s| - 1]);
      } else {
        assert FirstSeen(s) == FirstSeen(p) + [s[|s| - 1]];
        SubseqExtendBoth(FirstSeen(p), p, s[|s| - 1]);
      }
    }
  }

  /** Sum of a sequence of naturals. */
  function Sum(s: seq<nat>): nat
  {
    if |s| == 0 then 0 else s[0] + Sum(s[1..])
  }

  lemma {:induction false} SumAppend(s: seq<nat>, x: nat)
    ensures Sum(s + [x]) == Sum(s) + x
  {
    if |s| > 0 {
      assert (s + [x])[1..] == s[1..] + [x];
      SumAppend(s[1..], x);
    }
  }

  lemma {:induction false} SumConcat(s: seq<nat>, t: seq<nat>)
    ensures Sum(s + t) == Sum(s) + Sum(t)
  {
    if |s| == 0 {
      assert s + t == t;
    } else {
      assert (s + t)[1..] == s[1..] + t;
      SumConcat(s[1..], t);
    }
  }

  /** Replacing one element changes the sum by exactly the difference. */
  lemma {:induction false} SumUpdate(s: seq<nat>, k: nat, v: nat)
    requires k < |s|
    ensures Sum(s[k := v]) == Sum(s) - s[k] + v
  {
    if k == 0 {
      assert s[k := v][1..] == s[1..];
    } else {
      assert s[k := v][1..] == s[1..][k - 1 := v];
      SumUpdate(s[1..], k - 1, v);
    }
  }
}
