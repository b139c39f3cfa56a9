/** Per-site de-duplication: an instance is kept exactly when no earlier
    instance of the same site carries its identity key. */
module Dedup {
  import opened ZapReport
  import opened Sequences

  /** The finding at position `j` is the first with its key. */
  predicate IsFirst(fs: seq<Finding>, j: nat, mode: Mode)
    requires j < |fs|
  {
    forall i :: 0 <= i < j ==> KeyOf(fs[i], mode) != KeyOf(fs[j], mode)
  }

  /** The findings that are the first carrying their key, in input order. */
  function Survivors(fs: seq<Finding>, mode: Mode): (r: seq<Finding>)
    ensures |r| <= |fs|
    ensures forall k :: 0 <= k < |r| ==> r[k] in fs
  {
    if |fs| == 0 then []
    else
      var p := fs[..|fs| - 1];
      Survivors(p, mode) + (if IsFirst(fs, |fs| - 1, mode) then [fs[|fs| - 1]] else [])
  }

  /** The keys carried by some finding of `fs`. */
  function Keys(fs: seq<Finding>, mode: Mode): set<Key>
  {
    set i | 0 <= i < |fs| :: KeyOf(fs[i], mode)
  }

  /** No two findings share a key. */
  ghost predicate KeysDistinct(fs: seq<Finding>, mode: Mode)
  {
    forall a, b :: 0 <= a < b < |fs| ==> KeyOf(fs[a], mode) != KeyOf(fs[b], mode)
  }

  lemma FirstIffUnseen(fs: seq<Finding>, j: nat, mode: Mode)
    requires j < |fs|
    ensures IsFirst(fs, j, mode) <==> KeyOf(fs[j], mode) !in Keys(fs[..j], mode)
  {
    if !IsFirst(fs, j, mode) {
      var i :| 0 <= i < j && KeyOf(fs[i], mode) == KeyOf(fs[j], mode);
      assert fs[..j][i] == fs[i];
    }
  }

  lemma KeysSnoc(fs: seq<Finding>, x: Finding, mode: Mode)
    ensures Keys(fs + [x], mode) == Keys(fs, mode) + {KeyOf(x, mode)}
  {
    var l, r := Keys(fs + [x], mode), Keys(fs, mode) + {KeyOf(x, mode)};
    forall k | k in l ensures k in r {
      var i :| 0 <= i < |fs| + 1 && KeyOf((fs + [x])[i], mode) == k;
      if i < |fs| { assert (fs + [x])[i] == fs[i]; }
    }
    forall k | k in r ensures k in l {
      if k == KeyOf(x, mode) {
        assert (fs + [x])[|fs|] == x;
      } else {
        var i :| 0 <= i < |fs| && KeyOf(fs[i], mode) == k;
        assert (fs + [x])[i] == fs[i];
      }
    }
  }

  /** The step the cleaner takes per instance: an instance whose key the
      site has already seen contributes nothing; any other is appended. */
  lemma SurvivorsSnoc(fs: seq<Finding>, x: Finding, mode: Mode)
    ensures Survivors(fs + [x], mode) ==
      Survivors(fs, mode) + (if KeyOf(x, mode) in Keys(fs, mode) then [] else [x])
  {
    var s := fs + [x];
    assert s[..|s| - 1] == fs;
    FirstIffUnseen(s, |fs|, mode);
  }

  /** The source's loop, with its per-site set of seen keys. */
  method DedupSite(fs: seq<Finding>, mode: Mode) returns (kept: seq<Finding>)
    ensures kept == Survivors(fs, mode)
  {
    var seen: set<Key> := {};
    kept := [];
    var i := 0;
    while i < |fs|
      invariant i <= |fs|
      invariant seen == Keys(fs[..i], mode)
      invariant kept == Survivors(fs[..i], mode)
    {
      var key := KeyOf(fs[i], mode);
      assert fs[..i + 1] == fs[..i] + [fs[i]];
      SurvivorsSnoc(fs[..i], fs[i], mode);
      KeysSnoc(fs[..i], fs[i], mode);
      if key !in seen {
        seen := seen + {key};
        kept := kept + [fs[i]];
      }
      i := i + 1;
    }
    assert fs[..i] == fs;
  }

  lemma IsFirstPrefix(fs: seq<Finding>, n: nat, j: nat, mode: Mode)
    requires j < n <= |fs|
    ensures IsFirst(fs[..n], j, mode) <==> IsFirst(fs, j, mode)
  {
    assert forall i :: 0 <= i <= j ==> fs[..n][i] == fs[i];
  }

  /** Surviving findings carry pairwise distinct keys. */
  lemma {:induction false} SurvivorKeysDistinct(fs: seq<Finding>, mode: Mode)
    ensures KeysDistinct(Survivors(fs, mode), mode)
  {
    if |fs| > 0 {
      var p, x := fs[..|fs| - 1], fs[|fs| - 1];
      assert fs == p + [x];
      SurvivorKeysDistinct(p, mode);
      SurvivorsSnoc(p, x, mode);
      SurvivorKeysComplete(p, mode);
      var r := Survivors(p, mode);
      if KeyOf(x, mode) !in Keys(p, mode) {
        forall a | 0 <= a < |r| ensures KeyOf(r[a], mode) != KeyOf(x, mode) {
          assert KeyOf(r[a], mode) in Keys(r, mode);
        }
      }
    }
  }

  /** Every key present in the input is represented among the survivors. */
  lemma {:induction false} SurvivorKeysComplete(fs: seq<Finding>, mode: Mode)
    ensures Keys(Survivors(fs, mode), mode) == Keys(fs, mode)
  {
    if |fs| > 0 {
      var p, x := fs[..|fs| - 1], fs[|fs| - 1];
      assert fs == p + [x];
      SurvivorKeysComplete(p, mode);
      SurvivorsSnoc(p, x, mode);
      KeysSnoc(p, x, mode);
      if KeyOf(x, mode) in Keys(p, mode) {
        assert Survivors(fs, mode) == Survivors(p, mode);
      } else {
        assert Survivors(fs, mode) == Survivors(p, mode) + [x];
        KeysSnoc(Survivors(p, mode), x, mode);
      }
    }
  }

  /** Survivors keep the input order. */
  lemma {:induction false} SurvivorsInOrder(fs: seq<Finding>, mode: Mode)
    ensures Subseq(Survivors(fs, mode), fs)
  {
    if |fs| > 0 {
      var p, x := fs[..|fs| - 1], fs[|fs| - 1];
      assert fs == p + [x];
      SurvivorsInOrder(p, mode);
      SurvivorsSnoc(p, x, mode);
      if KeyOf(x, mode) in Keys(p, mode) {
        assert Survivors(fs, mode) == Survivors(p, mode);
        SubseqExtendRight(Survivors(p, mode), p, x);
      } else {
        assert Survivors(fs, mode) == Survivors(p, mode) + [x];
        SubseqExtendBoth(Survivors(p, mode), p, x);
      }
    }
  }

  /** The keys of `fs`, position by position. */
  function KeySeq(fs: seq<Finding>, mode: Mode): (ks: seq<Key>)
    ensures |ks| == |fs|
    ensures forall i :: 0 <= i < |fs| ==> ks[i] == KeyOf(fs[i], mode)
  {
    seq(|fs|, i requires 0 <= i < |fs| => KeyOf(fs[i], mode))
  }

  lemma KeySeqSnoc(fs: seq<Finding>, x: Finding, mode: Mode)
    ensures KeySeq(fs + [x], mode) == KeySeq(fs, mode) + [KeyOf(x, mode)]
  {
  }

  lemma KeySeqMember(fs: seq<Finding>, k: Key, mode: Mode)
    ensures k in KeySeq(fs, mode) <==> k in Keys(fs, mode)
  {
    if k in Keys(fs, mode) {
      var i :| 0 <= i < |fs| && KeyOf(fs[i], mode) == k;
      assert KeySeq(fs, mode)[i] == k;
    }
  }

  /** The survivors carry the site's keys in first-seen order: survivor k is
      the first finding with the k-th distinct key of the site. */
  lemma {:induction false} SurvivorKeysFirstSeen(fs: seq<Finding>, mode: Mode)
    ensures KeySeq(Survivors(fs, mode), mode) == FirstSeen(KeySeq(fs, mode))
  {
    if |fs| > 0 {
      var p, x := fs[..|fs| - 1], fs[|fs| - 1];
      assert fs == p + [x];
      SurvivorKeysFirstSeen(p, mode);
      SurvivorsSnoc(p, x, mode);
      KeySeqSnoc(p, x, mode);
      KeySeqMember(p, KeyOf(x, mode), mode);
      var r := Survivors(p, mode);
      if KeyOf(x, mode) in Keys(p, mode) {
        assert Survivors(fs, mode) == r;
      } else {
        assert Survivors(fs, mode) == r + [x];
        KeySeqSnoc(r, x, mode);
      }
    }
  }

  /** Each survivor is the first instance carrying its key, and every such
      first instance survives. */
  lemma {:induction false} SurvivorsAreFirsts(fs: seq<Finding>, mode: Mode)
    ensures forall x :: x in Survivors(fs, mode) ==>
      exists j :: 0 <= j < |fs| && fs[j] == x && IsFirst(fs, j, mode)
    ensures forall j :: 0 <= j < |fs| && IsFirst(fs, j, mode) ==> fs[j] in Survivors(fs, mode)
  {
    if |fs| > 0 {
      var p, n := fs[..|fs| - 1], |fs| - 1;
      SurvivorsAreFirsts(p, mode);
      forall x | x in Survivors(fs, mode)
        ensures exists j :: 0 <= j < |fs| && fs[j] == x && IsFirst(fs, j, mode)
      {
        if x in Survivors(p, mode) {
          var j :| 0 <= j < |p| && p[j] == x && IsFirst(p, j, mode);
          IsFirstPrefix(fs, n, j, mode);
          assert fs[j] == x;
        } else {
          assert x == fs[n] && IsFirst(fs, n, mode);
        }
      }
      forall j | 0 <= j < |fs| && IsFirst(fs, j, mode)
        ensures fs[j] in Survivors(fs, mode)
      {
        if j < n {
          IsFirstPrefix(fs, n, j, mode);
          assert p[j] == fs[j];
        }
      }
    }
  }

  /** Findings with pairwise distinct keys are all kept. */
  lemma {:induction false} DistinctKeysAllSurvive(fs: seq<Finding>, mode: Mode)
    requires KeysDistinct(fs, mode)
    ensures Survivors(fs, mode) == fs
  {
    if |fs| > 0 {
      var p := fs[..|fs| - 1];
      assert KeysDistinct(p, mode);
      DistinctKeysAllSurvive(p, mode);
      assert IsFirst(fs, |fs| - 1, mode);
      assert fs == p + [fs[|fs| - 1]];
    }
  }

  /** Filtering the survivors again changes nothing. */
  lemma SurvivorsIdempotent(fs: seq<Finding>, mode: Mode)
    ensures Survivors(Survivors(fs, mode), mode) == Survivors(fs, mode)
  {
    SurvivorKeysDistinct(fs, mode);
    DistinctKeysAllSurvive(Survivors(fs, mode), mode);
  }
}
