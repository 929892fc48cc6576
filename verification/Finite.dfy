/** Sequences without repetition and the sets of their elements. */
module Finite {

  predicate Different<T(==)>(s: seq<T>) { forall i, j :: 0 <= i < j < |s| ==> s[i] != s[j] }

  lemma {:induction false} SetOfSeq<T(!new)>(d: seq<T>)
    requires Different(d)
    ensures |set n | n in d| == |d|
  {
    if d != [] {
      var e := d[..|d| - 1];
      SetOfSeq(e);
      assert (set n | n in d) == (set n | n in e) + {d[|d| - 1]};
    }
  }

  function Elements(picked: seq<nat>): set<nat> { set k | k in picked }

  function Below(n: nat): (s: set<nat>)
    ensures forall k: nat :: k in s <==> k < n
  {
    if n == 0 then {} else Below(n - 1) + {n - 1}
  }

  lemma {:induction false} BelowSize(n: nat)
    ensures |Below(n)| == n
  {
    if n > 0 { BelowSize(n - 1); }
  }

  lemma {:induction false} SubsetSize(a: set<nat>, b: set<nat>)
    requires a <= b
    ensures |a| <= |b| && (|a| == |b| ==> a == b)
  {
    if a != {} {
      var x :| x in a;
      SubsetSize(a - {x}, b - {x});
    }
  }

  /** A sequence without repetition of numbers below n has at most n elements. */
  lemma FewDifferent(picked: seq<nat>, n: nat)
    requires Different(picked) && forall k :: k in picked ==> k < n
    ensures |picked| <= n
    ensures |picked| == n ==> forall k: nat :: k < n ==> k in picked
  {
    SetOfSeq(picked);
    assert (set k | k in picked) == Elements(picked) <= Below(n);
    BelowSize(n);
    SubsetSize(Elements(picked), Below(n));
    if |picked| == n {
      forall k: nat | k < n ensures k in picked { assert k in Elements(picked); }
    }
  }
}
