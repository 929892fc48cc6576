/**
 Counting the positions of a sequence that satisfy a predicate, and summing over a
 sequence.  The protocols below state most of their conservation laws with these.
 */
module Counting {

  function Count<T>(s: seq<T>, f: T -> bool): nat {
    if |s| == 0 then 0 else Count(s[..|s| - 1], f) + (if f(s[|s| - 1]) then 1 else 0)
  }

  /** Replacing one element moves the count by exactly what that element contributed. */
  lemma {:induction false} CountUpdate<T>(s: seq<T>, i: nat, v: T, f: T -> bool)
    requires i < |s|
    ensures Count(s[i := v], f) + (if f(s[i]) then 1 else 0) == Count(s, f) + (if f(v) then 1 else 0)
  {
    var n := |s| - 1;
    if i == n {
      assert s[i := v][..n] == s[..n];
    } else {
      CountUpdate(s[..n], i, v, f);
      assert s[i := v][..n] == s[..n][i := v];
    }
  }

  lemma {:induction false} CountNone<T>(s: seq<T>, f: T -> bool)
    requires forall i :: 0 <= i < |s| ==> !f(s[i])
    ensures Count(s, f) == 0
  {
    if |s| > 0 { CountNone(s[..|s| - 1], f); }
  }

  lemma {:induction false} CountAll<T>(s: seq<T>, f: T -> bool)
    requires forall i :: 0 <= i < |s| ==> f(s[i])
    ensures Count(s, f) == |s|
  {
    if |s| > 0 { CountAll(s[..|s| - 1], f); }
  }

  lemma {:induction false} CountSplit<T>(s: seq<T>, n: nat, f: T -> bool)
    requires n <= |s|
    ensures Count(s, f) == Count(s[..n], f) + Count(s[n..], f)
  {
    var m := |s| - 1;
    if n == |s| {
      assert s[..n] == s;
    } else {
      CountSplit(s[..m], n, f);
      assert s[..m][..n] == s[..n] && s[..m][n..] == s[n..][..|s[n..]| - 1];
    }
  }

  lemma {:induction false} CountAtMost<T>(s: seq<T>, f: T -> bool)
    ensures Count(s, f) <= |s|
  {
    if |s| > 0 { CountAtMost(s[..|s| - 1], f); }
  }

  /** If f holds only below n, the count is at most n, and less if some position below n fails f. */
  lemma CountBelow<T>(s: seq<T>, n: nat, f: T -> bool)
    requires n <= |s| && forall i :: n <= i < |s| ==> !f(s[i])
    ensures Count(s, f) <= n
    ensures forall i :: 0 <= i < n && !f(s[i]) ==> Count(s, f) < n
  {
    CountSplit(s, n, f);
    CountNone(s[n..], f);
    CountAtMost(s[..n], f);
    forall i | 0 <= i < n && !f(s[i]) ensures Count(s, f) < n {
      CountMiss(s[..n], i, f);
    }
  }

  lemma {:induction false} CountMiss<T>(s: seq<T>, i: nat, f: T -> bool)
    requires i < |s| && !f(s[i])
    ensures Count(s, f) < |s|
  {
    if i == |s| - 1 { CountAtMost(s[..i], f); } else { CountMiss(s[..|s| - 1], i, f); }
  }

  lemma {:induction false} CountHit<T>(s: seq<T>, i: nat, f: T -> bool)
    requires i < |s| && f(s[i])
    ensures Count(s, f) >= 1
  {
    if i < |s| - 1 { CountHit(s[..|s| - 1], i, f); }
  }

  /** A predicate that implies another one holds at no more positions. */
  lemma {:induction false} CountImplies<T>(s: seq<T>, f: T -> bool, g: T -> bool)
    requires forall i :: 0 <= i < |s| && f(s[i]) ==> g(s[i])
    ensures Count(s, f) <= Count(s, g)
  {
    if |s| > 0 { CountImplies(s[..|s| - 1], f, g); }
  }

  // ------------------------------------------------------------ sums

  function Total(ws: seq<nat>): nat {
    if ws == [] then 0 else Total(ws[..|ws| - 1]) + ws[|ws| - 1]
  }

  lemma {:induction false} TotalUpdate(ws: seq<nat>, i: nat, v: nat)
    requires i < |ws|
    ensures Total(ws[i := v]) == Total(ws) - ws[i] + v
  {
    var n := |ws| - 1;
    if i == n {
      assert ws[i := v][..n] == ws[..n];
    } else {
      TotalUpdate(ws[..n], i, v);
      assert ws[i := v][..n] == ws[..n][i := v];
    }
  }

  // ------------------------------------------------------------ occurrences of one element

  /** How often t occurs in s. */
  function Times(s: seq<nat>, t: nat): nat { multiset(s)[t] }

  lemma TimesAppend(s: seq<nat>, x: nat, t: nat)
    ensures Times(s + [x], t) == Times(s, t) + (if x == t then 1 else 0)
    ensures Times([x] + s, t) == Times(s, t) + (if x == t then 1 else 0)
  {
  }

  lemma TimesCut(s: seq<nat>, t: nat)
    requires s != []
    ensures Times(s, t) == Times(s[..|s| - 1], t) + (if s[|s| - 1] == t then 1 else 0)
    ensures Times(s, t) == Times(s[1..], t) + (if s[0] == t then 1 else 0)
  {
    assert s == s[..|s| - 1] + [s[|s| - 1]];
    assert s == [s[0]] + s[1..];
  }
}
