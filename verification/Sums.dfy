/** Totals of an integer measure over a sequence. */
module Sums {

  function Sum<T>(s: seq<T>, f: T -> int, n: nat): int
    requires n <= |s|
  {
    if n == 0 then 0 else Sum(s, f, n - 1) + f(s[n - 1])
  }

  function Total<T>(s: seq<T>, f: T -> int): int {
    Sum(s, f, |s|)
  }

  lemma {:induction false} SumUpdate<T>(s: seq<T>, f: T -> int, i: nat, x: T, n: nat)
    requires i < |s| && n <= |s|
    ensures Sum(s[i := x], f, n) == Sum(s, f, n) + if i < n then f(x) - f(s[i]) else 0
  {
    if n > 0 {
      SumUpdate(s, f, i, x, n - 1);
    }
  }

  lemma {:induction false} TotalUpdate<T>(s: seq<T>, f: T -> int, i: nat, x: T)
    requires i < |s|
    ensures Total(s[i := x], f) == Total(s, f) + f(x) - f(s[i])
  {
    SumUpdate(s, f, i, x, |s|);
  }

  lemma {:induction false} SumPrefix<T>(s: seq<T>, t: seq<T>, f: T -> int, n: nat)
    requires n <= |s|
    ensures Sum(s + t, f, n) == Sum(s, f, n)
  {
    if n > 0 {
      SumPrefix(s, t, f, n - 1);
    }
  }

  lemma {:induction false} TotalAppend<T>(s: seq<T>, f: T -> int, x: T)
    ensures Total(s + [x], f) == Total(s, f) + f(x)
  {
    SumPrefix(s, [x], f, |s|);
  }

  lemma {:induction false} SumSame<S, T>(s: seq<S>, f: S -> int, t: seq<T>, g: T -> int, n: nat)
    requires n <= |s| && n <= |t|
    requires forall i :: 0 <= i < n ==> f(s[i]) == g(t[i])
    ensures Sum(s, f, n) == Sum(t, g, n)
  {
    if n > 0 {
      SumSame(s, f, t, g, n - 1);
    }
  }

  lemma {:induction false} SumMonotone<T>(s: seq<T>, f: T -> int, m: nat, n: nat)
    requires m <= n <= |s|
    requires forall i :: 0 <= i < |s| ==> f(s[i]) >= 0
    ensures Sum(s, f, m) <= Sum(s, f, n)
  {
    if m < n {
      SumMonotone(s, f, m, n - 1);
    }
  }

  /** Only element i counts. */
  lemma {:induction false} SumSingle<T>(s: seq<T>, f: T -> int, i: nat, n: nat)
    requires i < |s| && n <= |s|
    requires forall j :: 0 <= j < |s| && j != i ==> f(s[j]) == 0
    ensures Sum(s, f, n) == if i < n then f(s[i]) else 0
  {
    if n > 0 {
      SumSingle(s, f, i, n - 1);
    }
  }

  lemma {:induction false} SumZero<T>(s: seq<T>, f: T -> int, n: nat)
    requires n <= |s|
    requires forall j :: 0 <= j < n ==> f(s[j]) == 0
    ensures Sum(s, f, n) == 0
  {
    if n > 0 {
      SumZero(s, f, n - 1);
    }
  }

  lemma {:induction false} TotalRemove<T>(s: seq<T>, f: T -> int, i: nat)
    requires i < |s|
    ensures Total(s, f) == f(s[i]) + Total(s[..i] + s[i + 1..], f)
    decreases |s|
  {
    var last := |s| - 1;
    if i == last {
      assert s[..i] + s[i + 1..] == s[..last];
      assert s == s[..last] + [s[last]];
      TotalAppend(s[..last], f, s[last]);
    } else {
      var shorter := s[..last];
      assert s == shorter + [s[last]];
      TotalAppend(shorter, f, s[last]);
      TotalRemove(shorter, f, i);
      assert s[..i] + s[i + 1..] == (shorter[..i] + shorter[i + 1..]) + [s[last]];
      TotalAppend(shorter[..i] + shorter[i + 1..], f, s[last]);
    }
  }

  lemma {:induction false} RemovedOnce<T>(s: seq<T>, i: nat)
    requires i < |s|
    ensures multiset(s[..i] + s[i + 1..]) == multiset(s) - multiset{s[i]}
  {
    assert s == s[..i] + [s[i]] + s[i + 1..];
  }

  lemma {:induction false} MemberAt<T>(s: seq<T>, x: T) returns (i: nat)
    requires x in multiset(s)
    ensures i < |s| && s[i] == x
  {
    i :| i < |s| && s[i] == x;
  }

  lemma {:induction false} TotalOfPermutation<T>(s: seq<T>, t: seq<T>, f: T -> int)
    requires multiset(s) == multiset(t)
    ensures Total(s, f) == Total(t, f)
    decreases |s|
  {
    if s == [] {
      assert |multiset(t)| == 0;
    } else {
      var x := s[0];
      var i := MemberAt(t, x);
      RemovedOnce(s, 0);
      RemovedOnce(t, i);
      TotalRemove(s, f, 0);
      TotalRemove(t, f, i);
      TotalOfPermutation(s[..0] + s[1..], t[..i] + t[i + 1..], f);
    }
  }
}
