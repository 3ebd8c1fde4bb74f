/** Increasing indices, counting the processes that satisfy a predicate, and adding up over actions. */
module Counting {

  /** Indices in their order, none of them twice. */
  ghost predicate Increasing(s: seq<nat>) {
    forall i, j :: 0 <= i < j < |s| ==> s[i] < s[j]
  }

  function One(b: bool): nat { if b then 1 else 0 }

  function Count<T>(s: seq<T>, f: T -> bool): nat {
    if s == [] then 0 else One(f(s[0])) + Count(s[1..], f)
  }

  lemma {:induction false} CountUpdate<T>(s: seq<T>, f: T -> bool, p: nat, x: T)
    requires p < |s|
    ensures Count(s[p := x], f) + One(f(s[p])) == Count(s, f) + One(f(x))
  {
    if p > 0 {
      assert s[p := x][1..] == s[1..][p - 1 := x];
      CountUpdate(s[1..], f, p - 1, x);
    } else {
      assert s[p := x][1..] == s[1..];
    }
  }

  lemma {:induction false} CountsOne<T>(s: seq<T>, f: T -> bool, p: nat)
    requires p < |s| && f(s[p])
    ensures Count(s, f) >= 1
  {
    if p > 0 {
      CountsOne(s[1..], f, p - 1);
    }
  }

  lemma {:induction false} CountsTwo<T>(s: seq<T>, f: T -> bool, p: nat, q: nat)
    requires p < q < |s| && f(s[p]) && f(s[q])
    ensures Count(s, f) >= 2
  {
    if p > 0 {
      CountsTwo(s[1..], f, p - 1, q - 1);
    } else {
      CountsOne(s[1..], f, q - 1);
    }
  }

  /** What the elements of a sequence add up to. */
  function Total<T>(s: seq<T>, f: T -> nat): nat {
    if s == [] then 0 else Total(s[..|s| - 1], f) + f(s[|s| - 1])
  }

  lemma {:induction false} TotalConcat<T>(a: seq<T>, b: seq<T>, f: T -> nat)
    ensures Total(a + b, f) == Total(a, f) + Total(b, f)
  {
    if b == [] {
      assert a + b == a;
    } else {
      assert (a + b)[..|a + b| - 1] == a + b[..|b| - 1];
      TotalConcat(a, b[..|b| - 1], f);
    }
  }
}
