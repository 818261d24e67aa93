/** Facts about sequences that several parts of the model share. */
module Sequences {

  /** How often x occurs in s. */
  function Times<T(==)>(s: seq<T>, x: T): nat {
    multiset(s)[x]
  }

  /** s without its element at position i. */
  function DropAt<T>(s: seq<T>, i: nat): seq<T>
    requires i < |s|
  {
    s[..i] + s[i + 1..]
  }

  /** s without any occurrence of x, in the original order. */
  function Without<T(==)>(s: seq<T>, x: T): seq<T>
  {
    if s == [] then []
    else if s[|s| - 1] == x then Without(s[..|s| - 1], x)
    else Without(s[..|s| - 1], x) + [s[|s| - 1]]
  }

  lemma SplitAt<T>(s: seq<T>, i: nat)
    requires i < |s|
    ensures s == s[..i] + [s[i]] + s[i + 1..] && DropAt(s, i) == s[..i] + s[i + 1..]
  {
  }

  lemma TimesAppend<T>(a: seq<T>, b: seq<T>)
    ensures forall x :: Times(a + b, x) == Times(a, x) + Times(b, x)
  {
  }

  lemma TimesOne<T>(y: T)
    ensures forall x :: Times([y], x) == if x == y then 1 else 0
  {
  }

  lemma TimesIn<T>(s: seq<T>, x: T)
    ensures x in s <==> Times(s, x) > 0
  {
  }

  lemma TimesDropAt<T>(s: seq<T>, i: nat)
    requires i < |s|
    ensures forall x :: Times(s, x) == Times(DropAt(s, i), x) + if x == s[i] then 1 else 0
  {
    assert s == s[..i] + [s[i]] + s[i + 1..];
  }

  lemma TimesUpdate<T>(s: seq<T>, i: nat, y: T)
    requires i < |s|
    ensures forall x :: Times(s[i := y], x) + (if x == s[i] then 1 else 0) == Times(s, x) + if x == y then 1 else 0
  {
  }

  lemma TimesMove<T>(s: seq<T>, i: nat, y: T)
    requires i < |s|
    ensures forall x :: Times(s[i := y] + [s[i]], x) == Times(s, x) + if x == y then 1 else 0
  {
    TimesUpdate(s, i, y);
    TimesAppend(s[i := y], [s[i]]);
    TimesOne(s[i]);
  }

  lemma TimesSwap<T>(s: seq<T>, i: nat, j: nat)
    requires i < |s| && j < |s|
    ensures forall x :: Times(s[i := s[j]][j := s[i]], x) == Times(s, x)
  {
    TimesUpdate(s, i, s[j]);
    TimesUpdate(s[i := s[j]], j, s[i]);
  }

  lemma {:induction false} WithoutAppend<T>(a: seq<T>, b: seq<T>, x: T)
    ensures Without(a + b, x) == Without(a, x) + Without(b, x)
  {
    if b == [] {
      assert a + b == a;
    } else {
      assert (a + b)[..|a + b| - 1] == a + b[..|b| - 1];
      WithoutAppend(a, b[..|b| - 1], x);
    }
  }

  lemma WithoutSnoc<T>(a: seq<T>, y: T, x: T)
    ensures Without(a + [y], x) == Without(a, x) + if y == x then [] else [y]
  {
    assert (a + [y])[..|a|] == a;
  }

  lemma {:induction false} WithoutAbsent<T>(s: seq<T>, x: T)
    requires x !in s
    ensures Without(s, x) == s
  {
    if s != [] {
      WithoutAbsent(s[..|s| - 1], x);
      assert s == s[..|s| - 1] + [s[|s| - 1]];
    }
  }

  lemma {:induction false} WithoutTimes<T>(s: seq<T>, x: T)
    ensures forall y :: Times(Without(s, x), y) == if y == x then 0 else Times(s, y)
    ensures |Without(s, x)| == |s| - Times(s, x)
  {
    if s != [] {
      var init, last := s[..|s| - 1], s[|s| - 1];
      WithoutTimes(init, x);
      assert s == init + [last];
      TimesAppend(init, [last]);
      TimesOne(last);
      TimesAppend(Without(init, x), [last]);
    }
  }

  /** Where x occurs once, removing it by value and by position agree. */
  lemma WithoutMiddle<T>(a: seq<T>, x: T, b: seq<T>)
    requires x !in a && x !in b
    ensures Without(a + [x] + b, x) == a + b
  {
    WithoutAppend(a + [x], b, x);
    WithoutSnoc(a, x, x);
    WithoutAbsent(a, x);
    WithoutAbsent(b, x);
  }
}
