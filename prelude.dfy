// Shared vocabulary of the model: optional values and results, identifiers,
// the fresh-identifier source that stands for uuidv4(), and order-preserving
// filtering over sequences (the `Array.prototype.filter` every repository
// query is built from).
module Prelude {

  datatype Option<T> = None | Some(value: T)

  datatype Result<T, E> = Success(value: T) | Failure(error: E)

  /** Identifiers are strings, as in the source. */
  type Id = string

  /** A decimal digit as a character. */
  function DigitChar(d: nat): (c: char)
    requires d < 10
    ensures c as int == '0' as int + d
  {
    ('0' as int + d) as char
  }

  /** The decimal numeral of `n`, without leading zeros. */
  function Decimal(n: nat): (s: string)
    ensures |s| >= 1
    ensures n >= 10 ==> |s| >= 2
    decreases n
  {
    if n < 10 then [DigitChar(n)] else Decimal(n / 10) + [DigitChar(n % 10)]
  }

  lemma {:induction false} DecimalInjective(n: nat, m: nat)
    requires Decimal(n) == Decimal(m)
    ensures n == m
    decreases n
  {
    if n < 10 && m < 10 {
      assert Decimal(n)[0] == Decimal(m)[0];
    } else if n >= 10 && m >= 10 {
      var dn, dm := Decimal(n), Decimal(m);
      assert dn[|dn| - 1] == dm[|dm| - 1];
      assert n % 10 == m % 10;
      assert dn[..|dn| - 1] == Decimal(n / 10);
      assert dm[..|dm| - 1] == Decimal(m / 10);
      DecimalInjective(n / 10, m / 10);
    } else {
      assert false;
    }
  }

  /** The n-th identifier handed out by a fresh-identifier counter; it stands
      for the string `uuidv4()` returns. It is never empty. */
  function FreshId(n: nat): (id: Id)
    ensures |id| > 5 && id[..5] == "uuid-"
  {
    "uuid-" + Decimal(n)
  }

  /** Distinct counter values give distinct identifiers, which is what makes
      the counter a faithful stand-in for uuidv4(). */
  lemma FreshIdInjective(n: nat, m: nat)
    requires FreshId(n) == FreshId(m)
    ensures n == m
  {
    assert FreshId(n)[5..] == Decimal(n);
    assert FreshId(m)[5..] == Decimal(m);
    DecimalInjective(n, m);
  }

  /** True iff no element occurs twice. */
  predicate Distinct<T(==)>(s: seq<T>) {
    forall i, j :: 0 <= i < j < |s| ==> s[i] != s[j]
  }

  /** The elements of `s` that satisfy `p`, in their order in `s`. */
  function Filter<T(==,!new)>(s: seq<T>, p: T -> bool): (r: seq<T>)
    ensures |r| <= |s|
    ensures forall x {:trigger x in r} :: x in r <==> x in s && p(x)
    decreases |s|
  {
    if s == [] then []
    else
      var init, last := s[..|s| - 1], s[|s| - 1];
      assert s == init + [last];
      if p(last) then Filter(init, p) + [last] else Filter(init, p)
  }

  /** The filter keeps every selected element as often as it occurs in `s`,
      and no other element. */
  lemma {:induction false} FilterMultiset<T(!new)>(s: seq<T>, p: T -> bool, x: T)
    ensures multiset(Filter(s, p))[x] == if p(x) then multiset(s)[x] else 0
    decreases |s|
  {
    if s != [] {
      var init, last := s[..|s| - 1], s[|s| - 1];
      assert s == init + [last];
      FilterMultiset(init, p, x);
    }
  }

  /** `r` is an order-preserving subsequence of `s`. */
  predicate SubseqOf<T(==)>(r: seq<T>, s: seq<T>)
    decreases |s|
  {
    if r == [] then true
    else if s == [] then false
    else if r[|r| - 1] == s[|s| - 1] then SubseqOf(r[..|r| - 1], s[..|s| - 1])
    else SubseqOf(r, s[..|s| - 1])
  }

  lemma {:induction false} FilterIsSubseq<T(!new)>(s: seq<T>, p: T -> bool)
    ensures SubseqOf(Filter(s, p), s)
    decreases |s|
  {
    if s != [] {
      var init, last := s[..|s| - 1], s[|s| - 1];
      FilterIsSubseq(init, p);
      var f := Filter(init, p);
      if p(last) {
        assert Filter(s, p)[..|Filter(s, p)| - 1] == f;
      } else if f != [] {
        assert f[|f| - 1] in f;
      }
    }
  }

  lemma {:induction false} FilterConcat<T(!new)>(a: seq<T>, b: seq<T>, p: T -> bool)
    ensures Filter(a + b, p) == Filter(a, p) + Filter(b, p)
    decreases |b|
  {
    if b == [] {
      assert a + b == a;
    } else {
      var init, last := b[..|b| - 1], b[|b| - 1];
      assert (a + b)[..|a + b| - 1] == a + init;
      assert (a + b)[|a + b| - 1] == last;
      FilterConcat(a, init, p);
    }
  }

  lemma FilterSingleton<T(!new)>(x: T, p: T -> bool)
    ensures Filter([x], p) == if p(x) then [x] else []
  {
    assert [x][..0] == [];
  }

  lemma AppendAssoc<T>(a: seq<T>, b: seq<T>, c: seq<T>)
    ensures (a + b) + c == a + (b + c)
  {
  }

  /** A non-empty suffix splits off its last element. */
  lemma AppendLast<T>(a: seq<T>, s: seq<T>)
    requires s != []
    ensures a + s == (a + s[..|s| - 1]) + [s[|s| - 1]]
  {
    assert s == s[..|s| - 1] + [s[|s| - 1]];
  }

  /** Appending one element extends the filter by that element exactly when it
      satisfies the predicate. */
  lemma FilterSnoc<T(!new)>(s: seq<T>, x: T, p: T -> bool)
    ensures Filter(s + [x], p) == Filter(s, p) + (if p(x) then [x] else [])
  {
    FilterConcat(s, [x], p);
    FilterSingleton(x, p);
  }

  /** The filter of a non-empty sequence starts with its first element
      exactly when that element satisfies the predicate. */
  lemma FilterCons<T(!new)>(s: seq<T>, p: T -> bool)
    requires s != []
    ensures Filter(s, p) == (if p(s[0]) then [s[0]] else []) + Filter(s[1..], p)
  {
    assert s == [s[0]] + s[1..];
    FilterConcat([s[0]], s[1..], p);
    FilterSingleton(s[0], p);
  }

  /** Replacing one element by another, where neither satisfies the predicate,
      leaves the filter unchanged. */
  lemma {:induction false} FilterReplaceUnselected<T(!new)>(s: seq<T>, j: nat, y: T, p: T -> bool)
    requires j < |s|
    requires !p(s[j]) && !p(y)
    ensures Filter(s[j := y], p) == Filter(s, p)
    decreases |s|
  {
    var n := |s| - 1;
    var s' := s[j := y];
    assert s == s[..n] + [s[n]];
    assert s' == s'[..n] + [s'[n]];
    FilterSnoc(s[..n], s[n], p);
    FilterSnoc(s'[..n], s'[n], p);
    if j < n {
      assert s'[..n] == s[..n][j := y];
      FilterReplaceUnselected(s[..n], j, y, p);
    } else {
      assert s'[..n] == s[..n];
    }
  }

  /** The conjunction of two predicates. */
  function Both<T>(p: T -> bool, q: T -> bool): T -> bool {
    (x: T) => p(x) && q(x)
  }

  /** Filtering twice is filtering once by the conjunction. */
  lemma {:induction false} FilterFilter<T(!new)>(s: seq<T>, p: T -> bool, q: T -> bool)
    ensures Filter(Filter(s, p), q) == Filter(s, Both(p, q))
    decreases |s|
  {
    if s != [] {
      var init, last := s[..|s| - 1], s[|s| - 1];
      FilterFilter(init, p, q);
      if p(last) {
        FilterSnoc(Filter(init, p), last, q);
      }
    }
  }

  /** Concatenation of the sequences `f(x)` over `xs`, in order. */
  function FlatMap<A, B>(xs: seq<A>, f: A -> seq<B>): (r: seq<B>)
    decreases |xs|
  {
    if xs == [] then [] else FlatMap(xs[..|xs| - 1], f) + f(xs[|xs| - 1])
  }

  lemma {:induction false} FlatMapMembership<A, B>(xs: seq<A>, f: A -> seq<B>, y: B)
    ensures y in FlatMap(xs, f) <==> exists i :: 0 <= i < |xs| && y in f(xs[i])
    decreases |xs|
  {
    if xs != [] {
      var init := xs[..|xs| - 1];
      FlatMapMembership(init, f, y);
      if y in FlatMap(xs, f) {
        if y in FlatMap(init, f) {
          var i :| 0 <= i < |init| && y in f(init[i]);
          assert xs[i] == init[i];
        } else {
          assert y in f(xs[|xs| - 1]);
        }
      } else {
        forall i | 0 <= i < |xs| ensures y !in f(xs[i]) {
          if i < |init| {
            assert xs[i] == init[i];
          }
        }
      }
    }
  }

  /** Filters by predicates that agree on the elements of `s` are equal. */
  lemma {:induction false} FilterCongruence<T(!new)>(s: seq<T>, p: T -> bool, q: T -> bool)
    requires forall x :: x in s ==> p(x) == q(x)
    ensures Filter(s, p) == Filter(s, q)
    decreases |s|
  {
    if s != [] {
      var init := s[..|s| - 1];
      assert forall x :: x in init ==> x in s;
      FilterCongruence(init, p, q);
    }
  }

  /** What a filter returns, stated once: an order-preserving subsequence that
      keeps every selected element with its multiplicity and nothing else. */
  lemma FilterExact<T(!new)>(s: seq<T>, p: T -> bool)
    ensures SubseqOf(Filter(s, p), s)
    ensures forall x :: multiset(Filter(s, p))[x] == if p(x) then multiset(s)[x] else 0
  {
    FilterIsSubseq(s, p);
    forall x ensures multiset(Filter(s, p))[x] == if p(x) then multiset(s)[x] else 0 {
      FilterMultiset(s, p, x);
    }
  }

  /** The first element of `s` that satisfies `p` (`filter(p)[0]`). */
  function First<T(==,!new)>(s: seq<T>, p: T -> bool): Option<T> {
    var f := Filter(s, p);
    if f == [] then None else Some(f[0])
  }

  /** `First` is absent iff nothing matches, and otherwise is the match at the
      smallest index. */
  lemma {:induction false} FirstIsEarliest<T(!new)>(s: seq<T>, p: T -> bool)
    ensures First(s, p).None? <==> forall x :: x in s ==> !p(x)
    ensures First(s, p).Some? ==>
              exists i :: 0 <= i < |s| && s[i] == First(s, p).value && p(s[i]) &&
                          forall j :: 0 <= j < i ==> !p(s[j])
    decreases |s|
  {
    if s != [] {
      var init, last := s[..|s| - 1], s[|s| - 1];
      FirstIsEarliest(init, p);
      assert forall x :: x in init ==> x in s;
      if Filter(init, p) != [] {
        assert Filter(s, p)[0] == Filter(init, p)[0];
        var i :| 0 <= i < |init| && init[i] == First(init, p).value && p(init[i]) &&
                 forall j :: 0 <= j < i ==> !p(init[j]);
        assert s[i] == init[i];
        assert forall j :: 0 <= j < i ==> s[j] == init[j];
      } else if p(last) {
        assert First(s, p).value == last;
        assert forall j :: 0 <= j < |s| - 1 ==> s[j] in init;
      } else {
        assert forall x :: x in s ==> x in init || x == last;
      }
    }
  }

  /** Conversely, a match with no match before it is what `First` returns. */
  lemma FirstIsAt<T(!new)>(s: seq<T>, p: T -> bool, j: nat)
    requires j < |s| && p(s[j]) && forall k :: 0 <= k < j ==> !p(s[k])
    ensures First(s, p) == Some(s[j])
  {
    FirstIsEarliest(s, p);
    assert s[j] in s;
    var m :| 0 <= m < |s| && s[m] == First(s, p).value && p(s[m]) && forall k :: 0 <= k < m ==> !p(s[k]);
    if m > j {
      assert p(s[j]);
    }
  }

  /** `s.map(f)`. */
  function Map<A, B>(s: seq<A>, f: A -> B): (r: seq<B>)
    ensures |r| == |s|
    ensures forall i :: 0 <= i < |s| ==> r[i] == f(s[i])
  {
    seq(|s|, i requires 0 <= i < |s| => f(s[i]))
  }

  /** Mapping after filtering is filtering after mapping, by a predicate that
      agrees with the original one through `f`. */
  lemma {:induction false} MapFilter<A(!new), B(!new)>(s: seq<A>, f: A -> B, p: A -> bool, q: B -> bool)
    requires forall x :: q(f(x)) == p(x)
    ensures Map(Filter(s, p), f) == Filter(Map(s, f), q)
    decreases |s|
  {
    if s != [] {
      var n := |s|;
      var init, last := s[..n - 1], s[n - 1];
      MapFilter(init, f, p, q);
      var m := Map(s, f);
      assert m[..n - 1] == Map(init, f);
      var fi := Filter(init, p);
      if p(last) {
        assert Map(fi + [last], f) == Map(fi, f) + [f(last)];
      }
    }
  }
}
