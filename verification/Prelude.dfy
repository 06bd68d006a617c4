/** Small generic definitions shared by the models: options, filtering, and Python's stable sort. */
module Prelude {

  datatype Option<+T> = None | Some(value: T) {
    predicate IsFailure() { None? }

    function PropagateFailure<U>(): Option<U>
      requires None?
    {
      None
    }

    function Extract(): T
      requires Some?
    {
      value
    }
  }

  function Filter<T>(xs: seq<T>, keep: T -> bool): (ys: seq<T>)
    ensures |ys| <= |xs|
    ensures forall y <- ys :: y in xs && keep(y)
  {
    if xs == [] then []
    else if keep(xs[0]) then [xs[0]] + Filter(xs[1..], keep)
    else Filter(xs[1..], keep)
  }

  lemma {:induction false} FilterHas<T>(xs: seq<T>, keep: T -> bool, x: T)
    requires x in xs && keep(x)
    ensures x in Filter(xs, keep)
  {
    if x != xs[0] {
      FilterHas(xs[1..], keep, x);
    }
  }

  lemma {:induction false} FilterAppend<T>(xs: seq<T>, ys: seq<T>, keep: T -> bool)
    ensures Filter(xs + ys, keep) == Filter(xs, keep) + Filter(ys, keep)
  {
    if xs == [] {
      assert xs + ys == ys;
    } else {
      var all := xs + ys;
      assert all[0] == xs[0] && all[1..] == xs[1..] + ys;
      FilterAppend(xs[1..], ys, keep);
      var front, back := Filter(xs[1..], keep), Filter(ys, keep);
      assert [xs[0]] + (front + back) == [xs[0]] + front + back;
    }
  }

  lemma {:induction false} FilterAll<T>(xs: seq<T>, keep: T -> bool)
    requires forall x <- xs :: keep(x)
    ensures Filter(xs, keep) == xs
  {
    if xs != [] {
      FilterAll(xs[1..], keep);
    }
  }

  lemma {:induction false} FilterNone<T>(xs: seq<T>, keep: T -> bool)
    requires forall x <- xs :: !keep(x)
    ensures Filter(xs, keep) == []
  {
    if xs != [] {
      FilterNone(xs[1..], keep);
    }
  }

  function Map<S, T>(xs: seq<S>, f: S -> T): (ys: seq<T>)
    ensures |ys| == |xs|
    ensures forall i :: 0 <= i < |xs| ==> ys[i] == f(xs[i])
  {
    seq(|xs|, i requires 0 <= i < |xs| => f(xs[i]))
  }

  /** The first element with the property. */
  function First<T>(xs: seq<T>, p: T -> bool): Option<T> {
    if xs == [] then None else if p(xs[0]) then Some(xs[0]) else First(xs[1..], p)
  }

  lemma {:induction false} FirstAt<T>(xs: seq<T>, p: T -> bool) returns (i: nat)
    ensures First(xs, p).Some? <==> i < |xs|
    ensures i < |xs| ==> p(xs[i]) && First(xs, p) == Some(xs[i])
    ensures forall j :: 0 <= j < i && j < |xs| ==> !p(xs[j])
  {
    if xs == [] || p(xs[0]) {
      i := 0;
    } else {
      var k := FirstAt(xs[1..], p);
      i := k + 1;
    }
  }

  /** Searching a filtered list is searching for both properties. */
  lemma {:induction false} FirstFiltered<T>(xs: seq<T>, keep: T -> bool, p: T -> bool, both: T -> bool)
    requires forall x <- xs :: both(x) == (keep(x) && p(x))
    ensures First(Filter(xs, keep), p) == First(xs, both)
  {
    if xs != [] {
      assert xs[0] in xs;
      FirstFiltered(xs[1..], keep, p, both);
    }
  }

  /** The pieces f gives for each element, one after the other. */
  function FlatMap<S, T>(xs: seq<S>, f: S -> seq<T>): seq<T> {
    if xs == [] then [] else FlatMap(xs[..|xs| - 1], f) + f(xs[|xs| - 1])
  }

  lemma TakeAll<T>(xs: seq<T>)
    ensures xs[..|xs|] == xs
  {
  }

  lemma FlatMapStep<S, T>(xs: seq<S>, i: nat, f: S -> seq<T>)
    requires i < |xs|
    ensures FlatMap(xs[..i + 1], f) == FlatMap(xs[..i], f) + f(xs[i])
  {
    assert xs[..i + 1][..i] == xs[..i];
  }

  lemma {:induction false} FlatMapIff<S, T>(xs: seq<S>, f: S -> seq<T>, y: T)
    ensures y in FlatMap(xs, f) <==> exists i :: 0 <= i < |xs| && y in f(xs[i])
  {
    if xs != [] {
      var n := |xs| - 1;
      FlatMapIff(xs[..n], f, y);
      assert forall i :: 0 <= i < n ==> xs[..n][i] == xs[i];
    }
  }

  lemma AppendAssociative<T>(a: seq<T>, b: seq<T>, c: seq<T>)
    ensures a + (b + c) == (a + b) + c
  {
  }

  lemma ConsTail<T>(x: T, xs: seq<T>)
    ensures ([x] + xs)[0] == x && ([x] + xs)[1..] == xs
  {
  }

  predicate Distinct<T(==)>(xs: seq<T>) {
    forall i, j :: 0 <= i < j < |xs| ==> xs[i] != xs[j]
  }

  // ---------------------------------------------------------------- sorting

  ghost predicate TotalPreorder<T(!new)>(le: (T, T) -> bool) {
    && (forall x, y :: le(x, y) || le(y, x))
    && (forall x, y, z :: le(x, y) && le(y, z) ==> le(x, z))
  }

  ghost predicate Sorted<T>(xs: seq<T>, le: (T, T) -> bool) {
    forall i, j :: 0 <= i < j < |xs| ==> le(xs[i], xs[j])
  }

  /** Place x behind every element that may stay in front of it. */
  function Insert<T>(x: T, xs: seq<T>, le: (T, T) -> bool): seq<T> {
    if xs == [] then [x]
    else if le(xs[0], x) then [xs[0]] + Insert(x, xs[1..], le)
    else [x] + xs
  }

  /** Stable sort: equal elements keep their input order, as in Python's sorted. */
  function SortBy<T>(xs: seq<T>, le: (T, T) -> bool): seq<T> {
    if xs == [] then [] else Insert(xs[|xs| - 1], SortBy(xs[..|xs| - 1], le), le)
  }

  lemma {:induction false} InsertSorted<T(!new)>(x: T, xs: seq<T>, le: (T, T) -> bool)
    requires TotalPreorder(le) && Sorted(xs, le)
    ensures Sorted(Insert(x, xs, le), le)
    ensures multiset(Insert(x, xs, le)) == multiset(xs) + multiset{x}
  {
    if xs != [] {
      assert xs == [xs[0]] + xs[1..];
      if le(xs[0], x) {
        InsertSorted(x, xs[1..], le);
        var rest := Insert(x, xs[1..], le);
        forall y | y in rest
          ensures le(xs[0], y)
        {
          assert y in multiset(rest);
        }
      } else {
        forall j | 0 <= j < |xs|
          ensures le(x, xs[j])
        {
          assert le(x, xs[0]);
        }
      }
    }
  }

  lemma {:induction false} SortByCorrect<T(!new)>(xs: seq<T>, le: (T, T) -> bool)
    requires TotalPreorder(le)
    ensures Sorted(SortBy(xs, le), le)
    ensures multiset(SortBy(xs, le)) == multiset(xs)
  {
    if xs != [] {
      var n := |xs| - 1;
      assert xs == xs[..n] + [xs[n]];
      SortByCorrect(xs[..n], le);
      InsertSorted(xs[n], SortBy(xs[..n], le), le);
    }
  }

  lemma {:induction false} InsertLast<T>(x: T, xs: seq<T>, le: (T, T) -> bool)
    requires forall y <- xs :: le(y, x)
    ensures Insert(x, xs, le) == xs + [x]
  {
    if xs != [] {
      InsertLast(x, xs[1..], le);
      assert xs + [x] == [xs[0]] + (xs[1..] + [x]);
    }
  }

  /** Sorting a sorted sequence changes nothing, ties included. */
  lemma {:induction false} SortByIdentity<T>(xs: seq<T>, le: (T, T) -> bool)
    requires Sorted(xs, le)
    ensures SortBy(xs, le) == xs
  {
    if xs != [] {
      var n := |xs| - 1;
      SortByIdentity(xs[..n], le);
      InsertLast(xs[n], xs[..n], le);
      assert xs == xs[..n] + [xs[n]];
    }
  }

  lemma {:induction false} FilterSorted<T>(xs: seq<T>, keep: T -> bool, le: (T, T) -> bool)
    requires Sorted(xs, le)
    ensures Sorted(Filter(xs, keep), le)
  {
    if xs != [] {
      FilterSorted(xs[1..], keep, le);
      forall y | y in Filter(xs[1..], keep)
        ensures le(xs[0], y)
      {
        var j :| 0 <= j < |xs[1..]| && xs[1..][j] == y;
        assert xs[j + 1] == y;
      }
    }
  }

  // ---------------------------------------------------------------- rearranging

  lemma CutAt<T>(xs: seq<T>, j: nat)
    requires j < |xs|
    ensures xs == xs[..j] + ([xs[j]] + xs[j + 1..])
  {
  }

  /** Where a rearrangement ys of [x] + tail keeps x. */
  lemma FindHead<T>(x: T, tail: seq<T>, ys: seq<T>) returns (j: nat)
    requires multiset([x] + tail) == multiset(ys)
    ensures j < |ys| && ys == ys[..j] + ([x] + ys[j + 1..])
    ensures multiset(tail) == multiset(ys[..j] + ys[j + 1..])
  {
    assert x in multiset([x] + tail);
    j :| 0 <= j < |ys| && ys[j] == x;
    CutAt(ys, j);
    SplitCount(ys[..j], x, ys[j + 1..]);
  }

  lemma SplitCount<T>(front: seq<T>, x: T, back: seq<T>)
    ensures multiset(front + back) == multiset(front + ([x] + back)) - multiset{x}
  {
    assert multiset(front + ([x] + back)) == multiset(front) + (multiset([x]) + multiset(back));
  }

  /** Filtering commutes with rearranging. */
  lemma DistinctAppend<T>(xs: seq<T>, ys: seq<T>)
    requires Distinct(xs) && Distinct(ys) && forall x <- xs :: x !in ys
    ensures Distinct(xs + ys)
  {
    forall i, j | 0 <= i < j < |xs| + |ys|
      ensures (xs + ys)[i] != (xs + ys)[j]
    {
      if i < |xs| <= j {
        assert xs[i] in xs && ys[j - |xs|] in ys;
      }
    }
  }

  lemma FilterDistinct<T>(xs: seq<T>, keep: T -> bool)
    requires Distinct(xs)
    ensures Distinct(Filter(xs, keep))
  {
    FilterSorted(xs, keep, (x: T, y: T) => x != y);
  }

  lemma {:induction false} FilterPermuted<T>(xs: seq<T>, ys: seq<T>, keep: T -> bool)
    requires multiset(xs) == multiset(ys)
    ensures multiset(Filter(xs, keep)) == multiset(Filter(ys, keep))
  {
    if xs == [] {
      assert |multiset(ys)| == |ys|;
    } else {
      var x := xs[0];
      assert xs == [x] + xs[1..];
      var j := FindHead(x, xs[1..], ys);
      var front, back := ys[..j], ys[j + 1..];
      FilterPermuted(xs[1..], front + back, keep);
      FilterAppend(front, [x] + back, keep);
      FilterAppend(front, back, keep);
      ConsTail(x, back);
    }
  }

  /** Mapping commutes with rearranging. */
  lemma {:induction false} MapPermuted<S, T>(xs: seq<S>, ys: seq<S>, f: S -> T)
    requires multiset(xs) == multiset(ys)
    ensures multiset(Map(xs, f)) == multiset(Map(ys, f))
  {
    if xs == [] {
      assert |multiset(ys)| == |ys|;
    } else {
      var x := xs[0];
      assert xs == [x] + xs[1..];
      var j := FindHead(x, xs[1..], ys);
      var front, back := ys[..j], ys[j + 1..];
      MapPermuted(xs[1..], front + back, f);
      MapSplit([], x, xs[1..], f);
      MapSplit(front, x, back, f);
      Reinsert(f(x), Map(xs[1..], f), Map(front, f), Map(back, f));
      assert [] + ([x] + xs[1..]) == xs;
    }
  }

  lemma MapStep<S, T>(xs: seq<S>, i: nat, f: S -> T)
    requires i < |xs|
    ensures Map(xs[..i + 1], f) == Map(xs[..i], f) + [f(xs[i])]
  {
  }

  lemma MapIff<S, T>(xs: seq<S>, f: S -> T, y: T)
    ensures y in Map(xs, f) <==> exists i :: 0 <= i < |xs| && f(xs[i]) == y
  {
    forall i | 0 <= i < |xs| && f(xs[i]) == y
      ensures y in Map(xs, f)
    {
      assert Map(xs, f)[i] == y;
    }
  }

  lemma InPermuted<T>(xs: seq<T>, ys: seq<T>, x: T)
    requires multiset(xs) == multiset(ys)
    ensures x in xs <==> x in ys
  {
    assert x in xs <==> x in multiset(xs);
  }

  lemma MapAppend<S, T>(xs: seq<S>, ys: seq<S>, f: S -> T)
    ensures Map(xs + ys, f) == Map(xs, f) + Map(ys, f)
  {
  }

  lemma MapSplit<S, T>(front: seq<S>, x: S, back: seq<S>, f: S -> T)
    ensures Map(front + ([x] + back), f) == Map(front, f) + ([f(x)] + Map(back, f))
    ensures Map(front + back, f) == Map(front, f) + Map(back, f)
    ensures front == [] ==> Map(front + ([x] + back), f) == [f(x)] + Map(back, f)
  {
  }

  lemma Reinsert<T>(x: T, tail: seq<T>, front: seq<T>, back: seq<T>)
    requires multiset(tail) == multiset(front + back)
    ensures multiset([x] + tail) == multiset(front + ([x] + back))
  {
  }

  ghost predicate TiesAgree<T>(xs: seq<T>, le: (T, T) -> bool) {
    forall i, j :: 0 <= i < |xs| && 0 <= j < |xs| && le(xs[i], xs[j]) && le(xs[j], xs[i]) ==> xs[i] == xs[j]
  }

  lemma HeadsAgree<T>(xs: seq<T>, ys: seq<T>, le: (T, T) -> bool)
    requires xs != [] && ys != [] && Sorted(xs, le) && Sorted(ys, le) && multiset(xs) == multiset(ys)
      && TiesAgree(xs, le)
    ensures xs[0] == ys[0]
  {
    assert xs[0] in multiset(ys) && ys[0] in multiset(xs);
    var i :| 0 <= i < |ys| && ys[i] == xs[0];
    var j :| 0 <= j < |xs| && xs[j] == ys[0];
    if i > 0 && j > 0 {
      assert le(xs[0], xs[j]) && le(xs[j], xs[0]);
    }
  }

  /** Two sorted arrangements of the same elements agree when ties are equalities. */
  lemma {:induction false} SortedUnique<T>(xs: seq<T>, ys: seq<T>, le: (T, T) -> bool)
    requires Sorted(xs, le) && Sorted(ys, le) && multiset(xs) == multiset(ys) && TiesAgree(xs, le)
    ensures xs == ys
  {
    assert |multiset(xs)| == |xs| && |multiset(ys)| == |ys|;
    if xs != [] {
      HeadsAgree(xs, ys, le);
      var a, b := xs[1..], ys[1..];
      HeadTail(xs);
      HeadTail(ys);
      TailsMatch(xs[0], a, b);
      assert forall i :: 0 <= i < |a| ==> a[i] == xs[i + 1];
      assert forall i :: 0 <= i < |b| ==> b[i] == ys[i + 1];
      SortedUnique(a, b, le);
    }
  }

  lemma HeadTail<T>(xs: seq<T>)
    requires xs != []
    ensures xs == [xs[0]] + xs[1..]
  {
  }

  lemma TailsMatch<T>(x: T, a: seq<T>, b: seq<T>)
    ensures multiset([x] + a) == multiset([x] + b) ==> multiset(a) == multiset(b)
  {
    assert multiset(a) == multiset([x] + a) - multiset{x};
    assert multiset(b) == multiset([x] + b) - multiset{x};
  }

  lemma {:induction false} DistinctIffSimple<T>(xs: seq<T>)
    ensures Distinct(xs) <==> forall x :: multiset(xs)[x] <= 1
  {
    if xs != [] {
      var n := |xs| - 1;
      DistinctIffSimple(xs[..n]);
      assert xs == xs[..n] + [xs[n]];
      if Distinct(xs) {
        assert multiset(xs[..n])[xs[n]] == 0;
      }
      if forall x :: multiset(xs)[x] <= 1 {
        assert multiset(xs)[xs[n]] <= 1;
        assert xs[n] !in multiset(xs[..n]);
        forall x
          ensures multiset(xs[..n])[x] <= 1
        {
          assert multiset(xs)[x] <= 1;
        }
      }
    }
  }

  /** Lists without repetitions that have the same elements are rearrangements of each other. */
  lemma SameElements<T(!new)>(xs: seq<T>, ys: seq<T>)
    requires Distinct(xs) && Distinct(ys) && forall x :: x in xs <==> x in ys
    ensures multiset(xs) == multiset(ys)
  {
    DistinctIffSimple(xs);
    DistinctIffSimple(ys);
    forall x
      ensures multiset(xs)[x] == multiset(ys)[x]
    {
      assert x in multiset(xs) <==> x in xs;
      assert x in multiset(ys) <==> x in ys;
    }
  }

  lemma DistinctByKey<T, K>(xs: seq<T>, key: T -> K)
    requires Distinct(Map(xs, key))
    ensures Distinct(xs)
  {
    var keys := Map(xs, key);
    forall i, j | 0 <= i < j < |xs|
      ensures xs[i] != xs[j]
    {
      assert keys[i] != keys[j];
    }
  }

  /** Being free of repetitions does not depend on the order. */
  lemma DistinctPermuted<T>(xs: seq<T>, ys: seq<T>)
    requires multiset(xs) == multiset(ys) && Distinct(xs)
    ensures Distinct(ys)
  {
    DistinctIffSimple(xs);
    DistinctIffSimple(ys);
  }

  // ---------------------------------------------------------------- sums

  function Sum<T>(xs: seq<T>, f: T -> nat): nat {
    if xs == [] then 0 else Sum(xs[..|xs| - 1], f) + f(xs[|xs| - 1])
  }

  lemma {:induction false} SumAppend<T>(xs: seq<T>, ys: seq<T>, f: T -> nat)
    ensures Sum(xs + ys, f) == Sum(xs, f) + Sum(ys, f)
  {
    if ys == [] {
      assert xs + ys == xs;
    } else {
      var n := |ys| - 1;
      assert (xs + ys)[..|xs| + n] == xs + ys[..n];
      SumAppend(xs, ys[..n], f);
    }
  }

  lemma {:induction false} SumPermuted<T>(xs: seq<T>, ys: seq<T>, f: T -> nat)
    requires multiset(xs) == multiset(ys)
    ensures Sum(xs, f) == Sum(ys, f)
  {
    if xs == [] {
      assert |multiset(ys)| == |ys|;
    } else {
      assert xs == [xs[0]] + xs[1..];
      var j := FindHead(xs[0], xs[1..], ys);
      SumPermuted(xs[1..], ys[..j] + ys[j + 1..], f);
      SumAppend([xs[0]], xs[1..], f);
      SumAppend(ys[..j], ys[j + 1..], f);
      SumAppend(ys[..j], [xs[0]] + ys[j + 1..], f);
      SumAppend([xs[0]], ys[j + 1..], f);
    }
  }

  lemma {:induction false} SumZero<K>(keys: seq<K>, f: K -> nat)
    requires forall k <- keys :: f(k) == 0
    ensures Sum(keys, f) == 0
  {
    if keys != [] {
      SumZero(keys[..|keys| - 1], f);
    }
  }

  lemma {:induction false} SumBump<K>(keys: seq<K>, f: K -> nat, g: K -> nat, bumped: K, amount: nat)
    requires Distinct(keys)
    requires forall k <- keys :: g(k) == f(k) + (if k == bumped then amount else 0)
    ensures Sum(keys, g) == Sum(keys, f) + (if bumped in keys then amount else 0)
  {
    if keys != [] {
      var n := |keys| - 1;
      SumBump(keys[..n], f, g, bumped, amount);
      assert keys == keys[..n] + [keys[n]];
    }
  }

  /** Equal terms have equal sums. */
  lemma {:induction false} SumSame<S, T>(xs: seq<S>, ys: seq<T>, f: S -> nat, g: T -> nat)
    requires |xs| == |ys| && forall i :: 0 <= i < |xs| ==> f(xs[i]) == g(ys[i])
    ensures Sum(xs, f) == Sum(ys, g)
  {
    if xs != [] {
      SumSame(xs[..|xs| - 1], ys[..|ys| - 1], f, g);
    }
  }

  lemma {:induction false} SumOnes<T>(xs: seq<T>, one: T -> nat)
    requires forall x <- xs :: one(x) == 1
    ensures Sum(xs, one) == |xs|
  {
    if xs != [] {
      SumOnes(xs[..|xs| - 1], one);
    }
  }

  // ---------------------------------------------------------------- text

  /** Lexicographic comparison by code point, as Python compares strings. */
  predicate TextLe(a: string, b: string) {
    a == "" || (b != "" && (a[0] < b[0] || (a[0] == b[0] && TextLe(a[1..], b[1..]))))
  }

  lemma {:induction false} TextLeTotal(a: string, b: string)
    ensures TextLe(a, b) || TextLe(b, a)
  {
    if a != "" && b != "" && a[0] == b[0] {
      TextLeTotal(a[1..], b[1..]);
    }
  }

  lemma {:induction false} TextLeAntisymmetric(a: string, b: string)
    requires TextLe(a, b) && TextLe(b, a)
    ensures a == b
  {
    if a != "" && b != "" {
      TextLeAntisymmetric(a[1..], b[1..]);
      assert a == [a[0]] + a[1..] && b == [b[0]] + b[1..];
    }
  }

  lemma {:induction false} TextLeTransitive(a: string, b: string, c: string)
    requires TextLe(a, b) && TextLe(b, c)
    ensures TextLe(a, c)
  {
    if a != "" && b != "" && c != "" && a[0] == b[0] == c[0] {
      TextLeTransitive(a[1..], b[1..], c[1..]);
    }
  }

  // ---------------------------------------------------------------- numbering

  predicate Digits(s: string) {
    forall i :: 0 <= i < |s| ==> '0' <= s[i] <= '9'
  }

  /** Decimal digits of n, without leading zeros. */
  function Decimal(n: nat): (s: string)
    ensures |s| >= 1 && (|s| > 1 ==> s[0] != '0')
    ensures Digits(s)
  {
    if n < 10 then [(n as char) + '0'] else Decimal(n / 10) + [((n % 10) as char) + '0']
  }

  /** The format :03d, left-padding with zeros to at least three digits. */
  function ThreeDigits(n: nat): string {
    var s := Decimal(n);
    if |s| == 1 then "00" + s else if |s| == 2 then "0" + s else s
  }

  function ReadDecimal(s: string): nat
    requires Digits(s)
  {
    if s == "" then 0 else 10 * ReadDecimal(s[..|s| - 1]) + (s[|s| - 1] - '0') as nat
  }

  lemma {:induction false} DecimalRoundTrip(n: nat)
    ensures ReadDecimal(Decimal(n)) == n
  {
    if n < 10 {
      assert Decimal(n)[..0] == "";
    } else {
      DecimalRoundTrip(n / 10);
      var s := Decimal(n);
      assert s[..|s| - 1] == Decimal(n / 10);
    }
  }

  lemma {:induction false} LeadingZero(s: string)
    requires Digits(s)
    ensures ReadDecimal("0" + s) == ReadDecimal(s)
  {
    var z := "0" + s;
    if s != "" {
      LeadingZero(s[..|s| - 1]);
      assert z[..|z| - 1] == "0" + s[..|s| - 1];
    } else {
      assert z[..0] == "";
    }
  }

  /** Numbered ids never collide. */
  lemma {:induction false} ThreeDigitsInjective(m: nat, n: nat)
    requires ThreeDigits(m) == ThreeDigits(n)
    ensures m == n
  {
    ThreeDigitsReads(m);
    ThreeDigitsReads(n);
  }

  lemma {:induction false} ThreeDigitsReads(n: nat)
    ensures Digits(ThreeDigits(n)) && ReadDecimal(ThreeDigits(n)) == n
  {
    var s := Decimal(n);
    DecimalRoundTrip(n);
    LeadingZero(s);
    if |s| == 1 {
      LeadingZero("0" + s);
      assert "00" + s == "0" + ("0" + s);
    }
  }

  lemma PrefixApart(prefix: string, a: string, b: string)
    requires a != b
    ensures prefix + a != prefix + b
  {
    assert (prefix + a)[|prefix|..] == a && (prefix + b)[|prefix|..] == b;
  }

  /** Ids numbered with the same prefix never collide. */
  lemma NumberedApart(prefix: string, m: nat, n: nat)
    requires m != n
    ensures prefix + ThreeDigits(m) != prefix + ThreeDigits(n)
  {
    if ThreeDigits(m) == ThreeDigits(n) {
      ThreeDigitsInjective(m, n);
    }
    PrefixApart(prefix, ThreeDigits(m), ThreeDigits(n));
  }
}
