/** Grouping a list in one pass into a dictionary of lists, as collections.defaultdict(list) is used in the detector. */
module Grouping {
  import opened Prelude

  /** The keys in the order they are first seen; elements without a key are skipped. */
  function Keys<T, K(==)>(xs: seq<T>, key: T -> Option<K>): seq<K> {
    if xs == [] then []
    else
      var front, k := Keys(xs[..|xs| - 1], key), key(xs[|xs| - 1]);
      if k.None? || k.value in front then front else front + [k.value]
  }

  function HasKey<T, K(==)>(key: T -> Option<K>, k: K): T -> bool { (x: T) => key(x) == Some(k) }

  /** Everything with one key, in input order. */
  function Members<T, K(==)>(xs: seq<T>, key: T -> Option<K>, k: K): seq<T> { Filter(xs, HasKey(key, k)) }

  lemma {:induction false} KeysIff<T, K>(xs: seq<T>, key: T -> Option<K>, k: K)
    ensures k in Keys(xs, key) <==> exists i :: 0 <= i < |xs| && key(xs[i]) == Some(k)
  {
    if xs != [] {
      var n := |xs| - 1;
      KeysIff(xs[..n], key, k);
      assert forall i :: 0 <= i < n ==> xs[..n][i] == xs[i];
    }
  }

  lemma {:induction false} KeysDistinct<T, K>(xs: seq<T>, key: T -> Option<K>)
    ensures Distinct(Keys(xs, key))
  {
    if xs != [] {
      KeysDistinct(xs[..|xs| - 1], key);
    }
  }

  lemma MembersIff<T, K>(xs: seq<T>, key: T -> Option<K>, k: K, x: T)
    ensures x in Members(xs, key, k) <==> x in xs && key(x) == Some(k)
  {
    if x in xs && key(x) == Some(k) {
      FilterHas(xs, HasKey(key, k), x);
    }
  }

  lemma MembersSnoc<T, K>(xs: seq<T>, x: T, key: T -> Option<K>, k: K)
    ensures Members(xs + [x], key, k) == Members(xs, key, k) + (if key(x) == Some(k) then [x] else [])
  {
    FilterAppend(xs, [x], HasKey(key, k));
  }

  lemma NoMembers<T, K>(xs: seq<T>, key: T -> Option<K>, k: K)
    requires k !in Keys(xs, key)
    ensures Members(xs, key, k) == []
  {
    KeysIff(xs, key, k);
    var members := Members(xs, key, k);
    if members != [] {
      MembersIff(xs, key, k, members[0]);
    }
  }

  function GroupSum<T, K(==)>(xs: seq<T>, key: T -> Option<K>, weight: T -> nat): K -> nat {
    (k: K) => Sum(Members(xs, key, k), weight)
  }

  /** Grouping loses nothing: over distinct keys that cover the list, the weights of the groups add up to its weight. */
  lemma {:induction false} GroupSums<T, K>(xs: seq<T>, key: T -> Option<K>, keys: seq<K>, weight: T -> nat)
    requires Distinct(keys)
    requires forall x <- xs :: key(x).Some? && key(x).value in keys
    ensures Sum(keys, GroupSum(xs, key, weight)) == Sum(xs, weight)
  {
    if xs == [] {
      SumZero(keys, GroupSum(xs, key, weight));
    } else {
      var n := |xs| - 1;
      var front, x := xs[..n], xs[n];
      assert xs == front + [x];
      GroupSums(front, key, keys, weight);
      forall k | k in keys
        ensures GroupSum(xs, key, weight)(k) == GroupSum(front, key, weight)(k)
          + (if k == key(x).value then weight(x) else 0)
      {
        MembersSnoc(front, x, key, k);
        SumAppend(Members(front, key, k), if key(x) == Some(k) then [x] else [], weight);
      }
      SumBump(keys, GroupSum(front, key, weight), GroupSum(xs, key, weight), key(x).value, weight(x));
    }
  }

  ghost predicate Grouped<T, K>(xs: seq<T>, key: T -> Option<K>, order: seq<K>, groups: map<K, seq<T>>) {
    && order == Keys(xs, key)
    && groups.Keys == (set k | k in order)
    && (forall k :: k in groups ==> groups[k] == Members(xs, key, k))
  }

  lemma GroupedStep<T, K>(xs: seq<T>, x: T, key: T -> Option<K>, order: seq<K>, groups: map<K, seq<T>>,
                          groups': map<K, seq<T>>)
    requires Grouped(xs, key, order, groups) && key(x).Some?
    requires groups' == groups[key(x).value := (if key(x).value in groups then groups[key(x).value] else []) + [x]]
    ensures Grouped(xs + [x], key, if key(x).value in groups then order else order + [key(x).value], groups')
  {
    assert (xs + [x])[..|xs|] == xs;
    if key(x).value !in groups {
      NoMembers(xs, key, key(x).value);
    }
    forall k | k in groups'
      ensures groups'[k] == Members(xs + [x], key, k)
    {
      MembersSnoc(xs, x, key, k);
    }
  }

  lemma GroupedSkip<T, K>(xs: seq<T>, x: T, key: T -> Option<K>, order: seq<K>, groups: map<K, seq<T>>)
    requires Grouped(xs, key, order, groups) && key(x).None?
    ensures Grouped(xs + [x], key, order, groups)
  {
    assert (xs + [x])[..|xs|] == xs;
    forall k | k in groups
      ensures groups[k] == Members(xs + [x], key, k)
    {
      MembersSnoc(xs, x, key, k);
    }
  }

  /** One pass: append each element to the list of its key. */
  method GroupBy<T, K(==)>(xs: seq<T>, key: T -> Option<K>) returns (order: seq<K>, groups: map<K, seq<T>>)
    ensures Grouped(xs, key, order, groups)
  {
    order, groups := [], map[];
    for i := 0 to |xs|
      invariant Grouped(xs[..i], key, order, groups)
    {
      var x := xs[i];
      assert xs[..i + 1] == xs[..i] + [x];
      if key(x).Some? {
        var k := key(x).value;
        var more := groups[k := (if k in groups then groups[k] else []) + [x]];
        GroupedStep(xs[..i], x, key, order, groups, more);
        order := if k in groups then order else order + [k];
        groups := more;
      } else {
        GroupedSkip(xs[..i], x, key, order, groups);
      }
    }
    assert xs[..|xs|] == xs;
  }
}
