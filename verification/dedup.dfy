/** First-occurrence deduplication by a string key, the rule both the
    researcher (results keyed by URL) and the writer (reference URLs) apply:
    walk the sequence in order, keep an element when its key is non-empty
    and has not been seen, and remember the key. */
module Dedup {

  /** Every key is non-empty and no key occurs twice. */
  predicate UniqueKeys<T>(xs: seq<T>, key: T -> string) {
    && (forall i :: 0 <= i < |xs| ==> key(xs[i]) != "")
    && (forall i, j :: 0 <= i < j < |xs| ==> key(xs[i]) != key(xs[j]))
  }

  /** The non-empty keys of `xs`. */
  function KeySet<T>(xs: seq<T>, key: T -> string): set<string> {
    set i | 0 <= i < |xs| && key(xs[i]) != "" :: key(xs[i])
  }

  /** The loop `for x in xs: if key(x) and key(x) not in seen: out.append(x);
      seen.add(key(x))`, written over the prefix consumed so far; the set
      `seen` is always the key set of `out`. */
  function KeepFirst<T>(xs: seq<T>, key: T -> string): (r: seq<T>)
    ensures |r| <= |xs|
    decreases |xs|
  {
    if xs == [] then []
    else
      var kept := KeepFirst(xs[..|xs| - 1], key);
      var x := xs[|xs| - 1];
      if key(x) != "" && key(x) !in KeySet(kept, key) then kept + [x] else kept
  }

  /** One more element: kept exactly when its key is non-empty and new. */
  lemma KeepFirstSnoc<T>(xs: seq<T>, x: T, key: T -> string)
    ensures KeepFirst(xs + [x], key)
      == if key(x) != "" && key(x) !in KeySet(KeepFirst(xs, key), key)
         then KeepFirst(xs, key) + [x] else KeepFirst(xs, key)
  {
    assert (xs + [x])[..|xs|] == xs;
  }

  /** Position `j` holds the first occurrence of a non-empty key. */
  predicate IsFirst<T>(xs: seq<T>, key: T -> string, j: int)
    requires 0 <= j < |xs|
  {
    key(xs[j]) != "" && forall i :: 0 <= i < j ==> key(xs[i]) != key(xs[j])
  }

  /** Reference definition: the elements at first-occurrence positions, in
      their original order. */
  function FirstOccurrences<T>(xs: seq<T>, key: T -> string): seq<T>
    decreases |xs|
  {
    if xs == [] then []
    else
      FirstOccurrences(xs[..|xs| - 1], key)
      + (if IsFirst(xs, key, |xs| - 1) then [xs[|xs| - 1]] else [])
  }

  lemma KeySetMember<T>(xs: seq<T>, key: T -> string, i: int)
    requires 0 <= i < |xs| && key(xs[i]) != ""
    ensures key(xs[i]) in KeySet(xs, key)
  {
  }

  lemma KeySetSnoc<T>(xs: seq<T>, x: T, key: T -> string)
    ensures KeySet(xs + [x], key) == KeySet(xs, key) + (if key(x) != "" then {key(x)} else {})
  {
    var ys := xs + [x];
    forall u | u in KeySet(ys, key)
      ensures u in KeySet(xs, key) + (if key(x) != "" then {key(x)} else {})
    {
      var i :| 0 <= i < |ys| && key(ys[i]) != "" && key(ys[i]) == u;
      if i < |xs| {
        assert ys[i] == xs[i];
        KeySetMember(xs, key, i);
      }
    }
    forall u | u in KeySet(xs, key) ensures u in KeySet(ys, key) {
      var i :| 0 <= i < |xs| && key(xs[i]) != "" && key(xs[i]) == u;
      assert ys[i] == xs[i];
      KeySetMember(ys, key, i);
    }
    if key(x) != "" {
      KeySetMember(ys, key, |xs|);
    }
  }

  /** The last position is a first occurrence exactly when its key is
      non-empty and absent from the keys before it. */
  lemma IsFirstLast<T>(xs: seq<T>, key: T -> string)
    requires xs != []
    ensures IsFirst(xs, key, |xs| - 1)
      <==> key(xs[|xs| - 1]) != "" && key(xs[|xs| - 1]) !in KeySet(xs[..|xs| - 1], key)
  {
    var p := xs[..|xs| - 1];
    var x := xs[|xs| - 1];
    if key(x) != "" && key(x) in KeySet(p, key) {
      var i :| 0 <= i < |p| && key(p[i]) != "" && key(p[i]) == key(x);
      assert xs[i] == p[i];
    }
    if key(x) != "" && !IsFirst(xs, key, |xs| - 1) {
      var i :| 0 <= i < |xs| - 1 && key(xs[i]) == key(x);
      assert p[i] == xs[i];
      KeySetMember(p, key, i);
    }
  }

  /** What the loop keeps: unique keys, the same key set as the input, and
      only elements of the input. */
  lemma {:induction false} KeepFirstSpec<T>(xs: seq<T>, key: T -> string)
    ensures UniqueKeys(KeepFirst(xs, key), key)
    ensures KeySet(KeepFirst(xs, key), key) == KeySet(xs, key)
    ensures forall y :: y in KeepFirst(xs, key) ==> y in xs
    decreases |xs|
  {
    if xs != [] {
      var p := xs[..|xs| - 1];
      var x := xs[|xs| - 1];
      var kept := KeepFirst(p, key);
      KeepFirstSpec(p, key);
      assert xs == p + [x];
      KeySetSnoc(p, x, key);
      if key(x) != "" && key(x) !in KeySet(kept, key) {
        var r := kept + [x];
        KeySetSnoc(kept, x, key);
        forall i | 0 <= i < |kept| ensures key(r[i]) != key(x) {
          KeySetMember(kept, key, i);
        }
        assert forall i :: 0 <= i < |kept| ==> r[i] == kept[i];
      }
    }
  }

  /** The loop agrees with the reference definition. */
  lemma {:induction false} KeepFirstIsFirstOccurrences<T>(xs: seq<T>, key: T -> string)
    ensures KeepFirst(xs, key) == FirstOccurrences(xs, key)
    decreases |xs|
  {
    if xs != [] {
      var p := xs[..|xs| - 1];
      KeepFirstIsFirstOccurrences(p, key);
      KeepFirstSpec(p, key);
      IsFirstLast(xs, key);
    }
  }

  /** Every kept element stands at a first-occurrence position of the input. */
  lemma {:induction false} KeepFirstOrigin<T>(xs: seq<T>, key: T -> string, k: int) returns (j: int)
    requires 0 <= k < |KeepFirst(xs, key)|
    ensures 0 <= j < |xs| && xs[j] == KeepFirst(xs, key)[k] && IsFirst(xs, key, j)
    decreases |xs|
  {
    var p := xs[..|xs| - 1];
    var kept := KeepFirst(p, key);
    KeepFirstIsFirstOccurrences(xs, key);
    KeepFirstIsFirstOccurrences(p, key);
    IsFirstLast(xs, key);
    KeepFirstSpec(p, key);
    if k < |kept| {
      var j' := KeepFirstOrigin(p, key, k);
      j := j';
      assert xs[j] == p[j];
      assert forall i :: 0 <= i < j ==> xs[i] == p[i];
    } else {
      j := |xs| - 1;
    }
  }

  /** Deduplicating input that already has unique non-empty keys changes nothing. */
  lemma {:induction false} KeepFirstUnique<T>(xs: seq<T>, key: T -> string)
    requires UniqueKeys(xs, key)
    ensures KeepFirst(xs, key) == xs
    decreases |xs|
  {
    if xs != [] {
      var p := xs[..|xs| - 1];
      assert UniqueKeys(p, key);
      KeepFirstUnique(p, key);
      KeepFirstSpec(p, key);
      IsFirstLast(xs, key);
      assert xs == p + [xs[|xs| - 1]];
    }
  }

  /** Deduplication is idempotent. */
  lemma KeepFirstIdempotent<T>(xs: seq<T>, key: T -> string)
    ensures KeepFirst(KeepFirst(xs, key), key) == KeepFirst(xs, key)
  {
    KeepFirstSpec(xs, key);
    KeepFirstUnique(KeepFirst(xs, key), key);
  }

  /** A sequence with unique keys has as many elements as keys. */
  lemma {:induction false} UniqueKeysCount<T>(xs: seq<T>, key: T -> string)
    requires UniqueKeys(xs, key)
    ensures |KeySet(xs, key)| == |xs|
    decreases |xs|
  {
    if xs != [] {
      var p := xs[..|xs| - 1];
      var x := xs[|xs| - 1];
      assert UniqueKeys(p, key);
      UniqueKeysCount(p, key);
      assert xs == p + [x];
      KeySetSnoc(p, x, key);
      assert key(x) !in KeySet(p, key) by {
        forall u | u in KeySet(p, key) ensures u != key(x) {
          var i :| 0 <= i < |p| && key(p[i]) != "" && key(p[i]) == u;
          assert xs[i] == p[i];
        }
      }
    }
  }

  /** The output has exactly one element per distinct non-empty input key. */
  lemma KeepFirstCount<T>(xs: seq<T>, key: T -> string)
    ensures |KeepFirst(xs, key)| == |KeySet(xs, key)|
  {
    KeepFirstSpec(xs, key);
    UniqueKeysCount(KeepFirst(xs, key), key);
  }

  predicate SortedBy<T>(xs: seq<T>, rank: T -> int) {
    forall a, b :: 0 <= a < b < |xs| ==> rank(xs[a]) <= rank(xs[b])
  }

  /** Deduplication keeps the input order, so a ranking that is
      non-decreasing along the input stays non-decreasing. */
  lemma {:induction false} KeepFirstSorted<T>(xs: seq<T>, key: T -> string, rank: T -> int)
    requires SortedBy(xs, rank)
    ensures SortedBy(KeepFirst(xs, key), rank)
    decreases |xs|
  {
    if xs != [] {
      var p := xs[..|xs| - 1];
      var x := xs[|xs| - 1];
      var kept := KeepFirst(p, key);
      assert SortedBy(p, rank);
      KeepFirstSorted(p, key, rank);
      KeepFirstSpec(p, key);
      forall y | y in kept ensures rank(y) <= rank(x) {
        var i :| 0 <= i < |p| && p[i] == y;
        assert xs[i] == y;
      }
      var r := KeepFirst(xs, key);
      if r != kept {
        assert r == kept + [x];
        forall a, b | 0 <= a < b < |r| ensures rank(r[a]) <= rank(r[b]) {
          if b == |kept| {
            assert r[a] == kept[a];
            assert kept[a] in kept;
          } else {
            assert r[a] == kept[a] && r[b] == kept[b];
          }
        }
      }
    }
  }
}
