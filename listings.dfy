/**
 * What a store's "list everything" loop builds: the value under each of a sequence of distinct
 * keys, position by position. Both stores list their voters this way.
 */
module Listings {
  /** `all[i]` is the value under `order[i]`, and no key is visited twice. */
  ghost predicate IsListing<K, V>(m: map<K, V>, order: seq<K>, all: seq<V>) {
    && |all| == |order|
    && (forall i :: 0 <= i < |order| ==> order[i] in m && m[order[i]] == all[i])
    && (forall i, j :: 0 <= i < j < |order| ==> order[i] != order[j])
  }

  /** Visiting one more unvisited key extends the listing by its value. */
  lemma ListingExtend<K, V>(m: map<K, V>, order: seq<K>, all: seq<V>, k: K)
    requires IsListing(m, order, all)
    requires k in m && k !in order
    ensures IsListing(m, order + [k], all + [m[k]])
  {
    var order', all' := order + [k], all + [m[k]];
    forall i, j | 0 <= i < j < |order'| ensures order'[i] != order'[j] {
      if j == |order| {
        assert order'[i] == order[i];
      }
    }
  }

  /**
   * The state of a loop that lists `keys` of `m`: `seen` are the keys visited so far, in the
   * order `order`, and `remaining` the ones still to visit.
   */
  ghost predicate ListingProgress<K, V>(m: map<K, V>, keys: set<K>, remaining: set<K>, seen: set<K>,
                                        order: seq<K>, all: seq<V>) {
    && remaining + seen == keys && remaining !! seen
    && |order| == |seen|
    && (forall k :: k in seen ==> k in order)
    && (forall i :: 0 <= i < |order| ==> order[i] in seen)
    && IsListing(m, order, all)
  }

  /** Visiting one remaining key keeps the loop's state consistent. */
  lemma ListingStep<K, V>(m: map<K, V>, keys: set<K>, remaining: set<K>, seen: set<K>,
                          order: seq<K>, all: seq<V>, k: K)
    requires ListingProgress(m, keys, remaining, seen, order, all)
    requires k in remaining && k in m
    ensures ListingProgress(m, keys, remaining - {k}, seen + {k}, order + [k], all + [m[k]])
  {
    ListingExtend(m, order, all, k);
  }

  /** A listing that visited every one of `keys` holds one value per key and nothing else. */
  lemma ListingCovers<K, V>(m: map<K, V>, keys: set<K>, seen: set<K>, order: seq<K>, all: seq<V>)
    requires ListingProgress(m, keys, {}, seen, order, all)
    ensures IsListing(m, order, all)
    ensures |all| == |keys|
    ensures forall k :: k in keys ==> m[k] in all
    ensures forall i :: 0 <= i < |all| ==> all[i] in m.Values
  {
    forall k | k in keys ensures m[k] in all {
      var i :| 0 <= i < |order| && order[i] == k;
      assert all[i] == m[k];
    }
    forall i | 0 <= i < |all| ensures all[i] in m.Values {
      assert m[order[i]] == all[i];
    }
  }
}
