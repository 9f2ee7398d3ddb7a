/** The features of an utterance for the dialogue act classifier: counts of
    its n-grams, plus "skip" features that abstract away the middle of
    3-grams and 4-grams, which can be pruned and written out as a vector
    indexed by a feature mapping. */
module Features {
  import opened Outcomes
  import opened Text

  /** A feature: a tuple of tokens. */
  type Key = seq<string>

  /** A `defaultdict(float)` of feature counts. */
  type Counts = map<Key, real>

  /** The value `d[k]` reads on a `defaultdict(float)`: the stored count,
      or the default `0.0` for a key that is not stored. */
  function Get(m: Counts, k: Key): (r: real)
    ensures k in m ==> r == m[k]
    ensures k !in m ==> r == 0.0
  {
    if k in m then m[k] else 0.0
  }

  /** `d[k] += 1.0` on a `defaultdict(float)`. */
  function Bump(m: Counts, k: Key): (r: Counts)
    ensures r.Keys == m.Keys + {k}
    ensures forall j :: Get(r, j) == Get(m, j) + (if j == k then 1.0 else 0.0)
  {
    m[k := Get(m, k) + 1.0]
  }

  /** One `+= 1.0` for each key of `ks`, first to last; no key of `m` is
      lost (`BumpAllCounts` gives every count). */
  function BumpAll(m: Counts, ks: seq<Key>): (r: Counts)
    ensures m.Keys <= r.Keys
  {
    if |ks| == 0 then m
    else Bump(BumpAll(m, ks[..|ks| - 1]), ks[|ks| - 1])
  }

  /** The contiguous `k`-grams of `u`, left to right: one starting at each
      position where `k` tokens remain. */
  function Windows(u: Key, k: nat): (ws: seq<Key>)
    ensures |ws| == if |u| < k then 0 else |u| - k + 1
    ensures forall i :: 0 <= i < |ws| ==> |ws[i]| == k && OccursAt(u, ws[i], i)
  {
    if |u| < k then []
    else seq(|u| - k + 1, i requires 0 <= i < |u| - k + 1 => u[i..i + k])
  }

  /** The n-grams of `u` for n = 1 .. size, shortest first: the keys `parse`
      counts, in the order it counts them. */
  function Ngrams(u: Key, size: int): (r: seq<Key>)
    ensures forall i :: 0 <= i < |r| ==> 1 <= |r[i]| <= size
    decreases if size < 0 then 0 else size
  {
    if size <= 0 then [] else Ngrams(u, size - 1) + Windows(u, size)
  }

  /** How many entries of `ks` equal `w`. */
  function Count(ks: seq<Key>, w: Key): nat
  {
    if |ks| == 0 then 0
    else Count(ks[..|ks| - 1], w) + (if ks[|ks| - 1] == w then 1 else 0)
  }

  /** How many times the phrase `w` occurs in `u`. */
  function Occurrences(u: Key, w: Key): nat
  {
    Count(Windows(u, |w|), w)
  }

  /** The number of n-grams of lengths 1 .. size in an utterance of `n`
      tokens: `n - k + 1` of length `k`, or none when `k > n`. */
  function NgramTotal(n: nat, size: int): nat
    decreases if size < 0 then 0 else size
  {
    if size <= 0 then 0
    else NgramTotal(n, size - 1) + (if n >= size then n - size + 1 else 0)
  }

  // ---------------------------------------------------------------------
  // Counting n-grams
  // ---------------------------------------------------------------------

  /** The n-gram loop of `parse`. */
  method CountNgrams(m: Counts, u: Key, size: int) returns (r: Counts)
    ensures r == BumpAll(m, Ngrams(u, size))
  {
    r := m;
    var k := 1;
    while k <= size
      invariant 1 <= k <= (if size >= 1 then size + 1 else 1)
      invariant r == BumpAll(m, Ngrams(u, k - 1))
    {
      assert Ngrams(u, k) == Ngrams(u, k - 1) + Windows(u, k);
      BumpAllAppend(m, Ngrams(u, k - 1), Windows(u, k));
      r := CountWindows(r, u, k);
      k := k + 1;
    }
    assert Ngrams(u, k - 1) == Ngrams(u, size);
  }

  /** The inner loop of the n-gram loop: counts the `k`-grams of `u`. */
  method CountWindows(m: Counts, u: Key, k: nat) returns (r: Counts)
    requires k >= 1
    ensures r == BumpAll(m, Windows(u, k))
  {
    ghost var ws := Windows(u, k);
    r := m;
    var i := 0;
    assert ws[..0] == [];
    while i < |u|
      invariant 0 <= i <= |ws|
      invariant r == BumpAll(m, ws[..i])
    {
      if i + k > |u| {
        break;
      }
      assert ws[i] == u[i..i + k];
      BumpAllSnoc(m, ws, i);
      r := Bump(r, u[i..i + k]);
      i := i + 1;
    }
    assert ws[..i] == ws;
  }

  /** Counting the first `i + 1` keys is counting the first `i`, then key `i`. */
  lemma BumpAllSnoc(m: Counts, ks: seq<Key>, i: nat)
    requires i < |ks|
    ensures BumpAll(m, ks[..i + 1]) == Bump(BumpAll(m, ks[..i]), ks[i])
  {
    assert ks[..i + 1][..i] == ks[..i];
  }

  /** Counting `a + b` is counting `a`, then `b`. */
  lemma {:induction false} BumpAllAppend(m: Counts, a: seq<Key>, b: seq<Key>)
    ensures BumpAll(m, a + b) == BumpAll(BumpAll(m, a), b)
    decreases |b|
  {
    if |b| == 0 {
      assert a + b == a;
    } else {
      BumpAllAppend(m, a, b[..|b| - 1]);
      assert (a + b)[..|a + b| - 1] == a + b[..|b| - 1];
    }
  }

  /** A key of another length than all entries of `ks` is not among them. */
  lemma {:induction false} CountOtherLength(ks: seq<Key>, k: nat, w: Key)
    requires forall i :: 0 <= i < |ks| ==> |ks[i]| == k
    requires |w| != k
    ensures Count(ks, w) == 0
  {
    if |ks| > 0 {
      CountOtherLength(ks[..|ks| - 1], k, w);
    }
  }

  /** A key is counted exactly when it is an entry of `ks`. */
  lemma {:induction false} CountPositive(ks: seq<Key>, w: Key)
    ensures Count(ks, w) > 0 <==> exists i :: 0 <= i < |ks| && ks[i] == w
  {
    if |ks| > 0 {
      var init := ks[..|ks| - 1];
      CountPositive(init, w);
      if exists i :: 0 <= i < |init| && init[i] == w {
        var i :| 0 <= i < |init| && init[i] == w;
        assert ks[i] == w;
      }
      if exists i :: 0 <= i < |ks| && ks[i] == w {
        var i :| 0 <= i < |ks| && ks[i] == w;
        if i < |init| {
          assert init[i] == w;
        }
      }
    }
  }

  /** Counts add up over a concatenation. */
  lemma {:induction false} CountAppend(a: seq<Key>, b: seq<Key>, w: Key)
    ensures Count(a + b, w) == Count(a, w) + Count(b, w)
    decreases |b|
  {
    if |b| == 0 {
      assert a + b == a;
    } else {
      CountAppend(a, b[..|b| - 1], w);
      assert (a + b)[..|a + b| - 1] == a + b[..|b| - 1];
    }
  }

  /** Counting the keys of `ks` adds, for each key, the number of times it
      appears in `ks`. */
  lemma {:induction false} BumpAllCounts(m: Counts, ks: seq<Key>, w: Key)
    ensures Get(BumpAll(m, ks), w) == Get(m, w) + Count(ks, w) as real
    ensures w in BumpAll(m, ks) <==> w in m || Count(ks, w) > 0
  {
    if |ks| > 0 {
      BumpAllCounts(m, ks[..|ks| - 1], w);
    }
  }

  /** In the n-grams up to `size`, a phrase of length 1 .. size appears as
      often as it occurs in the utterance, and nothing else appears. */
  lemma {:induction false} NgramsCount(u: Key, size: int, w: Key)
    ensures Count(Ngrams(u, size), w) == if 1 <= |w| <= size then Occurrences(u, w) else 0
    decreases if size < 0 then 0 else size
  {
    if size > 0 {
      var ws := Windows(u, size);
      NgramsCount(u, size - 1, w);
      CountAppend(Ngrams(u, size - 1), ws, w);
      if |w| != size {
        CountOtherLength(ws, size, w);
      }
    }
  }

  /** After the n-gram loop, the count of each phrase of 1 .. size tokens is
      up by the number of times it occurs in `u`; other counts are as they
      were. */
  lemma {:induction false} NgramCounts(m: Counts, u: Key, size: int, w: Key)
    ensures Get(BumpAll(m, Ngrams(u, size)), w) ==
      Get(m, w) + (if 1 <= |w| <= size then Occurrences(u, w) else 0) as real
    ensures w in BumpAll(m, Ngrams(u, size)) <==> w in m || (1 <= |w| <= size && Occurrences(u, w) > 0)
  {
    BumpAllCounts(m, Ngrams(u, size), w);
    NgramsCount(u, size, w);
  }

  /** A phrase is counted exactly when it occurs in the utterance. */
  lemma {:induction false} OccurrencesAt(u: Key, w: Key)
    ensures Occurrences(u, w) > 0 <==> exists i :: OccursAt(u, w, i)
  {
    var ws := Windows(u, |w|);
    CountPositive(ws, w);
    if Occurrences(u, w) > 0 {
      var i :| 0 <= i < |ws| && ws[i] == w;
      assert OccursAt(u, w, i);
    }
    if exists i :: OccursAt(u, w, i) {
      var i :| OccursAt(u, w, i);
      assert ws[i] == w;
    }
  }

  /** The n-gram loop counts `|u| - k + 1` phrases of each length `k` it
      covers. */
  lemma {:induction false} NgramsTotal(u: Key, size: int)
    ensures |Ngrams(u, size)| == NgramTotal(|u|, size)
    decreases if size < 0 then 0 else size
  {
    if size > 0 {
      NgramsTotal(u, size - 1);
    }
  }

  // ---------------------------------------------------------------------
  // Skip features
  // ---------------------------------------------------------------------

  /** The skip feature of a 3-gram `(a, b, c)` is `(a, '*1', c)`, of a 4-gram
      `(a, b, c, d)` is `(a, '*2', d)`; other keys have none. */
  function SkipOf(f: Key): (r: Option<Key>)
    ensures r.Some? <==> |f| == 3 || |f| == 4
    ensures r.Some? ==> |r.value| == 3 && r.value[0] == f[0] && r.value[2] == f[|f| - 1]
    ensures r.Some? ==> r.value[1] == (if |f| == 3 then "*1" else "*2")
  {
    if |f| == 3 then Some([f[0], "*1", f[2]])
    else if |f| == 4 then Some([f[0], "*2", f[3]])
    else None
  }

  /** The keys among `keys` whose skip feature is `s`. */
  function SkippingTo(keys: set<Key>, s: Key): set<Key>
  {
    set f | f in keys && SkipOf(f) == Some(s)
  }

  /** The skip features of `keys`. */
  function SkipKeys(keys: set<Key>): set<Key>
  {
    set f | f in keys && SkipOf(f).Some? :: SkipOf(f).value
  }

  lemma {:induction false} SkipKeysHaveSources(keys: set<Key>, s: Key)
    ensures s in SkipKeys(keys) <==> |SkippingTo(keys, s)| > 0
  {
    if s in SkipKeys(keys) {
      var f :| f in keys && SkipOf(f).Some? && SkipOf(f).value == s;
      assert f in SkippingTo(keys, s);
    }
    if |SkippingTo(keys, s)| > 0 {
      var f :| f in SkippingTo(keys, s);
      assert SkipOf(f).value in SkipKeys(keys);
    }
  }

  /** One more key adds one source to its own skip feature only. */
  lemma {:induction false} SkippingToAdd(done: set<Key>, f: Key, s: Key)
    requires f !in done
    ensures |SkippingTo(done + {f}, s)| == |SkippingTo(done, s)| + (if SkipOf(f) == Some(s) then 1 else 0)
  {
    if SkipOf(f) == Some(s) {
      assert SkippingTo(done + {f}, s) == SkippingTo(done, s) + {f};
    } else {
      assert SkippingTo(done + {f}, s) == SkippingTo(done, s);
    }
  }

  /** One more key adds its own skip feature, if it has one. */
  lemma SkipKeysAdd(done: set<Key>, f: Key)
    ensures SkipKeys(done + {f}) == SkipKeys(done) + (if SkipOf(f).Some? then {SkipOf(f).value} else {})
  {
  }

  /** The `new_features` loop of `parse`: each key of `keys` adds one to the
      count of its skip feature. */
  method CountSkips(keys: set<Key>) returns (nf: Counts)
    ensures nf.Keys == SkipKeys(keys)
    ensures forall s :: Get(nf, s) == |SkippingTo(keys, s)| as real
  {
    nf := map[];
    var todo := keys;
    assert keys - todo == {};
    while todo != {}
      invariant todo <= keys
      invariant nf.Keys == SkipKeys(keys - todo)
      invariant forall s :: Get(nf, s) == |SkippingTo(keys - todo, s)| as real
      decreases todo
    {
      var f :| f in todo;
      ghost var done := keys - todo;
      assert keys - (todo - {f}) == done + {f};
      forall s
        ensures |SkippingTo(done + {f}, s)| == |SkippingTo(done, s)| + (if SkipOf(f) == Some(s) then 1 else 0)
      {
        SkippingToAdd(done, f, s);
      }
      if SkipOf(f).Some? {
        nf := Bump(nf, SkipOf(f).value);
      }
      SkipKeysAdd(done, f);
      todo := todo - {f};
    }
    assert keys - todo == keys;
  }

  /** The merge loop of `parse`: `extra`'s counts added to `m`'s. */
  method AddCounts(m: Counts, extra: Counts) returns (r: Counts)
    ensures r.Keys == m.Keys + extra.Keys
    ensures forall k :: Get(r, k) == Get(m, k) + Get(extra, k)
  {
    r := m;
    var todo := extra.Keys;
    while todo != {}
      invariant todo <= extra.Keys
      invariant r.Keys == m.Keys + (extra.Keys - todo)
      invariant forall k :: Get(r, k) == Get(m, k) + (if k in todo then 0.0 else Get(extra, k))
      decreases todo
    {
      var f :| f in todo;
      r := r[f := Get(r, f) + extra[f]];
      todo := todo - {f};
    }
  }

  /** The counts with the skip features of `g` merged in. */
  function WithSkips(g: Counts): (r: Counts)
    ensures r.Keys == g.Keys + SkipKeys(g.Keys)
  {
    map k | k in g.Keys + SkipKeys(g.Keys) :: Get(g, k) + |SkippingTo(g.Keys, k)| as real
  }

  /** What `parse(u)` leaves in `features`, starting from `m`: no key is
      lost. */
  function Parsed(m: Counts, ftype: string, size: int, u: Key): (r: Counts)
    ensures m.Keys <= r.Keys
  {
    WithSkips(if ftype == "ngram" then BumpAll(m, Ngrams(u, size)) else m)
  }

  /** The count of every key after merging: its own count plus one per key
      whose skip feature it is. */
  lemma {:induction false} WithSkipsCounts(g: Counts, k: Key)
    ensures Get(WithSkips(g), k) == Get(g, k) + |SkippingTo(g.Keys, k)| as real
  {
    SkipKeysHaveSources(g.Keys, k);
  }

  /** The count `parse(u)` leaves for each key: its count before, plus its
      occurrences in `u` when it is an n-gram `parse` counts, plus one per
      counted key whose skip feature it is. */
  lemma {:induction false} ParsedCounts(m: Counts, ftype: string, size: int, u: Key, w: Key)
    ensures var g := if ftype == "ngram" then BumpAll(m, Ngrams(u, size)) else m;
      Get(Parsed(m, ftype, size, u), w)
        == Get(m, w) + (if ftype == "ngram" && 1 <= |w| <= size then Occurrences(u, w) else 0) as real
           + |SkippingTo(g.Keys, w)| as real
  {
    var g := if ftype == "ngram" then BumpAll(m, Ngrams(u, size)) else m;
    WithSkipsCounts(g, w);
    if ftype == "ngram" {
      NgramCounts(m, u, size, w);
    }
  }

  /** The skip and merge loops compute `WithSkips`. */
  lemma {:induction false} MergedIsWithSkips(g: Counts, nf: Counts, r: Counts)
    requires nf.Keys == SkipKeys(g.Keys)
    requires forall s :: Get(nf, s) == |SkippingTo(g.Keys, s)| as real
    requires r.Keys == g.Keys + nf.Keys
    requires forall k :: Get(r, k) == Get(g, k) + Get(nf, k)
    ensures r == WithSkips(g)
  {
    var w := WithSkips(g);
    forall k | k in r
      ensures r[k] == w[k]
    {
      assert Get(r, k) == r[k] && Get(w, k) == w[k];
      WithSkipsCounts(g, k);
    }
  }

  /** Pruning keeps the count of every key it does not remove. */
  lemma {:induction false} PrunedCounts(m: Counts, keys: set<Key>, remove: set<Key>, k: Key)
    requires keys == m.Keys
    ensures k in m - (keys * remove) <==> k in m && k !in remove
    ensures k in m && k !in remove ==> (m - (keys * remove))[k] == m[k]
  {
  }

  // ---------------------------------------------------------------------
  // Feature vectors
  // ---------------------------------------------------------------------

  /** The element of a NumPy vector of length `n` that index `j` selects;
      negative indices count from the end. */
  function Slot(j: int, n: nat): (p: Option<nat>)
    ensures p.Some? <==> 0 <= j + n && j < n
    ensures p.Some? ==> p.value < n && (p.value == j || p.value == j + n)
  {
    if 0 <= j < n then Some(j)
    else if j < 0 && 0 <= j + n then Some(j + n)
    else None
  }

  /** Some feature is mapped to an index the vector does not have. */
  predicate BadIndex(features: Counts, mapping: map<Key, int>)
  {
    exists f :: f in features && f in mapping && Slot(mapping[f], |mapping|).None?
  }

  /** `v` is a vector `get_feature_vector` can return: every element is
      either untouched (zero) or the count of a feature mapped to it. */
  predicate IsFeatureVector(features: Counts, mapping: map<Key, int>, v: seq<real>)
    ensures IsFeatureVector(features, mapping, v) ==>
      forall p :: 0 <= p < |v| && v[p] != 0.0 ==>
        exists f :: f in features && f in mapping && Slot(mapping[f], |v|) == Some(p)
  {
    && |v| == |mapping|
    && forall p :: 0 <= p < |v| ==> (
        || (v[p] == 0.0 && forall f :: f in features && f in mapping ==> Slot(mapping[f], |v|) != Some(p))
        || exists f :: f in features && f in mapping && Slot(mapping[f], |v|) == Some(p) && v[p] == features[f])
  }

  /** When no other feature shares its element, a feature's count is the
      element it is mapped to. */
  lemma {:induction false} FeatureVectorHolds(features: Counts, mapping: map<Key, int>, v: seq<real>, f: Key)
    requires IsFeatureVector(features, mapping, v)
    requires f in features && f in mapping && Slot(mapping[f], |v|).Some?
    requires forall g :: g in features && g in mapping && Slot(mapping[g], |v|) == Slot(mapping[f], |v|) ==> g == f
    ensures v[Slot(mapping[f], |v|).value] == features[f]
  {
  }

  // ---------------------------------------------------------------------
  // The features object
  // ---------------------------------------------------------------------

  class UtteranceFeatures {
    const ftype: string
    const size: int
    var features: Counts
    /** `self.set`, which `parse` creates. */
    var keySet: Option<set<Key>>

    /** `UtteranceFeatures(type, size, utterance)`: a non-empty utterance is
        parsed straight away. */
    constructor (ftype: string := "ngram", size: int := 3, utterance: Option<Key> := None)
      ensures this.ftype == ftype && this.size == size
      ensures utterance.Some? && |utterance.value| > 0 ==>
        features == Parsed(map[], ftype, size, utterance.value) && keySet == Some(features.Keys)
      ensures !(utterance.Some? && |utterance.value| > 0) ==> features == map[] && keySet == None
    {
      this.ftype := ftype;
      this.size := size;
      features := map[];
      keySet := None;
      new;
      if utterance.Some? && |utterance.value| > 0 {
        Parse(utterance.value);
      }
    }

    /** `features[k]`: the count of `k`; reading a key that is not stored
        inserts it with count `0.0`, as a `defaultdict` does, so the counts
        gain a key that the key set `self.set` does not have. */
    method GetItem(k: Key) returns (r: real)
      modifies this
      ensures r == Get(old(features), k)
      ensures features == old(features)[k := r]
      ensures keySet == old(keySet)
    {
      if k !in features {
        features := features[k := 0.0];
      }
      r := features[k];
    }

    /** `parse(u)`: counts the n-grams of `u` (for the `ngram` type), adds
        the skip features of all keys, and records the key set. */
    method Parse(u: Key)
      modifies this
      ensures features == Parsed(old(features), ftype, size, u)
      ensures keySet == Some(features.Keys)
    {
      if ftype == "ngram" {
        features := CountNgrams(features, u, size);
      }
      var newFeatures := CountSkips(features.Keys);
      var merged := AddCounts(features, newFeatures);
      MergedIsWithSkips(features, newFeatures, merged);
      features := merged;
      keySet := Some(features.Keys);
    }

    /** `prune(remove)`: drops the keys of `remove` from the key set and from
        the counts; before any `parse` there is no key set. */
    method Prune(remove: set<Key>) returns (r: Outcome<()>)
      modifies this
      ensures old(keySet).None? ==> r == Raised(AttributeError) && features == old(features) && keySet == None
      ensures old(keySet).Some? ==> (
        && r == Ok(())
        && keySet == Some(old(keySet).value - remove)
        && features == old(features) - (old(keySet).value * remove))
    {
      if keySet.None? {
        return Raised(AttributeError);
      }
      ghost var keys := keySet.value;
      ghost var counts := features;
      ghost var removed: set<Key> := {};
      var todo := keySet.value;
      assert keys - removed == keys && counts - removed == counts;
      while todo != {}
        invariant todo <= keys
        invariant removed == (keys - todo) * remove
        invariant keySet == Some(keys - removed)
        invariant features == counts - removed
        decreases todo
      {
        var f :| f in todo;
        assert keys - (todo - {f}) == (keys - todo) + {f};
        if f in remove {
          keySet := Some(keySet.value - {f});
          if f in features {
            features := features - {f};
          }
          assert counts - (removed + {f}) == (counts - removed) - {f};
          assert keys - (removed + {f}) == (keys - removed) - {f};
          removed := removed + {f};
        }
        todo := todo - {f};
      }
      assert keys - todo == keys;
      assert removed == keys * remove;
      assert keys - removed == keys - remove;
      return Ok(());
    }

    /** `get_feature_vector(mapping)`: a zero vector with one element per
        entry of `mapping`, with each mapped feature's count written to its
        element; an index outside the vector raises `IndexError`. */
    method GetFeatureVector(mapping: map<Key, int>) returns (r: Outcome<seq<real>>)
      ensures r.Raised? <==> BadIndex(features, mapping)
      ensures r.Raised? ==> r.error == IndexError
      ensures r.Ok? ==> IsFeatureVector(features, mapping, r.value)
    {
      var n := |mapping|;
      var fv := new real[n](_ => 0.0);
      var todo := features.Keys;
      while todo != {}
        invariant todo <= features.Keys
        invariant forall f :: f in features && f !in todo && f in mapping ==> Slot(mapping[f], n).Some?
        invariant forall p :: 0 <= p < n ==> (
          || (fv[p] == 0.0 && forall f :: f in features && f !in todo && f in mapping ==> Slot(mapping[f], n) != Some(p))
          || exists f :: f in features && f !in todo && f in mapping && Slot(mapping[f], n) == Some(p) && fv[p] == features[f])
        decreases todo
      {
        var f :| f in todo;
        if f in mapping {
          var slot := Slot(mapping[f], n);
          if slot.None? {
            return Raised(IndexError);
          }
          fv[slot.value] := features[f];
        }
        todo := todo - {f};
      }
      return Ok(fv[..]);
    }
  }
}
