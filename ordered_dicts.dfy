/**
 * Python's `OrderedDict` with string keys, as a sequence of entries in
 * insertion order. `Set` is item assignment (`d[k] = v`), `Update` is
 * `d.update(o)`, and `MergeAll` is the fold of updates that
 * `XBeachModel.write` performs over the attached components.
 */
module OrderedDicts {
  import opened Wrappers

  type Dict<V> = seq<(string, V)>

  function Keys<V>(d: Dict<V>): (r: seq<string>)
    ensures |r| == |d|
  {
    seq(|d|, i requires 0 <= i < |d| => d[i].0)
  }

  /** The invariant of every dictionary: no key occurs twice. */
  predicate Unique(ks: seq<string>)
  {
    forall i, j :: 0 <= i < j < |ks| ==> ks[i] != ks[j]
  }

  /** `d.get(k)`: the value of the first entry with key `k`. */
  function Get<V>(d: Dict<V>, k: string): (r: Option<V>)
    ensures r.Some? <==> k in Keys(d)
  {
    if |d| == 0 then None
    else
      KeysCons(d);
      if d[0].0 == k then Some(d[0].1) else Get(d[1..], k)
  }

  lemma KeysCons<V>(d: Dict<V>)
    requires |d| > 0
    ensures Keys(d) == [d[0].0] + Keys(d[1..])
  {
  }

  /**
   * `d[k] = v`: an existing key keeps its position and takes the new value;
   * a new key is appended at the end.
   */
  function Set<V>(d: Dict<V>, k: string, v: V): (r: Dict<V>)
    ensures Get(r, k) == Some(v)
    ensures forall k' :: k' != k ==> Get(r, k') == Get(d, k')
    ensures Keys(r) == if k in Keys(d) then Keys(d) else Keys(d) + [k]
  {
    if |d| == 0 then [(k, v)]
    else
      KeysCons(d);
      ConsFacts(d[0], d[1..]);
      if d[0].0 == k then
        ConsFacts((k, v), d[1..]);
        [(k, v)] + d[1..]
      else
        var rest := Set(d[1..], k, v);
        ConsFacts(d[0], rest);
        [d[0]] + rest
  }

  /** How keys and lookups see an entry put in front. */
  lemma ConsFacts<V>(x: (string, V), rest: Dict<V>)
    ensures Keys([x] + rest) == [x.0] + Keys(rest)
    ensures forall k :: Get([x] + rest, k) == if x.0 == k then Some(x.1) else Get(rest, k)
  {
    assert ([x] + rest)[1..] == rest;
  }

  /** `d.update(o)`: `d[k] = v` for every entry of `o`, in `o`'s order. */
  function Update<V>(d: Dict<V>, o: Dict<V>): Dict<V>
    decreases |o|
  {
    if |o| == 0 then d else Update(Set(d, o[0].0, o[0].1), o[1..])
  }

  /** `OrderedDict(**kwargs)`: the keyword arguments in the order given. */
  function FromPairs<V>(kwargs: Dict<V>): Dict<V>
  {
    Update([], kwargs)
  }

  /** The keys of `o` that are not in `seen`, in `o`'s order. */
  function Fresh(ks: seq<string>, seen: seq<string>): (r: seq<string>)
    ensures forall k :: k in r <==> k in ks && k !in seen
  {
    if |ks| == 0 then []
    else if ks[0] in seen then Fresh(ks[1..], seen)
    else [ks[0]] + Fresh(ks[1..], seen)
  }

  // ---------------------------------------------------------------------------
  // Properties of item assignment and update

  /** Assigning a key the value it already has changes nothing. */
  lemma {:induction false} SetPresent<V>(d: Dict<V>, k: string, v: V)
    requires Get(d, k) == Some(v)
    ensures Set(d, k, v) == d
  {
    if d[0].0 != k {
      SetPresent(d[1..], k, v);
    }
  }

  /** Assignment keeps the keys unique. */
  lemma SetUnique<V>(d: Dict<V>, k: string, v: V)
    requires Unique(Keys(d))
    ensures Unique(Keys(Set(d, k, v)))
  {
  }

  /** In a dictionary every entry is what a lookup of its key finds. */
  lemma {:induction false} GetEntry<V>(d: Dict<V>, i: nat)
    requires Unique(Keys(d)) && i < |d|
    ensures Get(d, d[i].0) == Some(d[i].1)
  {
    if i > 0 {
      assert Keys(d)[0] != Keys(d)[i];
      assert Keys(d[1..]) == Keys(d)[1..];
      GetEntry(d[1..], i - 1);
    }
  }

  /** After `d.update(o)`, a key of `o` has `o`'s value and any other key keeps `d`'s. */
  lemma {:induction false} UpdateGet<V>(d: Dict<V>, o: Dict<V>, k: string)
    requires Unique(Keys(o))
    ensures Get(Update(d, o), k) == if k in Keys(o) then Get(o, k) else Get(d, k)
    decreases |o|
  {
    if |o| > 0 {
      KeysTail(o);
      UpdateGet(Set(d, o[0].0, o[0].1), o[1..], k);
    }
  }

  lemma {:induction false} FreshSkip(ks: seq<string>, seen: seq<string>, x: string)
    requires x !in ks
    ensures Fresh(ks, seen + [x]) == Fresh(ks, seen)
  {
    if |ks| > 0 {
      FreshSkip(ks[1..], seen, x);
    }
  }

  /**
   * After `d.update(o)` the keys of `d` keep their positions and the keys new
   * to `d` follow them, in `o`'s order.
   */
  lemma {:induction false} UpdateKeys<V>(d: Dict<V>, o: Dict<V>)
    requires Unique(Keys(o))
    ensures Keys(Update(d, o)) == Keys(d) + Fresh(Keys(o), Keys(d))
    decreases |o|
  {
    if |o| > 0 {
      var k := o[0].0;
      var d' := Set(d, k, o[0].1);
      var later := Keys(o[1..]);
      KeysTail(o);
      UpdateKeys(d', o[1..]);
      FreshStep(Keys(d), k, later);
      assert Update(d, o) == Update(d', o[1..]);
    }
  }

  lemma KeysTail<V>(o: Dict<V>)
    requires Unique(Keys(o)) && |o| > 0
    ensures Keys(o) == [o[0].0] + Keys(o[1..])
    ensures Unique(Keys(o[1..])) && o[0].0 !in Keys(o[1..])
  {
    var ks, tail := Keys(o), Keys(o[1..]);
    forall i | 0 <= i < |tail| ensures tail[i] == ks[i + 1] {
      assert o[1..][i] == o[i + 1];
    }
    forall i, j | 0 <= i < j < |tail| ensures tail[i] != tail[j] {
      assert ks[i + 1] != ks[j + 1];
    }
    forall i | 0 <= i < |tail| ensures tail[i] != o[0].0 {
      assert ks[0] != ks[i + 1];
    }
  }

  /** One step of UpdateKeys: the key `k` of the first entry, then the later ones. */
  lemma FreshStep(seen: seq<string>, k: string, later: seq<string>)
    requires k !in later
    ensures (if k in seen then seen else seen + [k]) + Fresh(later, if k in seen then seen else seen + [k])
            == seen + Fresh([k] + later, seen)
  {
    assert ([k] + later)[1..] == later;
    if k !in seen {
      FreshSkip(later, seen, k);
    }
  }

  /** Update keeps the keys unique. */
  lemma {:induction false} UpdateUnique<V>(d: Dict<V>, o: Dict<V>)
    requires Unique(Keys(d))
    ensures Unique(Keys(Update(d, o)))
    decreases |o|
  {
    if |o| > 0 {
      SetUnique(d, o[0].0, o[0].1);
      UpdateUnique(Set(d, o[0].0, o[0].1), o[1..]);
    }
  }

  /** Updating with entries the dictionary already holds changes nothing. */
  lemma {:induction false} UpdateSubsumed<V>(d: Dict<V>, o: Dict<V>)
    requires forall i :: 0 <= i < |o| ==> Get(d, o[i].0) == Some(o[i].1)
    ensures Update(d, o) == d
  {
    if |o| > 0 {
      SetPresent(d, o[0].0, o[0].1);
      UpdateSubsumed(d, o[1..]);
    }
  }

  /** A dictionary updated with itself is unchanged. */
  lemma UpdateSelf<V>(d: Dict<V>)
    requires Unique(Keys(d))
    ensures Update(d, d) == d
  {
    forall i | 0 <= i < |d| ensures Get(d, d[i].0) == Some(d[i].1) {
      GetEntry(d, i);
    }
    UpdateSubsumed(d, d);
  }

  /** `OrderedDict(**kwargs)` holds each keyword once, first occurrence first. */
  lemma FromPairsKeys<V>(kwargs: Dict<V>)
    requires Unique(Keys(kwargs))
    ensures Keys(FromPairs(kwargs)) == Keys(kwargs)
    ensures forall k :: Get(FromPairs(kwargs), k) == Get(kwargs, k)
  {
    UpdateKeys([], kwargs);
    FreshAll(Keys(kwargs));
    forall k ensures Get(FromPairs(kwargs), k) == Get(kwargs, k) {
      UpdateGet([], kwargs, k);
    }
  }

  /** Keys none of which has been seen are all fresh. */
  lemma {:induction false} FreshDisjoint(ks: seq<string>, seen: seq<string>)
    requires forall k :: k in ks ==> k !in seen
    ensures Fresh(ks, seen) == ks
  {
    if |ks| > 0 {
      FreshDisjoint(ks[1..], seen);
    }
  }

  lemma {:induction false} FreshAll(ks: seq<string>)
    ensures Fresh(ks, []) == ks
  {
    if |ks| > 0 {
      FreshAll(ks[1..]);
    }
  }

  // ---------------------------------------------------------------------------
  // The merge of XBeachModel.write: base updated by each component in turn

  predicate AllUnique<V>(comps: seq<Dict<V>>)
  {
    forall j :: 0 <= j < |comps| ==> Unique(Keys(comps[j]))
  }

  /** `base` updated with `comps[0]`, then `comps[1]`, and so on. */
  function MergeAll<V>(base: Dict<V>, comps: seq<Dict<V>>): Dict<V>
  {
    if |comps| == 0 then base
    else Update(MergeAll(base, comps[..|comps| - 1]), comps[|comps| - 1])
  }

  /** For a key several components hold, the last of them decides its value. */
  lemma {:induction false} MergeLastWins<V>(base: Dict<V>, comps: seq<Dict<V>>, j: nat, k: string)
    requires AllUnique(comps)
    requires j < |comps| && k in Keys(comps[j])
    requires forall j' :: j < j' < |comps| ==> k !in Keys(comps[j'])
    ensures Get(MergeAll(base, comps), k) == Get(comps[j], k)
  {
    var n := |comps|;
    MergeStep(base, comps, k);
    if j < n - 1 {
      var init := comps[..n - 1];
      assert init[j] == comps[j];
      assert forall j' :: j < j' < |init| ==> init[j'] == comps[j'];
      MergeLastWins(base, init, j, k);
    }
  }

  /** One step of the merge: the last component, if it holds the key, decides. */
  lemma MergeStep<V>(base: Dict<V>, comps: seq<Dict<V>>, k: string)
    requires |comps| > 0 && Unique(Keys(comps[|comps| - 1]))
    ensures var last := comps[|comps| - 1];
      Get(MergeAll(base, comps), k) ==
        if k in Keys(last) then Get(last, k) else Get(MergeAll(base, comps[..|comps| - 1]), k)
  {
    UpdateGet(MergeAll(base, comps[..|comps| - 1]), comps[|comps| - 1], k);
  }

  /** A key no component holds keeps the base value (or stays absent). */
  lemma {:induction false} MergeUntouched<V>(base: Dict<V>, comps: seq<Dict<V>>, k: string)
    requires AllUnique(comps)
    requires forall j :: 0 <= j < |comps| ==> k !in Keys(comps[j])
    ensures Get(MergeAll(base, comps), k) == Get(base, k)
  {
    var n := |comps|;
    if n > 0 {
      UpdateGet(MergeAll(base, comps[..n - 1]), comps[n - 1], k);
      MergeUntouched(base, comps[..n - 1], k);
    }
  }

  /**
   * Merging more components only appends keys: the keys after the first `i`
   * components are a prefix of the keys after all of them, in particular the
   * base keys stay in front in their own order.
   */
  lemma {:induction false} MergeKeepsPositions<V>(base: Dict<V>, comps: seq<Dict<V>>, i: nat)
    requires AllUnique(comps) && i <= |comps|
    ensures |Keys(MergeAll(base, comps[..i]))| <= |Keys(MergeAll(base, comps))|
    ensures Keys(MergeAll(base, comps[..i])) == Keys(MergeAll(base, comps))[..|MergeAll(base, comps[..i])|]
  {
    var n := |comps|;
    if i < n {
      assert comps[..n - 1][..i] == comps[..i];
      MergeKeepsPositions(base, comps[..n - 1], i);
      UpdateKeys(MergeAll(base, comps[..n - 1]), comps[n - 1]);
    } else {
      assert comps[..i] == comps;
    }
  }

  /** The merged keys are exactly the base keys and the keys of the components. */
  lemma {:induction false} MergeKeySet<V>(base: Dict<V>, comps: seq<Dict<V>>, k: string)
    requires AllUnique(comps)
    ensures k in Keys(MergeAll(base, comps)) <==>
              k in Keys(base) || exists j :: 0 <= j < |comps| && k in Keys(comps[j])
  {
    var n := |comps|;
    if n > 0 {
      var prev := MergeAll(base, comps[..n - 1]);
      UpdateKeys(prev, comps[n - 1]);
      MergeKeySet(base, comps[..n - 1], k);
      if exists j :: 0 <= j < n && k in Keys(comps[j]) {
        var j :| 0 <= j < n && k in Keys(comps[j]);
        if j < n - 1 {
          assert comps[..n - 1][j] == comps[j];
        }
      }
    }
  }

  /** Merged keys stay unique when the base's keys are. */
  lemma {:induction false} MergeUnique<V>(base: Dict<V>, comps: seq<Dict<V>>)
    requires Unique(Keys(base))
    ensures Unique(Keys(MergeAll(base, comps)))
  {
    var n := |comps|;
    if n > 0 {
      MergeUnique(base, comps[..n - 1]);
      UpdateUnique(MergeAll(base, comps[..n - 1]), comps[n - 1]);
    }
  }

  /** Re-applying the base itself as the first component changes nothing. */
  lemma {:induction false} MergeBaseFirst<V>(base: Dict<V>, rest: seq<Dict<V>>)
    requires Unique(Keys(base))
    ensures MergeAll(base, [base] + rest) == MergeAll(base, rest)
  {
    var n := |rest|;
    var all := [base] + rest;
    if n == 0 {
      assert all[..0] == [] && all[0] == base;
      assert MergeAll(base, all) == Update(base, base);
      UpdateSelf(base);
    } else {
      var front := rest[..n - 1];
      assert all[..n] == [base] + front && all[n] == rest[n - 1];
      assert MergeAll(base, all) == Update(MergeAll(base, [base] + front), rest[n - 1]);
      MergeBaseFirst(base, front);
      assert MergeAll(base, rest) == Update(MergeAll(base, front), rest[n - 1]);
    }
  }
}
