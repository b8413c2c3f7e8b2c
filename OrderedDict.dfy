/**
 A Python `dict` from strings to strings, as far as the registry builder uses
 one: keys remember the order of their first insertion, and storing under a
 key already present replaces the value where the key stands.
 */
module OrderedDict {

  datatype Dict = Dict(keys: seq<string>, values: map<string, string>)

  /** The keys in insertion order are exactly the mapped keys, each once. */
  predicate Valid(d: Dict)
  {
    && (forall i, j :: 0 <= i < j < |d.keys| ==> d.keys[i] != d.keys[j])
    && (forall k :: k in d.keys ==> k in d.values)
    && (forall k :: k in d.values ==> k in d.keys)
  }

  /** `d[k] = v` */
  function Put(d: Dict, k: string, v: string): (r: Dict)
    ensures Valid(d) ==> Valid(r)
  {
    if k in d.values then Dict(d.keys, d.values[k := v])
    else Dict(d.keys + [k], d.values[k := v])
  }

  /** The empty dictionary `{}`. */
  function Empty(): (d: Dict)
    ensures Valid(d) && d.keys == []
  {
    Dict([], map[])
  }

  /** The dictionary built by storing the pairs one after the other, as a comprehension does. */
  function FromPairs(ps: seq<(string, string)>): (d: Dict)
    ensures Valid(d)
    decreases |ps|
  {
    if ps == [] then Empty()
    else Put(FromPairs(ps[..|ps| - 1]), ps[|ps| - 1].0, ps[|ps| - 1].1)
  }

  /** Storing one more pair after the others. */
  lemma FromPairsSnoc(ps: seq<(string, string)>, k: string, v: string)
    ensures FromPairs(ps + [(k, v)]) == Put(FromPairs(ps), k, v)
  {
    assert (ps + [(k, v)])[..|ps|] == ps;
  }

  /** Storing under `k` adds `k` to the keys and nothing else. */
  lemma PutKeys(d: Dict, k: string, v: string)
    ensures forall x :: x in Put(d, k, v).values <==> x in d.values || x == k
  {
  }

  /** Storing under `k` sets the value under `k` and leaves the others. */
  lemma PutValues(d: Dict, k: string, v: string)
    ensures k in Put(d, k, v).values && Put(d, k, v).values[k] == v
    ensures forall x :: x in d.values && x != k ==> Put(d, k, v).values[x] == d.values[x]
  {
  }

  lemma NamesSnoc(ps: seq<(string, string)>, p: (string, string))
    ensures forall x :: x in Names(ps + [p]) <==> x in Names(ps) || x == p.0
  {
    assert Names(ps + [p]) == Names(ps) + [p.0];
  }

  /** The keys of the pairs, in order and with repetitions. */
  function Names(ps: seq<(string, string)>): (r: seq<string>)
    ensures |r| == |ps|
    ensures forall i :: 0 <= i < |ps| ==> r[i] == ps[i].0
  {
    seq(|ps|, i requires 0 <= i < |ps| => ps[i].0)
  }

  /** The position of the first occurrence of `k` in `ns`, or -1. */
  function FirstIndex(ns: seq<string>, k: string): (i: int)
    ensures -1 <= i < |ns|
    ensures 0 <= i ==> ns[i] == k && forall j :: 0 <= j < i ==> ns[j] != k
    ensures i == -1 <==> k !in ns
    decreases |ns|
  {
    if ns == [] then -1
    else if ns[0] == k then 0
    else
      var i := FirstIndex(ns[1..], k);
      if i < 0 then -1 else i + 1
  }

  /** The key at `m` does not occur again after it. */
  predicate LastOccurrence(ns: seq<string>, m: int)
    requires 0 <= m < |ns|
  {
    forall j :: m < j < |ns| ==> ns[j] != ns[m]
  }

  /** The keys are exactly the keys among the pairs. */
  lemma {:induction false} FromPairsKeys(ps: seq<(string, string)>)
    ensures forall k :: k in FromPairs(ps).values <==> k in Names(ps)
    decreases |ps|
  {
    if ps != [] {
      var n := |ps| - 1;
      var init := ps[..n];
      var k := ps[n].0;
      FromPairsKeys(init);
      PutKeys(FromPairs(init), k, ps[n].1);
      NamesSnoc(init, ps[n]);
      assert init + [ps[n]] == ps;
    }
  }

  /** The value under each key is the value of the last pair with that key. */
  lemma {:induction false} FromPairsLastWins(ps: seq<(string, string)>)
    ensures forall i :: 0 <= i < |ps| && LastOccurrence(Names(ps), i) ==>
              ps[i].0 in FromPairs(ps).values && FromPairs(ps).values[ps[i].0] == ps[i].1
    decreases |ps|
  {
    if ps != [] {
      var n := |ps| - 1;
      var init := ps[..n];
      FromPairsLastWins(init);
      PutValues(FromPairs(init), ps[n].0, ps[n].1);
      forall i | 0 <= i < |ps| && LastOccurrence(Names(ps), i)
        ensures ps[i].0 in FromPairs(ps).values && FromPairs(ps).values[ps[i].0] == ps[i].1
      {
        if i < n {
          assert init[i] == ps[i] && Names(ps)[n] != Names(ps)[i];
          assert LastOccurrence(Names(init), i) by {
            forall j | i < j < |init| ensures Names(init)[j] != Names(init)[i] {
              assert init[j] == ps[j] && Names(ps)[j] != Names(ps)[i];
            }
          }
        }
      }
    }
  }

  /** `keys` stand in the order in which they first occur in `ns`. */
  predicate FirstSeenOrder(ns: seq<string>, keys: seq<string>)
  {
    forall a, b :: 0 <= a < b < |keys| ==> 0 <= FirstIndex(ns, keys[a]) < FirstIndex(ns, keys[b])
  }

  /** The keys stand in the order in which they first occur among the pairs. */
  lemma {:induction false} FromPairsFirstSeen(ps: seq<(string, string)>)
    ensures FirstSeenOrder(Names(ps), FromPairs(ps).keys)
    decreases |ps|
  {
    if ps != [] {
      var n := |ps| - 1;
      var init := ps[..n];
      var k := ps[n].0;
      FromPairsFirstSeen(init);
      FromPairsKeys(init);
      assert Names(ps) == Names(init) + [k];
      var before := FromPairs(init).keys;
      assert forall a :: 0 <= a < |before| ==> before[a] in Names(init);
      FirstSeenOrderStep(Names(init), k, before);
    } else {
      assert FromPairs(ps).keys == [];
    }
  }

  /** Appending a key to the keys when it is new keeps them in first-seen order. */
  lemma FirstSeenOrderStep(ns: seq<string>, k: string, keys: seq<string>)
    requires FirstSeenOrder(ns, keys)
    requires forall a :: 0 <= a < |keys| ==> keys[a] in ns
    ensures FirstSeenOrder(ns + [k], if k in ns then keys else keys + [k])
  {
    var after := if k in ns then keys else keys + [k];
    forall x | x in ns ensures FirstIndex(ns + [k], x) == FirstIndex(ns, x) {
      FirstIndexExtend(ns, k, x);
    }
    FirstIndexExtend(ns, k, k);
    forall a, b | 0 <= a < b < |after|
      ensures 0 <= FirstIndex(ns + [k], after[a]) < FirstIndex(ns + [k], after[b])
    {
      assert after[a] == keys[a];
      if b < |keys| {
        assert after[b] == keys[b];
      }
    }
  }

  /** Appending a key does not move the first occurrence of a key already present. */
  lemma {:induction false} FirstIndexExtend(ns: seq<string>, k: string, x: string)
    ensures x in ns ==> FirstIndex(ns + [k], x) == FirstIndex(ns, x)
    ensures x !in ns && x == k ==> FirstIndex(ns + [k], x) == |ns|
    decreases |ns|
  {
    if ns != [] {
      assert (ns + [k])[1..] == ns[1..] + [k];
      FirstIndexExtend(ns[1..], k, x);
    }
  }
}
