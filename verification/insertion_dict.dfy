/**
 * Python `dict[str, str]` semantics as far as the tour manager observes
 * them: assignment overwrites the value of an existing key in place and
 * appends a new key at the end, and iteration follows insertion order.
 * A dict is represented by its items in iteration order.
 */
module InsertionDict {
  import opened Wrappers

  type Dict = seq<(string, string)>

  /** The keys in iteration order. */
  function Keys(d: Dict): seq<string> {
    if |d| == 0 then [] else [d[0].0] + Keys(d[1..])
  }

  /** `d.get(k)`. */
  function Get(d: Dict, k: string): Option<string> {
    if |d| == 0 then None
    else if d[0].0 == k then Some(d[0].1)
    else Get(d[1..], k)
  }

  predicate Distinct<T(==)>(xs: seq<T>) {
    forall i, j :: 0 <= i < j < |xs| ==> xs[i] != xs[j]
  }

  /** `d[k] = v`. */
  function Put(d: Dict, k: string, v: string): (r: Dict)
    ensures k in Keys(d) ==> Keys(r) == Keys(d)
    ensures k !in Keys(d) ==> Keys(r) == Keys(d) + [k]
    ensures Get(r, k) == Some(v)
    ensures forall x :: x != k ==> Get(r, x) == Get(d, x)
  {
    if |d| == 0 then [(k, v)]
    else if d[0].0 == k then [(k, v)] + d[1..]
    else [d[0]] + Put(d[1..], k, v)
  }

  /** Assigning `d[ks[i]] = vs[i]` for i = 0, 1, ... starting from `{}`. */
  function FromPairs(ks: seq<string>, vs: seq<string>): Dict
    requires |ks| == |vs|
  {
    if |ks| == 0 then []
    else Put(FromPairs(ks[..|ks| - 1], vs[..|vs| - 1]), ks[|ks| - 1], vs[|vs| - 1])
  }

  /** Position of the first occurrence of `x`. */
  function FirstIndex(xs: seq<string>, x: string): (r: nat)
    requires x in xs
    ensures r < |xs| && xs[r] == x
    ensures forall i :: 0 <= i < r ==> xs[i] != x
  {
    if xs[0] == x then 0 else 1 + FirstIndex(xs[1..], x)
  }

  /** Position of the last occurrence of `x`. */
  function LastIndex(xs: seq<string>, x: string): (r: nat)
    requires x in xs
    ensures r < |xs| && xs[r] == x
    ensures forall i :: r < i < |xs| ==> xs[i] != x
  {
    if xs[|xs| - 1] == x then |xs| - 1 else LastIndex(xs[..|xs| - 1], x)
  }

  /** The keys of the built dict are exactly the assigned keys. */
  lemma {:induction false} FromPairsKeySet(ks: seq<string>, vs: seq<string>)
    requires |ks| == |vs|
    ensures forall x :: x in Keys(FromPairs(ks, vs)) <==> x in ks
  {
    if |ks| > 0 {
      var n := |ks| - 1;
      FromPairsKeySet(ks[..n], vs[..n]);
      assert ks == ks[..n] + [ks[n]];
    }
  }

  /** A key is never listed twice. */
  lemma {:induction false} FromPairsKeysDistinct(ks: seq<string>, vs: seq<string>)
    requires |ks| == |vs|
    ensures Distinct(Keys(FromPairs(ks, vs)))
  {
    if |ks| > 0 {
      var n := |ks| - 1;
      FromPairsKeysDistinct(ks[..n], vs[..n]);
      var before := Keys(FromPairs(ks[..n], vs[..n]));
      var after := Keys(FromPairs(ks, vs));
      if ks[n] !in before {
        assert after == before + [ks[n]];
        forall i, j | 0 <= i < j < |after| ensures after[i] != after[j] {
          if j == |before| {
            assert after[i] == before[i];
          } else {
            assert after[i] == before[i] && after[j] == before[j];
          }
        }
      }
    }
  }

  /** `keys` are listed in the order in which they first occur in `ks`. */
  predicate FirstSeenOrder(ks: seq<string>, keys: seq<string>)
  {
    forall i, j :: 0 <= i < j < |keys| ==>
      keys[i] in ks && keys[j] in ks && FirstIndex(ks, keys[i]) < FirstIndex(ks, keys[j])
  }

  /** Each key sits where its first assignment puts it. */
  lemma {:induction false} FromPairsKeyOrder(ks: seq<string>, vs: seq<string>)
    requires |ks| == |vs|
    ensures FirstSeenOrder(ks, Keys(FromPairs(ks, vs)))
  {
    if |ks| > 0 {
      var n := |ks| - 1;
      var ks', vs' := ks[..n], vs[..n];
      FromPairsKeyOrder(ks', vs');
      FromPairsKeySet(ks', vs');
      var before := Keys(FromPairs(ks', vs'));
      var after := Keys(FromPairs(ks, vs));
      var k := ks[n];
      assert ks == ks' + [k];
      if k in ks' {
        assert after == before;
        forall i, j | 0 <= i < j < |after|
          ensures after[i] in ks && after[j] in ks && FirstIndex(ks, after[i]) < FirstIndex(ks, after[j])
        {
          FirstIndexAppend(ks', k, after[i]);
          FirstIndexAppend(ks', k, after[j]);
        }
      } else {
        assert after == before + [k];
        assert FirstIndex(ks, k) == n by {
          assert forall i :: 0 <= i < n ==> ks[i] == ks'[i];
        }
        forall i, j | 0 <= i < j < |after|
          ensures after[i] in ks && after[j] in ks && FirstIndex(ks, after[i]) < FirstIndex(ks, after[j])
        {
          assert after[i] == before[i] && before[i] in ks';
          FirstIndexAppend(ks', k, after[i]);
          if j < |before| {
            assert after[j] == before[j];
            FirstIndexAppend(ks', k, after[j]);
          }
        }
      }
    }
  }

  /**
   * The keys of the built dict are the distinct assigned keys, each at the
   * position of its first assignment relative to the others.
   */
  lemma FromPairsKeys(ks: seq<string>, vs: seq<string>)
    requires |ks| == |vs|
    ensures Distinct(Keys(FromPairs(ks, vs)))
    ensures forall x :: x in Keys(FromPairs(ks, vs)) <==> x in ks
    ensures FirstSeenOrder(ks, Keys(FromPairs(ks, vs)))
  {
    FromPairsKeysDistinct(ks, vs);
    FromPairsKeySet(ks, vs);
    FromPairsKeyOrder(ks, vs);
  }

  /**
   * The distinct elements of `ks`, each where it first occurs: the keys a
   * dict built by assigning the keys `ks` in order iterates.
   */
  function FirstSeen(ks: seq<string>): seq<string> {
    if |ks| == 0 then []
    else
      var r := FirstSeen(ks[..|ks| - 1]);
      if ks[|ks| - 1] in r then r else r + [ks[|ks| - 1]]
  }

  /** Whatever the values, the built dict iterates the first-seen keys. */
  lemma {:induction false} FromPairsFirstSeen(ks: seq<string>, vs: seq<string>)
    requires |ks| == |vs|
    ensures Keys(FromPairs(ks, vs)) == FirstSeen(ks)
  {
    if |ks| > 0 {
      FromPairsFirstSeen(ks[..|ks| - 1], vs[..|vs| - 1]);
    }
  }

  /** Each element of `ks` once, in the order of first occurrence. */
  lemma FirstSeenKeys(ks: seq<string>)
    ensures Distinct(FirstSeen(ks))
    ensures forall x :: x in FirstSeen(ks) <==> x in ks
    ensures FirstSeenOrder(ks, FirstSeen(ks))
  {
    FromPairsFirstSeen(ks, ks);
    FromPairsKeys(ks, ks);
  }

  lemma {:induction false} FirstIndexAppend(xs: seq<string>, y: string, x: string)
    requires x in xs
    ensures FirstIndex(xs + [y], x) == FirstIndex(xs, x)
  {
    var i := FirstIndex(xs, x);
    var j := FirstIndex(xs + [y], x);
    assert (xs + [y])[i] == x;
    assert j <= i;
    assert xs[j] == (xs + [y])[j];
  }

  /** Every key carries the value of its last assignment. */
  lemma {:induction false} FromPairsValues(ks: seq<string>, vs: seq<string>)
    requires |ks| == |vs|
    ensures forall x :: x in ks ==> Get(FromPairs(ks, vs), x) == Some(vs[LastIndex(ks, x)])
    ensures forall x :: x !in ks ==> Get(FromPairs(ks, vs), x) == None
  {
    if |ks| > 0 {
      var n := |ks| - 1;
      var ks', vs' := ks[..n], vs[..n];
      FromPairsValues(ks', vs');
      assert ks == ks' + [ks[n]];
      forall x | x in ks && x != ks[n]
        ensures LastIndex(ks, x) == LastIndex(ks', x)
      {
        assert x in ks';
      }
    }
  }

  /** The `i`-th key is the key of the `i`-th item. */
  lemma {:induction false} KeysAt(d: Dict)
    ensures |Keys(d)| == |d|
    ensures forall i :: 0 <= i < |d| ==> Keys(d)[i] == d[i].0
  {
    if |d| > 0 {
      KeysAt(d[1..]);
    }
  }

  /** In a dict without repeated keys, looking up an item's key finds that item's value. */
  lemma {:induction false} GetItem(d: Dict, i: nat)
    requires Distinct(Keys(d))
    requires i < |d|
    ensures Get(d, d[i].0) == Some(d[i].1)
  {
    KeysAt(d);
    if i > 0 {
      assert d[0].0 != d[i].0 by {
        assert Keys(d)[0] == d[0].0 && Keys(d)[i] == d[i].0;
      }
      KeysAt(d[1..]);
      assert Distinct(Keys(d[1..])) by {
        forall a, b | 0 <= a < b < |d| - 1 ensures Keys(d[1..])[a] != Keys(d[1..])[b] {
          assert Keys(d[1..])[a] == Keys(d)[a + 1] && Keys(d[1..])[b] == Keys(d)[b + 1];
        }
      }
      GetItem(d[1..], i - 1);
    }
  }

  /**
   * What `.items()` yields after the assignments: each item is a distinct
   * assigned key, in first-assignment order, paired with the value of its
   * last assignment.
   */
  lemma FromPairsItems(ks: seq<string>, vs: seq<string>)
    requires |ks| == |vs|
    ensures var d := FromPairs(ks, vs);
            && Keys(d) == seq(|d|, i requires 0 <= i < |d| => d[i].0)
            && FirstSeenOrder(ks, Keys(d))
            && forall i :: 0 <= i < |d| ==> d[i].0 in ks && d[i].1 == vs[LastIndex(ks, d[i].0)]
  {
    var d := FromPairs(ks, vs);
    FromPairsKeys(ks, vs);
    FromPairsValues(ks, vs);
    KeysAt(d);
    forall i | 0 <= i < |d| ensures d[i].0 in ks && d[i].1 == vs[LastIndex(ks, d[i].0)] {
      assert Keys(d)[i] == d[i].0;
      GetItem(d, i);
    }
  }

  /** Without repeated keys the dict is the list of pairs itself. */
  lemma {:induction false} FromPairsDistinct(ks: seq<string>, vs: seq<string>)
    requires |ks| == |vs|
    requires Distinct(ks)
    ensures FromPairs(ks, vs) == seq(|ks|, i requires 0 <= i < |ks| => (ks[i], vs[i]))
  {
    if |ks| > 0 {
      var n := |ks| - 1;
      var ks', vs' := ks[..n], vs[..n];
      FromPairsDistinct(ks', vs');
      FromPairsKeys(ks', vs');
      assert ks[n] !in ks';
      PutNewKey(FromPairs(ks', vs'), ks[n], vs[n]);
    }
  }

  lemma {:induction false} PutNewKey(d: Dict, k: string, v: string)
    requires k !in Keys(d)
    ensures Put(d, k, v) == d + [(k, v)]
  {
    if |d| > 0 {
      PutNewKey(d[1..], k, v);
      assert d == [d[0]] + d[1..];
    }
  }
}
