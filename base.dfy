/** Shared vocabulary: an optional value, the machine-translation service
    every translator of the tool calls (translatepy's `Translator`), and
    the two ways the translators write results back: storing a run of
    key/value pairs into a dict, and writing values into a result list at
    given indices. */
module Base {

  datatype Option<+T> = None | Some(value: T)

  /** The service is an oracle: given a text and a target language it
      either answers or raises; `Failed` carries the exception's message. */
  datatype Reply = Translated(text: string) | Failed(message: string)

  /** `str(translator.translate(text, lang))` */
  type Provider = (string, string) -> Reply

  /** `for k, v in zip(keys, vals): m[k] = v` */
  function StoreAll<K, V>(m: map<K, V>, keys: seq<K>, vals: seq<V>): (r: map<K, V>)
    requires |keys| == |vals|
    ensures r.Keys == m.Keys + set k | k in keys
    decreases |keys|
  {
    if keys == [] then m
    else StoreAll(m, keys[..|keys| - 1], vals[..|vals| - 1])[keys[|keys| - 1] := vals[|vals| - 1]]
  }

  /** A key stored more than once keeps the value of its last store. */
  lemma {:induction false} StoreAllLast<K, V>(m: map<K, V>, keys: seq<K>, vals: seq<V>, i: nat)
    requires |keys| == |vals| && i < |keys|
    requires forall j :: i < j < |keys| ==> keys[j] != keys[i]
    ensures StoreAll(m, keys, vals)[keys[i]] == vals[i]
    decreases |keys|
  {
    var n := |keys| - 1;
    var prev := StoreAll(m, keys[..n], vals[..n]);
    assert StoreAll(m, keys, vals) == prev[keys[n] := vals[n]];
    if i < n {
      assert keys[..n][i] == keys[i] && vals[..n][i] == vals[i] && keys[n] != keys[i];
      assert forall j :: i < j < n ==> keys[..n][j] == keys[j];
      StoreAllLast(m, keys[..n], vals[..n], i);
    }
  }

  /** A key that is not stored keeps its old value. */
  lemma {:induction false} StoreAllOther<K, V>(m: map<K, V>, keys: seq<K>, vals: seq<V>, k: K)
    requires |keys| == |vals| && k !in keys && k in m
    ensures StoreAll(m, keys, vals)[k] == m[k]
    decreases |keys|
  {
    var n := |keys|;
    if n > 0 {
      assert k !in keys[..n - 1];
      StoreAllOther(m, keys[..n - 1], vals[..n - 1], k);
    }
  }

  /** `[x for x in xs if keep(x)]` */
  function Filter<T>(xs: seq<T>, keep: T -> bool): (r: seq<T>)
    ensures |r| <= |xs|
  {
    if xs == [] then []
    else Filter(xs[..|xs| - 1], keep) + (if keep(xs[|xs| - 1]) then [xs[|xs| - 1]] else [])
  }

  /** The filter keeps exactly the elements that pass, in their order. */
  lemma {:induction false} FilterMembers<T>(xs: seq<T>, keep: T -> bool)
    ensures forall x :: x in Filter(xs, keep) <==> x in xs && keep(x)
  {
    if xs != [] {
      var n := |xs| - 1;
      FilterMembers(xs[..n], keep);
      assert xs == xs[..n] + [xs[n]];
    }
  }

  predicate Increasing(idx: seq<nat>) {
    forall a, b :: 0 <= a < b < |idx| ==> idx[a] < idx[b]
  }

  predicate Below(idx: seq<nat>, n: nat) {
    forall j :: 0 <= j < |idx| ==> idx[j] < n
  }

  /** The positions of the elements that pass, in order: the
      `original_indices` that a filtering loop collects beside its result. */
  function Where<T>(xs: seq<T>, keep: T -> bool): (r: seq<nat>)
    ensures |r| <= |xs| && Increasing(r) && Below(r, |xs|)
    ensures forall i :: i in r <==> 0 <= i < |xs| && keep(xs[i])
  {
    if xs == [] then []
    else
      var r := Where(xs[..|xs| - 1], keep);
      assert forall i :: i in r ==> i < |xs| - 1 && keep(xs[i]);
      r + (if keep(xs[|xs| - 1]) then [|xs| - 1] else [])
  }

  /** A non-empty sequence is its front followed by its last element. */
  lemma InitLast<T>(xs: seq<T>)
    requires xs != []
    ensures xs[..|xs| - 1] + [xs[|xs| - 1]] == xs
  {
  }

  /** Looking at one more element adds its position when it passes. */
  lemma WhereSnoc<T>(xs: seq<T>, i: nat, keep: T -> bool)
    requires i < |xs|
    ensures Where(xs[..i + 1], keep) == Where(xs[..i], keep) + (if keep(xs[i]) then [i] else [])
  {
    assert xs[..i + 1][..i] == xs[..i];
  }

  /** No element passes, so no position is collected. */
  lemma {:induction false} WhereNone<T>(xs: seq<T>, keep: T -> bool)
    requires forall i :: 0 <= i < |xs| ==> !keep(xs[i])
    ensures Where(xs, keep) == []
  {
    if xs != [] {
      WhereNone(xs[..|xs| - 1], keep);
    }
  }

  /** `[xs[i] for i in idx]` */
  function Picked<T>(xs: seq<T>, idx: seq<nat>): (r: seq<T>)
    requires Below(idx, |xs|)
    ensures |r| == |idx| && forall k :: 0 <= k < |idx| ==> r[k] == xs[idx[k]]
  {
    seq(|idx|, k requires 0 <= k < |idx| => xs[idx[k]])
  }

  /** Picking one more position appends the element there. */
  lemma PickedSnoc<T>(xs: seq<T>, idx: seq<nat>, i: nat)
    requires Below(idx, |xs|) && i < |xs|
    ensures Below(idx + [i], |xs|) && Picked(xs, idx + [i]) == Picked(xs, idx) + [xs[i]]
  {
    assert forall k :: 0 <= k < |idx| ==> (idx + [i])[k] == idx[k];
  }

  /** Two ascending sequences with the same members are equal. */
  lemma {:induction false} IncreasingUnique(a: seq<nat>, b: seq<nat>)
    requires Increasing(a) && Increasing(b) && forall x :: x in a <==> x in b
    ensures a == b
  {
    assert a != [] ==> a[0] in b;
    assert b != [] ==> b[0] in a;
    if a != [] && b != [] {
      forall x | x in b ensures b[0] <= x { var k :| 0 <= k < |b| && b[k] == x; }
      forall x | x in a ensures a[0] <= x { var k :| 0 <= k < |a| && a[k] == x; }
      assert a[0] == b[0];
      forall x ensures x in a[1..] <==> x in b[1..] {
        assert x in a[1..] <==> x in a && x != a[0] by {
          if x in a[1..] { var k :| 1 <= k < |a| && a[k] == x; }
        }
        assert x in b[1..] <==> x in b && x != b[0] by {
          if x in b[1..] { var k :| 1 <= k < |b| && b[k] == x; }
        }
      }
      IncreasingUnique(a[1..], b[1..]);
      assert a == [a[0]] + a[1..] && b == [b[0]] + b[1..];
    }
  }

  /** The last position of `p` in `idx`, or -1 when it does not occur. */
  function LastIndex(idx: seq<nat>, p: nat): (r: int)
    ensures -1 <= r < |idx|
    ensures r >= 0 ==> idx[r] == p && forall j :: r < j < |idx| ==> idx[j] != p
    ensures r < 0 ==> p !in idx
  {
    if idx == [] then -1
    else if idx[|idx| - 1] == p then |idx| - 1
    else LastIndex(idx[..|idx| - 1], p)
  }

  /** `for j in range(len(idx)): result[idx[j]] = vals[j]`, on a copy of
      `base`: each position holds the value of the last write to it, and
      positions never written keep their value. */
  function Scatter<T>(base: seq<T>, idx: seq<nat>, vals: seq<T>): (r: seq<T>)
    requires |idx| == |vals|
    ensures |r| == |base|
  {
    seq(|base|, p requires 0 <= p < |base| =>
      if LastIndex(idx, p) >= 0 then vals[LastIndex(idx, p)] else base[p])
  }

  /** One more write is one more sequence update. */
  lemma ScatterSnoc<T>(base: seq<T>, idx: seq<nat>, vals: seq<T>, i: nat, v: T)
    requires |idx| == |vals| && i < |base|
    ensures Scatter(base, idx + [i], vals + [v]) == Scatter(base, idx, vals)[i := v]
  {
    var idx', vals' := idx + [i], vals + [v];
    forall p | 0 <= p < |base|
      ensures Scatter(base, idx', vals')[p] == Scatter(base, idx, vals)[i := v][p]
    {
      if p != i {
        assert LastIndex(idx', p) == LastIndex(idx, p) by {
          assert idx'[..|idx'| - 1] == idx;
        }
      }
    }
  }

  /** Writing at distinct indices puts every value at its own index. */
  lemma ScatterAt<T>(base: seq<T>, idx: seq<nat>, vals: seq<T>, j: nat)
    requires |idx| == |vals| && Below(idx, |base|) && Increasing(idx) && j < |idx|
    ensures Scatter(base, idx, vals)[idx[j]] == vals[j]
  {
    var r := LastIndex(idx, idx[j]);
    assert r == j;
  }

  /** Indices that are not written keep the value of `base`. */
  lemma ScatterElsewhere<T>(base: seq<T>, idx: seq<nat>, vals: seq<T>, p: nat)
    requires |idx| == |vals| && p < |base| && p !in idx
    ensures Scatter(base, idx, vals)[p] == base[p]
  {
  }
}
