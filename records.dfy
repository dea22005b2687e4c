/**
 * A JavaScript plain object as an ordered list of (key, value) members.
 * Writing a key that is already present replaces its value in place;
 * writing a new key appends it. An object literal writes its members left
 * to right, and `{...a, ...b}` writes the members of `b` over `a`.
 */
module Records {
  import opened Wrappers

  function Keys<V>(m: seq<(string, V)>): (ks: seq<string>)
    ensures |ks| == |m|
  {
    seq(|m|, i requires 0 <= i < |m| => m[i].0)
  }

  /** `m[k]`: the value of the first member named `k`. */
  function Get<V>(m: seq<(string, V)>, k: string): Option<V> {
    if |m| == 0 then None
    else if m[0].0 == k then Some(m[0].1)
    else Get(m[1..], k)
  }

  predicate Distinct(xs: seq<string>) {
    forall i, j :: 0 <= i < j < |xs| ==> xs[i] != xs[j]
  }

  /** `{...m, [k]: v}`: a present key keeps its position and takes `v`; a new key goes last. */
  function Put<V>(m: seq<(string, V)>, k: string, v: V): seq<(string, V)> {
    if |m| == 0 then [(k, v)]
    else if m[0].0 == k then [(k, v)] + m[1..]
    else [m[0]] + Put(m[1..], k, v)
  }

  /** After `Put`, the key reads back the value written. */
  lemma {:induction false} PutGet<V>(m: seq<(string, V)>, k: string, v: V)
    ensures Get(Put(m, k, v), k) == Some(v)
  {
    if |m| > 0 && m[0].0 != k {
      assert Put(m, k, v)[1..] == Put(m[1..], k, v);
      PutGet(m[1..], k, v);
    }
  }

  /** `Put` leaves every other key's value as it was. */
  lemma {:induction false} PutGetOther<V>(m: seq<(string, V)>, k: string, v: V, other: string)
    requires other != k
    ensures Get(Put(m, k, v), other) == Get(m, other)
  {
    if |m| > 0 && m[0].0 != k {
      assert Put(m, k, v)[1..] == Put(m[1..], k, v);
      PutGetOther(m[1..], k, v, other);
    }
  }

  /** A key already present keeps its position; a new key is appended. */
  lemma {:induction false} PutKeys<V>(m: seq<(string, V)>, k: string, v: V)
    ensures Keys(Put(m, k, v)) == if k in Keys(m) then Keys(m) else Keys(m) + [k]
  {
    if |m| > 0 {
      assert Keys(m) == [m[0].0] + Keys(m[1..]);
      if m[0].0 != k {
        var r := Put(m, k, v);
        assert r[1..] == Put(m[1..], k, v);
        assert Keys(r) == [m[0].0] + Keys(Put(m[1..], k, v));
        PutKeys(m[1..], k, v);
      } else {
        assert Keys(Put(m, k, v)) == [k] + Keys(m[1..]);
      }
    }
  }

  /** The members of `es` written over `m` one after the other. */
  function Assign<V>(m: seq<(string, V)>, es: seq<(string, V)>): seq<(string, V)>
    decreases |es|
  {
    if |es| == 0 then m
    else Put(Assign(m, es[..|es| - 1]), es[|es| - 1].0, es[|es| - 1].1)
  }

  /** An object literal `{k1: v1, k2: v2, ...}`, or `reduce` over `{...acc, [k]: v}` from `{}`. */
  function Object<V>(es: seq<(string, V)>): seq<(string, V)> {
    Assign([], es)
  }

  /** The first occurrence of each element, in order of first occurrence. */
  function Dedup(xs: seq<string>): (r: seq<string>)
    ensures forall x :: x in r <==> x in xs
    ensures Distinct(r)
    decreases |xs|
  {
    if |xs| == 0 then []
    else
      var init := Dedup(xs[..|xs| - 1]);
      assert xs == xs[..|xs| - 1] + [xs[|xs| - 1]];
      if xs[|xs| - 1] in init then init else init + [xs[|xs| - 1]]
  }

  lemma {:induction false} DedupDistinct(xs: seq<string>)
    requires Distinct(xs)
    ensures Dedup(xs) == xs
    decreases |xs|
  {
    if |xs| > 0 {
      DedupDistinct(xs[..|xs| - 1]);
      assert xs == xs[..|xs| - 1] + [xs[|xs| - 1]];
    }
  }

  /**
   * The members of `Assign(m, es)` are the keys of `m` then the new keys of
   * `es`, each once, at the position of its first occurrence.
   */
  lemma {:induction false} AssignKeys<V>(m: seq<(string, V)>, es: seq<(string, V)>)
    requires Distinct(Keys(m))
    ensures Keys(Assign(m, es)) == Dedup(Keys(m) + Keys(es))
    decreases |es|
  {
    if |es| == 0 {
      assert Keys(m) + Keys(es) == Keys(m);
      DedupDistinct(Keys(m));
    } else {
      var init := es[..|es| - 1];
      AssignKeys(m, init);
      PutKeys(Assign(m, init), es[|es| - 1].0, es[|es| - 1].1);
      assert Keys(m) + Keys(es) == (Keys(m) + Keys(init)) + [es[|es| - 1].0];
      assert (Keys(m) + Keys(es))[..|Keys(m) + Keys(es)| - 1] == Keys(m) + Keys(init);
    }
  }

  /** A key that `es` does not write keeps the value it has in `m`. */
  lemma {:induction false} AssignGetUnwritten<V>(m: seq<(string, V)>, es: seq<(string, V)>, k: string)
    requires k !in Keys(es)
    ensures Get(Assign(m, es), k) == Get(m, k)
    decreases |es|
  {
    if |es| > 0 {
      var init := es[..|es| - 1];
      assert es[|es| - 1].0 == Keys(es)[|es| - 1];
      assert k !in Keys(init) by {
        assert forall i :: 0 <= i < |init| ==> Keys(init)[i] == Keys(es)[i];
      }
      AssignGetUnwritten(m, init, k);
      PutGetOther(Assign(m, init), es[|es| - 1].0, es[|es| - 1].1, k);
    }
  }

  /** A key that `es` writes has the value of its last write, at index `i`. */
  lemma {:induction false} AssignGetLast<V>(m: seq<(string, V)>, es: seq<(string, V)>, k: string, i: nat)
    requires i < |es| && es[i].0 == k
    requires forall j :: i < j < |es| ==> es[j].0 != k
    ensures Get(Assign(m, es), k) == Some(es[i].1)
    decreases |es|
  {
    var init := es[..|es| - 1];
    if i < |es| - 1 {
      assert es[|es| - 1].0 != k;
      AssignGetLast(m, init, k, i);
      PutGetOther(Assign(m, init), es[|es| - 1].0, es[|es| - 1].1, k);
    } else {
      PutGet(Assign(m, init), k, es[i].1);
    }
  }

  /** With no repeated key, writing the members appends them: the literal is the list itself. */
  lemma {:induction false} AssignFresh<V>(m: seq<(string, V)>, es: seq<(string, V)>)
    requires Distinct(Keys(m) + Keys(es))
    ensures Assign(m, es) == m + es
    decreases |es|
  {
    if |es| > 0 {
      var init := es[..|es| - 1];
      var last := es[|es| - 1];
      var all := Keys(m) + Keys(es);
      var before := Keys(m) + Keys(init);
      assert before == all[..|m| + |init|];
      assert Distinct(before);
      AssignFresh(m, init);
      assert Keys(m + init) == before;
      assert all[|m| + |init|] == last.0;
      assert last.0 !in before;
      PutNew(m + init, last.0, last.1);
      assert m + init + [last] == m + es;
    } else {
      assert m + es == m;
    }
  }

  lemma {:induction false} PutNew<V>(m: seq<(string, V)>, k: string, v: V)
    requires k !in Keys(m)
    ensures Put(m, k, v) == m + [(k, v)]
  {
    if |m| > 0 {
      assert Keys(m)[0] == m[0].0;
      assert Keys(m[1..]) == Keys(m)[1..];
      PutNew(m[1..], k, v);
      assert [m[0]] + (m[1..] + [(k, v)]) == m + [(k, v)];
    }
  }

  /** Writing one new key appends it. */
  lemma AssignOne<V>(m: seq<(string, V)>, k: string, v: V)
    requires k !in Keys(m)
    ensures Assign(m, [(k, v)]) == m + [(k, v)]
  {
    assert [(k, v)][..0] == [];
    PutNew(m, k, v);
  }

  /** Writing two new, different keys appends them in order. */
  lemma AssignTwo<V>(m: seq<(string, V)>, k1: string, v1: V, k2: string, v2: V)
    requires k1 !in Keys(m) && k2 !in Keys(m) && k1 != k2
    ensures Assign(m, [(k1, v1), (k2, v2)]) == m + [(k1, v1), (k2, v2)]
  {
    assert [(k1, v1), (k2, v2)][..1] == [(k1, v1)];
    AssignOne(m, k1, v1);
    assert Keys(m + [(k1, v1)]) == Keys(m) + [k1];
    PutNew(m + [(k1, v1)], k2, v2);
  }

  /** Writing three new, different keys appends them in order. */
  lemma AssignThree<V>(m: seq<(string, V)>, k1: string, v1: V, k2: string, v2: V, k3: string, v3: V)
    requires k1 !in Keys(m) && k2 !in Keys(m) && k3 !in Keys(m)
    requires k1 != k2 && k1 != k3 && k2 != k3
    ensures Assign(m, [(k1, v1), (k2, v2), (k3, v3)]) == m + [(k1, v1), (k2, v2), (k3, v3)]
  {
    assert [(k1, v1), (k2, v2), (k3, v3)][..2] == [(k1, v1), (k2, v2)];
    AssignTwo(m, k1, v1, k2, v2);
    assert Keys(m + [(k1, v1), (k2, v2)]) == Keys(m) + [k1, k2];
    PutNew(m + [(k1, v1), (k2, v2)], k3, v3);
  }

  /** Writing `a + b` is writing `a`, then `b`. */
  lemma {:induction false} AssignSplit<V>(m: seq<(string, V)>, a: seq<(string, V)>, b: seq<(string, V)>)
    ensures Assign(m, a + b) == Assign(Assign(m, a), b)
    decreases |b|
  {
    if |b| == 0 {
      assert a + b == a;
    } else {
      assert (a + b)[..|a + b| - 1] == a + b[..|b| - 1];
      AssignSplit(m, a, b[..|b| - 1]);
    }
  }

  /** The member at index `i` is the one `Get` finds, when no earlier member has its key. */
  lemma {:induction false} GetAt<V>(m: seq<(string, V)>, i: nat)
    requires i < |m|
    requires forall j :: 0 <= j < i ==> m[j].0 != m[i].0
    ensures Get(m, m[i].0) == Some(m[i].1)
  {
    if i > 0 {
      GetAt(m[1..], i - 1);
    }
  }

  /** Solver aid: the keys of a concatenation are the concatenated keys. */
  lemma KeysAppend<V>(a: seq<(string, V)>, b: seq<(string, V)>)
    ensures Keys(a + b) == Keys(a) + Keys(b)
  {
  }
}
