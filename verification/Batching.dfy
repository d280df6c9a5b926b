/** A batch is a list of indexed entries, each belonging to one shard. Running it in order, and
    running it shard by shard and scattering the replies by index, come to the same. */
module Batching {

  /** Runs the entries in order on one shard; replies are filed under their index. */
  ghost function Exec<S, I, R>(s: S, es: seq<(nat, I)>, step: (S, I) -> (S, R)): (S, map<nat, R>) {
    if es == [] then (s, map[])
    else
      var last := es[|es| - 1];
      var before := Exec(s, es[..|es| - 1], step);
      var after := step(before.0, last.1);
      (after.0, before.1[last.0 := after.1])
  }

  ghost predicate Routed<I>(es: seq<(nat, I)>, route: I -> nat, shards: nat) {
    forall i :: 0 <= i < |es| ==> route(es[i].1) < shards
  }

  /** Runs the entries in order, each on the shard it belongs to. */
  ghost function InOrder<S, I, R>(shards: seq<S>, es: seq<(nat, I)>, route: I -> nat,
                                  step: (S, I) -> (S, R)): (r: (seq<S>, map<nat, R>))
    requires Routed(es, route, |shards|)
    ensures |r.0| == |shards|
  {
    if es == [] then (shards, map[])
    else
      var last := es[|es| - 1];
      var before := InOrder(shards, es[..|es| - 1], route, step);
      var k := route(last.1);
      var after := step(before.0[k], last.1);
      (before.0[k := after.0], before.1[last.0 := after.1])
  }

  /** The entries of shard `k`, in order. */
  function Select<I>(es: seq<(nat, I)>, route: I -> nat, k: nat): seq<(nat, I)> {
    if es == [] then []
    else
      var last := es[|es| - 1];
      Select(es[..|es| - 1], route, k) + if route(last.1) == k then [last] else []
  }

  predicate IndicesDiffer<I>(es: seq<(nat, I)>) {
    forall i, j :: 0 <= i < j < |es| ==> es[i].0 != es[j].0
  }

  function Indices<I>(es: seq<(nat, I)>): set<nat> {
    set i | 0 <= i < |es| :: es[i].0
  }

  lemma IndicesAppend<I>(init: seq<(nat, I)>, last: (nat, I))
    ensures Indices(init + [last]) == Indices(init) + {last.0}
  {
    var es := init + [last];
    forall n | n in Indices(init) + {last.0} ensures n in Indices(es) {
      if n in Indices(init) {
        var i :| 0 <= i < |init| && init[i].0 == n;
        assert es[i].0 == n;
      } else {
        assert es[|init|].0 == n;
      }
    }
  }

  /** Entries of a shard come from the batch, and none is left out. */
  lemma {:induction false} SelectMembers<I>(es: seq<(nat, I)>, route: I -> nat, k: nat)
    ensures Indices(Select(es, route, k)) <= Indices(es)
    ensures forall i :: 0 <= i < |es| && route(es[i].1) == k ==>
      es[i].0 in Indices(Select(es, route, k))
  {
    if es != [] {
      var init, last := es[..|es| - 1], es[|es| - 1];
      SelectMembers(init, route, k);
      assert es == init + [last];
      IndicesAppend(init, last);
      var sel := Select(init, route, k);
      IndicesAppend(sel, last);
      assert sel + [] == sel;
      assert Select(es, route, k) == if route(last.1) == k then sel + [last] else sel;
      forall i | 0 <= i < |es| && route(es[i].1) == k
        ensures es[i].0 in Indices(Select(es, route, k))
      {
        if i < |init| { assert init[i].0 in Indices(sel); }
      }
    }
  }

  lemma FreshLast<I>(es: seq<(nat, I)>)
    requires es != [] && IndicesDiffer(es)
    ensures IndicesDiffer(es[..|es| - 1]) && es[|es| - 1].0 !in Indices(es[..|es| - 1])
  {
  }

  lemma DistinctAppend<I>(es: seq<(nat, I)>, last: (nat, I))
    requires IndicesDiffer(es) && last.0 !in Indices(es)
    ensures IndicesDiffer(es + [last])
  {
    forall i | 0 <= i < |es| ensures es[i].0 != last.0 {
      assert es[i].0 in Indices(es);
    }
  }

  lemma {:induction false} SelectDistinct<I>(es: seq<(nat, I)>, route: I -> nat, k: nat)
    requires IndicesDiffer(es)
    ensures IndicesDiffer(Select(es, route, k))
  {
    if es != [] {
      var init, last := es[..|es| - 1], es[|es| - 1];
      FreshLast(es);
      SelectDistinct(init, route, k);
      SelectMembers(init, route, k);
      DistinctAppend(Select(init, route, k), last);
    }
  }

  lemma {:induction false} ExecKeys<S, I, R>(s: S, es: seq<(nat, I)>, step: (S, I) -> (S, R))
    ensures Exec(s, es, step).1.Keys == Indices(es)
  {
    if es != [] {
      var init, last := es[..|es| - 1], es[|es| - 1];
      ExecKeys(s, init, step);
      assert es == init + [last];
      IndicesAppend(init, last);
    }
  }

  lemma {:induction false} InOrderKeys<S, I, R>(shards: seq<S>, es: seq<(nat, I)>, route: I -> nat,
                                                step: (S, I) -> (S, R))
    requires Routed(es, route, |shards|)
    ensures InOrder(shards, es, route, step).1.Keys == Indices(es)
  {
    if es != [] {
      var init, last := es[..|es| - 1], es[|es| - 1];
      InOrderKeys(shards, init, route, step);
      assert es == init + [last];
      IndicesAppend(init, last);
    }
  }

  /** A longer run keeps the replies of a shorter one. */
  lemma {:induction false} ExecPrefix<S, I, R>(s: S, es: seq<(nat, I)>, n: nat,
                                               step: (S, I) -> (S, R))
    requires n <= |es| && IndicesDiffer(es)
    ensures forall i :: 0 <= i < n ==>
      && es[i].0 in Exec(s, es[..n], step).1 && es[i].0 in Exec(s, es, step).1
      && Exec(s, es, step).1[es[i].0] == Exec(s, es[..n], step).1[es[i].0]
  {
    ExecKeys(s, es[..n], step);
    ExecKeys(s, es, step);
    forall i | 0 <= i < n ensures es[i].0 in Indices(es[..n]) && es[i].0 in Indices(es) {
      assert es[..n][i].0 == es[i].0;
    }
    if n == |es| {
      assert es[..n] == es;
    } else {
      var init := es[..|es| - 1];
      assert init[..n] == es[..n];
      ExecPrefix(s, init, n, step);
      assert forall i :: 0 <= i < n ==> init[i] == es[i];
    }
  }

  /** The shards do not influence one another: each one ends as if only its own entries had
      run on it, and every entry is answered as there. */
  lemma {:induction false} ShardsIndependent<S, I, R>(shards: seq<S>, es: seq<(nat, I)>,
                                                      route: I -> nat, step: (S, I) -> (S, R), k: nat)
    requires Routed(es, route, |shards|) && IndicesDiffer(es) && k < |shards|
    ensures var own := Exec(shards[k], Select(es, route, k), step);
      var all := InOrder(shards, es, route, step);
      && all.0[k] == own.0
      && forall n :: n in own.1 ==> n in all.1 && all.1[n] == own.1[n]
  {
    if es != [] {
      var init, last := es[..|es| - 1], es[|es| - 1];
      ShardsIndependent(shards, init, route, step, k);
      var sel := Select(init, route, k);
      if route(last.1) == k {
        assert (sel + [last])[..|sel|] == sel;
      } else {
        NotSelected(shards, es, route, step, k);
        assert Select(es, route, k) == sel;
      }
    }
  }

  /** The index of an entry of another shard is not among this shard's replies. */
  lemma NotSelected<S, I, R>(shards: seq<S>, es: seq<(nat, I)>, route: I -> nat,
                             step: (S, I) -> (S, R), k: nat)
    requires es != [] && IndicesDiffer(es) && k < |shards| && route(es[|es| - 1].1) != k
    ensures es[|es| - 1].0 !in Exec(shards[k], Select(es[..|es| - 1], route, k), step).1
  {
    FreshLast(es);
    ExecKeys(shards[k], Select(es[..|es| - 1], route, k), step);
    SelectMembers(es[..|es| - 1], route, k);
  }

  /** Running two stretches one after the other is running them joined. */
  lemma {:induction false} ExecAppend<S, I, R>(s: S, a: seq<(nat, I)>, b: seq<(nat, I)>,
                                               step: (S, I) -> (S, R))
    ensures var first := Exec(s, a, step);
      var second := Exec(first.0, b, step);
      Exec(s, a + b, step) == (second.0, first.1 + second.1)
  {
    if b == [] {
      assert a + b == a;
      assert Exec(s, a, step).1 + map[] == Exec(s, a, step).1;
    } else {
      var init, last := b[..|b| - 1], b[|b| - 1];
      ExecAppend(s, a, init, step);
      assert (a + b)[..|a + b| - 1] == a + init;
      var first := Exec(s, a, step);
      var second := Exec(first.0, init, step);
      var r := step(second.0, last.1);
      assert (first.1 + second.1)[last.0 := r.1] == first.1 + second.1[last.0 := r.1];
    }
  }

  lemma {:induction false} SelectAppend<I>(a: seq<(nat, I)>, b: seq<(nat, I)>, route: I -> nat, k: nat)
    ensures Select(a + b, route, k) == Select(a, route, k) + Select(b, route, k)
  {
    if b == [] {
      assert a + b == a;
    } else {
      var init := b[..|b| - 1];
      SelectAppend(a, init, route, k);
      assert (a + b)[..|a + b| - 1] == a + init;
    }
  }

  /** Selecting from a selection: all of it, or none. */
  lemma {:induction false} SelectTwice<I>(es: seq<(nat, I)>, route: I -> nat, k: nat, j: nat)
    ensures Select(Select(es, route, k), route, j) == if j == k then Select(es, route, k) else []
  {
    if es != [] {
      var init, last := es[..|es| - 1], es[|es| - 1];
      SelectTwice(init, route, k, j);
      SelectAppend(Select(init, route, k), [last], route, j);
      assert Select(init, route, k) + [] == Select(init, route, k);
    }
  }

  lemma IndicesJoin<I>(a: seq<(nat, I)>, b: seq<(nat, I)>)
    ensures Indices(a + b) == Indices(a) + Indices(b)
  {
    var es := a + b;
    forall n | n in Indices(a) + Indices(b) ensures n in Indices(es) {
      if n in Indices(a) {
        var i :| 0 <= i < |a| && a[i].0 == n;
        assert es[i].0 == n;
      } else {
        var i :| 0 <= i < |b| && b[i].0 == n;
        assert es[|a| + i].0 == n;
      }
    }
  }

  lemma JoinDiffers<I>(a: seq<(nat, I)>, b: seq<(nat, I)>)
    requires IndicesDiffer(a) && IndicesDiffer(b) && Indices(a) !! Indices(b)
    ensures IndicesDiffer(a + b)
  {
    var es := a + b;
    forall i, j | 0 <= i < j < |es| ensures es[i].0 != es[j].0 {
      if i < |a| <= j {
        assert es[i].0 in Indices(a) && es[j].0 == b[j - |a|].0 && b[j - |a|].0 in Indices(b);
      }
    }
  }
}
