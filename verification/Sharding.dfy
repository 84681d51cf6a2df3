/** How a run's dataset is cut into shards: shard `i` of `n` takes the cases whose position is `i`
    modulo `n`, and repeats them for every iteration. */
module Sharding {
  import opened Collections

  type Item = (string, int)

  function SelectedFrom(cases: seq<string>, count: nat, shard: nat, from: nat): seq<string>
    requires count > 0 && from <= |cases|
    decreases |cases| - from
  {
    if from == |cases| then []
    else (if from % count == shard then [cases[from]] else []) + SelectedFrom(cases, count, shard, from + 1)
  }

  function AtIteration(cases: seq<string>, iteration: int): seq<Item> {
    seq(|cases|, i requires 0 <= i < |cases| => (cases[i], iteration))
  }

  function Repeated(cases: seq<string>, iterations: nat): seq<Item> {
    if iterations == 0 then [] else Repeated(cases, iterations - 1) + AtIteration(cases, iterations - 1)
  }

  /** The work list of one shard. */
  function Work(cases: seq<string>, count: nat, shard: nat, iterations: nat): seq<Item>
    requires count > 0
  {
    Repeated(SelectedFrom(cases, count, shard, 0), iterations)
  }

  lemma {:induction false} SelectedMembers(cases: seq<string>, count: nat, shard: nat, from: nat, id: string)
    requires count > 0 && from <= |cases|
    ensures id in SelectedFrom(cases, count, shard, from) <==>
            exists k :: from <= k < |cases| && k % count == shard && cases[k] == id
    decreases |cases| - from
  {
    if from < |cases| {
      SelectedMembers(cases, count, shard, from + 1, id);
    }
  }

  lemma {:induction false} SelectedDistinct(cases: seq<string>, count: nat, shard: nat, from: nat)
    requires count > 0 && from <= |cases| && NoDuplicates(cases)
    ensures NoDuplicates(SelectedFrom(cases, count, shard, from))
    decreases |cases| - from
  {
    if from < |cases| {
      SelectedDistinct(cases, count, shard, from + 1);
      SelectedMembers(cases, count, shard, from + 1, cases[from]);
      var rest := SelectedFrom(cases, count, shard, from + 1);
      assert cases[from] !in rest;
      if from % count == shard {
        assert SelectedFrom(cases, count, shard, from) == [cases[from]] + rest;
      } else {
        assert SelectedFrom(cases, count, shard, from) == rest;
      }
    }
  }

  lemma {:induction false} SelectAll(cases: seq<string>, from: nat)
    requires from <= |cases|
    ensures SelectedFrom(cases, 1, 0, from) == cases[from..]
    decreases |cases| - from
  {
    if from < |cases| { SelectAll(cases, from + 1); }
  }

  lemma {:induction false} RepeatedMembers(cases: seq<string>, iterations: nat, x: Item)
    ensures x in Repeated(cases, iterations) <==> x.0 in cases && 0 <= x.1 < iterations
  {
    if iterations > 0 {
      RepeatedMembers(cases, iterations - 1, x);
      var last := AtIteration(cases, iterations - 1);
      if x.0 in cases && x.1 == iterations - 1 {
        var i :| 0 <= i < |cases| && cases[i] == x.0;
        assert last[i] == x;
      }
    }
  }

  lemma {:induction false} RepeatedDistinct(cases: seq<string>, iterations: nat)
    requires NoDuplicates(cases)
    ensures NoDuplicates(Repeated(cases, iterations))
    ensures |Repeated(cases, iterations)| == iterations * |cases|
  {
    if iterations > 0 {
      RepeatedDistinct(cases, iterations - 1);
      var before, last := Repeated(cases, iterations - 1), AtIteration(cases, iterations - 1);
      forall i | 0 <= i < |before| ensures before[i].1 < iterations - 1 {
        RepeatedMembers(cases, iterations - 1, before[i]);
      }
      assert forall i, j | 0 <= i < j < |last| :: last[i].0 == cases[i] && last[j].0 == cases[j];
    }
  }

  /** An item is in a shard's work exactly when its case sits at a position of that residue. */
  lemma WorkMembers(cases: seq<string>, count: nat, shard: nat, iterations: nat, x: Item)
    requires count > 0
    ensures x in Work(cases, count, shard, iterations) <==>
            0 <= x.1 < iterations && exists k :: 0 <= k < |cases| && k % count == shard && cases[k] == x.0
  {
    SelectedMembers(cases, count, shard, 0, x.0);
    RepeatedMembers(SelectedFrom(cases, count, shard, 0), iterations, x);
  }

  /** The slices partition the dataset for any shard count: each case of each iteration is in exactly
      one shard's work, once. */
  lemma SlicesPartition(cases: seq<string>, count: nat, iterations: nat, x: Item)
    requires count > 0 && NoDuplicates(cases)
    ensures forall shard | 0 <= shard < count :: NoDuplicates(Work(cases, count, shard, iterations))
    ensures x in Work(cases, 1, 0, iterations) <==>
            exists shard :: 0 <= shard < count && x in Work(cases, count, shard, iterations)
    ensures forall i, j | 0 <= i < j < count ::
              !(x in Work(cases, count, i, iterations) && x in Work(cases, count, j, iterations))
  {
    forall shard | 0 <= shard < count ensures NoDuplicates(Work(cases, count, shard, iterations)) {
      SelectedDistinct(cases, count, shard, 0);
      RepeatedDistinct(SelectedFrom(cases, count, shard, 0), iterations);
    }
    forall shard: nat ensures x in Work(cases, count, shard, iterations) <==>
      0 <= x.1 < iterations && exists k :: 0 <= k < |cases| && k % count == shard && cases[k] == x.0
    {
      WorkMembers(cases, count, shard, iterations, x);
    }
    WorkMembers(cases, 1, 0, iterations, x);
    if x in Work(cases, 1, 0, iterations) {
      var k :| 0 <= k < |cases| && k % 1 == 0 && cases[k] == x.0;
      assert x in Work(cases, count, k % count, iterations);
    }
    if shard :| 0 <= shard < count && x in Work(cases, count, shard, iterations) {
      var k :| 0 <= k < |cases| && k % count == shard && cases[k] == x.0;
      assert k % 1 == 0;
    }
  }

  lemma WholeWork(cases: seq<string>, iterations: nat)
    requires NoDuplicates(cases)
    ensures NoDuplicates(Work(cases, 1, 0, iterations))
    ensures |Work(cases, 1, 0, iterations)| == iterations * |cases|
  {
    SelectAll(cases, 0);
    assert cases[0..] == cases;
    RepeatedDistinct(cases, iterations);
  }

  // ---- The order of the work ----

  /** The position `j` steps of `count` after `a`. */
  function Position(a: nat, count: nat, j: nat): (p: nat)
    ensures p >= a
    decreases j
  {
    if j == 0 then a else Position(a + count, count, j - 1)
  }

  lemma {:induction false} PositionIs(a: nat, count: nat, j: nat)
    ensures Position(a, count, j) == a + j * count
    decreases j
  {
    if j > 0 {
      PositionIs(a + count, count, j - 1);
      assert (j - 1) * count + count == j * count;
    }
  }

  /** The j-th case of a slice whose first position is `a` is the one j steps further on. */
  lemma {:induction false} SelectedAt(cases: seq<string>, count: nat, shard: nat, from: nat, a: nat, j: nat)
    requires count > 0 && from <= a && from <= |cases| && a % count == shard
    requires forall k | from <= k < a :: k % count != shard
    ensures
      var selected, p := SelectedFrom(cases, count, shard, from), Position(a, count, j);
      (j < |selected| <==> p < |cases|) && (j < |selected| ==> selected[j] == cases[p])
    decreases |cases| - from
  {
    if from < |cases| {
      if from < a {
        SelectedAt(cases, count, shard, from + 1, a, j);
      } else if j > 0 {
        NextInSlice(a, count);
        SelectedAt(cases, count, shard, from + 1, a + count, j - 1);
      }
    }
  }

  lemma {:induction false} PositiveMultiple(d: nat, count: nat)
    requires d >= 1
    ensures d * count >= count
  {
    if d > 1 { PositiveMultiple(d - 1, count); }
  }

  /** A multiple of `count` other than zero is at least `count` away from zero. */
  lemma FarMultiple(d: int, count: nat)
    requires d != 0
    ensures d * count >= count || d * count <= 0 - count
  {
    if d > 0 {
      PositiveMultiple(d, count);
    } else {
      PositiveMultiple(-d, count);
      assert -d * count == -(d * count);
    }
  }

  lemma NearResidue(a: nat, k: nat, count: nat)
    requires a < k < a + count
    ensures k % count != a % count
  {
    var d := k / count - a / count;
    assert k - a == d * count + (k % count - a % count);
    if d != 0 { FarMultiple(d, count); }
  }

  lemma NextResidue(a: nat, count: nat)
    requires count > 0
    ensures (a + count) % count == a % count
  {
    var d := (a + count) / count - a / count - 1;
    assert d * count == a % count - (a + count) % count;
    if d != 0 { FarMultiple(d, count); }
  }

  lemma NextInSlice(a: nat, count: nat)
    requires count > 0
    ensures (a + count) % count == a % count
    ensures forall k | a < k < a + count :: k % count != a % count
  {
    NextResidue(a, count);
    forall k | a < k < a + count ensures k % count != a % count {
      NearResidue(a, k, count);
    }
  }

  lemma {:induction false} RepeatedAt(cases: seq<string>, iterations: nat, i: nat, j: nat)
    requires i < iterations && j < |cases|
    ensures |Repeated(cases, iterations)| == iterations * |cases|
    ensures 0 <= i * |cases| + j < iterations * |cases|
    ensures Repeated(cases, iterations)[i * |cases| + j] == (cases[j], i)
  {
    var n := iterations - 1;
    assert iterations * |cases| == n * |cases| + |cases|;
    if i < n {
      RepeatedAt(cases, n, i, j);
    } else {
      RepeatedLength(cases, n);
      assert 0 <= n * |cases|;
    }
  }

  lemma {:induction false} RepeatedLength(cases: seq<string>, iterations: nat)
    ensures |Repeated(cases, iterations)| == iterations * |cases|
  {
    if iterations > 0 {
      RepeatedLength(cases, iterations - 1);
      assert iterations * |cases| == (iterations - 1) * |cases| + |cases|;
    }
  }

  /** The work list in order: iteration by iteration, and in each the slice from its own position on in steps of the
      shard count. */
  lemma WorkOrder(cases: seq<string>, count: nat, shard: nat, iterations: nat, size: nat, i: nat, j: nat)
    requires shard < count && size == |SelectedFrom(cases, count, shard, 0)|
    ensures forall k: nat :: k < size <==> shard + k * count < |cases|
    ensures |Work(cases, count, shard, iterations)| == iterations * size
    ensures i < iterations && shard + j * count < |cases| ==>
      && 0 <= i * size + j < iterations * size
      && Work(cases, count, shard, iterations)[i * size + j] == (cases[shard + j * count], i)
  {
    forall k | 0 <= k < shard ensures k % count != shard {
      SmallModulo(k, count);
    }
    SmallModulo(shard, count);
    forall k: nat ensures k < size <==> shard + k * count < |cases| {
      SelectedAt(cases, count, shard, 0, shard, k);
      PositionIs(shard, count, k);
    }
    SelectedAt(cases, count, shard, 0, shard, j);
    PositionIs(shard, count, j);
    var slice := SelectedFrom(cases, count, shard, 0);
    RepeatedLength(slice, iterations);
    if i < iterations && j < size { RepeatedAt(slice, iterations, i, j); }
  }

  lemma SmallModulo(k: nat, count: nat)
    requires k < count
    ensures k % count == k
  {
  }
}
