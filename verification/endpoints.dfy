/** The rotating RPC endpoint cursor of a chain configuration: a fixed list of
    providers and a module-level index into it. `provider()` reads the current
    entry; `rotateRpcProvider()` advances the index cyclically and reads again. */
module Endpoints {
  import Arith

  /** The provider list and the cursor `currentRpcProviderIndex`. */
  datatype Pool<P> = Pool(providers: seq<P>, cursor: nat)

  /** The configured list is never empty and the cursor points into it. */
  ghost predicate Valid<P>(pool: Pool<P>)
  {
    |pool.providers| >= 1 && pool.cursor < |pool.providers|
  }

  /** The state at module load: the cursor starts at 0. */
  function Init<P>(providers: seq<P>): (pool: Pool<P>)
    requires |providers| >= 1
    ensures Valid(pool)
    ensures pool.providers == providers && pool.cursor == 0
  {
    Pool(providers, 0)
  }

  /** `provider()`: the entry under the cursor. */
  function Provider<P>(pool: Pool<P>): P
    requires Valid(pool)
  {
    pool.providers[pool.cursor]
  }

  /** `rotateRpcProvider()`: the cursor becomes `(cursor + 1) mod N`, and the
      value returned is what `provider()` answers in the new state. */
  function Rotate<P>(pool: Pool<P>): (r: (Pool<P>, P))
    requires Valid(pool)
    ensures Valid(r.0)
    ensures r.0.providers == pool.providers
    ensures r.0.cursor == (pool.cursor + 1) % |pool.providers|
    ensures r.1 == Provider(r.0)
  {
    var next := Pool(pool.providers, (pool.cursor + 1) % |pool.providers|);
    (next, Provider(next))
  }

  /** The two entry points a caller can use. */
  datatype Call = ReadProvider | RotateProvider

  /** One call: its successor state and the provider it returns. Reading
      leaves the state alone. */
  function Step<P>(pool: Pool<P>, call: Call): (r: (Pool<P>, P))
    requires Valid(pool)
    ensures Valid(r.0) && r.0.providers == pool.providers
    ensures r.1 == Provider(r.0)
    ensures call.ReadProvider? ==> r.0 == pool
  {
    match call
    case ReadProvider => (pool, Provider(pool))
    case RotateProvider => Rotate(pool)
  }

  /** Any sequence of calls, in order: the final state and every returned provider. */
  function Run<P>(pool: Pool<P>, calls: seq<Call>): (r: (Pool<P>, seq<P>))
    requires Valid(pool)
    ensures Valid(r.0) && r.0.providers == pool.providers
    ensures |r.1| == |calls|
    decreases |calls|
  {
    if |calls| == 0 then (pool, [])
    else
      var (before, outs) := Run(pool, calls[..|calls| - 1]);
      var (after, out) := Step(before, calls[|calls| - 1]);
      (after, outs + [out])
  }

  /** After any sequence of calls the cursor has moved by the number of
      rotations among them, modulo `N`; reads do not move it. */
  lemma {:induction false} RunMovesByRotations<P>(pool: Pool<P>, calls: seq<Call>)
    requires Valid(pool)
    ensures Run(pool, calls).0.cursor
            == (pool.cursor + multiset(calls)[RotateProvider]) % |pool.providers|
    decreases |calls|
  {
    var n := |pool.providers|;
    if |calls| == 0 {
      Arith.ModSmall(pool.cursor, n);
    } else {
      var prefix, last := calls[..|calls| - 1], calls[|calls| - 1];
      var rotations := multiset(prefix)[RotateProvider];
      var total := multiset(calls)[RotateProvider];
      assert total == rotations + if last == RotateProvider then 1 else 0 by {
        assert calls == prefix + [last];
      }
      var before := Run(pool, prefix).0;
      RunMovesByRotations(pool, prefix);
      assert Run(pool, calls).0 == Step(before, last).0;
      if last == RotateProvider {
        assert (before.cursor + 1) % n == (pool.cursor + total) % n by {
          Arith.ModAdd(pool.cursor + rotations, 1, n);
        }
      }
    }
  }

  /** `k` rotations in a row. */
  function RotateTimes<P>(pool: Pool<P>, k: nat): (r: Pool<P>)
    requires Valid(pool)
    ensures Valid(r) && r.providers == pool.providers
    decreases k
  {
    if k == 0 then pool else Rotate(RotateTimes(pool, k - 1)).0
  }

  /** `k` rotations advance the cursor by `k` modulo `N`. */
  lemma {:induction false} RotateTimesCursor<P>(pool: Pool<P>, k: nat)
    requires Valid(pool)
    ensures RotateTimes(pool, k).cursor == (pool.cursor + k) % |pool.providers|
    decreases k
  {
    var n := |pool.providers|;
    if k == 0 {
      Arith.ModSmall(pool.cursor, n);
    } else {
      RotateTimesCursor(pool, k - 1);
      Arith.ModAdd(pool.cursor + (k - 1), 1, n);
    }
  }

  /** Rotating a multiple of `N` times returns to the starting state, and so
      to the starting provider. */
  lemma FullCycleReturns<P>(pool: Pool<P>, q: nat)
    requires Valid(pool)
    ensures RotateTimes(pool, q * |pool.providers|) == pool
    ensures Provider(RotateTimes(pool, q * |pool.providers|)) == Provider(pool)
  {
    var n := |pool.providers|;
    RotateTimesCursor(pool, q * n);
    Arith.ModMultiple(pool.cursor, q, n);
    Arith.ModSmall(pool.cursor, n);
  }

  /** With a single endpoint, rotation changes nothing and returns that endpoint. */
  lemma SingleEndpointRotationIsNoOp<P>(pool: Pool<P>)
    requires Valid(pool) && |pool.providers| == 1
    ensures Rotate(pool).0 == pool
    ensures Rotate(pool).1 == pool.providers[0] == Provider(pool)
  {
  }
}
