/** Round-robin signer selection: transfer `i` of a batch is signed with the
    key at position `i mod k` of the loaded key list. The list is never checked
    for emptiness; indexing an empty list yields `undefined`, here `None`. */
module Signers {
  import opened Wrappers
  import Arith

  /** `PRIVATE_KEYS[i % PRIVATE_KEYS.length]`. */
  function SignerFor<K>(keys: seq<K>, i: nat): (key: Option<K>)
    ensures key.Some? <==> |keys| >= 1
    ensures key.Some? ==> key.value in keys
  {
    if |keys| == 0 then None else Some(keys[i % |keys|])
  }

  /** With a non-empty list, position `i` of the batch uses exactly the key at
      `i mod k`, and positions `k` apart share a key. */
  lemma SignerIsModular<K>(keys: seq<K>, i: nat)
    requires |keys| >= 1
    ensures SignerFor(keys, i) == Some(keys[i % |keys|])
    ensures SignerFor(keys, i + |keys|) == SignerFor(keys, i)
  {
    Arith.ModMultiple(i, 1, |keys|);
  }

  /** The first `k` transfers use the keys in list order. */
  lemma FirstRoundInOrder<K>(keys: seq<K>, i: nat)
    requires i < |keys|
    ensures SignerFor(keys, i) == Some(keys[i])
  {
    Arith.ModSmall(i, |keys|);
  }

  /** The batch positions below `n` that key position `j` signs. */
  function UsesOf(k: nat, n: nat, j: nat): set<nat>
    requires k >= 1
  {
    set i: nat | i < n && i % k == j
  }

  /** Every key position signs `n div k` transfers, plus one more for the
      first `n mod k` positions: the load is balanced to within one. */
  lemma {:induction false} UsesCount(k: nat, n: nat, j: nat)
    requires k >= 1 && j < k
    ensures |UsesOf(k, n, j)| == n / k + if j < n % k then 1 else 0
    decreases n
  {
    if n == 0 {
      assert UsesOf(k, 0, j) == {};
    } else {
      var m := n - 1;
      UsesCount(k, m, j);
      if m % k == j {
        assert m !in UsesOf(k, m, j);
        assert UsesOf(k, n, j) == UsesOf(k, m, j) + {m};
        assert |UsesOf(k, n, j)| == |UsesOf(k, m, j)| + 1;
      } else {
        assert UsesOf(k, n, j) == UsesOf(k, m, j);
      }
      Arith.DivModSucc(m, k);
    }
  }

  /** No key signs more than one transfer more than any other. */
  lemma LoadIsBalanced(k: nat, n: nat, j: nat, j': nat)
    requires k >= 1 && j < k && j' < k
    ensures |UsesOf(k, n, j)| <= |UsesOf(k, n, j')| + 1
  {
    UsesCount(k, n, j);
    UsesCount(k, n, j');
  }
}
