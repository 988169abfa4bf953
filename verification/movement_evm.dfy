/** The Movement EVM testnet chain configuration: its single RPC endpoint,
    its explorer and the three entry points built from them. */
module MovementEvm {
  import opened Wrappers
  import Endpoints
  import Explorer
  import Registry
  import Dispatch

  const RpcUrls: seq<string> := ["https://mevm.devnet.imola.movementlabs.xyz"]
  const ExplorerBase := "https://explorer.devnet.imola.movementlabs.xyz"

  /** The cursor as the module leaves it when loaded. */
  function InitialPool(): (pool: Endpoints.Pool<string>)
    ensures Endpoints.Valid(pool)
    ensures Endpoints.Provider(pool) == RpcUrls[0]
  {
    Endpoints.Init(RpcUrls)
  }

  /** `explorer.tx` of this chain. */
  function Tx(hash: string): (url: string)
    ensures url == ExplorerBase + "/#/txn/" + hash
  {
    Explorer.TxUrl(ExplorerBase, hash)
  }

  /** `explorer.address` of this chain. */
  function Address(address: string): (url: string)
    ensures url == ExplorerBase + "/#/account/" + address
  {
    Explorer.AddressUrl(ExplorerBase, address)
  }

  /** With the single configured endpoint, rotating from any reachable
      state is a no-op that returns that endpoint. */
  lemma RotationIsNoOp(pool: Endpoints.Pool<string>)
    requires Endpoints.Valid(pool) && pool.providers == RpcUrls
    ensures Endpoints.Rotate(pool).0 == pool
    ensures Endpoints.Rotate(pool).1 == RpcUrls[0]
  {
    Endpoints.SingleEndpointRotationIsNoOp(pool);
  }

  /** Whatever calls are made, every provider handed out is the one endpoint. */
  lemma EveryCallReturnsTheEndpoint(calls: seq<Endpoints.Call>)
    ensures forall k :: 0 <= k < |calls| ==> Endpoints.Run(InitialPool(), calls).1[k] == RpcUrls[0]
  {
    var r := Endpoints.Run(InitialPool(), calls);
    forall k | 0 <= k < |calls|
      ensures r.1[k] == RpcUrls[0]
    {
      OutputsAreProviders(InitialPool(), calls, k);
    }
  }

  /** Every provider a run hands out is some entry of the list. */
  lemma {:induction false} OutputsAreProviders(pool: Endpoints.Pool<string>, calls: seq<Endpoints.Call>, k: nat)
    requires Endpoints.Valid(pool) && k < |calls|
    ensures Endpoints.Run(pool, calls).1[k] in pool.providers
    decreases |calls|
  {
    var prefix := calls[..|calls| - 1];
    var before := Endpoints.Run(pool, prefix).0;
    if k < |prefix| {
      OutputsAreProviders(pool, prefix, k);
    } else {
      assert Endpoints.Run(pool, calls).1[k] == Endpoints.Step(before, calls[|calls| - 1]).1;
    }
  }

  /** A batch run on this chain links every report line to this chain's
      transaction page for the hash that line confirms. */
  lemma {:induction false} ReportLinksUseThisExplorer(keys: seq<Dispatch.Key>, receiver: string,
                                                       source: Dispatch.AmountSource, endpoint: Dispatch.Endpoint,
                                                       count: nat, net: nat -> Dispatch.NetOutcome, k: nat, j: nat)
    requires j < |Dispatch.Report(Dispatch.Batch(keys, receiver, source, endpoint, Tx, count), net, k)|
    ensures var line := Dispatch.Report(Dispatch.Batch(keys, receiver, source, endpoint, Tx, count), net, k)[j];
      && 1 <= line.position <= k
      && Dispatch.Reports(Dispatch.DoTransfer(net(line.position - 1)))
      && line.url == ExplorerBase + "/#/txn/" + Dispatch.DoTransfer(net(line.position - 1)).value
  {
    Dispatch.ReportLinesAreConfirmed(Dispatch.Batch(keys, receiver, source, endpoint, Tx, count), net, k, j);
  }
}
