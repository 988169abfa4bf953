/** The native-currency symbol lookup (`ticker`): the public chain registry
    is searched for the entry whose `chainId` equals the connected network's
    numeric chain id. The registry download and the network query are
    inputs here; `None` stands for either of them throwing. */
module Registry {
  import opened Wrappers
  import Search

  const UnknownSymbol := "Unknown"

  datatype Currency = Currency(symbol: string)

  /** One element of the registry list; `nativeCurrency` may be absent. */
  datatype Entry = Entry(chainId: int, nativeCurrency: Option<Currency>)

  /** The `find` callback: whether an entry is for the given chain
      (`chain.chainId === chainId`). */
  function ForChain(id: int): Entry -> bool
  {
    (e: Entry) => e.chainId == id
  }

  /** The symbol of an entry, or the fallback when it has no currency. */
  function SymbolOf(e: Entry): string
  {
    match e.nativeCurrency
    case Some(c) => c.symbol
    case None => UnknownSymbol
  }

  /** `ticker()`: the symbol of the first registry entry for the network's
      chain; the fallback when the registry or the network is unavailable,
      when no entry matches, or when the match has no currency. It never fails. */
  function Ticker(registry: Option<seq<Entry>>, chainId: Option<int>): (symbol: string)
    ensures registry.None? || chainId.None? ==> symbol == UnknownSymbol
    ensures registry.Some? && chainId.Some? ==>
      forall i: nat :: Search.IsFirst(registry.value, ForChain(chainId.value), i) ==>
        symbol == SymbolOf(registry.value[i])
    ensures registry.Some? && chainId.Some?
            && (forall i :: 0 <= i < |registry.value| ==> registry.value[i].chainId != chainId.value)
            ==> symbol == UnknownSymbol
  {
    match (registry, chainId)
    case (Some(entries), Some(id)) =>
      (match Search.FindFirst(entries, ForChain(id))
       case Some(i) => SymbolOf(entries[i])
       case None => UnknownSymbol)
    case _ => UnknownSymbol
  }

  /** Whatever the inputs, the answer is the fallback or the symbol of some
      entry for the requested chain. */
  lemma TickerIsFallbackOrMatchingSymbol(registry: Option<seq<Entry>>, chainId: Option<int>)
    ensures var s := Ticker(registry, chainId);
      s == UnknownSymbol
      || (registry.Some? && chainId.Some? &&
          exists i :: 0 <= i < |registry.value| && registry.value[i].chainId == chainId.value
                      && registry.value[i].nativeCurrency == Some(Currency(s)))
  {
    if registry.Some? && chainId.Some? {
      var r := Search.FindFirst(registry.value, ForChain(chainId.value));
      if r.Some? && registry.value[r.value].nativeCurrency.Some? {
        assert registry.value[r.value].nativeCurrency == Some(Currency(Ticker(registry, chainId)));
      }
    }
  }

  /** Entries after the first match never influence the answer. */
  lemma LaterEntriesIgnored(entries: seq<Entry>, id: int, i: nat, rest: seq<Entry>)
    requires Search.IsFirst(entries, ForChain(id), i)
    ensures Ticker(Some(entries + rest), Some(id)) == Ticker(Some(entries), Some(id))
  {
    var p := ForChain(id);
    assert Search.IsFirst(entries + rest, p, i);
    Search.FindFirstExactly(entries + rest, p, i);
    Search.FindFirstExactly(entries, p, i);
  }
}
