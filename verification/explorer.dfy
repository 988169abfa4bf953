/** Block-explorer links: a base URL followed by a fixed route and the
    identifier, with no escaping of the identifier. */
module Explorer {
  import opened Wrappers

  const TxRoute := "/#/txn/"
  const AccountRoute := "/#/account/"

  /** `explorer.tx(hash)`. */
  function TxUrl(base: string, hash: string): (url: string)
    ensures |url| == |base| + |TxRoute| + |hash|
    ensures url[..|base|] == base
    ensures url[|base|..|base| + |TxRoute|] == TxRoute
    ensures url[|base| + |TxRoute|..] == hash
  {
    base + TxRoute + hash
  }

  /** `explorer.address(address)`. */
  function AddressUrl(base: string, address: string): (url: string)
    ensures |url| == |base| + |AccountRoute| + |address|
    ensures url[..|base|] == base
    ensures url[|base|..|base| + |AccountRoute|] == AccountRoute
    ensures url[|base| + |AccountRoute|..] == address
  {
    base + AccountRoute + address
  }

  /** Reads the transaction hash back out of a link built over `base`;
      `None` for anything that is not such a link. */
  function TxHashOf(base: string, url: string): (hash: Option<string>)
    ensures hash.Some? <==> |url| >= |base| + |TxRoute| && url[..|base| + |TxRoute|] == base + TxRoute
  {
    var prefix := base + TxRoute;
    if |url| >= |prefix| && url[..|prefix|] == prefix then Some(url[|prefix|..]) else None
  }

  /** Reading the hash back out of a transaction link gives the hash that went in. */
  lemma TxUrlRoundTrip(base: string, hash: string)
    ensures TxHashOf(base, TxUrl(base, hash)) == Some(hash)
  {
    var url := TxUrl(base, hash);
    assert url[..|base| + |TxRoute|] == base + TxRoute;
  }

  /** Different hashes give different links over the same base. */
  lemma TxUrlInjective(base: string, hash: string, hash': string)
    requires TxUrl(base, hash) == TxUrl(base, hash')
    ensures hash == hash'
  {
    TxUrlRoundTrip(base, hash);
    TxUrlRoundTrip(base, hash');
  }

  /** A transaction link is never an account link over the same base: the
      routes differ in their fourth character. */
  lemma TxAndAddressUrlsDiffer(base: string, hash: string, address: string)
    ensures TxUrl(base, hash) != AddressUrl(base, address)
  {
    var t, a := TxUrl(base, hash), AddressUrl(base, address);
    assert t[|base| + 3] == TxRoute[3] == 't';
    assert a[|base| + 3] == AccountRoute[3] == 'a';
  }
}
