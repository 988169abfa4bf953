/** The batch loop of `runTransfer` and the single transfer it awaits at each
    index (`doTransfer`). The network is an oracle: `net(i)` is how the
    attempt at index `i` ends. */
module Dispatch {
  import opened Wrappers
  import Signers

  type Key = string
  type Endpoint = string

  /** How one attempt ends. Every failure is an exception that `doTransfer`
      catches: wallet creation, the send, or the one-confirmation wait. */
  datatype NetOutcome =
    | WalletFailed(reason: string)
    | SendFailed(reason: string)
    | WaitFailed(reason: string)
    | Mined(hash: string, block: nat)

  /** `doTransfer`'s value: the transaction hash once the transfer was sent and
      its receipt arrived; `undefined` (`None`) for every caught failure. */
  function DoTransfer(outcome: NetOutcome): (result: Option<string>)
    ensures result.Some? <==> outcome.Mined?
    ensures outcome.Mined? ==> result.value == outcome.hash
  {
    match outcome
    case Mined(hash, _) => Some(hash)
    case _ => None
  }

  /** `if (receiptTx)`: JavaScript truthiness, so an empty hash would not be
      reported either. */
  predicate Reports(result: Option<string>)
  {
    result.Some? && result.value != ""
  }

  /** The amount policy. `Fixed` holds the one amount parsed before the loop;
      `Random` is the per-index draw after `toFixed(6)` and `parseUnits(_, 18)`:
      `None` where `parseUnits` throws on the rendered draw (`"1e+21"` and up). */
  datatype AmountSource = Fixed(units: nat) | Random(draw: nat -> Option<nat>)

  /** The amount for index `i`, `None` when computing it throws. */
  function AmountAt(source: AmountSource, i: nat): Option<nat>
  {
    match source
    case Fixed(units) => Some(units)
    case Random(draw) => draw(i)
  }

  /** Everything an attempt is started with. */
  datatype Attempt = Attempt(index: nat, key: Option<Key>, receiver: string, amount: nat, endpoint: Endpoint)

  /** The observable life of the batch: each attempt starts, then settles. */
  datatype Event = Submitted(attempt: Attempt) | Settled(index: nat, result: Option<string>)

  /** `Transaction Hash: <link> (<position>/<total>)`. */
  datatype ReportLine = ReportLine(url: string, position: nat, total: nat)

  /** The fixed inputs of one batch; `txUrl` is the chosen chain's `explorer.tx`. */
  datatype Batch = Batch(keys: seq<Key>, receiver: string, source: AmountSource,
                         endpoint: Endpoint, txUrl: string -> string, count: nat)

  /** The loop stops after `m` attempts: every amount before `m` was computed,
      and `m` is either the count or the first index whose amount throws. */
  ghost predicate StopsAt(b: Batch, m: nat)
  {
    && m <= b.count
    && (forall i :: 0 <= i < m ==> AmountAt(b.source, i).Some?)
    && (m < b.count ==> AmountAt(b.source, m).None?)
  }

  /** The attempt the loop starts at index `i`. */
  function AttemptAt(b: Batch, i: nat): Attempt
    requires AmountAt(b.source, i).Some?
  {
    Attempt(i, Signers.SignerFor(b.keys, i), b.receiver, AmountAt(b.source, i).value, b.endpoint)
  }

  /** Event `k` of a strictly sequential run: attempt `k div 2` starts at the
      even position and settles at the odd one right after it. */
  function EventAt(b: Batch, net: nat -> NetOutcome, k: nat): Event
    requires AmountAt(b.source, k / 2).Some?
  {
    if k % 2 == 0 then Submitted(AttemptAt(b, k / 2))
    else Settled(k / 2, DoTransfer(net(k / 2)))
  }

  /** The report lines printed for the first `k` indices, in index order. */
  function Report(b: Batch, net: nat -> NetOutcome, k: nat): seq<ReportLine>
  {
    if k == 0 then []
    else
      var result := DoTransfer(net(k - 1));
      Report(b, net, k - 1)
        + if Reports(result)
          then [ReportLine(b.txUrl(result.value), k, b.count)]
          else []
  }

  /** The indices below `k` whose transfer is reported. */
  function ReportedIndices(net: nat -> NetOutcome, k: nat): set<nat>
  {
    set i: nat | i < k && Reports(DoTransfer(net(i)))
  }

  /** The `for` loop: indices `0 .. count-1` in order, each transfer awaited
      before the next starts, none retried, no transfer failure aborting the
      batch. An amount that throws ends the run at its index, uncaught:
      `finished` is false then, and the trace and report stop there. */
  method RunBatch(b: Batch, net: nat -> NetOutcome)
    returns (trace: seq<Event>, report: seq<ReportLine>, finished: bool)
    ensures |trace| % 2 == 0 && StopsAt(b, |trace| / 2)
    ensures finished <==> |trace| == 2 * b.count
    ensures forall k :: 0 <= k < |trace| ==> AmountAt(b.source, k / 2).Some? && trace[k] == EventAt(b, net, k)
    ensures report == Report(b, net, |trace| / 2)
    ensures |report| == |ReportedIndices(net, |trace| / 2)|
  {
    trace, report := [], [];
    var i := 0;
    while i < b.count
      invariant 0 <= i <= b.count
      invariant |trace| == 2 * i
      invariant forall j :: 0 <= j < i ==> AmountAt(b.source, j).Some?
      invariant forall k :: 0 <= k < |trace| ==> trace[k] == EventAt(b, net, k)
      invariant report == Report(b, net, i)
    {
      var amount := AmountAt(b.source, i);
      if amount.None? {
        break;
      }
      var attempt := Attempt(i, Signers.SignerFor(b.keys, i), b.receiver, amount.value, b.endpoint);
      var result := DoTransfer(net(i));
      trace := trace + [Submitted(attempt), Settled(i, result)];
      if Reports(result) {
        report := report + [ReportLine(b.txUrl(result.value), i + 1, b.count)];
      }
      i := i + 1;
    }
    finished := i == b.count;
    ReportCount(b, net, i);
  }

  /** The stopping point is determined by the amounts alone: at most one `m` fits. */
  lemma StopIsUnique(b: Batch, m: nat, m': nat)
    requires StopsAt(b, m) && StopsAt(b, m')
    ensures m == m'
  {
  }

  /** A fixed amount never throws inside the loop, so fixed mode makes all
      `count` attempts. */
  lemma FixedModeRunsToTheEnd(b: Batch, m: nat)
    requires b.source.Fixed? && StopsAt(b, m)
    ensures m == b.count
  {
  }

  /** Attempts run at indices `0, 1, ...` below `count`, in that order; each
      one's settlement is the very next event, so no two are in flight at once. */
  lemma AttemptsAreSequential(b: Batch, net: nat -> NetOutcome, k: nat)
    requires k < 2 * b.count && AmountAt(b.source, k / 2).Some?
    ensures EventAt(b, net, k).Submitted? <==> k % 2 == 0
    ensures k % 2 == 0 ==>
      && EventAt(b, net, k).attempt.index == k / 2 < b.count
      && EventAt(b, net, k + 1) == Settled(k / 2, DoTransfer(net(k / 2)))
  {
    if k % 2 == 0 {
      assert (k + 1) % 2 == 1 && (k + 1) / 2 == k / 2;
    }
  }

  /** Index `i` is signed with key `i mod k` and uses the one endpoint fixed
      for the whole batch. */
  lemma AttemptUsesScheduledKey(b: Batch, i: nat)
    requires |b.keys| >= 1
    requires AmountAt(b.source, i).Some? && AmountAt(b.source, i + |b.keys|).Some?
    ensures AttemptAt(b, i).key == Some(b.keys[i % |b.keys|])
    ensures AttemptAt(b, i + |b.keys|).key == AttemptAt(b, i).key
    ensures AttemptAt(b, i).endpoint == b.endpoint
  {
    Signers.SignerIsModular(b.keys, i);
  }

  /** Fixed mode sends the same amount at every index; random mode sends the
      draw made for that index. */
  lemma AmountPolicy(b: Batch, i: nat, j: nat)
    requires AmountAt(b.source, i).Some? && AmountAt(b.source, j).Some?
    ensures b.source.Fixed? ==> AttemptAt(b, i).amount == AttemptAt(b, j).amount == b.source.units
    ensures b.source.Random? ==> Some(AttemptAt(b, i).amount) == b.source.draw(i)
  {
  }

  /** A failure never aborts or alters the batch: what is attempted does not
      depend on how any attempt ends. */
  lemma AttemptsIndependentOfOutcomes(b: Batch, net: nat -> NetOutcome, net': nat -> NetOutcome, k: nat)
    requires k % 2 == 0 && AmountAt(b.source, k / 2).Some?
    ensures EventAt(b, net, k) == EventAt(b, net', k)
  {
  }

  /** Every report line belongs to a reported index: its position is that
      index plus one, its link is that transfer's hash, its total is the batch size. */
  lemma {:induction false} ReportLinesAreConfirmed(b: Batch, net: nat -> NetOutcome, k: nat, j: nat)
    requires j < |Report(b, net, k)|
    ensures var line := Report(b, net, k)[j];
      && 1 <= line.position <= k
      && Reports(DoTransfer(net(line.position - 1)))
      && line.url == b.txUrl(DoTransfer(net(line.position - 1)).value)
      && line.total == b.count
    decreases k
  {
    if j < |Report(b, net, k - 1)| {
      ReportLinesAreConfirmed(b, net, k - 1, j);
    }
  }

  /** Report positions strictly increase, so lines follow index order and no
      index is reported twice. */
  lemma {:induction false} ReportIsOrdered(b: Batch, net: nat -> NetOutcome, k: nat, j: nat, j': nat)
    requires j < j' < |Report(b, net, k)|
    ensures Report(b, net, k)[j].position < Report(b, net, k)[j'].position
    decreases k
  {
    var prev := Report(b, net, k - 1);
    if j' < |prev| {
      ReportIsOrdered(b, net, k - 1, j, j');
    } else {
      ReportLinesAreConfirmed(b, net, k - 1, j);
    }
  }

  /** Every reported index has its line. */
  lemma {:induction false} ConfirmedAreReported(b: Batch, net: nat -> NetOutcome, k: nat, i: nat)
    requires i < k && Reports(DoTransfer(net(i)))
    ensures exists j :: 0 <= j < |Report(b, net, k)| && Report(b, net, k)[j].position == i + 1
    decreases k
  {
    var prev := Report(b, net, k - 1);
    if i < k - 1 {
      ConfirmedAreReported(b, net, k - 1, i);
      var j :| 0 <= j < |prev| && prev[j].position == i + 1;
      assert Report(b, net, k)[j] == prev[j];
    } else {
      assert Report(b, net, k)[|prev|].position == i + 1;
    }
  }

  /** The number of report lines is the number of confirmed (reported) transfers. */
  lemma {:induction false} ReportCount(b: Batch, net: nat -> NetOutcome, k: nat)
    ensures |Report(b, net, k)| == |ReportedIndices(net, k)|
    decreases k
  {
    if k == 0 {
      assert ReportedIndices(net, 0) == {};
    } else {
      ReportCount(b, net, k - 1);
      if Reports(DoTransfer(net(k - 1))) {
        assert ReportedIndices(net, k) == ReportedIndices(net, k - 1) + {k - 1};
      } else {
        assert ReportedIndices(net, k) == ReportedIndices(net, k - 1);
      }
    }
  }
}
