/** One run of `runTransfer` after the chain is chosen: the recipient, count
    and amount prompts with their validation gates, then the batch. Each
    prompt repeats until an answer passes its gate; an answer is given here as
    its already-parsed value (`Number(...)`, `None` for `NaN`). A finite list
    of answers none of which passes leaves the program still prompting. */
module Session {
  import opened Wrappers
  import Search
  import Endpoints
  import Dispatch
  import Signers

  /** A fixed-amount answer: its numeric value and its `parseUnits(_, 18)`
      value, `None` where `parseUnits` throws on a string `Number` accepts
      (`"1e-3"`, `"0x1"`, `"Infinity"`, more than 18 decimals). */
  datatype AmountAnswer = AmountAnswer(number: Option<real>, units: Option<nat>)

  /** One answer to the minimum/maximum pair of prompts. */
  datatype RangeAnswer = RangeAnswer(min: Option<real>, max: Option<real>)

  /** The answers given to each prompt, in order, and the amount-type menu
      choice (0 fixed, 1 random, -1 cancelled). */
  datatype Answers = Answers(
    receivers: seq<string>,
    counts: seq<Option<real>>,
    choice: int,
    fixedAmounts: seq<AmountAnswer>,
    ranges: seq<RangeAnswer>)

  /** The count gate: a number, an integer, and positive. */
  predicate ValidCount(v: Option<real>)
  {
    v.Some? && v.value.Floor as real == v.value && v.value > 0.0
  }

  /** The fixed-amount gate: a number above zero. */
  predicate ValidFixed(a: AmountAnswer)
  {
    a.number.Some? && a.number.value > 0.0
  }

  /** The range gate: both numbers, the minimum above zero and the maximum above the minimum. */
  predicate ValidRange(r: RangeAnswer)
  {
    r.min.Some? && r.min.value > 0.0 && r.max.Some? && r.max.value > r.min.value
  }

  /** Where the prompts leave the run. `AmountThrows`: the accepted fixed
      amount made `parseUnits` throw, which nothing catches. */
  datatype Config =
    | StillPrompting
    | NoAmountType
    | AmountThrows
    | Ready(receiver: string, count: nat, source: Dispatch.AmountSource)

  /** Runs the prompts in the source's order: recipient, count, amount type,
      then the amount of the chosen type. */
  function ReadConfig(answers: Answers, isAddress: string -> bool, draw: nat -> Option<nat>): (c: Config)
    ensures c.Ready? ==>
      && (exists i: nat :: Search.IsFirst(answers.receivers, isAddress, i) && c.receiver == answers.receivers[i])
      && isAddress(c.receiver)
      && c.count >= 1
      && (exists i: nat :: Search.IsFirst(answers.counts, ValidCount, i) && c.count as real == answers.counts[i].value)
      && (answers.choice == 0 <==> c.source.Fixed?)
      && (answers.choice == 1 <==> c.source.Random?)
      && (c.source.Fixed? ==> exists i: nat :: Search.IsFirst(answers.fixedAmounts, ValidFixed, i)
                                           && answers.fixedAmounts[i].units == Some(c.source.units))
      && (c.source.Random? ==> c.source.draw == draw && exists i: nat :: Search.IsFirst(answers.ranges, ValidRange, i))
    ensures c.NoAmountType? <==>
      && (exists i: nat :: Search.IsFirst(answers.receivers, isAddress, i))
      && (exists i: nat :: Search.IsFirst(answers.counts, ValidCount, i))
      && answers.choice != 0 && answers.choice != 1
    ensures c.AmountThrows? <==>
      && (exists i: nat :: Search.IsFirst(answers.receivers, isAddress, i))
      && (exists i: nat :: Search.IsFirst(answers.counts, ValidCount, i))
      && answers.choice == 0
      && (exists i: nat :: Search.IsFirst(answers.fixedAmounts, ValidFixed, i) && answers.fixedAmounts[i].units.None?)
    ensures c.StillPrompting? ==>
      || (forall i :: 0 <= i < |answers.receivers| ==> !isAddress(answers.receivers[i]))
      || (forall i :: 0 <= i < |answers.counts| ==> !ValidCount(answers.counts[i]))
      || (answers.choice == 0 && forall i :: 0 <= i < |answers.fixedAmounts| ==> !ValidFixed(answers.fixedAmounts[i]))
      || (answers.choice == 1 && forall i :: 0 <= i < |answers.ranges| ==> !ValidRange(answers.ranges[i]))
  {
    match Search.FindFirst(answers.receivers, isAddress)
    case None => StillPrompting
    case Some(r) =>
      match Search.FindFirst(answers.counts, ValidCount)
      case None => StillPrompting
      case Some(n) =>
        var count := answers.counts[n].value.Floor as nat;
        if answers.choice == 0 then
          match Search.FindFirst(answers.fixedAmounts, ValidFixed)
          case None => StillPrompting
          case Some(a) =>
            match answers.fixedAmounts[a].units
            case None => AmountThrows
            case Some(units) => Ready(answers.receivers[r], count, Dispatch.Fixed(units))
        else if answers.choice == 1 then
          match Search.FindFirst(answers.ranges, ValidRange)
          case None => StillPrompting
          case Some(_) => Ready(answers.receivers[r], count, Dispatch.Random(draw))
        else NoAmountType
  }

  /** The outcome of a run: `Crashed` before any transfer when the fixed
      amount throws; `Ran` once the batch started, `finished` false when a
      random amount threw part-way. */
  datatype Run =
    | Prompting
    | Exited
    | Crashed
    | Ran(batch: Dispatch.Batch, trace: seq<Dispatch.Event>, report: seq<Dispatch.ReportLine>, finished: bool)

  /** `runTransfer` from the recipient prompt on: the chain's provider is
      read once and never rotated, links use the chain's `explorer.tx`, and
      the batch runs only after every gate passed. */
  method RunTransfer(keys: seq<Dispatch.Key>, pool: Endpoints.Pool<Dispatch.Endpoint>, explorerTx: string -> string,
                     answers: Answers, isAddress: string -> bool, draw: nat -> Option<nat>,
                     net: nat -> Dispatch.NetOutcome)
    returns (run: Run)
    requires Endpoints.Valid(pool)
    ensures var c := ReadConfig(answers, isAddress, draw);
      && (run.Prompting? <==> c.StillPrompting?)
      && (run.Exited? <==> c.NoAmountType?)
      && (run.Crashed? <==> c.AmountThrows?)
      && (run.Ran? <==> c.Ready?)
    ensures run.Ran? ==>
      && var c := ReadConfig(answers, isAddress, draw);
      && run.batch == Dispatch.Batch(keys, c.receiver, c.source, Endpoints.Provider(pool), explorerTx, c.count)
      && |run.trace| % 2 == 0 && Dispatch.StopsAt(run.batch, |run.trace| / 2)
      && (run.finished <==> |run.trace| == 2 * c.count)
      && (answers.choice == 0 ==> run.finished)
      && (forall k :: 0 <= k < |run.trace| ==>
            Dispatch.AmountAt(run.batch.source, k / 2).Some? && run.trace[k] == Dispatch.EventAt(run.batch, net, k))
      && run.report == Dispatch.Report(run.batch, net, |run.trace| / 2)
    ensures run.Ran? ==>
      forall k :: 0 <= k < |run.trace| && run.trace[k].Submitted? ==>
        && run.trace[k].attempt.endpoint == Endpoints.Provider(pool)
        && run.trace[k].attempt.key == Signers.SignerFor(keys, run.trace[k].attempt.index)
        && run.trace[k].attempt.receiver == ReadConfig(answers, isAddress, draw).receiver
  {
    match ReadConfig(answers, isAddress, draw)
    case StillPrompting => run := Prompting;
    case NoAmountType => run := Exited;
    case AmountThrows => run := Crashed;
    case Ready(receiver, count, source) =>
      var endpoint := Endpoints.Provider(pool);
      var batch := Dispatch.Batch(keys, receiver, source, endpoint, explorerTx, count);
      var trace, report, finished := Dispatch.RunBatch(batch, net);
      if source.Fixed? {
        Dispatch.FixedModeRunsToTheEnd(batch, |trace| / 2);
      }
      run := Ran(batch, trace, report, finished);
  }

  /** No transfer starts unless every gate passed: a valid recipient, a
      positive whole count, and a positive amount or a positive increasing range. */
  lemma GatesHoldBeforeAnyTransfer(answers: Answers, isAddress: string -> bool, draw: nat -> Option<nat>)
    requires ReadConfig(answers, isAddress, draw).Ready?
    ensures var c := ReadConfig(answers, isAddress, draw);
      && isAddress(c.receiver)
      && c.count >= 1
      && (answers.choice == 0 ==> exists i :: 0 <= i < |answers.fixedAmounts| && ValidFixed(answers.fixedAmounts[i]))
      && (answers.choice == 1 ==> exists i :: 0 <= i < |answers.ranges| && ValidRange(answers.ranges[i]))
  {
    var c := ReadConfig(answers, isAddress, draw);
    if answers.choice == 0 {
      var i: nat :| Search.IsFirst(answers.fixedAmounts, ValidFixed, i);
      assert ValidFixed(answers.fixedAmounts[i]);
    } else {
      var i: nat :| Search.IsFirst(answers.ranges, ValidRange, i);
      assert ValidRange(answers.ranges[i]);
    }
  }
}
