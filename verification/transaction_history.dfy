/** The transaction table of a launch's detail page: how each row's action
    label and amount are derived, and the page counter with its
    Previous/Next buttons and the load step that fills the table. */
module TransactionHistory {
  import opened Wrappers

  datatype TransactionType = Swap | Deposit | Refund | ClaimLp | OtherType(name: string)

  /** A transaction as the indexer returns it. Each leg list holds the
      amounts of that kind of leg; the table only ever reads the first. */
  datatype Transaction = Transaction(
    txType: TransactionType,
    swapAmounts0: seq<real>,
    depositAmounts: seq<int>,
    refundAmounts: seq<int>)

  /** Reading the first leg of an empty leg list throws. */
  datatype RowError = MissingLeg

  function Pow10(n: nat): (p: int)
    ensures p >= 1
  {
    if n == 0 then 1 else 10 * Pow10(n - 1)
  }

  /** The whole number nearest to a non-negative `y`, halves rounded up. */
  function RoundHalfUp(y: real): (f: int)
    requires y >= 0.0
    ensures f >= 0
    ensures y - 0.5 < f as real <= y + 0.5
  {
    (y + 0.5).Floor
  }

  /** BigNumber's `toFixed(3)` under its default rounding mode, half away
      from zero, taken as the number the resulting text denotes: it moves
      a value by at most half a unit in the third place, keeps its sign,
      and is non-negative exactly when the value is above -0.0005
      (anything closer to zero rounds to zero). */
  function Round3(x: real): (r: real)
    ensures -0.0005 <= r - x <= 0.0005
    ensures x >= 0.0 ==> r >= 0.0
    ensures r >= 0.0 <==> x > -0.0005
  {
    if x >= 0.0 then (RoundHalfUp(x * 1000.0) as real) / 1000.0
    else
      var f := RoundHalfUp((-x) * 1000.0);
      assert f == 0 <==> x > -0.0005;
      -((f as real) / 1000.0)
  }

  /** The label shown in the Action column for a row of type `t` whose
      amount text denotes `amount`. */
  function ActionLabel(t: TransactionType, amount: real): (shown: string)
    ensures t.Swap? ==> (shown == "Sell" <==> amount >= 0.0) && (shown == "Buy" <==> amount < 0.0)
    ensures t.Deposit? ==> shown == "Deposit"
    ensures t.Refund? ==> shown == "Refund"
    ensures t.ClaimLp? ==> shown == "Claim LP"
    ensures t.OtherType? ==> shown == t.name
  {
    match t
    case Swap => if amount >= 0.0 then "Sell" else "Buy"
    case Deposit => "Deposit"
    case Refund => "Refund"
    case ClaimLp => "Claim LP"
    case OtherType(name) => name
  }

  /** The value in the Amount column, given the raise token's decimals
      (`None` when the pair or its raise token is not known). */
  function AmountByType(tx: Transaction, decimals: Option<nat>): (r: Outcome<real, RowError>)
    ensures (decimals.None? || decimals == Some(0)) ==> r == Ok(0.0)
    ensures (tx.txType.ClaimLp? || tx.txType.OtherType?) ==> r == Ok(0.0)
    ensures decimals.Some? && decimals.value != 0 && tx.txType.Swap? && |tx.swapAmounts0| > 0 ==>
              r.Ok? && -0.0005 <= r.value - tx.swapAmounts0[0] <= 0.0005 &&
              (tx.swapAmounts0[0] >= 0.0 ==> r.value >= 0.0)
    ensures r.Err? <==>
              decimals.Some? && decimals.value != 0 &&
              ((tx.txType.Swap? && |tx.swapAmounts0| == 0) ||
               (tx.txType.Deposit? && |tx.depositAmounts| == 0) ||
               (tx.txType.Refund? && |tx.refundAmounts| == 0))
  {
    if decimals.None? || decimals.value == 0 then Ok(0.0)
    else
      var d := decimals.value;
      match tx.txType
      case Swap =>
        if |tx.swapAmounts0| == 0 then Err(MissingLeg)
        else Ok(Round3(tx.swapAmounts0[0]))
      case Deposit =>
        if |tx.depositAmounts| == 0 then Err(MissingLeg)
        else Ok(Round3(tx.depositAmounts[0] as real / Pow10(d) as real))
      case Refund =>
        if |tx.refundAmounts| == 0 then Err(MissingLeg)
        else Ok(Round3(tx.refundAmounts[0] as real / Pow10(d) as real))
      case ClaimLp => Ok(0.0)
      case OtherType(_) => Ok(0.0)
  }

  /** The Action column of a row: the label computed from the row's own
      amount text. It fails exactly when the amount does, only a swap's
      label depends on the amount, and a swap reads "Sell" exactly when its
      amount is non-negative. */
  function RowLabel(tx: Transaction, decimals: Option<nat>): (r: Outcome<string, RowError>)
    ensures r.Err? <==> AmountByType(tx, decimals).Err?
    ensures r.Ok? && !tx.txType.Swap? ==> r.value == ActionLabel(tx.txType, 0.0)
    ensures r.Ok? && tx.txType.Swap? ==>
              (r.value == "Sell" <==> AmountByType(tx, decimals).value >= 0.0) &&
              (r.value == "Sell" || r.value == "Buy")
  {
    match AmountByType(tx, decimals)
    case Ok(amount) => Ok(ActionLabel(tx.txType, amount))
    case Err(e) => Err(e)
  }

  /** Without known decimals every amount is zero, so every swap reads
      "Sell", whichever way it went. */
  lemma MissingDecimalsLabelsEverySwapSell(tx: Transaction, decimals: Option<nat>)
    requires decimals.None? || decimals == Some(0)
    requires tx.txType.Swap?
    ensures RowLabel(tx, decimals) == Ok("Sell")
  {
  }

  /** With known decimals a swap reads "Sell" exactly when its unscaled
      `amount0` is above -0.0005, and "Buy" otherwise. */
  lemma SwapLabelFollowsAmount0(tx: Transaction, d: nat)
    requires d != 0
    requires tx.txType.Swap? && |tx.swapAmounts0| > 0
    ensures RowLabel(tx, Some(d)) == Ok("Sell") <==> tx.swapAmounts0[0] > -0.0005
    ensures RowLabel(tx, Some(d)) == Ok("Buy") <==> tx.swapAmounts0[0] <= -0.0005
  {
  }

  /** Deposit and refund amounts are the raw integer amount scaled down by
      `10^decimals`, to within the rounding of the third decimal place,
      and keep the raw amount's sign. */
  lemma ScaledAmountIsRawOverPow10(tx: Transaction, d: nat)
    requires d != 0
    requires (tx.txType.Deposit? && |tx.depositAmounts| > 0) ||
             (tx.txType.Refund? && |tx.refundAmounts| > 0)
    ensures var raw := if tx.txType.Deposit? then tx.depositAmounts[0] else tx.refundAmounts[0];
            var exact := raw as real / Pow10(d) as real;
            var r := AmountByType(tx, Some(d));
            r.Ok? &&
            -0.0005 <= r.value - exact <= 0.0005 &&
            (raw >= 0 ==> r.value >= 0.0)
  {
    var raw := if tx.txType.Deposit? then tx.depositAmounts[0] else tx.refundAmounts[0];
    var exact := raw as real / Pow10(d) as real;
    if raw >= 0 {
      assert exact >= 0.0;
    }
  }

  /** A claim-LP row shows amount zero whatever the decimals are: the text
      "-" written for that case is never returned. */
  lemma ClaimLpAmountIsZero(tx: Transaction, decimals: Option<nat>)
    requires tx.txType.ClaimLp?
    ensures AmountByType(tx, decimals) == Ok(0.0)
    ensures RowLabel(tx, decimals) == Ok("Claim LP")
  {
  }

  /** The component's state: the page number, whether a load is running,
      whether the indexer reported a further page, and the rows shown. */
  datatype Pager = Pager(page: int, loading: bool, hasNextPage: bool, transactions: Option<seq<Transaction>>)

  const InitialPager: Pager := Pager(1, true, false, None)

  predicate PreviousEnabled(p: Pager) {
    !(p.page == 1 || p.loading)
  }

  predicate NextEnabled(p: Pager) {
    !(!p.hasNextPage || p.loading)
  }

  /** The Previous button: a click on a disabled button does nothing. */
  function Previous(p: Pager): (q: Pager)
    ensures !PreviousEnabled(p) ==> q == p
    ensures PreviousEnabled(p) && p.page >= 1 ==> q == p.(page := p.page - 1)
    ensures p.page >= 1 ==> q.page >= 1
  {
    if PreviousEnabled(p) then p.(page := if 1 > p.page - 1 then 1 else p.page - 1) else p
  }

  /** The Next button: it moves one page forward exactly when the indexer
      reported a further page and no load is running. */
  function Next(p: Pager): (q: Pager)
    ensures q.page == p.page + 1 <==> p.hasNextPage && !p.loading
    ensures q.page != p.page + 1 ==> q == p
    ensures q == p || q == p.(page := p.page + 1)
  {
    if NextEnabled(p) then p.(page := p.page + 1) else p
  }

  /** How the indexer request of one load settled. */
  datatype FetchOutcome = Fetched(rows: seq<Transaction>, morePages: bool) | FetchFailed

  /** The start of a load: with a pair that has a launched token the
      loading flag is set and both buttons are disabled; otherwise the load
      returns before touching state. */
  function StartLoad(p: Pager, hasPair: bool, hasLaunchedToken: bool): (q: Pager)
    ensures !(hasPair && hasLaunchedToken) ==> q == p
    ensures hasPair && hasLaunchedToken ==>
              q.loading && !PreviousEnabled(q) && !NextEnabled(q) &&
              q.(loading := p.loading) == p
  {
    if !hasPair || !hasLaunchedToken then p else p.(loading := true)
  }

  /** A started load settling: the rows and the next-page flag are replaced
      on success and kept on failure, and the loading flag is cleared
      either way. */
  function SettleLoad(p: Pager, hasPair: bool, hasLaunchedToken: bool, outcome: FetchOutcome): (q: Pager)
    ensures !(hasPair && hasLaunchedToken) ==> q == p
    ensures hasPair && hasLaunchedToken ==> !q.loading && q.page == p.page
    ensures hasPair && hasLaunchedToken && outcome.Fetched? ==>
              q.transactions == Some(outcome.rows) && q.hasNextPage == outcome.morePages
    ensures hasPair && hasLaunchedToken && outcome.FetchFailed? ==>
              q == p.(loading := false)
  {
    if !hasPair || !hasLaunchedToken then p
    else
      match outcome
      case Fetched(rows, morePages) =>
        p.(transactions := Some(rows), hasNextPage := morePages, loading := false)
      case FetchFailed => p.(loading := false)
  }

  /** One load, from the moment it starts until it settles. A pair without
      a launched token, or no pair, makes it return before touching state;
      otherwise the rows and the next-page flag are replaced on success and
      kept on failure, and the loading flag is cleared either way. */
  function Load(p: Pager, hasPair: bool, hasLaunchedToken: bool, outcome: FetchOutcome): (q: Pager)
    ensures !(hasPair && hasLaunchedToken) ==> q == p
    ensures hasPair && hasLaunchedToken ==> !q.loading && q.page == p.page
    ensures hasPair && hasLaunchedToken && outcome.Fetched? ==>
              q.transactions == Some(outcome.rows) && q.hasNextPage == outcome.morePages
    ensures hasPair && hasLaunchedToken && outcome.FetchFailed? ==>
              q.transactions == p.transactions && q.hasNextPage == p.hasNextPage
  {
    SettleLoad(StartLoad(p, hasPair, hasLaunchedToken), hasPair, hasLaunchedToken, outcome)
  }

  /** What can happen to the component: a button click, a load starting,
      or a running load settling. */
  datatype Event = PreviousClicked | NextClicked | LoadStarted | LoadSettled(outcome: FetchOutcome)

  predicate IsClick(e: Event) {
    e.PreviousClicked? || e.NextClicked?
  }

  function Step(p: Pager, e: Event, hasPair: bool, hasLaunchedToken: bool): Pager {
    match e
    case PreviousClicked => Previous(p)
    case NextClicked => Next(p)
    case LoadStarted => StartLoad(p, hasPair, hasLaunchedToken)
    case LoadSettled(outcome) => SettleLoad(p, hasPair, hasLaunchedToken, outcome)
  }

  function Run(p: Pager, events: seq<Event>, hasPair: bool, hasLaunchedToken: bool): Pager
    decreases |events|
  {
    if |events| == 0 then p
    else Run(Step(p, events[0], hasPair, hasLaunchedToken), events[1..], hasPair, hasLaunchedToken)
  }

  /** Starting from page 1, no sequence of clicks and loads ever shows a
      page below 1. */
  lemma {:induction false} PageNeverBelowOne(p: Pager, events: seq<Event>, hasPair: bool, hasLaunchedToken: bool)
    requires p.page >= 1
    ensures Run(p, events, hasPair, hasLaunchedToken).page >= 1
    decreases |events|
  {
    if |events| > 0 {
      var q := Step(p, events[0], hasPair, hasLaunchedToken);
      assert q.page >= 1;
      PageNeverBelowOne(q, events[1..], hasPair, hasLaunchedToken);
    }
  }

  /** Without a pair with a launched token nothing ever loads, the loading
      flag set at mount stays set, both buttons stay disabled, and the
      component never leaves its initial state. */
  lemma {:induction false} NoPairNeverLeavesInitialState(events: seq<Event>, hasPair: bool, hasLaunchedToken: bool)
    requires !(hasPair && hasLaunchedToken)
    ensures Run(InitialPager, events, hasPair, hasLaunchedToken) == InitialPager
    decreases |events|
  {
    if |events| > 0 {
      assert Step(InitialPager, events[0], hasPair, hasLaunchedToken) == InitialPager;
      NoPairNeverLeavesInitialState(events[1..], hasPair, hasLaunchedToken);
    }
  }

  /** While a load is running both buttons are disabled, so any number of
      clicks before it settles leaves the component as it is. */
  lemma {:induction false} ClicksDuringLoadChangeNothing(p: Pager, events: seq<Event>, hasPair: bool, hasLaunchedToken: bool)
    requires p.loading
    requires forall k :: 0 <= k < |events| ==> IsClick(events[k])
    ensures Run(p, events, hasPair, hasLaunchedToken) == p
    decreases |events|
  {
    if |events| > 0 {
      assert IsClick(events[0]);
      assert Step(p, events[0], hasPair, hasLaunchedToken) == p;
      ClicksDuringLoadChangeNothing(p, events[1..], hasPair, hasLaunchedToken);
    }
  }
}
