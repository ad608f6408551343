/**
 * The swap run of main.py: balance checks, the optional wrap of the native
 * coin, the gas check, the quote, the slippage bound, the approval, the
 * swap and the optional unwrap, in that order.
 *
 * The chain client is not modelled: what it answers during the run is an
 * `Observations` value, read in the order the run asks. Every transaction
 * the run submits, every wait for a receipt, and the quote are recorded as
 * `Action`s of the trace.
 *
 * The run is given twice: `Run` is the step-by-step procedure with its
 * early returns, `Pipeline` the same run as a machine that passes through
 * one gated stage at a time. `Run` is proved to agree with `Pipeline`;
 * `Effects` lists what any run does, and the properties of the run are
 * lemmas about `Pipeline` and `Effects`.
 */
module Orchestrator {
  import opened Wrappers
  import opened Quoter
  import opened SwapV3

  /** Symbols whose source token is the wrapped form of the chain's native coin. */
  const NativeSymbols: seq<string> := ["ETH", "BNB", "MATIC", "OP"]
  /** The pool fee tier used for every path, 0.01%. */
  const PoolFee: int := 100
  /** Slippage in percent when the settings do not give one. */
  const DefaultSlippage: real := 1.0

  /** The run's settings, after configuration and unit conversion. */
  datatype Settings = Settings(
    fromSymbol: string,
    fromToken: Bytes,          // address of the source token (the wrapped coin on the native path)
    toToken: Bytes,
    amountIn: nat,             // swap amount in the source token's smallest unit
    slippage: Option<real>,    // percent; absent when the settings leave it out
    account: Bytes,            // the signer's address, recipient of the swap
    router: Bytes)

  /** What the chain client answers, in the order the run asks. */
  datatype Observations = Observations(
    tokenBalance: nat,           // source-token balance before the run
    nativeBalance: nat,          // native balance read on the wrap path
    wrapGasCost: nat,            // fee estimate read on the wrap path
    gasFee: nat,                 // fee estimate of the gas check
    nativeBalanceForGas: nat,    // native balance of the gas check
    quote: Option<nat>,          // the quoter call; None when it raised
    allowance: nat,              // allowance of the router over the source token
    swapChain: SwapChain,        // the answers during swap_tokens_v3
    balanceAfterSubmit: nat)     // source-token balance read right after the swap is submitted,
                                 // without waiting for the swap to be mined

  /** The transactions whose receipt the run waits for; the swap is not one of them. */
  datatype Awaited = WrapTx | ApproveTx | UnwrapTx

  /** A transaction the run submits, a wait for a receipt, or the (read-only) quote. */
  datatype Action =
    | Wrap(token: Bytes, amount: nat)
    | Quote(path: Bytes, amountIn: nat)
    | Approve(token: Bytes, spender: Bytes, amount: nat)
    | Swap(amountOutMin: int, tx: Envelope, hash: string)
    | Unwrap(amount: nat)
    | Await(receipt: Awaited)

  datatype Outcome =
    | AbortedInsufficientFunds
    | AbortedInsufficientGas
    | AbortedNoQuote
    | SwapNotSent
    | Completed
    | CompletedWithUnwrap

  predicate IsNativeSymbol(symbol: string) {
    symbol in NativeSymbols
  }

  /** settings.get("slippage", 1.0). */
  function SlippageOrDefault(setting: Option<real>): (slippage: real)
    ensures setting.None? ==> slippage == DefaultSlippage
    ensures setting.Some? ==> slippage == setting.value
  {
    match setting
    case Some(s) => s
    case None => DefaultSlippage
  }

  /** Python's int() on a number: truncation toward zero. */
  function TruncToInt(x: real): (r: int)
    ensures 0.0 <= x ==> 0 <= r && r as real <= x < r as real + 1.0
    ensures x < 0.0 ==> r <= 0 && r as real - 1.0 < x <= r as real
  {
    if 0.0 <= x then x.Floor else -((-x).Floor)
  }

  /** int(estimate * (1 - slippage / 100)), in exact arithmetic. */
  function AmountOutMin(estimate: nat, slippage: real): (r: int)
    ensures var x := estimate as real * (1.0 - slippage / 100.0);
      && (0.0 <= x ==> 0 <= r && r as real <= x < r as real + 1.0)
      && (x < 0.0 ==> r <= 0 && r as real - 1.0 < x <= r as real)
  {
    TruncToInt(estimate as real * (1.0 - slippage / 100.0))
  }

  // ---- what the run computes from its inputs ----

  /** The path of every quote and swap: source token, fee tier 100, destination token. */
  function SwapPath(s: Settings): Bytes {
    BuildPath(s.fromToken, s.toToken, PoolFee).value
  }

  /** The minimum output the swap accepts, from the quote and the slippage setting. */
  function MinOut(s: Settings, obs: Observations): int {
    AmountOutMin(QuoteExactInput(obs.quote), SlippageOrDefault(s.slippage))
  }

  // ---- the gates of the run ----

  /** The native path finds too little wrapped coin. */
  predicate NeedsWrap(s: Settings, obs: Observations) {
    IsNativeSymbol(s.fromSymbol) && obs.tokenBalance < s.amountIn
  }

  /** The native balance cannot pay for the wrap and its gas. */
  predicate CannotFundWrap(s: Settings, obs: Observations) {
    NeedsWrap(s, obs) && obs.nativeBalance < s.amountIn + obs.wrapGasCost
  }

  predicate CannotPayGas(obs: Observations) {
    obs.nativeBalanceForGas < obs.gasFee
  }

  /** The run gets as far as asking for a quote. */
  predicate ReachesQuote(s: Settings, obs: Observations) {
    !CannotFundWrap(s, obs) && !CannotPayGas(obs)
  }

  /** The run gets a usable quote, and so goes on to approval and swap. */
  predicate ReachesSwap(s: Settings, obs: Observations) {
    ReachesQuote(s, obs) && QuoteExactInput(obs.quote) != 0
  }

  // ---- the run as a machine of gated stages ----

  /** One action, or none. */
  function Effect(happens: bool, a: Action): seq<Action> {
    if happens then [a] else []
  }

  /** The swap the run sends: its slippage bound, the transaction and the hash reported for it. */
  function SwapAction(s: Settings, obs: Observations): Action
    requires Sends(obs.swapChain)
  {
    Swap(MinOut(s, obs),
         SwapEnvelope(SwapPath(s), s.account, s.amountIn, MinOut(s, obs), s.router, false, obs.swapChain),
         ToHex(obs.swapChain.txHash.value))
  }


  datatype Stage =
    | CheckBalance
    | CheckGas
    | Quoting
    | Approving
    | Swapping
    | Unwrapping
    | Finished(outcome: Outcome)

  /** A point of the run: its stage, the effects so far, and whether a shortfall was reported. */
  datatype Machine = Machine(stage: Stage, trace: seq<Action>, shortfall: bool)

  const Start := Machine(CheckBalance, [], false)

  /** One stage of the run; a finished run stays where it is. */
  function Step(s: Settings, obs: Observations, m: Machine): Machine {
    match m.stage
    case CheckBalance =>
      if CannotFundWrap(s, obs) then
        m.(stage := Finished(AbortedInsufficientFunds))
      else if NeedsWrap(s, obs) then
        Machine(CheckGas, m.trace + [Wrap(s.fromToken, s.amountIn), Await(WrapTx)], m.shortfall)
      else
        Machine(CheckGas, m.trace, Shortfall(s, obs))
    case CheckGas =>
      m.(stage := if CannotPayGas(obs) then Finished(AbortedInsufficientGas) else Quoting)
    case Quoting =>
      Machine(if QuoteExactInput(obs.quote) == 0 then Finished(AbortedNoQuote) else Approving,
              m.trace + [Quote(SwapPath(s), s.amountIn)], m.shortfall)
    case Approving =>
      if obs.allowance < s.amountIn then
        Machine(Swapping, m.trace + [Approve(s.fromToken, s.router, s.amountIn), Await(ApproveTx)], m.shortfall)
      else
        m.(stage := Swapping)
    case Swapping =>
      if Sends(obs.swapChain) then
        Machine(Unwrapping, m.trace + [SwapAction(s, obs)], m.shortfall)
      else
        m.(stage := Finished(SwapNotSent))
    case Unwrapping =>
      if obs.balanceAfterSubmit > 0 then
        Machine(Finished(CompletedWithUnwrap),
                m.trace + [Unwrap(obs.balanceAfterSubmit), Await(UnwrapTx)], m.shortfall)
      else
        m.(stage := Finished(Completed))
    case Finished(_) => m
  }

  /** The whole run: each of the six stages once, in order, from the start. */
  function Pipeline(s: Settings, obs: Observations): Machine {
    var balanceChecked := Step(s, obs, Start);
    var gasChecked := Step(s, obs, balanceChecked);
    var quoted := Step(s, obs, gasChecked);
    var approved := Step(s, obs, quoted);
    var swapped := Step(s, obs, approved);
    Step(s, obs, swapped)
  }

  /**
   * main: the run, step by step with its early returns. `shortfall` is the
   * error reported, without stopping, when a non-native source token has
   * too small a balance.
   */
  method Run(s: Settings, obs: Observations)
    returns (trace: seq<Action>, shortfall: bool, outcome: Outcome)
    ensures Pipeline(s, obs) == Machine(Finished(outcome), trace, shortfall)
  {
    trace, shortfall := [], false;
    var amountIn := s.amountIn;
    var path := BuildPath(s.fromToken, s.toToken, PoolFee).value;

    var tokenBalance := obs.tokenBalance;
    var nativeBalance: nat;
    if IsNativeSymbol(s.fromSymbol) {
      if tokenBalance < amountIn {
        nativeBalance := obs.nativeBalance;
        var gasCost := obs.wrapGasCost;
        if nativeBalance < amountIn + gasCost {
          outcome := AbortedInsufficientFunds;
          PipelineUnfunded(s, obs);
          return;
        }
        trace := trace + [Wrap(s.fromToken, amountIn)];
        trace := trace + [Await(WrapTx)];
      }
    } else if tokenBalance < amountIn {
      shortfall := true;
    }

    assert trace == WrapEffect(s, obs) && shortfall == Shortfall(s, obs);

    var gasFee := obs.gasFee;
    nativeBalance := obs.nativeBalanceForGas;
    if nativeBalance < gasFee {
      outcome := AbortedInsufficientGas;
      PipelineNoGas(s, obs);
      return;
    }

    trace := trace + [Quote(path, amountIn)];
    var amountOutEstimated := QuoteExactInput(obs.quote);
    if amountOutEstimated == 0 {
      outcome := AbortedNoQuote;
      PipelineNoQuote(s, obs);
      return;
    }

    var slippage := SlippageOrDefault(s.slippage);
    var amountOutMin := AmountOutMin(amountOutEstimated, slippage);

    var allowance := obs.allowance;
    if allowance < amountIn {
      trace := trace + [Approve(s.fromToken, s.router, amountIn)];
      trace := trace + [Await(ApproveTx)];
    }

    assert trace == WrapEffect(s, obs) + [Quote(SwapPath(s), s.amountIn)] + ApproveEffect(s, obs);
    var hash, sent := SwapTokensV3(path, s.account, amountIn, amountOutMin, s.router, false, obs.swapChain);
    if hash != "" {
      PipelineSent(s, obs);
      trace := trace + [Swap(amountOutMin, sent.value, hash)];
      var wrappedBalance := obs.balanceAfterSubmit;
      if wrappedBalance > 0 {
        trace := trace + [Unwrap(wrappedBalance)];
        trace := trace + [Await(UnwrapTx)];
        outcome := CompletedWithUnwrap;
      } else {
        outcome := Completed;
      }
    } else {
      outcome := SwapNotSent;
      PipelineNotSent(s, obs);
    }
  }

  // ---- slippage ----

  /** With a slippage between 0 and 100 percent the bound lies between 0 and the quote. */
  lemma AmountOutMinBounds(estimate: nat, slippage: real)
    requires 0.0 <= slippage <= 100.0
    ensures 0 <= AmountOutMin(estimate, slippage) <= estimate
  {
    var keep := 1.0 - slippage / 100.0;
    assert 0.0 <= keep <= 1.0;
    var x := estimate as real * keep;
    assert 0.0 <= x by {
      assert 0.0 <= estimate as real;
    }
    assert x <= estimate as real by {
      assert estimate as real * keep <= estimate as real * 1.0;
    }
    var r := AmountOutMin(estimate, slippage);
    assert r as real <= x;
  }

  /** Without slippage the bound is the quote itself. */
  lemma AmountOutMinNoSlippage(estimate: nat)
    ensures AmountOutMin(estimate, 0.0) == estimate
  {
    assert estimate as real * (1.0 - 0.0 / 100.0) == estimate as real;
  }

  /** More slippage never raises the bound. */
  lemma AmountOutMinMonotone(estimate: nat, tighter: real, looser: real)
    requires tighter <= looser
    ensures AmountOutMin(estimate, looser) <= AmountOutMin(estimate, tighter)
  {
    var x := estimate as real * (1.0 - tighter / 100.0);
    var y := estimate as real * (1.0 - looser / 100.0);
    assert y <= x by {
      assert x - y == estimate as real * ((looser - tighter) / 100.0);
      assert 0.0 <= estimate as real * ((looser - tighter) / 100.0);
    }
  }

  /**
   * For a whole percentage the bound is the integer quotient
   * estimate * (100 - percent) / 100: truncation, never rounding up.
   */
  lemma AmountOutMinWholePercent(estimate: nat, percent: nat)
    requires percent <= 100
    ensures AmountOutMin(estimate, percent as real) == estimate * (100 - percent) / 100
  {
    var k := estimate * (100 - percent);
    var q, m := k / 100, k % 100;
    assert k == 100 * q + m && 0 <= m < 100;
    var x := estimate as real * (1.0 - percent as real / 100.0);
    assert x == k as real / 100.0;
    assert x == q as real + m as real / 100.0;
    assert 0 <= q;
    assert x.Floor == q;
  }

  /** A quote of 2 000 000 at the default 1% slippage accepts no less than 1 980 000. */
  lemma AmountOutMinDefaultExample()
    ensures AmountOutMin(2_000_000, SlippageOrDefault(None)) == 1_980_000
  {
    AmountOutMinWholePercent(2_000_000, 1);
  }

  // ---- properties of the run ----

  /**
   * The wrap of exactly the swap amount and the wait for its receipt, when
   * the native path needs one and can fund it.
   */
  function WrapEffect(s: Settings, obs: Observations): seq<Action> {
    if NeedsWrap(s, obs) && !CannotFundWrap(s, obs) then [Wrap(s.fromToken, s.amountIn), Await(WrapTx)] else []
  }

  /**
   * The approval of exactly the swap amount to the router and the wait for
   * its receipt, when the allowance falls short.
   */
  function ApproveEffect(s: Settings, obs: Observations): seq<Action> {
    if obs.allowance < s.amountIn then [Approve(s.fromToken, s.router, s.amountIn), Await(ApproveTx)] else []
  }

  /**
   * The unwrap of the whole balance read after the swap was submitted, and
   * the wait for its receipt, when that balance is positive.
   */
  function UnwrapEffect(obs: Observations): seq<Action> {
    if obs.balanceAfterSubmit > 0 then [Unwrap(obs.balanceAfterSubmit), Await(UnwrapTx)] else []
  }

  /** The non-native shortfall that is reported without stopping the run. */
  predicate Shortfall(s: Settings, obs: Observations) {
    !IsNativeSymbol(s.fromSymbol) && obs.tokenBalance < s.amountIn
  }

  /** A native path that cannot fund its wrap stops before doing anything. */
  lemma PipelineUnfunded(s: Settings, obs: Observations)
    requires CannotFundWrap(s, obs)
    ensures Pipeline(s, obs) == Machine(Finished(AbortedInsufficientFunds), [], false)
  {
    var m1 := Step(s, obs, Start);
    assert m1 == Machine(Finished(AbortedInsufficientFunds), [], false);
  }

  /** Too little native coin for gas stops the run after the wrap, before the quote. */
  lemma PipelineNoGas(s: Settings, obs: Observations)
    requires !CannotFundWrap(s, obs) && CannotPayGas(obs)
    ensures Pipeline(s, obs) ==
      Machine(Finished(AbortedInsufficientGas), WrapEffect(s, obs), Shortfall(s, obs))
  {
    var m1 := Step(s, obs, Start);
    assert m1 == Machine(CheckGas, WrapEffect(s, obs), Shortfall(s, obs));
  }

  /** A quote of 0 stops the run right after the quote. */
  lemma PipelineNoQuote(s: Settings, obs: Observations)
    requires ReachesQuote(s, obs) && QuoteExactInput(obs.quote) == 0
    ensures Pipeline(s, obs) ==
      Machine(Finished(AbortedNoQuote), WrapEffect(s, obs) + [Quote(SwapPath(s), s.amountIn)], Shortfall(s, obs))
  {
    var m1 := Step(s, obs, Start);
    assert m1 == Machine(CheckGas, WrapEffect(s, obs), Shortfall(s, obs));
    var m2 := Step(s, obs, m1);
    assert m2 == m1.(stage := Quoting);
  }

  /** A swap the chain does not accept ends the run after the approval. */
  lemma PipelineNotSent(s: Settings, obs: Observations)
    requires ReachesSwap(s, obs) && !Sends(obs.swapChain)
    ensures Pipeline(s, obs) ==
      Machine(Finished(SwapNotSent),
              WrapEffect(s, obs) + [Quote(SwapPath(s), s.amountIn)] + ApproveEffect(s, obs),
              Shortfall(s, obs))
  {
    var m1 := Step(s, obs, Start);
    assert m1 == Machine(CheckGas, WrapEffect(s, obs), Shortfall(s, obs));
    var m2 := Step(s, obs, m1);
    assert m2 == m1.(stage := Quoting);
    var m3 := Step(s, obs, m2);
    assert m3 == Machine(Approving, m2.trace + [Quote(SwapPath(s), s.amountIn)], m2.shortfall);
    var m4 := Step(s, obs, m3);
    assert m4 == Machine(Swapping, m3.trace + ApproveEffect(s, obs), m3.shortfall);
  }

  /** A sent swap completes the run, with the unwrap when wrapped coin is left. */
  lemma PipelineSent(s: Settings, obs: Observations)
    requires ReachesSwap(s, obs) && Sends(obs.swapChain)
    ensures Pipeline(s, obs) ==
      Machine(Finished(if obs.balanceAfterSubmit > 0 then CompletedWithUnwrap else Completed),
              WrapEffect(s, obs) + [Quote(SwapPath(s), s.amountIn)] + ApproveEffect(s, obs)
                + [SwapAction(s, obs)] + UnwrapEffect(obs),
              Shortfall(s, obs))
  {
    var m1 := Step(s, obs, Start);
    assert m1 == Machine(CheckGas, WrapEffect(s, obs), Shortfall(s, obs));
    var m2 := Step(s, obs, m1);
    assert m2 == m1.(stage := Quoting);
    var m3 := Step(s, obs, m2);
    assert m3 == Machine(Approving, m2.trace + [Quote(SwapPath(s), s.amountIn)], m2.shortfall);
    var m4 := Step(s, obs, m3);
    assert m4 == Machine(Swapping, m3.trace + ApproveEffect(s, obs), m3.shortfall);
    var m5 := Step(s, obs, m4);
    assert m5 == Machine(Unwrapping, m4.trace + [SwapAction(s, obs)], m4.shortfall);
  }

  /**
   * The actions of any run, in order: the wrap when needed and fundable, the
   * quote once the balance and gas gates pass, the approval and the swap once
   * the quote is usable, the unwrap after a sent swap. The wrap, approval and
   * unwrap are each followed by a wait for their receipt; the swap is not.
   */
  function Effects(s: Settings, obs: Observations): seq<Action> {
    WrapEffect(s, obs)
    + Effect(ReachesQuote(s, obs), Quote(SwapPath(s), s.amountIn))
    + (if ReachesSwap(s, obs) then ApproveEffect(s, obs) else [])
    + (if ReachesSwap(s, obs) && Sends(obs.swapChain) then [SwapAction(s, obs)] else [])
    + (if ReachesSwap(s, obs) && Sends(obs.swapChain) then UnwrapEffect(obs) else [])
  }

  /** Every run ends in a finished stage, having done exactly `Effects`. */
  lemma PipelineEffects(s: Settings, obs: Observations)
    ensures Pipeline(s, obs).stage.Finished?
    ensures Pipeline(s, obs).shortfall == (!CannotFundWrap(s, obs) && Shortfall(s, obs))
    ensures Pipeline(s, obs).trace == Effects(s, obs)
  {
    if CannotFundWrap(s, obs) {
      PipelineUnfunded(s, obs);
    } else if CannotPayGas(obs) {
      PipelineNoGas(s, obs);
    } else if QuoteExactInput(obs.quote) == 0 {
      PipelineNoQuote(s, obs);
    } else if !Sends(obs.swapChain) {
      PipelineNotSent(s, obs);
    } else {
      PipelineSent(s, obs);
    }
  }

  /** The terminal state names the first gate that failed, or how the swap ended. */
  lemma PipelineOutcome(s: Settings, obs: Observations)
    ensures var stage := Pipeline(s, obs).stage;
      && (stage == Finished(AbortedInsufficientFunds) <==> CannotFundWrap(s, obs))
      && (stage == Finished(AbortedInsufficientGas) <==> !CannotFundWrap(s, obs) && CannotPayGas(obs))
      && (stage == Finished(AbortedNoQuote) <==> ReachesQuote(s, obs) && QuoteExactInput(obs.quote) == 0)
      && (stage == Finished(SwapNotSent) <==> ReachesSwap(s, obs) && !Sends(obs.swapChain))
      && (stage == Finished(Completed) <==>
            ReachesSwap(s, obs) && Sends(obs.swapChain) && obs.balanceAfterSubmit == 0)
      && (stage == Finished(CompletedWithUnwrap) <==>
            ReachesSwap(s, obs) && Sends(obs.swapChain) && obs.balanceAfterSubmit > 0)
  {
    if CannotFundWrap(s, obs) {
      PipelineUnfunded(s, obs);
    } else if CannotPayGas(obs) {
      PipelineNoGas(s, obs);
    } else if QuoteExactInput(obs.quote) == 0 {
      PipelineNoQuote(s, obs);
    } else if !Sends(obs.swapChain) {
      PipelineNotSent(s, obs);
    } else {
      PipelineSent(s, obs);
    }
  }

  /** Every action of a run comes from one of its five stages. */
  lemma EffectsMembers(s: Settings, obs: Observations)
    ensures forall a :: a in Effects(s, obs) ==>
      || a in WrapEffect(s, obs)
      || (ReachesQuote(s, obs) && a == Quote(SwapPath(s), s.amountIn))
      || (ReachesSwap(s, obs) && a in ApproveEffect(s, obs))
      || (ReachesSwap(s, obs) && Sends(obs.swapChain) && a == SwapAction(s, obs))
      || (ReachesSwap(s, obs) && Sends(obs.swapChain) && a in UnwrapEffect(obs))
  {
    var sent := ReachesSwap(s, obs) && Sends(obs.swapChain);
    var w := WrapEffect(s, obs);
    var q := Effect(ReachesQuote(s, obs), Quote(SwapPath(s), s.amountIn));
    var p := if ReachesSwap(s, obs) then ApproveEffect(s, obs) else [];
    var x := if sent then [SwapAction(s, obs)] else [];
    var u := if sent then UnwrapEffect(obs) else [];
    assert Effects(s, obs) == w + q + p + x + u;
    assert forall a :: a in Effects(s, obs) ==> a in w || a in q || a in p || a in x || a in u;
  }

  /** A non-native shortfall is reported and does not stop the run. */
  lemma ShortfallIsNotFatal(s: Settings, obs: Observations)
    ensures Pipeline(s, obs).shortfall <==> Shortfall(s, obs)
    ensures Pipeline(s, obs).shortfall ==> Pipeline(s, obs).stage != Finished(AbortedInsufficientFunds)
  {
    PipelineEffects(s, obs);
  }

  /** When the native path cannot fund the wrap, nothing at all happens: no wrap, no quote, no swap. */
  lemma UnfundedWrapDoesNothing(s: Settings, obs: Observations)
    requires CannotFundWrap(s, obs)
    ensures Effects(s, obs) == []
  {
  }

  /**
   * The only wrap is of the source token for exactly the swap amount; it
   * happens exactly when the native path is short and can fund it, and then
   * it comes first and its receipt is awaited before anything else.
   */
  lemma WrapComesFirst(s: Settings, obs: Observations)
    ensures forall a :: a in Effects(s, obs) && a.Wrap? ==> a == Wrap(s.fromToken, s.amountIn)
    ensures Wrap(s.fromToken, s.amountIn) in Effects(s, obs) <==>
      NeedsWrap(s, obs) && !CannotFundWrap(s, obs)
    ensures Wrap(s.fromToken, s.amountIn) in Effects(s, obs) ==>
      && Effects(s, obs)[0] == Wrap(s.fromToken, s.amountIn)
      && Effects(s, obs)[1] == Await(WrapTx)
      && IsNativeSymbol(s.fromSymbol)
  {
    EffectsMembers(s, obs);
  }

  /** A zero quote ends the run after the quote: no approval, no swap, no unwrap. */
  lemma ZeroQuoteStops(s: Settings, obs: Observations)
    requires QuoteExactInput(obs.quote) == 0
    ensures forall a :: a in Effects(s, obs) ==> a.Wrap? || a == Await(WrapTx) || a.Quote?
  {
    EffectsMembers(s, obs);
  }

  /**
   * The only approval is of the source token to the router for exactly the
   * swap amount. It happens iff the run reaches it and the allowance falls
   * short, and it is then awaited.
   */
  lemma ApprovalIsExact(s: Settings, obs: Observations)
    ensures forall a :: a in Effects(s, obs) && a.Approve? ==> a == Approve(s.fromToken, s.router, s.amountIn)
    ensures Approve(s.fromToken, s.router, s.amountIn) in Effects(s, obs) <==>
      ReachesSwap(s, obs) && obs.allowance < s.amountIn
    ensures Await(ApproveTx) in Effects(s, obs) <==> Approve(s.fromToken, s.router, s.amountIn) in Effects(s, obs)
  {
    EffectsMembers(s, obs);
  }

  /** The approval and its confirmation both come before the swap is submitted. */
  lemma ApprovalBeforeSwap(s: Settings, obs: Observations)
    ensures forall i, j ::
      (0 <= i < |Effects(s, obs)| && 0 <= j < |Effects(s, obs)| &&
       (Effects(s, obs)[i].Approve? || Effects(s, obs)[i] == Await(ApproveTx)) && Effects(s, obs)[j].Swap?) ==> i < j
  {
    EffectsOrdered(s, obs);
  }

  /**
   * The unwrap takes the whole balance read after the swap was submitted,
   * happens only after a swap that was sent, and is awaited.
   */
  lemma UnwrapAfterSentSwap(s: Settings, obs: Observations)
    ensures Unwrap(obs.balanceAfterSubmit) in Effects(s, obs) <==>
      ReachesSwap(s, obs) && Sends(obs.swapChain) && obs.balanceAfterSubmit > 0
    ensures forall a :: a in Effects(s, obs) && a.Unwrap? ==> a == Unwrap(obs.balanceAfterSubmit)
    ensures Await(UnwrapTx) in Effects(s, obs) <==> Unwrap(obs.balanceAfterSubmit) in Effects(s, obs)
  {
    EffectsMembers(s, obs);
  }

  /**
   * The swap is never awaited: right after it is submitted comes the unwrap
   * (or the end of the run), so the balance behind the unwrap is read while
   * the swap may still be pending.
   */
  lemma SwapNotAwaited(s: Settings, obs: Observations)
    ensures forall i :: 0 <= i < |Effects(s, obs)| && Effects(s, obs)[i].Swap? ==>
      i + 1 == |Effects(s, obs)| || Effects(s, obs)[i + 1] == Unwrap(obs.balanceAfterSubmit)
  {
  }

  /**
   * The swap the run sends goes from the signer to the router with no native
   * value and no refund call, carries the slippage bound and the quoted path,
   * and is reported by a non-empty hash.
   */
  lemma SwapCarriesBound(s: Settings, obs: Observations)
    ensures forall a :: a in Effects(s, obs) && a.Swap? ==>
      && a.amountOutMin == MinOut(s, obs)
      && a.hash != ""
      && a.tx.sender == s.account && a.tx.to == s.router && a.tx.value == 0
      && (a.tx.data.Multicall? ==> |a.tx.data.calls| == 1 && a.tx.data.calls[0] != RefundEth)
      && (a.tx.data.Multicall? && a.tx.data.calls[0].ExactInput? ==>
            a.tx.data.calls[0].params.amountOutMinimum == MinOut(s, obs)
            && a.tx.data.calls[0].params.path == SwapPath(s))
  {
    EffectsMembers(s, obs);
    if ReachesSwap(s, obs) && Sends(obs.swapChain) {
      SwapEnvelopeFields(SwapPath(s), s.account, s.amountIn, MinOut(s, obs), s.router, false, obs.swapChain);
      SentHashNonEmpty(obs.swapChain.txHash.value);
    }
  }

  // ---- order of the effects ----

  /** The position of an action in a run; actions happen in this order. */
  function Rank(a: Action): nat {
    match a
    case Wrap(_, _) => 0
    case Await(WrapTx) => 1
    case Quote(_, _) => 2
    case Approve(_, _, _) => 3
    case Await(ApproveTx) => 4
    case Swap(_, _, _) => 5
    case Unwrap(_) => 6
    case Await(UnwrapTx) => 7
  }

  /** Each action comes later in the run than every action before it. */
  predicate Ordered(trace: seq<Action>) {
    forall i, j :: 0 <= i < j < |trace| ==> Rank(trace[i]) < Rank(trace[j])
  }

  /** Every action of the trace has a rank below `bound`. */
  predicate Before(trace: seq<Action>, bound: nat) {
    forall a :: a in trace ==> Rank(a) < bound
  }

  /** The segment is ordered and its ranks lie in `lo .. hi - 1`. */
  predicate Within(segment: seq<Action>, lo: nat, hi: nat) {
    Ordered(segment) && forall a :: a in segment ==> lo <= Rank(a) < hi
  }

  /** Appending an ordered segment of later ranks keeps the trace ordered. */
  lemma {:induction false} OrderedExtend(trace: seq<Action>, segment: seq<Action>, lo: nat, hi: nat)
    requires lo <= hi && Ordered(trace) && Before(trace, lo) && Within(segment, lo, hi)
    ensures Ordered(trace + segment) && Before(trace + segment, hi)
  {
    var t := trace + segment;
    forall i, j | 0 <= i < j < |t| ensures Rank(t[i]) < Rank(t[j]) {
      if j < |trace| {
        assert t[i] == trace[i] && t[j] == trace[j];
      } else if i < |trace| {
        assert t[i] in trace;
        assert t[j] in segment;
      } else {
        assert t[i] == segment[i - |trace|] && t[j] == segment[j - |trace|];
      }
    }
    forall a | a in t ensures Rank(a) < hi {
      assert a in trace || a in segment;
    }
  }

  /** Five segments, one per stage in stage order, make an ordered trace. */
  lemma OrderedStages(w: seq<Action>, q: seq<Action>, p: seq<Action>, x: seq<Action>, u: seq<Action>)
    requires Within(w, 0, 2) && Within(q, 2, 3) && Within(p, 3, 5) && Within(x, 5, 6) && Within(u, 6, 8)
    ensures Ordered(w + q + p + x + u)
  {
    var e: seq<Action> := [];
    OrderedExtend(e, w, 0, 2);
    assert e + w == w;
    OrderedExtend(w, q, 2, 3);
    OrderedExtend(w + q, p, 3, 5);
    OrderedExtend(w + q + p, x, 5, 6);
    OrderedExtend(w + q + p + x, u, 6, 8);
  }

  /** The run's actions come in stage order: wrap, its wait, quote, approve, its wait, swap, unwrap, its wait. */
  lemma EffectsOrdered(s: Settings, obs: Observations)
    ensures Ordered(Effects(s, obs))
  {
    var sent := ReachesSwap(s, obs) && Sends(obs.swapChain);
    var w := WrapEffect(s, obs);
    var q := Effect(ReachesQuote(s, obs), Quote(SwapPath(s), s.amountIn));
    var p := if ReachesSwap(s, obs) then ApproveEffect(s, obs) else [];
    var x := if sent then [SwapAction(s, obs)] else [];
    var u := if sent then UnwrapEffect(obs) else [];
    StagesWithin(s, obs);
    OrderedStages(w, q, p, x, u);
    assert Effects(s, obs) == w + q + p + x + u;
  }

  /** Each stage's share of the effects lies within that stage's ranks. */
  lemma StagesWithin(s: Settings, obs: Observations)
    ensures Within(WrapEffect(s, obs), 0, 2)
    ensures Within(Effect(ReachesQuote(s, obs), Quote(SwapPath(s), s.amountIn)), 2, 3)
    ensures Within(if ReachesSwap(s, obs) then ApproveEffect(s, obs) else [], 3, 5)
    ensures Within(if ReachesSwap(s, obs) && Sends(obs.swapChain) then [SwapAction(s, obs)] else [], 5, 6)
    ensures Within(if ReachesSwap(s, obs) && Sends(obs.swapChain) then UnwrapEffect(obs) else [], 6, 8)
  {
    PairWithin(Wrap(s.fromToken, s.amountIn), Await(WrapTx), 0, 2);
    PairWithin(Approve(s.fromToken, s.router, s.amountIn), Await(ApproveTx), 3, 5);
    PairWithin(Unwrap(obs.balanceAfterSubmit), Await(UnwrapTx), 6, 8);
    SingleWithin(Quote(SwapPath(s), s.amountIn), 2, 3);
    if ReachesSwap(s, obs) && Sends(obs.swapChain) {
      SingleWithin(SwapAction(s, obs), 5, 6);
    }
  }

  /** An empty segment, and a one-action segment, lie within the action's rank. */
  lemma SingleWithin(a: Action, lo: nat, hi: nat)
    requires lo <= Rank(a) < hi
    ensures Within([a], lo, hi) && Within([], lo, hi)
  {
  }

  /** An empty segment, and a two-action segment in rank order, lie within their ranks. */
  lemma PairWithin(a: Action, b: Action, lo: nat, hi: nat)
    requires lo <= Rank(a) < Rank(b) < hi
    ensures Within([a, b], lo, hi) && Within([], lo, hi)
  {
    var t := [a, b];
    assert forall c :: c in t ==> c == a || c == b;
  }

  /** The effects of a run come in stage order. */
  lemma PipelineOrdered(s: Settings, obs: Observations)
    ensures Ordered(Pipeline(s, obs).trace)
  {
    PipelineEffects(s, obs);
    EffectsOrdered(s, obs);
  }

  /** The rank of the i-th action of an ordered trace is at least i. */
  lemma {:induction false} RankAtLeastIndex(trace: seq<Action>, i: nat)
    requires Ordered(trace) && i < |trace|
    ensures i <= Rank(trace[i])
  {
    if i > 0 {
      RankAtLeastIndex(trace, i - 1);
    }
  }

  /** No action happens twice: a run has at most eight actions. */
  lemma AtMostEightActions(s: Settings, obs: Observations)
    ensures |Pipeline(s, obs).trace| <= 8
  {
    PipelineOrdered(s, obs);
    OrderedLength(Pipeline(s, obs).trace);
  }

  /** An ordered trace has at most one action of each of the eight ranks. */
  lemma OrderedLength(trace: seq<Action>)
    requires Ordered(trace)
    ensures |trace| <= 8
  {
    if |trace| > 8 {
      RankAtLeastIndex(trace, 8);
    }
  }
}
