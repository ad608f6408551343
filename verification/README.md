# Uniswap V3 swap script, modelled in Dafny

The system is a small script that swaps one ERC-20 token for another through
a Uniswap V3 (PancakeSwap V3) router. A run goes through these steps:

1. It loads its settings and converts the amount to the token's smallest unit.
2. It builds the single-hop swap path `tokenIn | fee | tokenOut`.
3. On a native-coin symbol (ETH, BNB, MATIC, OP) whose wrapped balance is short, it wraps the native coin.
4. It checks that the native balance covers gas.
5. It asks the quoter contract for the expected output.
6. It derives the minimum acceptable output from a slippage percentage.
7. If the allowance is short, it approves the router.
8. It sends one EIP-1559 multicall transaction carrying `exactInput`. `swap_tokens_v3` appends `refundETH` when its `native_token` flag is set; `main` never sets it.
9. If the swap was sent, it reads the source-token balance right after submitting the swap, without waiting for the swap to be mined, and unwraps that balance when it is positive.

The run waits for the receipt of the wrap, the approval and the unwrap. It does not wait for the swap.

The model has four modules, one file each:

- `wrappers.dfy` holds `Option` and `Result`. `None` stands for a chain call that raised.
- `quoter.dfy` (module `Quoter`) holds the path encoder and its inverse, and the quote wrapper that turns any failure into 0.
- `swap_v3.dfy` (module `SwapV3`) is the swap submission. `SwapTokensV3` is an imperative method:
  - it appends to the call list, builds the transaction record and then sets its fee fields one by one;
  - it returns early wherever a chain call raises.

  It is proved against the function `SwapEnvelope`.
- `orchestrator.dfy` (module `Orchestrator`) is the run of `main`, written twice:
  - `Run` is the step-by-step procedure with its early returns;
  - `Pipeline` is the same run as a machine of gated stages (`Step`).

  `Run` is proved to end in the state `Pipeline` reaches. `Effects` lists, in closed form, what any run does. The properties of the run are lemmas about `Pipeline` and `Effects`.

The chain is not modelled. What the chain client answers enters as data:

- `SwapChain` holds the answers during one swap submission;
- `Observations` holds the balances, fee estimates, quote, allowance and balance read right after submitting the swap, which `main` reads, in the order it reads them.

Every transaction the run submits, every wait for a receipt, and the quote are recorded as an `Action` (`Wrap`, `Await`, `Quote`, `Approve`, `Swap`, `Unwrap`) in the run's trace. The run ends in an `Outcome`.

## Model

| member | source | states |
|---|---|---|
| Quoter.FeeBytes | uniswap/quoter.py:27 | a fee in 0..2^24-1 is written as exactly three bytes |
| Quoter.FeeValue | uniswap/quoter.py:27 | three big-endian bytes read back as a fee in 0..2^24-1 |
| Quoter.FeeRoundTrip | uniswap/quoter.py:27 | reading back the three bytes written for a fee gives that fee |
| Quoter.FeeBytesOfValue | uniswap/quoter.py:27 | every three-byte string is the encoding of the fee it reads as, so the encoding is onto |
| Quoter.BuildPath | uniswap/quoter.py:23-31 | fails, naming the fee, exactly when the fee is outside 0..2^24-1; otherwise the path is `tokenIn`, then the fee's three bytes, then `tokenOut`, with length \|in\|+3+\|out\| |
| Quoter.SplitPath | uniswap/quoter.py:25-29 | a reference inverse that splits a path at offsets 20 and 23; it succeeds exactly on 43-byte paths, giving two addresses and a fee in range |
| Quoter.PathLengthOfAddresses | uniswap/quoter.py:25-29 | for two 20-byte addresses and a fee in range, the path is exactly 43 bytes |
| Quoter.SplitBuiltPath | uniswap/quoter.py:25-29 | round trip: splitting a built path gives back (tokenIn, fee, tokenOut) |
| Quoter.BuildSplitPath | uniswap/quoter.py:25-29 | round trip the other way: every 43-byte path is the path built from its own split |
| Quoter.BuildPathInjective | uniswap/quoter.py:25-29 | two address/fee triples that build the same path are equal |
| Quoter.QuoteExactInput | uniswap/quoter.py:34-42 | the quoter's answer passes through unchanged on success; any failure gives 0 |
| Quoter.QuoteZeroIsFailureOrZero | uniswap/quoter.py:36-42 | a result of 0 means the call failed or the quoter answered 0, and nothing else |
| SwapV3.GasLimit | uniswap/swap_V3.py:48 | the gas limit is the estimate times 5/4, truncated: never below the estimate, and 4·gas ≤ 5·estimate < 4·gas+4 |
| SwapV3.GasLimitHeadroom | uniswap/swap_V3.py:48 | the headroom is exactly estimate/4 (integer division), so the limit lies between the estimate and 1.25 times it |
| SwapV3.HexOf | uniswap/swap_V3.py:55-56 | two hexadecimal digits per byte of the hash |
| SwapV3.ToHex | uniswap/swap_V3.py:55-56 | the reported text is two characters longer than the hash's digits |
| SwapV3.ToHexShape | uniswap/swap_V3.py:56 | the reported text is `0x` followed by the hash's hexadecimal digits |
| SwapV3.SentHashNonEmpty | uniswap/swap_V3.py:54-56 | the text reported for a sent transaction is never empty, so `""` unambiguously means failure |
| SwapV3.HexOfInjective | uniswap/swap_V3.py:56 | distinct hashes give distinct hexadecimal texts |
| SwapV3.ToHexInjective | uniswap/swap_V3.py:56 | the reported text identifies the transaction hash |
| SwapV3.ExactInputCall | uniswap/router_v3.py:52-70 | the exactInput call carries the path, recipient, amount in, minimum out and a deadline 120 s after the clock reading; a failed encoding gives the empty payload instead |
| SwapV3.SwapTokensV3 | uniswap/swap_V3.py:8-60 | returns `""` with nothing sent exactly when some chain call fails or, on the native path, the `refundETH` encoding raises (caught at lines 58-60); otherwise it sends exactly the envelope `SwapEnvelope` describes and returns the hex text of the chain's hash |
| SwapV3.SwapEnvelopeFields | uniswap/swap_V3.py:17-51 | the sent envelope, field by field (see below) |
| Orchestrator.SlippageOrDefault | main.py:83 | an unset slippage is 1.0 percent; a set one is used as given |
| Orchestrator.TruncToInt | main.py:84 | Python's `int()` on a number: truncation toward zero, from either side |
| Orchestrator.AmountOutMin | main.py:84 | the minimum output is x = quote·(1 − slippage/100) truncated toward zero: for x ≥ 0, the integer r with r ≤ x < r+1; for x < 0, the one with r−1 < x ≤ r |
| Orchestrator.AmountOutMinBounds | main.py:84 | for a slippage between 0 and 100 percent, 0 ≤ minimum output ≤ quote |
| Orchestrator.AmountOutMinNoSlippage | main.py:83-84 | with zero slippage the minimum output is the quote |
| Orchestrator.AmountOutMinMonotone | main.py:84 | more slippage never raises the minimum output |
| Orchestrator.AmountOutMinWholePercent | main.py:84 | for a whole percentage p, the minimum output is quote·(100−p)/100 in integer division, so it truncates and never rounds up |
| Orchestrator.AmountOutMinDefaultExample | main.py:83-84 | at the default 1%, a quote of 2 000 000 gives a minimum of 1 980 000 |
| Orchestrator.Run | main.py:44-130 | the procedure, early returns included, ends with exactly the trace, shortfall report and outcome the stage machine `Pipeline` reaches |
| Orchestrator.PipelineUnfunded | main.py:50-60 | on the native path, a short wrapped balance with native balance < amount + wrap gas ends the run with no effect at all |
| Orchestrator.PipelineNoGas | main.py:50-75 | native balance < gas fee ends the run after the possible wrap, before the quote |
| Orchestrator.PipelineNoQuote | main.py:71-81 | a quote of 0 ends the run right after the quote, with no approval and no swap |
| Orchestrator.PipelineNotSent | main.py:93-130 | a swap submission that fails ends the run after the possible approval, with no swap and no unwrap |
| Orchestrator.PipelineSent | main.py:93-128 | a sent swap completes the run; the unwrap of the whole balance read right after submission, and the wait for it, follow exactly when that balance is positive |
| Orchestrator.PipelineEffects | main.py:44-130 | every run finishes, reports the shortfall exactly on the token path, and does exactly the actions `Effects` lists |
| Orchestrator.PipelineOutcome | main.py:44-130 | each of the six outcomes occurs exactly when its gate condition holds (an if-and-only-if for each) |
| Orchestrator.ShortfallIsNotFatal | main.py:64-68 | a shortfall is reported exactly when a non-native token's balance is below the amount, and that run is never aborted for insufficient funds |
| Orchestrator.UnfundedWrapDoesNothing | main.py:50-60 | an unfundable wrap leaves no wrap, quote or swap in the run's effects |
| Orchestrator.WrapComesFirst | main.py:50-63 | the only wrap there can be is of exactly the amount; it happens exactly when the native path is short and can fund it, and is then the first action, followed by the wait for its receipt |
| Orchestrator.ZeroQuoteStops | main.py:79-81 | with a zero quote the run's actions are at most a wrap, the wait for it, and the quote |
| Orchestrator.ApprovalIsExact | main.py:93-107 | the only approval there can be is of the source token to the router for exactly the amount; it happens exactly when the run reaches it with allowance < amount, and it is awaited exactly when it happens |
| Orchestrator.ApprovalBeforeSwap | main.py:99-117 | the approval and the wait for its receipt both come before the swap is submitted |
| Orchestrator.UnwrapAfterSentSwap | main.py:119-128 | the only unwrap there can be takes the whole balance read right after submitting the swap; it happens exactly when the swap was sent and that balance is positive, and it is awaited exactly when it happens |
| Orchestrator.SwapNotAwaited | main.py:109-127 | no wait follows the swap: the next action, if any, is the unwrap, so its balance is read while the swap may still be pending |
| Orchestrator.SwapCarriesBound | main.py:83-117 | the swap sent carries the slippage-derived minimum, the built path, a single exactInput call and no native value; it goes from the account to the router and is reported by a non-empty hash |
| Orchestrator.EffectsOrdered | main.py:44-130 | the actions come in stage order: wrap, its wait, quote, approve, its wait, swap, unwrap, its wait |
| Orchestrator.PipelineOrdered | main.py:44-130 | the run's trace is in that stage order |
| Orchestrator.AtMostEightActions | main.py:44-130 | no action kind happens twice, so a run has at most eight actions |

`SwapV3.SwapEnvelopeFields` states these fields of the sent envelope:

- it goes from the recipient to the router;
- its value is `amountIn` on the native path and 0 otherwise;
- its chain id and nonce are the ones the chain reported;
- its gas limit is the estimate plus 25%, truncated;
- its fee cap is twice the gas price;
- its priority fee is the suggested one, and its type is 2;
- its calldata is a multicall exactly when that encoding succeeded;
- the bundle starts with the `exactInput` call and holds it alone on the token path. On the native path it holds two entries, the last being `refundETH`, which appears only there;
- the `exactInput` call carries the path, recipient, amounts and a deadline 120 s after the clock reading.

## Left out

- The ABI encoding of the router calls (uniswap/router_v3.py) is symbolic: its bytes are not modelled.
  - Its observable behaviour is modelled by `SwapV3.ExactInputCall` and `Calldata`. These record what would be encoded, including the deadline 120 s after the clock reading. A failed encoding becomes the empty payload, as uniswap/router_v3.py:68-70 and 77-79 return `b""`.
  - The clock reading `int(time.time())` is an input.
- Addresses are modelled as their bytes. Decoding hex text into bytes, and checksum formatting and its failures, are left out.
- Configuration loading, the token and network registries, and the construction of the client (main.py:13-42) are input and output. They are represented by `Settings`.
- Every client and RPC call is an input of the model: balances, fee estimates, unit conversion, chain id, nonce, gas estimate, gas price, signing and raw submission.
  - The wrap, approve and unwrap transactions and the waits for their receipts are assumed to return. The waits are recorded as `Await` actions; their failures, and a reverted receipt, are not modelled.
- Exceptions raised by `main`'s own reads are not modelled. `main` (main.py:44-130) has no `try`/`except`, so a raising balance read, fee estimate, allowance read or unit conversion (main.py:48, 53-54, 71-72, 86-87, 93, 124) ends the run with an uncaught exception and no outcome.
  - The model has every such read return a value.
  - The six outcomes of `Orchestrator.PipelineOutcome`, and the claim of `Orchestrator.PipelineEffects` that every run finishes, assume that these reads return.
- Floating point: `* 1.25` and `slippage / 100` are exact rational arithmetic followed by truncation. This idealises Python's float rounding.
- Logging and `asyncio` scheduling are left out. The awaits are strictly sequential.
- Rounding of the gas limit: uniswap/swap_V3.py:48 computes `int(estimate * 1.25)`, which truncates, and `SwapV3.GasLimit` follows it.
- The native-value swap from `main`: `main` always calls the swap with `native_token=False`, so every swap it sends has value 0 and no refund call.
  - The native path still wraps first and swaps the wrapped token.
  - The refund path of `SwapTokensV3` is modelled, and its properties are proved for both values of the flag.
- A native-only unwrap: as written, the unwrap is not conditioned on a native symbol. The model unwraps any positive source-token balance read after the swap, as the code does.
- A wait for the swap: as written, `swap_tokens_v3` returns once the swap is submitted (uniswap/swap_V3.py:54-56) and `main` reads the balance at main.py:124 without waiting for it. The model follows the code: that balance is an input read while the swap may be pending, and `Orchestrator.SwapNotAwaited` states that no wait follows the swap.
- The shortfall on a non-native token is reported and the run continues (main.py:64-68), as written.
