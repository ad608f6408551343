/**
 * Assembly and submission of the multicall swap transaction
 * (swap_tokens_v3 in uniswap/swap_V3.py).
 *
 * Every chain interaction is an opaque input: `None` stands for a call that
 * raised. The ABI encodings of the router calls are symbolic (`Call`,
 * `Calldata`); only whether an encoding succeeded is observed.
 */
module SwapV3 {
  import opened Wrappers
  import opened Quoter

  /** Seconds between the clock reading and the swap's deadline. */
  const DeadlineWindow: int := 120
  /** The EIP-1559 (dynamic fee) transaction type. */
  const DynamicFeeTxType: nat := 2

  /** The argument struct of the router's `exactInput`. */
  datatype ExactInputParams = ExactInputParams(
    path: Bytes, recipient: Bytes, deadline: int, amountIn: nat, amountOutMinimum: int)

  /** One entry of the multicall bundle; an encoding that failed is the empty payload. */
  datatype Call = ExactInput(params: ExactInputParams) | RefundEth | EmptyCall

  /** The transaction's calldata: the encoded multicall, or empty when encoding failed. */
  datatype Calldata = Multicall(calls: seq<Call>) | EmptyCalldata

  /**
   * The transaction dictionary. The fields set after the gas estimate
   * (`gas`, `maxFeePerGas`, `maxPriorityFeePerGas`, `type`) are absent
   * until they are assigned.
   */
  datatype Envelope = Envelope(
    sender: Bytes, to: Bytes, data: Calldata, value: nat, chainId: nat, nonce: nat,
    gas: Option<nat>, maxFeePerGas: Option<nat>, maxPriorityFeePerGas: Option<nat>,
    txType: Option<nat>)

  /** What the chain client answers during one call of swap_tokens_v3. */
  datatype SwapChain = SwapChain(
    clock: int,                    // unix time read when the exactInput call is encoded
    exactInputEncodes: bool,       // whether ABI-encoding exactInput succeeded
    refundEncodes: bool,           // whether ABI-encoding refundETH succeeded (it raises otherwise)
    multicallEncodes: bool,        // whether ABI-encoding multicall succeeded
    chainId: Option<nat>,
    nonce: Option<nat>,            // transaction count of the recipient
    gasEstimate: Option<nat>,
    gasPrice: Option<nat>,
    priorityFee: Option<nat>,
    txHash: Option<Bytes>)         // signing and raw submission, with the resulting hash

  /** Every chain call of the swap succeeds, so the transaction is sent. */
  predicate Sends(chain: SwapChain) {
    && chain.chainId.Some? && chain.nonce.Some? && chain.gasEstimate.Some?
    && chain.gasPrice.Some? && chain.priorityFee.Some? && chain.txHash.Some?
  }

  /** The gas limit: the estimate plus 25%, truncated to an integer. */
  function GasLimit(estimate: nat): (gas: nat)
    ensures estimate <= gas
    ensures 4 * gas <= 5 * estimate < 4 * gas + 4
  {
    estimate * 5 / 4
  }

  /** The lower-case hexadecimal digit of a value below 16. */
  function HexDigit(n: int): (c: char)
    requires 0 <= n < 16
  {
    if n < 10 then ('0' as int + n) as char else ('a' as int + n - 10) as char
  }

  /** Two lower-case hexadecimal digits per byte. */
  function HexOf(b: Bytes): (s: string)
    ensures |s| == 2 * |b|
  {
    if b == [] then "" else [HexDigit(b[0] / 16), HexDigit(b[0] % 16)] + HexOf(b[1..])
  }

  /** The `0x`-prefixed hexadecimal text of a transaction hash. */
  function ToHex(b: Bytes): (s: string)
    ensures |s| == 2 + 2 * |b|
  {
    "0x" + HexOf(b)
  }

  /**
   * The shape the call bundle must have: the exact-input call first and
   * alone on the token path; on the native path a second and last entry,
   * the refund of the unspent native value.
   */
  predicate BundleShape(calls: seq<Call>, nativeToken: bool) {
    && |calls| == (if nativeToken then 2 else 1)
    && !calls[0].RefundEth?
    && (RefundEth in calls <==> nativeToken)
    && (nativeToken ==> calls[|calls| - 1] == RefundEth)
  }

  /** The exactInput call, or the empty payload when its encoding failed. */
  function ExactInputCall(path: Bytes, recipient: Bytes, amountIn: nat, amountOutMin: int,
                          chain: SwapChain): (c: Call)
    ensures c.ExactInput? <==> chain.exactInputEncodes
    ensures !c.ExactInput? ==> c == EmptyCall
    ensures c.ExactInput? ==>
      && c.params.path == path && c.params.recipient == recipient
      && c.params.amountIn == amountIn && c.params.amountOutMinimum == amountOutMin
      && c.params.deadline == chain.clock + DeadlineWindow
  {
    if chain.exactInputEncodes
    then ExactInput(ExactInputParams(path, recipient, chain.clock + DeadlineWindow, amountIn, amountOutMin))
    else EmptyCall
  }

  /** The envelope of a swap whose chain calls all succeed. */
  function SwapEnvelope(path: Bytes, recipient: Bytes, amountIn: nat, amountOutMin: int,
                        router: Bytes, nativeToken: bool, chain: SwapChain): Envelope
    requires Sends(chain)
  {
    var exactInput := ExactInputCall(path, recipient, amountIn, amountOutMin, chain);
    var calls := if nativeToken then [exactInput, RefundEth] else [exactInput];
    Envelope(
      recipient, router,
      if chain.multicallEncodes then Multicall(calls) else EmptyCalldata,
      if nativeToken then amountIn else 0,
      chain.chainId.value, chain.nonce.value,
      Some(GasLimit(chain.gasEstimate.value)), Some(2 * chain.gasPrice.value),
      chain.priorityFee, Some(DynamicFeeTxType))
  }

  /**
   * swap_tokens_v3: build the exactInput call, bundle it (with refundETH on
   * the native path), encode the multicall, fill the EIP-1559 envelope field
   * by field, sign and send. Every exception is caught: the result is then
   * the empty hash and nothing is sent. Unlike the other two encodings, a
   * failed refundETH encoding raises, so it aborts the swap.
   */
  method SwapTokensV3(path: Bytes, recipient: Bytes, amountIn: nat, amountOutMin: int,
                      router: Bytes, nativeToken: bool, chain: SwapChain)
    returns (hash: string, sent: Option<Envelope>)
    ensures hash == "" <==> sent.None?
    ensures sent.Some? <==> Sends(chain) && (nativeToken ==> chain.refundEncodes)
    ensures sent.Some? ==>
      && sent.value == SwapEnvelope(path, recipient, amountIn, amountOutMin, router, nativeToken, chain)
      && hash == ToHex(chain.txHash.value)
  {
    hash, sent := "", None;

    var exactInputCall := ExactInputCall(path, recipient, amountIn, amountOutMin, chain);
    var calls := [exactInputCall];
    if nativeToken {
      if !chain.refundEncodes {
        return;
      }
      calls := calls + [RefundEth];
      assert calls == [exactInputCall, RefundEth];
    }
    var data := if chain.multicallEncodes then Multicall(calls) else EmptyCalldata;

    if chain.chainId.None? || chain.nonce.None? {
      return;
    }
    var tx := Envelope(recipient, router, data, if nativeToken then amountIn else 0,
                       chain.chainId.value, chain.nonce.value, None, None, None, None);

    if chain.gasEstimate.None? {
      return;
    }
    tx := tx.(gas := Some(GasLimit(chain.gasEstimate.value)));
    if chain.gasPrice.None? {
      return;
    }
    tx := tx.(maxFeePerGas := Some(2 * chain.gasPrice.value));
    if chain.priorityFee.None? {
      return;
    }
    tx := tx.(maxPriorityFeePerGas := Some(chain.priorityFee.value));
    tx := tx.(txType := Some(DynamicFeeTxType));

    if chain.txHash.None? {
      return;
    }
    hash := ToHex(chain.txHash.value);
    sent := Some(tx);
  }

  /**
   * The envelope of a sent swap: from the recipient to the router, native
   * value only on the native path, the chain's id and the recipient's nonce,
   * the estimate plus 25% as gas limit, twice the gas price as fee cap, the
   * suggested priority fee, type 2, and a bundle of the right shape whose
   * first call carries the swap's parameters and a deadline 120 s ahead.
   */
  lemma SwapEnvelopeFields(path: Bytes, recipient: Bytes, amountIn: nat, amountOutMin: int,
                           router: Bytes, nativeToken: bool, chain: SwapChain)
    requires Sends(chain)
    ensures var tx := SwapEnvelope(path, recipient, amountIn, amountOutMin, router, nativeToken, chain);
      && tx.sender == recipient && tx.to == router
      && tx.value == (if nativeToken then amountIn else 0)
      && tx.chainId == chain.chainId.value && tx.nonce == chain.nonce.value
      && tx.gas.Some? && chain.gasEstimate.value <= tx.gas.value
      && 4 * tx.gas.value <= 5 * chain.gasEstimate.value < 4 * tx.gas.value + 4
      && tx.maxFeePerGas == Some(2 * chain.gasPrice.value)
      && tx.maxPriorityFeePerGas == chain.priorityFee
      && tx.txType == Some(DynamicFeeTxType)
      && (tx.data.Multicall? <==> chain.multicallEncodes)
      && (tx.data.Multicall? ==>
            && BundleShape(tx.data.calls, nativeToken)
            && (tx.data.calls[0].ExactInput? <==> chain.exactInputEncodes)
            && (tx.data.calls[0].ExactInput? ==>
                  tx.data.calls[0].params ==
                  ExactInputParams(path, recipient, chain.clock + DeadlineWindow, amountIn, amountOutMin)))
  {
    var tx := SwapEnvelope(path, recipient, amountIn, amountOutMin, router, nativeToken, chain);
    if tx.data.Multicall? {
      var calls := tx.data.calls;
      assert calls[0] != RefundEth;
      assert nativeToken ==> calls == [calls[0], RefundEth];
    }
  }

  /** The 25% headroom never lowers the limit below the estimate and adds at most a quarter of it. */
  lemma GasLimitHeadroom(estimate: nat)
    ensures estimate <= GasLimit(estimate) <= estimate + estimate / 4
    ensures GasLimit(estimate) - estimate == estimate / 4
  {
  }

  /** A sent swap always reports a non-empty hash, so a caller can test the hash alone. */
  lemma SentHashNonEmpty(h: Bytes)
    ensures ToHex(h) != ""
  {
  }

  /** The reported text is `0x` followed by the digits of the hash. */
  lemma ToHexShape(b: Bytes)
    ensures ToHex(b)[..2] == "0x" && ToHex(b)[2..] == HexOf(b)
  {
  }

  /** Distinct transaction hashes are reported as distinct texts. */
  lemma {:induction false} HexOfInjective(a: Bytes, b: Bytes)
    requires HexOf(a) == HexOf(b)
    ensures a == b
  {
    if a != [] && b != [] {
      var sa, sb := HexOf(a), HexOf(b);
      assert sa[0] == HexDigit(a[0] / 16) && sb[0] == HexDigit(b[0] / 16);
      assert sa[1] == HexDigit(a[0] % 16) && sb[1] == HexDigit(b[0] % 16);
      assert a[0] / 16 == b[0] / 16 && a[0] % 16 == b[0] % 16;
      assert sa[2..] == HexOf(a[1..]) && sb[2..] == HexOf(b[1..]);
      HexOfInjective(a[1..], b[1..]);
      assert a == [a[0]] + a[1..];
      assert b == [b[0]] + b[1..];
    }
  }

  /** The reported text identifies the transaction hash it was made from. */
  lemma ToHexInjective(a: Bytes, b: Bytes)
    requires ToHex(a) == ToHex(b)
    ensures a == b
  {
    ToHexShape(a);
    ToHexShape(b);
    HexOfInjective(a, b);
  }
}
