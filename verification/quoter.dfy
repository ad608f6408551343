/**
 * The single-hop Uniswap V3 swap path and the quote wrapper
 * (uniswap/quoter.py).
 *
 * A path is `tokenIn | fee | tokenOut`: the input token's address bytes,
 * the pool fee tier as three big-endian bytes, and the output token's
 * address bytes.
 */
module Quoter {
  import opened Wrappers

  type Byte = b: int | 0 <= b < 0x100
  type Bytes = seq<Byte>

  const AddressLength: nat := 20
  const FeeLength: nat := 3
  /** The first fee value that no longer fits in three bytes. */
  const FeeLimit: int := 0x100_0000
  /** Length of a single-hop path built from two addresses. */
  const PathLength: nat := AddressLength + FeeLength + AddressLength

  predicate IsAddress(a: Bytes) {
    |a| == AddressLength
  }

  datatype PathError = FeeOutOfRange(fee: int)

  /** The three big-endian bytes of `fee`, as `fee.to_bytes(3, "big")` writes them. */
  function FeeBytes(fee: int): (b: Bytes)
    requires 0 <= fee < FeeLimit
    ensures |b| == FeeLength
  {
    [fee / 0x1_0000, fee / 0x100 % 0x100, fee % 0x100]
  }

  /** The unsigned big-endian value of three bytes. */
  function FeeValue(b: Bytes): (fee: int)
    requires |b| == FeeLength
    ensures 0 <= fee < FeeLimit
  {
    b[0] as int * 0x1_0000 + b[1] as int * 0x100 + b[2] as int
  }

  /** Decoding the encoded fee gives the fee back. */
  lemma FeeRoundTrip(fee: int)
    requires 0 <= fee < FeeLimit
    ensures FeeValue(FeeBytes(fee)) == fee
  {
    var b := FeeBytes(fee);
    assert fee / 0x100 == b[0] as int * 0x100 + b[1] as int;
    assert fee == (fee / 0x100) * 0x100 + b[2];
  }

  /** Every three bytes are the encoding of their value: the fee encoding is a bijection. */
  lemma FeeBytesOfValue(b: Bytes)
    requires |b| == FeeLength
    ensures FeeBytes(FeeValue(b)) == b
  {
    var fee := FeeValue(b);
    assert fee == (b[0] as int * 0x100 + b[1] as int) * 0x100 + b[2] as int;
    assert fee % 0x100 == b[2];
    assert fee / 0x100 == b[0] as int * 0x100 + b[1] as int;
    assert fee / 0x100 % 0x100 == b[1];
    assert fee / 0x1_0000 == (fee / 0x100) / 0x100;
    assert fee / 0x1_0000 == b[0];
  }

  /**
   * build_path: the input token's bytes, the fee in three big-endian bytes,
   * the output token's bytes. A fee outside 0 .. 0xFFFFFF cannot be written
   * in three unsigned bytes and is refused.
   */
  function BuildPath(tokenIn: Bytes, tokenOut: Bytes, fee: int): (r: Result<Bytes, PathError>)
    ensures r.Err? <==> !(0 <= fee < FeeLimit)
    ensures r.Err? ==> r.error == FeeOutOfRange(fee)
    ensures r.Ok? ==>
      && |r.value| == |tokenIn| + FeeLength + |tokenOut|
      && r.value[..|tokenIn|] == tokenIn
      && FeeValue(r.value[|tokenIn|..|tokenIn| + FeeLength]) == fee
      && r.value[|tokenIn| + FeeLength..] == tokenOut
  {
    if 0 <= fee < FeeLimit then
      var path := tokenIn + FeeBytes(fee) + tokenOut;
      assert path[|tokenIn|..|tokenIn| + FeeLength] == FeeBytes(fee);
      FeeRoundTrip(fee);
      Ok(path)
    else
      Err(FeeOutOfRange(fee))
  }

  /** Splits a single-hop path at offsets 20 and 23; any other length is not a single-hop path. */
  function SplitPath(path: Bytes): (r: Option<(Bytes, int, Bytes)>)
    ensures r.Some? <==> |path| == PathLength
    ensures r.Some? ==> IsAddress(r.value.0) && 0 <= r.value.1 < FeeLimit && IsAddress(r.value.2)
  {
    if |path| == PathLength then
      Some((path[..AddressLength],
            FeeValue(path[AddressLength..AddressLength + FeeLength]),
            path[AddressLength + FeeLength..]))
    else
      None
  }

  /** Two addresses and an in-range fee always give a 43-byte path. */
  lemma PathLengthOfAddresses(tokenIn: Bytes, tokenOut: Bytes, fee: int)
    requires IsAddress(tokenIn) && IsAddress(tokenOut)
    ensures BuildPath(tokenIn, tokenOut, fee).Ok? ==> |BuildPath(tokenIn, tokenOut, fee).value| == 43
  {
  }

  /** Round trip: splitting a built path gives back the token in, the fee and the token out. */
  lemma SplitBuiltPath(tokenIn: Bytes, tokenOut: Bytes, fee: int)
    requires IsAddress(tokenIn) && IsAddress(tokenOut) && 0 <= fee < FeeLimit
    ensures BuildPath(tokenIn, tokenOut, fee).Ok?
    ensures SplitPath(BuildPath(tokenIn, tokenOut, fee).value) == Some((tokenIn, fee, tokenOut))
  {
    var path := BuildPath(tokenIn, tokenOut, fee).value;
    assert path[..AddressLength] == tokenIn;
    assert path[AddressLength + FeeLength..] == tokenOut;
  }

  /** Every 43-byte string is the path of its own split: path and triple determine each other. */
  lemma BuildSplitPath(path: Bytes)
    requires |path| == PathLength
    ensures var (tokenIn, fee, tokenOut) := SplitPath(path).value;
      BuildPath(tokenIn, tokenOut, fee) == Ok(path)
  {
    var (tokenIn, fee, tokenOut) := SplitPath(path).value;
    var feeBytes := path[AddressLength..AddressLength + FeeLength];
    FeeBytesOfValue(feeBytes);
    assert path == tokenIn + feeBytes + tokenOut;
  }

  /** Distinct inputs give distinct paths, so a path names exactly one pool route. */
  lemma BuildPathInjective(in1: Bytes, out1: Bytes, fee1: int, in2: Bytes, out2: Bytes, fee2: int)
    requires IsAddress(in1) && IsAddress(out1) && IsAddress(in2) && IsAddress(out2)
    requires BuildPath(in1, out1, fee1).Ok? && BuildPath(in2, out2, fee2).Ok?
    requires BuildPath(in1, out1, fee1) == BuildPath(in2, out2, fee2)
    ensures in1 == in2 && fee1 == fee2 && out1 == out2
  {
    SplitBuiltPath(in1, out1, fee1);
    SplitBuiltPath(in2, out2, fee2);
  }

  /**
   * quote_exact_input: the quoter's `amountOut` passes through unchanged when
   * the read-only call succeeds; any failure of the call (`None`) becomes 0
   * and is never raised to the caller.
   */
  function QuoteExactInput(call: Option<nat>): (amountOut: nat)
    ensures call.Some? ==> amountOut == call.value
    ensures call.None? ==> amountOut == 0
  {
    match call
    case Some(out) => out
    case None => 0
  }

  /** A zero quote is ambiguous: it is either a failed call or a genuine zero answer. */
  lemma QuoteZeroIsFailureOrZero(call: Option<nat>)
    ensures QuoteExactInput(call) == 0 <==> call.None? || call.value == 0
  {
  }
}
