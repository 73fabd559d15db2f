/**
 Between the oracle's int64 arithmetic and the contract's uint256: how an escrow balance is read
 back from the Mirror Node, and when the oracle's check agrees with the contract's.
 */
module Bridge {
  import opened Wrappers
  import opened MapSums
  import opened Bytes
  import opened BigEndian
  import opened Int64
  import opened LeagueId
  import opened Abi
  import opened AbiRoundTrip
  import opened Ledger
  import opened LedgerSafety
  import LedgerTheorems

  // ---------- reading a uint256 ----------

  function TrimPrefix(s: string, prefix: string): string {
    if prefix <= s then s[|prefix|..] else s
  }

  /** The decoding tail of `readContractPayment`: the last 64 hex digits, and of those the last 8 bytes. */
  function ReadContractPayment(result: string): Result<int> {
    var hexResult := TrimPrefix(result, "0x");
    if |hexResult| < 64 then Err else
      match DecodeHex(hexResult[|hexResult| - 64..])
      case None => Err
      case Some(bytes) => Ok(Wrap64(Decode(bytes[24..])))
  }

  /** The Mirror Node's answer for a uint256 view function: the ABI word in hex. */
  function NodeReply(v: nat): string {
    "0x" + HexText(Word(v))
  }

  lemma LowBytes(v: nat)
    ensures Wrap64(Decode(Encode(v, 8))) == Wrap64(v)
  {
    DecodeEncode(v, 8);
    Pow256Of8();
    WrapResidue(v, Decode(Encode(v, 8)), High(v, 8));
  }

  /** Reading the hex text of any 32-byte word takes its last 8 bytes. */
  lemma ReadHexText(word: Bytes32)
    ensures ReadContractPayment("0x" + HexText(word)) == Ok(Wrap64(Decode(word[24..])))
  {
    var text := HexText(word);
    assert TrimPrefix("0x" + text, "0x") == text;
    assert text[|text| - 64..] == text;
    assert DecodeHex(text).value == word;
  }

  /** What comes back is the value's low 64 bits as an int64. */
  lemma ReadIsTruncation(v: nat)
    ensures ReadContractPayment(NodeReply(v)) == Ok(Wrap64(v))
  {
    ReadHexText(Word(v));
    EncodeTail(v, 32, 8);
    LowBytes(v);
  }

  /** So a balance is read exactly when it is below 2^63, and is never read too high. */
  lemma ReadExactly(v: nat)
    ensures ReadContractPayment(NodeReply(v)) == Ok(v) <==> v < TWO_63
    ensures ReadContractPayment(NodeReply(v)).value <= v
  {
    ReadIsTruncation(v);
  }

  // ---------- the oracle's sums ----------

  function MicroAmounts(cents: seq<int>): (amounts: seq<int>)
    ensures |amounts| == |cents|
  {
    seq(|cents|, i requires 0 <= i < |cents| => ToMicro(cents[i]))
  }

  /** The oracle's total is the low 64 bits of the sum the contract will see, whatever the amounts. */
  lemma {:induction false} TotalIsTruncatedSum(amounts: seq<int>, n: nat)
    requires n <= |amounts|
    ensures WrappedSum(amounts, n) == Wrap64(SumFirst(AsUint64(amounts), n))
  {
    if n != 0 {
      TotalIsTruncatedSum(amounts, n - 1);
      WrapOfSum(SumFirst(AsUint64(amounts), n - 1), amounts[n - 1]);
    }
  }

  /** Within the bound nothing wraps: no product, no prefix sum. */
  lemma {:induction false} NothingWraps(cents: seq<int>, n: nat)
    requires n <= |cents|
    requires forall i :: 0 <= i < |cents| ==> cents[i] >= 0
    requires SumOf(cents[..n]) <= MAX_CENTS
    ensures forall i :: 0 <= i < n ==> MicroAmounts(cents)[i] == cents[i] * MICRO_PER_CENT
    ensures WrappedSum(MicroAmounts(cents), n) == SumOf(cents[..n]) * MICRO_PER_CENT
    ensures SumFirst(AsUint64(MicroAmounts(cents)), n) == SumOf(cents[..n]) * MICRO_PER_CENT
  {
    if n != 0 {
      assert cents[..n][..n - 1] == cents[..n - 1];
      CentsGrow(cents[..n - 1]);
      NothingWraps(cents, n - 1);
    }
  }

  lemma {:induction false} CentsGrow(cents: seq<int>)
    requires forall i :: 0 <= i < |cents| ==> cents[i] >= 0
    ensures SumOf(cents) >= 0
  {
    if cents != [] { CentsGrow(cents[..|cents| - 1]); }
  }

  // ---------- the two checks ----------

  /** `totalPayout <= escrowBalance`, on the balance as the Mirror Node reports it. */
  predicate OffChainCheck(w: World, l: LeagueKey, amounts: seq<int>) {
    var read := ReadContractPayment(NodeReply(At(w.leagueTotals, l)));
    read.Ok? && WrappedSum(amounts, |amounts|) <= read.value
  }

  /** `require(total <= leagueTotals[leagueId])` on a decoded call. */
  predicate OnChainCheck(w: World, call: PayoutCall) {
    SumFirst(call.amounts, |call.amounts|) <= At(w.leagueTotals, call.league)
  }

  lemma ChecksCompare(w: World, l: LeagueKey, recipients: seq<Address>, amounts: seq<int>)
    ensures var s, total := SumFirst(AsUint64(amounts), |amounts|), At(w.leagueTotals, l);
            && (OffChainCheck(w, l, amounts) <==> Wrap64(s) <= Wrap64(total))
            && (OnChainCheck(w, PayoutCall(l, recipients, AsUint64(amounts))) <==> s <= total)
  {
    ReadIsTruncation(At(w.leagueTotals, l));
    TotalIsTruncatedSum(amounts, |amounts|);
  }

  predicate CheckIsSafe(w: World, l: LeagueKey, recipients: seq<Address>, amounts: seq<int>) {
    OffChainCheck(w, l, amounts) ==> OnChainCheck(w, PayoutCall(l, recipients, AsUint64(amounts)))
  }

  predicate ChecksAgree(w: World, l: LeagueKey, recipients: seq<Address>, amounts: seq<int>) {
    OffChainCheck(w, l, amounts) <==> OnChainCheck(w, PayoutCall(l, recipients, AsUint64(amounts)))
  }

  lemma SafeAt(w: World, l: LeagueKey, recipients: seq<Address>, amounts: seq<int>)
    requires SumFirst(AsUint64(amounts), |amounts|) < TWO_63
    ensures CheckIsSafe(w, l, recipients, amounts)
    ensures At(w.leagueTotals, l) < TWO_63 ==> ChecksAgree(w, l, recipients, amounts)
  {
    ChecksCompare(w, l, recipients, amounts);
  }

  /** A sum beyond int64 passes the oracle's check against the largest balance it can read, and never the contract's. */
  lemma UnsafeAt(w: World, l: LeagueKey, recipients: seq<Address>, amounts: seq<int>)
    requires At(w.leagueTotals, l) == TWO_63 - 1 && SumFirst(AsUint64(amounts), |amounts|) >= TWO_63
    ensures !CheckIsSafe(w, l, recipients, amounts) && !ChecksAgree(w, l, recipients, amounts)
  {
    ChecksCompare(w, l, recipients, amounts);
  }

  /** In every reachable state, passing the oracle's check means passing the contract's. */
  ghost predicate AlwaysSafe(d: Deployment, l: LeagueKey, recipients: seq<Address>, amounts: seq<int>) {
    forall w: World :: LedgerTheorems.Reachable(d, w) ==> CheckIsSafe(w, l, recipients, amounts)
  }

  /** In every reachable state in which the league holds less than 2^63, the two checks agree. */
  ghost predicate AlwaysAgree(d: Deployment, l: LeagueKey, recipients: seq<Address>, amounts: seq<int>) {
    forall w: World :: LedgerTheorems.Reachable(d, w) && At(w.leagueTotals, l) < TWO_63 ==> ChecksAgree(w, l, recipients, amounts)
  }

  /**
   For any int64 amounts: passing the oracle's check always means passing the contract's, whatever the
   league holds, exactly when the decoded sum is below 2^63; and then, and only then, the two agree on
   every league total below 2^63.
   */
  lemma ChecksAgreeExactly(d: Deployment, l: LeagueKey, recipients: seq<Address>, amounts: seq<int>)
    requires d.owner != d.escrow
    ensures AlwaysSafe(d, l, recipients, amounts) <==> SumFirst(AsUint64(amounts), |amounts|) < TWO_63
    ensures AlwaysAgree(d, l, recipients, amounts) <==> SumFirst(AsUint64(amounts), |amounts|) < TWO_63
  {
    forall w: World | SumFirst(AsUint64(amounts), |amounts|) < TWO_63
      ensures CheckIsSafe(w, l, recipients, amounts)
      ensures At(w.leagueTotals, l) < TWO_63 ==> ChecksAgree(w, l, recipients, amounts)
    {
      SafeAt(w, l, recipients, amounts);
    }
    if SumFirst(AsUint64(amounts), |amounts|) >= TWO_63 {
      var most := LedgerTheorems.AnyHoldingIsReachable(d, l, TWO_63 - 1);
      UnsafeAt(most, l, recipients, amounts);
    }
  }

  /** Every prize decodes as 10_000 times its cents. */
  predicate DecodesExactly(cents: seq<int>) {
    forall i :: 0 <= i < |cents| ==> AsUint64(MicroAmounts(cents))[i] == cents[i] * MICRO_PER_CENT
  }

  lemma {:induction false} ExactSum(cents: seq<int>, n: nat)
    requires n <= |cents| && DecodesExactly(cents)
    ensures SumFirst(AsUint64(MicroAmounts(cents)), n) == SumOf(cents[..n]) * MICRO_PER_CENT
  {
    if n != 0 {
      assert cents[..n][..n - 1] == cents[..n - 1];
      ExactSum(cents, n - 1);
    }
  }

  /** Within the bound, both. */
  lemma BoundedCents(cents: seq<int>)
    requires forall i :: 0 <= i < |cents| ==> cents[i] >= 0
    requires SumOf(cents) <= MAX_CENTS
    ensures DecodesExactly(cents)
    ensures SumFirst(AsUint64(MicroAmounts(cents)), |cents|) == SumOf(cents) * MICRO_PER_CENT < TWO_63
  {
    assert cents[..|cents|] == cents;
    NothingWraps(cents, |cents|);
    forall i | 0 <= i < |cents| ensures AsUint64(MicroAmounts(cents))[i] == cents[i] * MICRO_PER_CENT {
      assert MicroAmounts(cents)[i] == cents[i] * MICRO_PER_CENT && IsInt64(MicroAmounts(cents)[i]);
    }
  }

  /**
   In cents: non-negative prizes reach the contract unchanged, and the oracle's check on them is safe
   on every league total, exactly when they total at most 922337203685477 cents.
   */
  lemma CentsAreSafeExactly(d: Deployment, l: LeagueKey, recipients: seq<Address>, cents: seq<int>)
    requires d.owner != d.escrow
    requires forall i :: 0 <= i < |cents| ==> cents[i] >= 0
    ensures DecodesExactly(cents) && AlwaysSafe(d, l, recipients, MicroAmounts(cents)) <==> SumOf(cents) <= MAX_CENTS
  {
    var amounts := MicroAmounts(cents);
    assert cents[..|cents|] == cents;
    ChecksAgreeExactly(d, l, recipients, amounts);
    if DecodesExactly(cents) { ExactSum(cents, |cents|); }
    if SumOf(cents) <= MAX_CENTS { BoundedCents(cents); }
  }

  /** One cent over the bound, on an empty league: the oracle's check passes, the contract's does not. */
  lemma OneCentOverTheBound(w: World, l: LeagueKey, to: Address, cents: int)
    requires At(w.leagueTotals, l) == 0 && cents == MAX_CENTS + 1
    ensures OffChainCheck(w, l, MicroAmounts([cents]))
    ensures !OnChainCheck(w, PayoutCall(l, [to], AsUint64(MicroAmounts([cents]))))
  {
    var amounts := MicroAmounts([cents]);
    assert amounts[0] == cents * MICRO_PER_CENT - TWO_64;
    assert SumFirst(AsUint64(amounts), 1) == SumFirst(AsUint64(amounts), 0) + AsUint64(amounts)[0];
    ReadExactly(At(w.leagueTotals, l));
    TotalIsTruncatedSum(amounts, 1);
  }

  /** The call that reaches the contract for prizes given in cents. */
  function ContractCall(l: LeagueKey, recipients: seq<Address>, cents: seq<int>): (call: PayoutCall)
    ensures |call.amounts| == |cents|
  {
    PayoutCall(l, recipients, AsUint64(MicroAmounts(cents)))
  }

  /**
   End to end: for non-negative amounts within the bound and a league total below 2^63, the oracle
   reads the balance exactly, the contract decodes every amount as 10_000 times its cents, and the
   oracle's check passes exactly when the contract, in the same state, accepts the decoded call.
   */
  lemma EndToEnd(keccak: Hash, d: Deployment, w: World, l: LeagueKey, recipients: seq<Address>, cents: seq<int>)
    requires InOrder(d, w) && w.recovered == 0
    requires |recipients| == |cents| && 164 + 64 * |recipients| < TWO_63
    requires forall i :: 0 <= i < |cents| ==> cents[i] >= 0
    requires SumOf(cents) <= MAX_CENTS
    requires At(w.leagueTotals, l) < TWO_63
    ensures ReadContractPayment(NodeReply(At(w.leagueTotals, l))) == Ok(At(w.leagueTotals, l))
    ensures DecodeCall(keccak, CallData(keccak, l, recipients, MicroAmounts(cents))) == Some(ContractCall(l, recipients, cents))
    ensures forall i :: 0 <= i < |cents| ==> ContractCall(l, recipients, cents).amounts[i] == cents[i] * MICRO_PER_CENT
    ensures OffChainCheck(w, l, MicroAmounts(cents)) <==> OnChainCheck(w, ContractCall(l, recipients, cents))
    ensures OffChainCheck(w, l, MicroAmounts(cents)) <==>
            DistributePayout(d, w, d.owner, l, recipients, ContractCall(l, recipients, cents).amounts).Some?
  {
    var amounts := MicroAmounts(cents);
    BoundedCents(cents);
    ReadExactly(At(w.leagueTotals, l));
    DecodedCall(keccak, l, recipients, amounts);
    SameAnswer(d, w, l, recipients, amounts);
  }

  /** For amounts whose decoded sum is below 2^63 both checks give the contract's answer. */
  lemma SameAnswer(d: Deployment, w: World, l: LeagueKey, recipients: seq<Address>, amounts: seq<int>)
    requires InOrder(d, w) && w.recovered == 0 && |recipients| == |amounts|
    requires SumFirst(AsUint64(amounts), |amounts|) < TWO_63 && At(w.leagueTotals, l) < TWO_63
    ensures ChecksAgree(w, l, recipients, amounts)
    ensures OffChainCheck(w, l, amounts) <==> DistributePayout(d, w, d.owner, l, recipients, AsUint64(amounts)).Some?
  {
    ChecksCompare(w, l, recipients, amounts);
    LedgerTheorems.PayoutSucceedsExactly(d, w, d.owner, l, recipients, AsUint64(amounts));
  }
}
