/**
 The two questions the backend asks the escrow through the Mirror Node: how the call data is built,
 which storage slot the contract answers from, and what the backend then reads.
 */
module ViewCalls {
  import opened Wrappers
  import opened MapSums
  import opened Bytes
  import opened Int64
  import opened LeagueId
  import opened Abi
  import opened Ledger
  import opened Bridge
  import PaymentLifecycle

  const PAYMENTS := "payments(bytes32,address)"
  const LEAGUE_TOTALS := "leagueTotals(bytes32)"

  // ---------- the contract's side ----------

  /** A contract whose two getters shared a selector would not compile. */
  predicate SelectorsDiffer(keccak: Hash) {
    keccak(PAYMENTS)[..4] != keccak(LEAGUE_TOTALS)[..4]
  }

  /** What the getters of the public mappings return; None for a revert or any other function. */
  function Answer(keccak: Hash, w: World, data: seq<byte>): Option<nat> {
    if |data| < 4 then None
    else if data[..4] == keccak(PAYMENTS)[..4] then
      if |data| < 68 || !IsAddressWord(data[36..68]) then None
      else Some(At(PaymentsOf(w, LeagueKey(data[4..36])), Address(data[48..68])))
    else if data[..4] == keccak(LEAGUE_TOTALS)[..4] then
      if |data| < 36 then None else Some(At(w.leagueTotals, LeagueKey(data[4..36])))
    else None
  }

  /** The node decodes the hex of the request and replies with the hex of the answer. */
  function Query(keccak: Hash, w: World, request: string): Result<int> {
    match DecodeHex(TrimPrefix(request, "0x"))
    case None => Err
    case Some(data) =>
      match Answer(keccak, w, data)
      case None => Err
      case Some(v) => ReadContractPayment(NodeReply(v))
  }

  // ---------- the backend's side ----------

  function PaymentsCall(keccak: Hash, league: LeagueKey, member: Address): seq<byte> {
    keccak(PAYMENTS)[..4] + league.raw + AddressWord(member)
  }

  function LeagueTotalsCall(keccak: Hash, league: LeagueKey): seq<byte> {
    keccak(LEAGUE_TOTALS)[..4] + league.raw
  }

  method EncodePaymentsCall(keccak: Hash, league: LeagueKey, member: Address) returns (callData: seq<byte>)
    ensures callData == PaymentsCall(keccak, league, member)
  {
    var addrPadded := new byte[32](_ => 0);
    assert addrPadded[..12] == Zeros(12);
    Copy(addrPadded, 12, member.raw);
    callData := keccak(PAYMENTS)[..4];
    callData := callData + league.raw;
    callData := callData + addrPadded[..];
  }

  method EncodeLeagueTotalsCall(keccak: Hash, league: LeagueKey) returns (buf: array<byte>)
    ensures fresh(buf) && buf[..] == LeagueTotalsCall(keccak, league)
  {
    buf := new byte[36](_ => 0);
    Copy(buf, 0, keccak(LEAGUE_TOTALS)[..4]);
    assert buf[..4] == keccak(LEAGUE_TOTALS)[..4];
    Copy(buf, 4, league.raw);
  }

  /** The request as it is sent. */
  function Request(data: seq<byte>): string {
    "0x" + HexText(data)
  }

  // ---------- what is read ----------

  lemma RequestReadsBack(data: seq<byte>)
    ensures DecodeHex(TrimPrefix(Request(data), "0x")) == Some(data)
  {
    assert TrimPrefix(Request(data), "0x") == HexText(data);
    assert DecodeHex(HexText(data)).value == data;
  }

  /** What the contract answers comes back truncated to int64. */
  lemma AnswerReadsBack(keccak: Hash, w: World, data: seq<byte>)
    ensures var answer := Answer(keccak, w, data);
            Query(keccak, w, Request(data)) == if answer.Some? then Ok(Wrap64(answer.value)) else Err
  {
    RequestReadsBack(data);
    var answer := Answer(keccak, w, data);
    if answer.Some? { ReadIsTruncation(answer.value); }
  }

  lemma PaymentAnswer(keccak: Hash, w: World, l: LeagueKey, m: Address)
    ensures Answer(keccak, w, PaymentsCall(keccak, l, m)) == Some(At(PaymentsOf(w, l), m))
  {
    var data := PaymentsCall(keccak, l, m);
    assert data[..4] == keccak(PAYMENTS)[..4];
    assert data[4..36] == l.raw && data[36..68] == AddressWord(m) && data[48..68] == m.raw;
    assert AddressWord(m)[..12] == Zeros(12);
  }

  lemma LeagueTotalAnswer(keccak: Hash, w: World, l: LeagueKey)
    requires SelectorsDiffer(keccak)
    ensures Answer(keccak, w, LeagueTotalsCall(keccak, l)) == Some(At(w.leagueTotals, l))
  {
    var data := LeagueTotalsCall(keccak, l);
    assert data[..4] == keccak(LEAGUE_TOTALS)[..4] && data[4..36] == l.raw;
  }

  /** Asking for a payment reads the slot of exactly that league and member, as the payment handlers take it. */
  lemma PaymentRead(keccak: Hash, w: World, l: LeagueKey, m: Address)
    ensures Query(keccak, w, Request(PaymentsCall(keccak, l, m))) == Ok(Wrap64(At(PaymentsOf(w, l), m)))
    ensures PaymentLifecycle.OnChain(w, l, m) == Wrap64(At(PaymentsOf(w, l), m))
  {
    PaymentAnswer(keccak, w, l, m);
    AnswerReadsBack(keccak, w, PaymentsCall(keccak, l, m));
    ReadIsTruncation(At(PaymentsOf(w, l), m));
  }

  /** Asking for a league's total reads exactly that league's slot, as the oracle's check takes it. */
  lemma LeagueTotalRead(keccak: Hash, w: World, l: LeagueKey)
    requires SelectorsDiffer(keccak)
    ensures Query(keccak, w, Request(LeagueTotalsCall(keccak, l))) == Ok(Wrap64(At(w.leagueTotals, l)))
  {
    LeagueTotalAnswer(keccak, w, l);
    AnswerReadsBack(keccak, w, LeagueTotalsCall(keccak, l));
  }
}
