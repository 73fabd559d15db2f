/** What the contract decodes from the client's hand-written call data, and the client's guards. */
module AbiRoundTrip {
  import opened Wrappers
  import opened Bytes
  import opened BigEndian
  import opened Int64
  import opened Abi

  /** The uint256 the contract sees for each int64 amount. */
  function AsUint64(amounts: seq<int>): (vs: seq<nat>)
    ensures |vs| == |amounts|
  {
    seq(|amounts|, i requires 0 <= i < |amounts| => Uint64(amounts[i]))
  }

  lemma {:induction false} PowGrows(m: nat, n: nat)
    requires m <= n
    ensures Pow256(m) <= Pow256(n)
  {
    if m < n { PowGrows(m, n - 1); }
  }

  lemma WordReadsBack(v: nat)
    requires v < TWO_64
    ensures Decode(Word(v)) == v
  {
    Pow256Of8();
    PowGrows(8, 32);
    DecodeEncodeFits(v, 32);
  }

  /** An array encoded at the offset its head word gives is found again. */
  lemma ArrayReadsBack(args: seq<byte>, before: seq<byte>, length: Bytes32, ws: seq<Bytes32>, after: seq<byte>)
    requires Decode(length) == |ws|
    requires args == before + length + Concat(ws) + after
    ensures DecodeArray(args, |before|) == Some(ws)
  {
    var o := |before|;
    assert args[o..o + 32] == length;
    assert args[o + 32..o + 32 + 32 * |ws|] == Concat(ws);
    SlotsOfConcat(args, o + 32, ws);
  }

  /** Call data in the encoder's layout. */
  function LaidOut(selector: seq<byte>, l: Bytes32, o1: Bytes32, o2: Bytes32, n: Bytes32, rs: seq<byte>, vs: seq<byte>): seq<byte> {
    selector + l + o1 + o2 + n + rs + n + vs
  }

  /** The same bytes cut the ways the decoder needs. */
  lemma Layout(selector: seq<byte>, l: Bytes32, o1: Bytes32, o2: Bytes32, n: Bytes32, rs: seq<byte>, vs: seq<byte>, args: seq<byte>)
    requires |selector| == 4 && args == LaidOut(selector, l, o1, o2, n, rs, vs)[4..]
    ensures LaidOut(selector, l, o1, o2, n, rs, vs)[..4] == selector
    ensures args == (l + o1 + o2) + n + rs + (n + vs)
    ensures args == (l + o1 + o2 + n + rs) + n + vs + []
    ensures args[..32] == l && args[32..64] == o1 && args[64..96] == o2
  {
    assert LaidOut(selector, l, o1, o2, n, rs, vs) == selector + (l + o1 + o2 + n + rs + n + vs);
    assert args == l + o1 + o2 + n + rs + n + vs;
  }

  /** Both arrays are found in that layout when the length word reads right. */
  lemma ArraysInLayout(heads: seq<byte>, n: Bytes32, ws: seq<Bytes32>, vs: seq<Bytes32>, args: seq<byte>)
    requires |heads| == 96 && |ws| == |vs| == Decode(n)
    requires args == heads + n + Concat(ws) + (n + Concat(vs))
    requires args == (heads + n + Concat(ws)) + n + Concat(vs) + []
    ensures DecodeArray(args, 96) == Some(ws)
    ensures DecodeArray(args, 128 + 32 * |ws|) == Some(vs)
  {
    ArrayReadsBack(args, heads, n, ws, n + Concat(vs));
    ArrayReadsBack(args, heads + n + Concat(ws), n, vs, []);
  }

  /** Decoding that layout. */
  lemma DecodedLayout(keccak: Hash, l: Bytes32, o1: Bytes32, o2: Bytes32, n: Bytes32, ws: seq<Bytes32>, vs: seq<Bytes32>)
    requires |ws| == |vs| == Decode(n) && Decode(o1) == 96 && Decode(o2) == 128 + 32 * |ws|
    requires forall w | w in ws :: IsAddressWord(w)
    ensures DecodeCall(keccak, LaidOut(keccak(SIGNATURE)[..4], l, o1, o2, n, Concat(ws), Concat(vs)))
         == Some(PayoutCall(LeagueKey(l), Addresses(ws), Numbers(vs)))
  {
    var data := LaidOut(keccak(SIGNATURE)[..4], l, o1, o2, n, Concat(ws), Concat(vs));
    var args := data[4..];
    assert data[..4] == keccak(SIGNATURE)[..4] && args[..32] == l && args[32..64] == o1 && args[64..96] == o2
      && DecodeArray(args, 96) == Some(ws) && DecodeArray(args, 128 + 32 * |ws|) == Some(vs)
    by {
      Layout(keccak(SIGNATURE)[..4], l, o1, o2, n, Concat(ws), Concat(vs), args);
      ArraysInLayout(l + o1 + o2, n, ws, vs, args);
    }
  }

  lemma FieldsLaidOut(selector: seq<byte>, league: LeagueKey, o1: nat, o2: nat, n: nat, rs: seq<byte>, vs: seq<byte>)
    ensures Fields(selector, league, o1, o2, n) + rs + Word(n) + vs
         == LaidOut(selector, league.raw, Word(o1), Word(o2), Word(n), rs, vs)
  {
  }

  /** The same with the words written out of numbers. */
  lemma DecodedNumbers(keccak: Hash, league: LeagueKey, o1: nat, o2: nat, n: nat, ws: seq<Bytes32>, vs: seq<Bytes32>)
    requires |ws| == |vs| == n && o1 == 96 && o2 == 128 + 32 * n && o2 < TWO_64
    requires forall w | w in ws :: IsAddressWord(w)
    ensures DecodeCall(keccak, Fields(keccak(SIGNATURE)[..4], league, o1, o2, n) + Concat(ws) + Word(n) + Concat(vs))
         == Some(PayoutCall(league, Addresses(ws), Numbers(vs)))
  {
    WordReadsBack(o1);
    WordReadsBack(o2);
    WordReadsBack(n);
    FieldsLaidOut(keccak(SIGNATURE)[..4], league, o1, o2, n, Concat(ws), Concat(vs));
    DecodedLayout(keccak, league.raw, Word(o1), Word(o2), Word(n), ws, vs);
  }

  /**
   The round trip, for every number of recipients and every int64 amount: the contract decodes
   exactly the league, the recipients, and each amount as the uint64 it was written as.
   */
  lemma DecodedCall(keccak: Hash, league: LeagueKey, recipients: seq<Address>, amounts: seq<int>)
    requires |recipients| == |amounts|
    requires 164 + 64 * |recipients| < TWO_63
    ensures DecodeCall(keccak, CallData(keccak, league, recipients, amounts))
         == Some(PayoutCall(league, recipients, AsUint64(amounts)))
  {
    DecodedData(keccak, CallData(keccak, league, recipients, amounts), league, 96, 128 + 32 * |recipients|, recipients, amounts);
  }

  lemma DecodedData(keccak: Hash, data: seq<byte>, league: LeagueKey, o1: nat, o2: nat, recipients: seq<Address>, amounts: seq<int>)
    requires |recipients| == |amounts| && 164 + 64 * |recipients| < TWO_63
    requires o1 == 96 && o2 == 128 + 32 * |recipients|
    requires data == Fields(keccak(SIGNATURE)[..4], league, o1, o2, |recipients|)
              + Concat(RecipientWords(recipients)) + Word(|recipients|) + Concat(AmountWords(amounts))
    ensures DecodeCall(keccak, data) == Some(PayoutCall(league, recipients, AsUint64(amounts)))
  {
    ArgumentWords(recipients, amounts);
    DecodedNumbers(keccak, league, o1, o2, |recipients|, RecipientWords(recipients), AmountWords(amounts));
  }

  lemma ArgumentWords(recipients: seq<Address>, amounts: seq<int>)
    ensures forall w | w in RecipientWords(recipients) :: IsAddressWord(w)
    ensures Addresses(RecipientWords(recipients)) == recipients
    ensures Numbers(AmountWords(amounts)) == AsUint64(amounts)
  {
    forall i | 0 <= i < |recipients|
      ensures IsAddressWord(AddressWord(recipients[i])) && AddressWord(recipients[i])[12..] == recipients[i].raw
    {
    }
    forall i | 0 <= i < |amounts| ensures Decode(Word(Uint64(amounts[i]))) == Uint64(amounts[i]) {
      WordReadsBack(Uint64(amounts[i]));
    }
  }

  /** The decoded amounts are the amounts given exactly when none of them is negative. */
  lemma AmountsSurviveExactly(amounts: seq<int>)
    requires forall i :: 0 <= i < |amounts| ==> IsInt64(amounts[i])
    ensures (forall i :: 0 <= i < |amounts| ==> AsUint64(amounts)[i] == amounts[i])
       <==> (forall i :: 0 <= i < |amounts| ==> amounts[i] >= 0)
  {
    forall i | 0 <= i < |amounts| ensures AsUint64(amounts)[i] == amounts[i] <==> amounts[i] >= 0 {
      assert AsUint64(amounts)[i] == Uint64(amounts[i]);
    }
  }

  /** How the network answers a submitted transaction; without a receipt it may have landed or not. */
  datatype NetworkReply =
    | ExecuteFailed
    | ReceiptFailed
    | Receipt(success: bool, transactionId: string)

  /**
   `ExecuteDistributePayout`: nothing is submitted for empty or unequal lists; otherwise the
   submitted bytes decode to the arguments, and the result is a transaction id exactly when a
   receipt reports success.
   */
  method ExecuteDistributePayout(keccak: Hash, league: LeagueKey, recipients: seq<Address>, amounts: seq<int>, reply: NetworkReply)
    returns (result: Result<string>, submitted: Option<seq<byte>>)
    requires 164 + 64 * |recipients| < TWO_63
    ensures submitted.None? <==> |recipients| != |amounts| || |recipients| == 0
    ensures submitted.Some? ==> DecodeCall(keccak, submitted.value) == Some(PayoutCall(league, recipients, AsUint64(amounts)))
    ensures result.Ok? <==> submitted.Some? && reply.Receipt? && reply.success
    ensures result.Ok? ==> result.value == reply.transactionId
  {
    if |recipients| != |amounts| { return Err, None; }
    if |recipients| == 0 { return Err, None; }
    var buf, _ := EncodeDistributePayoutCall(keccak, league, recipients, amounts);
    assert Padded(amounts, |recipients|) == amounts;
    submitted := Some(buf[..]);
    DecodedCall(keccak, league, recipients, amounts);
    match reply {
      case ExecuteFailed => result := Err;
      case ReceiptFailed => result := Err;
      case Receipt(success, id) => result := if success then Ok(id) else Err;
    }
  }
}
