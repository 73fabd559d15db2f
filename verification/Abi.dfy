/**
 The hand-written ABI encoding of `distributePayout(bytes32,address[],uint256[])`, the client call
 around it, and a decoder that follows the "Formal Specification of the Encoding" section of the
 Solidity Contract ABI Specification: static arguments in the head, dynamic arrays behind byte
 offsets relative to the start of the arguments.
 */
module Abi {
  import opened Wrappers
  import opened Bytes
  import opened BigEndian
  import opened Int64

  /** Keccak-256, left uninterpreted. */
  type Hash = string -> Bytes32

  const SIGNATURE := "distributePayout(bytes32,address[],uint256[])"

  // ---------- words ----------

  function Word(v: nat): Bytes32 {
    Encode(v, 32)
  }

  function AddressWord(a: Address): Bytes32 {
    Zeros(12) + a.raw
  }

  function Concat(ws: seq<Bytes32>): (s: seq<byte>)
    ensures |s| == 32 * |ws|
  {
    if ws == [] then [] else Concat(ws[..|ws| - 1]) + ws[|ws| - 1]
  }

  /** The n words of a byte string from offset start on. */
  function Slots(s: seq<byte>, start: nat, n: nat): seq<Bytes32>
    requires start + 32 * n <= |s|
  {
    seq(n, i requires 0 <= i < n => s[start + 32 * i..start + 32 * i + 32])
  }

  lemma {:induction false} SlotsOfConcat(s: seq<byte>, start: nat, ws: seq<Bytes32>)
    requires start + 32 * |ws| <= |s| && s[start..start + 32 * |ws|] == Concat(ws)
    ensures Slots(s, start, |ws|) == ws
  {
    if ws != [] {
      var n := |ws| - 1;
      var mid := start + 32 * n;
      assert s[start..mid] == s[start..mid + 32][..32 * n] == Concat(ws[..n]);
      assert s[mid..mid + 32] == s[start..mid + 32][32 * n..] == ws[n];
      SlotsOfConcat(s, start, ws[..n]);
      assert forall i :: 0 <= i < n ==> Slots(s, start, n)[i] == s[start + 32 * i..start + 32 * i + 32];
    }
  }

  // ---------- the decoder of the specification ----------

  datatype PayoutCall = PayoutCall(league: LeagueKey, recipients: seq<Address>, amounts: seq<nat>)

  /** A dynamic array: its length word at the offset, then its elements. */
  function DecodeArray(args: seq<byte>, offset: nat): Option<seq<Bytes32>> {
    if offset + 32 > |args| then None else
      var n := Decode(args[offset..offset + 32]);
      if offset + 32 + 32 * n > |args| then None else Some(Slots(args, offset + 32, n))
  }

  /** An address occupies the low 20 bytes of its word; the others must be zero. */
  predicate IsAddressWord(w: Bytes32) {
    w[..12] == Zeros(12)
  }

  function Addresses(ws: seq<Bytes32>): (s: seq<Address>)
    ensures |s| == |ws|
  {
    seq(|ws|, i requires 0 <= i < |ws| => Address(ws[i][12..]))
  }

  function Numbers(ws: seq<Bytes32>): (s: seq<nat>)
    ensures |s| == |ws|
  {
    seq(|ws|, i requires 0 <= i < |ws| => Decode(ws[i]))
  }

  function DecodeCall(keccak: Hash, data: seq<byte>): Option<PayoutCall> {
    if |data| < 100 || data[..4] != keccak(SIGNATURE)[..4] then None else
      var args := data[4..];
      match (DecodeArray(args, Decode(args[32..64])), DecodeArray(args, Decode(args[64..96])))
      case (Some(rs), Some(vs)) =>
        if forall r | r in rs :: IsAddressWord(r)
        then Some(PayoutCall(LeagueKey(args[..32]), Addresses(rs), Numbers(vs)))
        else None
      case _ => None
  }

  // ---------- the encoder's buffer ----------

  /** The words of the argument arrays as the encoder writes them. */
  function RecipientWords(recipients: seq<Address>): (ws: seq<Bytes32>)
    ensures |ws| == |recipients|
  {
    seq(|recipients|, i requires 0 <= i < |recipients| => AddressWord(recipients[i]))
  }

  function AmountWords(amounts: seq<int>): (ws: seq<Bytes32>)
    ensures |ws| == |amounts|
  {
    seq(|amounts|, i requires 0 <= i < |amounts| => Word(Uint64(amounts[i])))
  }

  function Head(keccak: Hash, league: LeagueKey, n: nat): (s: seq<byte>)
    ensures |s| == 132
  {
    Fields(keccak(SIGNATURE)[..4], league, 96, 128 + 32 * n, n)
  }

  function Fields(selector: seq<byte>, league: LeagueKey, offsetRecipients: nat, offsetAmounts: nat, n: nat): (s: seq<byte>)
    ensures |s| == |selector| + 128
  {
    selector + league.raw + Word(offsetRecipients) + Word(offsetAmounts) + Word(n)
  }

  function CallData(keccak: Hash, league: LeagueKey, recipients: seq<Address>, amounts: seq<int>): seq<byte> {
    Head(keccak, league, |recipients|) + Concat(RecipientWords(recipients))
    + Word(|recipients|) + Concat(AmountWords(amounts))
  }

  /** `copy(buf[off:], src)` when src fits: nothing outside the target range changes. */
  method Copy(buf: array<byte>, off: nat, src: seq<byte>)
    requires off + |src| <= buf.Length
    modifies buf
    ensures buf[..] == old(buf[..off]) + src + old(buf[off + |src|..])
  {
    for i := 0 to |src|
      invariant forall k :: 0 <= k < i ==> buf[off + k] == src[k]
      invariant forall k :: 0 <= k < off || off + i <= k < buf.Length ==> buf[k] == old(buf[k])
    {
      buf[off + i] := src[i];
    }
    assert buf[..off] == old(buf[..off]);
    assert buf[off..off + |src|] == src;
    assert buf[off + |src|..] == old(buf[off + |src|..]);
    assert buf[..] == buf[..off] + buf[off..off + |src|] + buf[off + |src|..];
  }

  /** The buffer holds what was written so far and zeros after it. */
  ghost predicate Holds(buf: array<byte>, written: seq<byte>)
    reads buf
  {
    |written| <= buf.Length && buf[..] == written + Zeros(buf.Length - |written|)
  }

  /** Writes `src` right-aligned in the next 32-byte slot; all it overwrites is zeros. */
  method PutSlot(buf: array<byte>, ghost written: seq<byte>, pos: nat, src: seq<byte>) returns (next: nat)
    requires pos == |written| && pos + 32 <= buf.Length && |src| <= 32 && Holds(buf, written)
    modifies buf
    ensures next == pos + 32
    ensures Holds(buf, written + (Zeros(32 - |src|) + src))
  {
    ghost var before := buf[..];
    assert before[..pos + 32 - |src|] == written + Zeros(32 - |src|);
    assert before[pos + 32..] == Zeros(buf.Length - pos - 32);
    Copy(buf, pos + (32 - |src|), src);
    next := pos + 32;
    assert written + Zeros(32 - |src|) + src + Zeros(buf.Length - pos - 32)
        == written + (Zeros(32 - |src|) + src) + Zeros(buf.Length - pos - 32);
  }

  /** `binary.BigEndian.PutUint64(buf[pos+24:], v)` and the step to the next slot. */
  method PutUint64(buf: array<byte>, ghost written: seq<byte>, pos: nat, v: nat) returns (next: nat)
    requires v < TWO_64
    requires pos == |written| && pos + 32 <= buf.Length && Holds(buf, written)
    modifies buf
    ensures next == pos + 32
    ensures Holds(buf, written + Word(v))
  {
    next := PutSlot(buf, written, pos, Encode(v, 8));
    Pow256Of8();
    EncodePadded(v, 32, 8);
  }

  lemma ConcatPush(written: seq<byte>, ws: seq<Bytes32>, i: nat)
    requires i < |ws|
    ensures written + Concat(ws[..i]) + ws[i] == written + Concat(ws[..i + 1])
  {
    assert ws[..i + 1][..i] == ws[..i];
    assert written + Concat(ws[..i]) + ws[i] == written + (Concat(ws[..i]) + ws[i]);
  }

  method PutRecipients(buf: array<byte>, ghost written: seq<byte>, pos: nat, recipients: seq<Address>) returns (next: nat)
    requires pos == |written| && pos + 32 * |recipients| <= buf.Length && Holds(buf, written)
    modifies buf
    ensures next == pos + 32 * |recipients|
    ensures Holds(buf, written + Concat(RecipientWords(recipients)))
  {
    next := pos;
    ghost var ws := RecipientWords(recipients);
    for i := 0 to |recipients|
      invariant next == pos + 32 * i
      invariant Holds(buf, written + Concat(ws[..i]))
    {
      next := PutSlot(buf, written + Concat(ws[..i]), next, recipients[i].raw);
      ConcatPush(written, ws, i);
    }
    assert ws[..|ws|] == ws;
  }

  method PutAmounts(buf: array<byte>, ghost written: seq<byte>, pos: nat, amounts: seq<int>) returns (next: nat)
    requires pos == |written| && pos + 32 * |amounts| <= buf.Length && Holds(buf, written)
    modifies buf
    ensures next == pos + 32 * |amounts|
    ensures Holds(buf, written + Concat(AmountWords(amounts)))
  {
    next := pos;
    ghost var ws := AmountWords(amounts);
    for i := 0 to |amounts|
      invariant next == pos + 32 * i
      invariant Holds(buf, written + Concat(ws[..i]))
    {
      next := PutUint64(buf, written + Concat(ws[..i]), next, Uint64(amounts[i]));
      ConcatPush(written, ws, i);
    }
    assert ws[..|ws|] == ws;
  }

  /** The amounts the buffer holds: slots that no amount is written to stay zero. */
  function Padded(amounts: seq<int>, n: nat): (s: seq<int>)
    requires |amounts| <= n
    ensures |s| == n && amounts <= s
  {
    amounts + seq(n - |amounts|, _ => 0)
  }

  lemma ZeroWord()
    ensures Word(Uint64(0)) == Zeros(32)
  {
    EncodeZero(32);
  }

  lemma ZerosJoin(s: seq<byte>, m: nat, n: nat)
    ensures s + Zeros(m) + Zeros(n) == s + Zeros(m + n)
  {
    assert Zeros(m) + Zeros(n) == Zeros(m + n);
  }

  /** Slots never written are words of zero. */
  lemma {:induction false} PaddedWords(amounts: seq<int>, n: nat)
    requires |amounts| <= n
    ensures Concat(AmountWords(Padded(amounts, n))) == Concat(AmountWords(amounts)) + Zeros(32 * (n - |amounts|))
  {
    if n == |amounts| {
      assert Padded(amounts, n) == amounts;
    } else {
      PaddedWords(amounts, n - 1);
      var ws := AmountWords(Padded(amounts, n));
      assert ws[..n - 1] == AmountWords(Padded(amounts, n - 1));
      ZeroWord();
      assert Padded(amounts, n)[n - 1] == 0 && ws[n - 1] == Zeros(32);
      ZerosJoin(Concat(AmountWords(amounts)), 32 * (n - 1 - |amounts|), 32);
    }
  }

  lemma EndsPadded(data: seq<byte>, written: seq<byte>, amounts: seq<int>, n: nat)
    requires |amounts| <= n
    requires data == written + Concat(AmountWords(amounts)) + Zeros(32 * (n - |amounts|))
    ensures data == written + Concat(AmountWords(Padded(amounts, n)))
  {
    PaddedWords(amounts, n);
  }

  /** Three numbers, one slot each. */
  method PutNumbers(buf: array<byte>, ghost written: seq<byte>, pos: nat, x: nat, y: nat, z: nat) returns (next: nat)
    requires x < TWO_64 && y < TWO_64 && z < TWO_64
    requires pos == |written| && pos + 96 <= buf.Length && Holds(buf, written)
    modifies buf
    ensures next == pos + 96 && Holds(buf, written + Word(x) + Word(y) + Word(z))
  {
    next := PutUint64(buf, written, pos, x);
    next := PutUint64(buf, written + Word(x), next, y);
    next := PutUint64(buf, written + Word(x) + Word(y), next, z);
  }

  /** Writes `src` next. */
  method PutBytes(buf: array<byte>, ghost written: seq<byte>, pos: nat, src: seq<byte>) returns (next: nat)
    requires pos == |written| && pos + |src| <= buf.Length && Holds(buf, written)
    modifies buf
    ensures next == pos + |src| && Holds(buf, written + src)
  {
    ghost var rest := Zeros(buf.Length - pos - |src|);
    assert buf[pos + |src|..] == rest;
    Copy(buf, pos, src);
    next := pos + |src|;
  }

  /** Selector, league, both offsets and the first length. */
  method PutHead(buf: array<byte>, selector: seq<byte>, league: LeagueKey, offsetRecipients: nat, offsetAmounts: nat, n: nat) returns (pos: nat)
    requires |selector| == 4 && 132 <= buf.Length && Holds(buf, [])
    requires offsetRecipients < TWO_64 && offsetAmounts < TWO_64 && n < TWO_64
    modifies buf
    ensures pos == 132 && Holds(buf, Fields(selector, league, offsetRecipients, offsetAmounts, n))
  {
    assert [] + selector == selector;
    pos := PutBytes(buf, [], 0, selector);
    pos := PutBytes(buf, selector, pos, league.raw);
    pos := PutNumbers(buf, selector + league.raw, pos, offsetRecipients, offsetAmounts, n);
  }

  /**
   The encoder: one buffer, one cursor, two loops. The buffer is sized by the recipients; fewer
   amounts leave zeros, and more would run past its end, where Go panics. It fits in memory, so offsets
   and counts are int64 values. Every slot is written at most once, over zeros.
   */
  method EncodeDistributePayoutCall(keccak: Hash, league: LeagueKey, recipients: seq<Address>, amounts: seq<int>)
    returns (buf: array<byte>, pos: nat)
    requires |amounts| <= |recipients|
    requires 164 + 64 * |recipients| < TWO_63
    ensures fresh(buf)
    ensures buf[..] == CallData(keccak, league, recipients, Padded(amounts, |recipients|))
    ensures pos == 164 + 32 * |recipients| + 32 * |amounts| && buf.Length == 164 + 64 * |recipients|
  {
    var n := |recipients|;
    buf := new byte[4 + 32 + 32 + 32 + 32 + n * 32 + 32 + n * 32](_ => 0);
    assert Holds(buf, []);
    var offsetRecipients := 96;
    var offsetAmounts := 96 + 32 + n * 32;
    pos := PutHead(buf, keccak(SIGNATURE)[..4], league, offsetRecipients, offsetAmounts, n);
    ghost var written := Head(keccak, league, n);
    pos := PutRecipients(buf, written, pos, recipients);
    written := written + Concat(RecipientWords(recipients));

    pos := PutUint64(buf, written, pos, n);
    written := written + Word(n);
    pos := PutAmounts(buf, written, pos, amounts);
    EndsPadded(buf[..], written, amounts, n);
  }
}
