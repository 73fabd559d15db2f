/**
 A league's UUID becomes the escrow's bytes32 key twice: in Go for reads and payouts, and in
 TypeScript for fees and refunds. Both drop the dashes, read hex pairs and fill up with zeros.
 */
module LeagueId {
  import opened Wrappers
  import opened Bytes

  // ---------- hex digits ----------

  predicate IsHex(c: char) {
    '0' <= c <= '9' || 'a' <= c <= 'f' || 'A' <= c <= 'F'
  }

  function HexValue(c: char): (v: nat)
    requires IsHex(c)
    ensures v < 16
  {
    if c <= '9' then c as nat - '0' as nat
    else if c <= 'F' then c as nat - 'A' as nat + 10
    else c as nat - 'a' as nat + 10
  }

  predicate AllHex(s: string) {
    forall i :: 0 <= i < |s| ==> IsHex(s[i])
  }

  /** The hex digit in lower case. */
  function Lower(c: char): char {
    if 'A' <= c <= 'F' then c - 'A' + 'a' else c
  }

  function LowerAll(s: string): (r: string)
    ensures |r| == |s|
  {
    seq(|s|, i requires 0 <= i < |s| => Lower(s[i]))
  }

  lemma SameValueSameLetter(c: char, d: char)
    requires IsHex(c) && IsHex(d)
    ensures HexValue(c) == HexValue(d) <==> Lower(c) == Lower(d)
  {
  }

  function PairValue(s: string, i: nat): byte
    requires AllHex(s) && 2 * i + 1 < |s|
  {
    (16 * HexValue(s[2 * i]) + HexValue(s[2 * i + 1])) as byte
  }

  /** `hex.DecodeString`: None for an odd length or a character that is no hex digit. */
  function DecodeHex(s: string): (r: Option<seq<byte>>)
    ensures r.Some? <==> |s| % 2 == 0 && AllHex(s)
    ensures r.Some? ==> |r.value| == |s| / 2 && forall i :: 0 <= i < |s| / 2 ==> r.value[i] == PairValue(s, i)
  {
    if |s| % 2 == 0 && AllHex(s)
    then Some(seq(|s| / 2, i requires 0 <= i < |s| / 2 => PairValue(s, i)))
    else None
  }

  function HexDigit(v: nat): (c: char)
    requires v < 16
    ensures IsHex(c) && HexValue(c) == v
  {
    if v < 10 then '0' + v as char else 'a' + (v - 10) as char
  }

  /** Lower-case hex text of a byte string. */
  function HexText(b: seq<byte>): (s: string)
    ensures |s| == 2 * |b| && AllHex(s)
    ensures forall i :: 0 <= i < |b| ==> PairValue(s, i) == b[i]
  {
    seq(2 * |b|, i requires 0 <= i < 2 * |b| =>
      if i % 2 == 0 then HexDigit(b[i / 2] as nat / 16) else HexDigit(b[i / 2] as nat % 16))
  }

  /** `strings.ReplaceAll(s, "-", "")` and `s.replace(/-/g, '')`. */
  function StripDashes(s: string): string {
    if s == "" then "" else
      (if s[0] == '-' then "" else [s[0]]) + StripDashes(s[1..])
  }

  // ---------- Go ----------

  function UuidToBytes32(uuid: string): Result<LeagueKey> {
    var hexStr := StripDashes(uuid);
    if |hexStr| != 32 then Err else
      match DecodeHex(hexStr)
      case None => Err
      case Some(raw) => Ok(LeagueKey(raw + Zeros(16)))
  }

  // ---------- TypeScript ----------

  function PadEnd(s: string, n: nat): (p: string)
    ensures |p| >= n && s <= p
  {
    s + seq(if |s| < n then n - |s| else 0, _ => '0')
  }

  /** The white space and line ends that `parseInt` skips. */
  predicate IsSpace(c: char) {
    || '\t' <= c <= '\r' || c == ' ' || c == '\U{A0}' || c == '\U{1680}' || '\U{2000}' <= c <= '\U{200A}'
    || c == '\U{2028}' || c == '\U{2029}' || c == '\U{202F}' || c == '\U{205F}' || c == '\U{3000}' || c == '\U{FEFF}'
  }

  /** `parseInt(c + e, 16)` stored in a byte: leading space and sign, then hex digits as far as they go; NaN becomes 0. */
  function ParsePair(c: char, e: char): byte {
    if IsHex(c) then
      if IsHex(e) then (16 * HexValue(c) + HexValue(e)) as byte else HexValue(c) as byte
    else if !IsHex(e) then 0
    else if IsSpace(c) || c == '+' then HexValue(e) as byte
    else if c == '-' && HexValue(e) > 0 then (256 - HexValue(e)) as byte
    else 0
  }

  /** The loop of `payEntryFeeUSDC` and `claimRefund`. */
  method LeagueIdBytes32(leagueId: string) returns (raw: array<byte>)
    ensures fresh(raw) && raw.Length == 32
    ensures raw[..] == TypeScriptKey(leagueId)
  {
    var leagueIdHex := PadEnd(StripDashes(leagueId), 64);
    raw := new byte[32](_ => 0);
    for i := 0 to 32
      invariant forall k :: 0 <= k < i ==> raw[k] == ParsePair(leagueIdHex[2 * k], leagueIdHex[2 * k + 1])
    {
      raw[i] := ParsePair(leagueIdHex[2 * i], leagueIdHex[2 * i + 1]);
    }
  }

  function TypeScriptKey(leagueId: string): (raw: seq<byte>)
    ensures |raw| == 32
  {
    var leagueIdHex := PadEnd(StripDashes(leagueId), 64);
    seq(32, i requires 0 <= i < 32 => ParsePair(leagueIdHex[2 * i], leagueIdHex[2 * i + 1]))
  }

  // ---------- agreement ----------

  /** The 8-4-4-4-12 text form of RFC 9562, section 4. */
  predicate WellFormed(uuid: string) {
    |uuid| == 36 && forall i :: 0 <= i < 36 ==>
      if i == 8 || i == 13 || i == 18 || i == 23 then uuid[i] == '-' else IsHex(uuid[i])
  }

  /** Whenever Go accepts an id, TypeScript computes the same 32 bytes. */
  lemma TwoImplementationsAgree(id: string)
    ensures UuidToBytes32(id).Ok? <==> |StripDashes(id)| == 32 && AllHex(StripDashes(id))
    ensures UuidToBytes32(id).Ok? ==> UuidToBytes32(id).value.raw == TypeScriptKey(id)
  {
    if UuidToBytes32(id).Ok? {
      var h, p := StripDashes(id), PadEnd(StripDashes(id), 64);
      forall i | 0 <= i < 32 ensures UuidToBytes32(id).value.raw[i] == TypeScriptKey(id)[i] {
        if i < 16 {
          assert p[2 * i] == h[2 * i] && p[2 * i + 1] == h[2 * i + 1];
        } else {
          assert p[2 * i] == '0' && p[2 * i + 1] == '0';
        }
      }
    }
  }

  /** A run of hex digits before a dash stays, the dash goes. */
  lemma {:induction false} StripSegment(a: string, b: string)
    requires AllHex(a)
    ensures StripDashes(a + "-" + b) == a + StripDashes(b)
  {
    var s := a + "-" + b;
    if a == "" {
      assert s[0] == '-' && s[1..] == b;
    } else {
      assert s[0] == a[0] && s[1..] == a[1..] + "-" + b;
      StripSegment(a[1..], b);
      assert [a[0]] + (a[1..] + StripDashes(b)) == a + StripDashes(b);
    }
  }

  lemma {:induction false} StripHex(s: string)
    requires AllHex(s)
    ensures StripDashes(s) == s
  {
    if s != "" { StripHex(s[1..]); }
  }

  /** What is left of a well-formed UUID without its dashes. */
  lemma StripWellFormed(u: string)
    requires WellFormed(u)
    ensures StripDashes(u) == u[..8] + (u[9..13] + (u[14..18] + (u[19..23] + u[24..])))
    ensures |StripDashes(u)| == 32 && AllHex(StripDashes(u))
  {
    StripHex(u[24..]);
    StripCut(u, 19, 23);
    StripCut(u, 14, 18);
    StripCut(u, 9, 13);
    StripCut(u, 0, 8);
    assert u[0..] == u;
  }

  lemma StripCut(u: string, i: nat, j: nat)
    requires i <= j < |u| && u[j] == '-' && AllHex(u[i..j])
    ensures StripDashes(u[i..]) == u[i..j] + StripDashes(u[j + 1..])
  {
    assert u[i..] == u[i..j] + "-" + u[j + 1..];
    StripSegment(u[i..j], u[j + 1..]);
  }

  /** Hex strings of one even length decode alike exactly when they differ at most in case. */
  lemma DecodeInjective(s: string, t: string)
    requires |s| == |t| == 32 && AllHex(s) && AllHex(t)
    ensures DecodeHex(s) == DecodeHex(t) <==> LowerAll(s) == LowerAll(t)
  {
    forall i | 0 <= i < 32 ensures HexValue(s[i]) == HexValue(t[i]) <==> LowerAll(s)[i] == LowerAll(t)[i] {
      SameValueSameLetter(s[i], t[i]);
    }
    var a, b := DecodeHex(s).value, DecodeHex(t).value;
    forall i | 0 <= i < 16 ensures a[i] == b[i] <==> HexValue(s[2 * i]) == HexValue(t[2 * i]) && HexValue(s[2 * i + 1]) == HexValue(t[2 * i + 1]) {
    }
    if a == b {
      forall k | 0 <= k < 32 ensures LowerAll(s)[k] == LowerAll(t)[k] {
        assert a[k / 2] == b[k / 2];
        assert k == 2 * (k / 2) || k == 2 * (k / 2) + 1;
      }
    }
    if LowerAll(s) == LowerAll(t) {
      forall i | 0 <= i < 16 ensures a[i] == b[i] {
        assert LowerAll(s)[2 * i] == LowerAll(t)[2 * i] && LowerAll(s)[2 * i + 1] == LowerAll(t)[2 * i + 1];
      }
    }
  }

  lemma SegmentsDecideCase(u: string, v: string)
    requires WellFormed(u) && WellFormed(v)
    ensures LowerAll(StripDashes(u)) == LowerAll(StripDashes(v)) <==> LowerAll(u) == LowerAll(v)
  {
    StripWellFormed(u);
    StripWellFormed(v);
    var a, b := StripDashes(u), StripDashes(v);
    forall i | 0 <= i < 36 && i != 8 && i != 13 && i != 18 && i != 23
      ensures var k := if i < 8 then i else if i < 13 then i - 1 else if i < 18 then i - 2 else if i < 23 then i - 3 else i - 4;
              a[k] == u[i] && b[k] == v[i]
    {
    }
    if LowerAll(a) == LowerAll(b) {
      forall i | 0 <= i < 36 ensures LowerAll(u)[i] == LowerAll(v)[i] {
        if i != 8 && i != 13 && i != 18 && i != 23 {
          var k := if i < 8 then i else if i < 13 then i - 1 else if i < 18 then i - 2 else if i < 23 then i - 3 else i - 4;
          assert LowerAll(a)[k] == LowerAll(b)[k];
        }
      }
    }
    if LowerAll(u) == LowerAll(v) {
      forall k | 0 <= k < 32 ensures LowerAll(a)[k] == LowerAll(b)[k] {
        var i := if k < 8 then k else if k < 12 then k + 1 else if k < 16 then k + 2 else if k < 20 then k + 3 else k + 4;
        assert LowerAll(u)[i] == LowerAll(v)[i];
      }
    }
  }

  lemma DigitOfValue(c: char)
    requires IsHex(c)
    ensures HexDigit(HexValue(c)) == Lower(c)
  {
  }

  /** The two halves of a decoded pair. */
  lemma PairHalves(s: string, i: nat)
    requires AllHex(s) && 2 * i + 1 < |s|
    ensures PairValue(s, i) as nat / 16 == HexValue(s[2 * i]) && PairValue(s, i) as nat % 16 == HexValue(s[2 * i + 1])
  {
  }

  /** Writing out a decoded hex text gives it back in lower case. */
  lemma HexTextOfDecoded(s: string)
    requires |s| == 32 && AllHex(s)
    ensures HexText(DecodeHex(s).value) == LowerAll(s)
  {
    var b := DecodeHex(s).value;
    forall k | 0 <= k < 32 ensures HexText(b)[k] == Lower(s[k]) {
      var i := k / 2;
      PairHalves(s, i);
      DigitOfValue(s[k]);
      assert b[i] == PairValue(s, i) && (k == 2 * i || k == 2 * i + 1);
    }
  }

  /** A UUID's key is its own 16 bytes, written out its own digits in lower case, and 16 zeros after them. */
  lemma KeyIsTheDigits(u: string)
    requires WellFormed(u)
    ensures UuidToBytes32(u).Ok?
    ensures UuidToBytes32(u).value.raw[16..] == Zeros(16)
    ensures HexText(UuidToBytes32(u).value.raw[..16]) == LowerAll(u[..8] + (u[9..13] + (u[14..18] + (u[19..23] + u[24..]))))
  {
    StripWellFormed(u);
    HexTextOfDecoded(StripDashes(u));
    var b := DecodeHex(StripDashes(u)).value;
    assert (b + Zeros(16))[..16] == b;
  }

  /**
   One escrow slot per league: every well-formed UUID is accepted by Go, TypeScript agrees with it,
   and two UUIDs share a key exactly when they are equal up to the case of their hex digits.
   */
  lemma OneKeyPerLeague(u: string, v: string)
    requires WellFormed(u) && WellFormed(v)
    ensures AllHex(StripDashes(u)) && UuidToBytes32(u) == Ok(LeagueKey(TypeScriptKey(u)))
    ensures UuidToBytes32(u) == UuidToBytes32(v) <==> LowerAll(u) == LowerAll(v)
  {
    StripWellFormed(u);
    StripWellFormed(v);
    TwoImplementationsAgree(u);
    DecodeInjective(StripDashes(u), StripDashes(v));
    SegmentsDecideCase(u, v);
    var a, b := DecodeHex(StripDashes(u)).value, DecodeHex(StripDashes(v)).value;
    assert (a + Zeros(16))[..16] == a && (b + Zeros(16))[..16] == b;
  }
}
