/**
 The USDC token and the league escrow as values: each external call is a function that either
 reverts (None) or gives the whole state after the call. Amounts are uint256; additions and
 subtractions are checked, as Solidity 0.8 compiles them.
 */
module Ledger {
  import opened Wrappers
  import opened MapSums
  import opened Bytes

  const UINT256_LIMIT: nat := 0x1_00000000_00000000_00000000_00000000_00000000_00000000_00000000_00000000

  // ---------- checked mapping arithmetic ----------

  function Credit<K>(m: map<K, nat>, k: K, amount: nat): Option<map<K, nat>> {
    if At(m, k) + amount < UINT256_LIMIT then Some(m[k := At(m, k) + amount]) else None
  }

  function Debit<K>(m: map<K, nat>, k: K, amount: nat): Option<map<K, nat>> {
    if amount <= At(m, k) then Some(m[k := At(m, k) - amount]) else None
  }

  // ---------- the token ----------

  /** Allowances are keyed by (holder, spender). */
  datatype Token = Token(
    balanceOf: map<Address, nat>,
    allowance: map<(Address, Address), nat>,
    totalSupply: nat
  )

  /** The two balance updates that `transfer` and `transferFrom` share. */
  function Move(b: map<Address, nat>, from: Address, to: Address, amount: nat): Option<map<Address, nat>> {
    match Debit(b, from, amount)
    case None => None
    case Some(debited) => Credit(debited, to, amount)
  }

  function Mint(t: Token, to: Address, amount: nat): Option<Token> {
    match Credit(t.balanceOf, to, amount)
    case None => None
    case Some(b) =>
      if t.totalSupply + amount < UINT256_LIMIT
      then Some(t.(balanceOf := b, totalSupply := t.totalSupply + amount))
      else None
  }

  function Approve(t: Token, sender: Address, spender: Address, amount: nat): Option<Token> {
    Some(t.(allowance := t.allowance[(sender, spender) := amount]))
  }

  function Transfer(t: Token, sender: Address, to: Address, amount: nat): Option<Token> {
    match Move(t.balanceOf, sender, to, amount)
    case None => None
    case Some(b) => Some(t.(balanceOf := b))
  }

  function TransferFrom(t: Token, sender: Address, from: Address, to: Address, amount: nat): Option<Token> {
    match Debit(t.allowance, (from, sender), amount)
    case None => None
    case Some(a) =>
      match Move(t.balanceOf, from, to, amount)
      case None => None
      case Some(b) => Some(t.(balanceOf := b, allowance := a))
  }

  // ---------- the escrow ----------

  datatype Event =
    | EntryFeePaid(league: LeagueKey, member: Address, amount: nat)
    | PayoutDistributed(league: LeagueKey, recipient: Address, amount: nat)
    | RefundClaimed(league: LeagueKey, member: Address, amount: nat)

  /** Who the contract is and who deployed it. */
  datatype Deployment = Deployment(escrow: Address, owner: Address)

  /** Token and escrow storage, the escrow's event log, and the USDC that `emergencyWithdraw` has taken so far. */
  datatype World = World(
    token: Token,
    payments: map<LeagueKey, map<Address, nat>>,
    leagueTotals: map<LeagueKey, nat>,
    events: seq<Event>,
    recovered: nat
  )

  /** `payments[league]`, empty when nobody has paid into the league. */
  function PaymentsOf(w: World, l: LeagueKey): map<Address, nat> {
    if l in w.payments then w.payments[l] else map[]
  }

  function PayEntryFee(d: Deployment, w: World, sender: Address, l: LeagueKey, amount: nat): Option<World> {
    if amount == 0 then None else
      match Credit(PaymentsOf(w, l), sender, amount)
      case None => None
      case Some(row) =>
        match Credit(w.leagueTotals, l, amount)
        case None => None
        case Some(totals) =>
          match TransferFrom(w.token, d.escrow, sender, d.escrow, amount)
          case None => None
          case Some(t) => Some(w.(
            token := t,
            payments := w.payments[l := row],
            leagueTotals := totals,
            events := w.events + [EntryFeePaid(l, sender, amount)]))
  }

  function ClaimRefund(d: Deployment, w: World, sender: Address, l: LeagueKey): Option<World> {
    var amount := At(PaymentsOf(w, l), sender);
    if amount == 0 then None else
      match Debit(w.leagueTotals, l, amount)
      case None => None
      case Some(totals) =>
        match Transfer(w.token, d.escrow, sender, amount)
        case None => None
        case Some(t) => Some(w.(
          token := t,
          payments := w.payments[l := PaymentsOf(w, l)[sender := 0]],
          leagueTotals := totals,
          events := w.events + [RefundClaimed(l, sender, amount)]))
  }

  /** The sum of the first n amounts as the contract accumulates it; None on overflow. */
  function CheckedSum(amounts: seq<nat>, n: nat): Option<nat>
    requires n <= |amounts|
  {
    if n == 0 then Some(0) else
      match CheckedSum(amounts, n - 1)
      case None => None
      case Some(total) =>
        if total + amounts[n - 1] < UINT256_LIMIT then Some(total + amounts[n - 1]) else None
  }

  /** The state after the first n transfers of a payout; None as soon as one reverts. */
  function PayFirst(d: Deployment, w: World, l: LeagueKey, recipients: seq<Address>, amounts: seq<nat>, n: nat): Option<World>
    requires n <= |recipients| == |amounts|
  {
    if n == 0 then Some(w) else
      match PayFirst(d, w, l, recipients, amounts, n - 1)
      case None => None
      case Some(v) =>
        match Transfer(v.token, d.escrow, recipients[n - 1], amounts[n - 1])
        case None => None
        case Some(t) => Some(v.(
          token := t,
          events := v.events + [PayoutDistributed(l, recipients[n - 1], amounts[n - 1])]))
  }

  function DistributePayout(d: Deployment, w: World, sender: Address, l: LeagueKey, recipients: seq<Address>, amounts: seq<nat>): Option<World> {
    if sender != d.owner || |recipients| != |amounts| then None else
      match CheckedSum(amounts, |amounts|)
      case None => None
      case Some(total) =>
        match Debit(w.leagueTotals, l, total)
        case None => None
        case Some(totals) => PayFirst(d, w.(leagueTotals := totals), l, recipients, amounts, |recipients|)
  }

  function EmergencyWithdraw(d: Deployment, w: World, sender: Address, amount: nat): Option<World> {
    if sender != d.owner then None else
      match Transfer(w.token, d.escrow, d.owner, amount)
      case None => None
      case Some(t) => Some(w.(token := t, recovered := w.recovered + amount))
  }

  // ---------- calls and runs ----------

  /** Every state-changing entry point of the two contracts, with its caller. */
  datatype Call =
    | CallMint(sender: Address, to: Address, amount: nat)
    | CallApprove(sender: Address, spender: Address, amount: nat)
    | CallTransfer(sender: Address, to: Address, amount: nat)
    | CallTransferFrom(sender: Address, from: Address, to: Address, amount: nat)
    | CallPayEntryFee(sender: Address, league: LeagueKey, amount: nat)
    | CallClaimRefund(sender: Address, league: LeagueKey)
    | CallDistributePayout(sender: Address, league: LeagueKey, recipients: seq<Address>, amounts: seq<nat>)
    | CallEmergencyWithdraw(sender: Address, amount: nat)

  function WithToken(w: World, t: Option<Token>): Option<World> {
    match t
    case None => None
    case Some(token) => Some(w.(token := token))
  }

  function Exec(d: Deployment, w: World, c: Call): Option<World> {
    match c
    case CallMint(_, to, amount) => WithToken(w, Mint(w.token, to, amount))
    case CallApprove(sender, spender, amount) => WithToken(w, Approve(w.token, sender, spender, amount))
    case CallTransfer(sender, to, amount) => WithToken(w, Transfer(w.token, sender, to, amount))
    case CallTransferFrom(sender, from, to, amount) => WithToken(w, TransferFrom(w.token, sender, from, to, amount))
    case CallPayEntryFee(sender, l, amount) => PayEntryFee(d, w, sender, l, amount)
    case CallClaimRefund(sender, l) => ClaimRefund(d, w, sender, l)
    case CallDistributePayout(sender, l, recipients, amounts) => DistributePayout(d, w, sender, l, recipients, amounts)
    case CallEmergencyWithdraw(sender, amount) => EmergencyWithdraw(d, w, sender, amount)
  }

  /** A reverted call leaves the state as it was. */
  function After(d: Deployment, w: World, c: Call): World {
    match Exec(d, w, c)
    case None => w
    case Some(v) => v
  }

  /** The state after a whole run of calls. */
  function AfterAll(d: Deployment, w: World, calls: seq<Call>): World {
    if calls == [] then w else After(d, AfterAll(d, w, calls[..|calls| - 1]), calls[|calls| - 1])
  }

  /** The escrow never calls the token or itself as an ordinary sender: it has no code that would. */
  predicate External(d: Deployment, calls: seq<Call>) {
    forall i :: 0 <= i < |calls| ==> calls[i].sender != d.escrow
  }

  /** Deployment: an empty escrow on a token that is in order and on which the escrow has approved nobody. */
  ghost predicate Deployed(d: Deployment, w: World) {
    && d.owner != d.escrow
    && TokenInOrder(w.token)
    && (forall a :: At(w.token.allowance, (d.escrow, a)) == 0)
    && w.payments == map[] && w.leagueTotals == map[] && w.events == [] && w.recovered == 0
  }

  ghost predicate TokenInOrder(t: Token) {
    Total(t.balanceOf) == t.totalSupply < UINT256_LIMIT
  }
}
