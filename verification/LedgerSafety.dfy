/**
 What every run of escrow and token calls keeps: the token's supply equation, per-league and
 per-member conservation against the event log, and solvency.
 */
module LedgerSafety {
  import opened Wrappers
  import opened MapSums
  import opened Bytes
  import opened Ledger

  // ---------- sums over the event log ----------

  datatype Tally =
    | Collected(league: LeagueKey)
    | Refunded(league: LeagueKey)
    | PaidOut(league: LeagueKey)
    | DepositedBy(league: LeagueKey, member: Address)
    | RefundedTo(league: LeagueKey, member: Address)
    | PaidTo(league: LeagueKey, recipient: Address)

  function Weight(t: Tally, e: Event): nat {
    match (t, e)
    case (Collected(l), EntryFeePaid(k, _, amount)) => if k == l then amount else 0
    case (Refunded(l), RefundClaimed(k, _, amount)) => if k == l then amount else 0
    case (PaidOut(l), PayoutDistributed(k, _, amount)) => if k == l then amount else 0
    case (DepositedBy(l, a), EntryFeePaid(k, b, amount)) => if k == l && a == b then amount else 0
    case (RefundedTo(l, a), RefundClaimed(k, b, amount)) => if k == l && a == b then amount else 0
    case (PaidTo(l, a), PayoutDistributed(k, b, amount)) => if k == l && a == b then amount else 0
    case _ => 0
  }

  function Sum(t: Tally, events: seq<Event>): nat {
    if events == [] then 0 else Sum(t, events[..|events| - 1]) + Weight(t, events[|events| - 1])
  }

  lemma SumAppend(t: Tally, events: seq<Event>, e: Event)
    ensures Sum(t, events + [e]) == Sum(t, events) + Weight(t, e)
  {
    assert (events + [e])[..|events|] == events;
  }

  // ---------- the invariant ----------

  /** The escrow has approved no spender, so nobody can pull its tokens. */
  ghost predicate NoApproval(d: Deployment, w: World) {
    forall a :: At(w.token.allowance, (d.escrow, a)) == 0
  }

  /** Conservation for one league; the escrow itself is never among its paying members. */
  ghost predicate Conserved(d: Deployment, w: World, l: LeagueKey) {
    && Total(PaymentsOf(w, l)) == At(w.leagueTotals, l) + Sum(PaidOut(l), w.events)
    && Sum(Collected(l), w.events) == Sum(Refunded(l), w.events) + Sum(PaidOut(l), w.events) + At(w.leagueTotals, l)
    && At(PaymentsOf(w, l), d.escrow) == 0
  }

  /** Conservation for one member of one league. */
  ghost predicate MemberConserved(w: World, l: LeagueKey, a: Address) {
    Sum(DepositedBy(l, a), w.events) == Sum(RefundedTo(l, a), w.events) + At(PaymentsOf(w, l), a)
  }

  ghost predicate Solvent(d: Deployment, w: World) {
    Total(w.leagueTotals) <= At(w.token.balanceOf, d.escrow) + w.recovered
  }

  ghost predicate InOrder(d: Deployment, w: World) {
    && TokenInOrder(w.token)
    && NoApproval(d, w)
    && (forall l :: Conserved(d, w, l))
    && (forall l, a :: MemberConserved(w, l, a))
    && Solvent(d, w)
  }

  // ---------- token facts ----------

  /** A move keeps the sum of balances, takes exactly the amount from the source and gives it to the target. */
  lemma MoveEffect(b: map<Address, nat>, from: Address, to: Address, amount: nat)
    requires Total(b) < UINT256_LIMIT
    ensures Move(b, from, to, amount).Some? <==> amount <= At(b, from)
    ensures Move(b, from, to, amount).Some? ==>
              var c := Move(b, from, to, amount).value;
              && Total(c) == Total(b)
              && forall a :: At(c, a) == At(b, a) - (if a == from then amount else 0) + (if a == to then amount else 0)
  {
    if amount <= At(b, from) {
      TotalUpdate(b, from, At(b, from) - amount);
      var debited := b[from := At(b, from) - amount];
      TotalBoundsSlot(debited, to);
      TotalUpdate(debited, to, At(debited, to) + amount);
    }
  }

  lemma TransferFromKeeps(d: Deployment, w: World, sender: Address, from: Address, to: Address, amount: nat)
    requires TokenInOrder(w.token) && NoApproval(d, w)
    ensures var t := TransferFrom(w.token, sender, from, to, amount);
            t.Some? ==>
              && TokenInOrder(t.value)
              && NoApproval(d, w.(token := t.value))
              && (from == d.escrow ==> amount == 0)
              && At(t.value.balanceOf, d.escrow) >= At(w.token.balanceOf, d.escrow)
              && (to == d.escrow && from != d.escrow ==>
                    At(t.value.balanceOf, d.escrow) == At(w.token.balanceOf, d.escrow) + amount)
  {
    MoveEffect(w.token.balanceOf, from, to, amount);
    assert At(w.token.allowance, (d.escrow, sender)) == 0;
  }

  // ---------- one call at a time ----------

  /** A state that differs only in its token, which is in order and has not taken from the escrow, is in order. */
  lemma NewTokenKeeps(d: Deployment, w: World, t: Token)
    requires InOrder(d, w) && TokenInOrder(t) && NoApproval(d, w.(token := t))
    requires At(t.balanceOf, d.escrow) >= At(w.token.balanceOf, d.escrow)
    ensures InOrder(d, w.(token := t))
  {
    var v := w.(token := t);
    forall l ensures Conserved(d, v, l) { assert Conserved(d, w, l); }
    forall l, a ensures MemberConserved(v, l, a) { assert MemberConserved(w, l, a); }
  }

  lemma TokenCallKeeps(d: Deployment, w: World, c: Call)
    requires InOrder(d, w) && c.sender != d.escrow
    requires c.CallMint? || c.CallApprove? || c.CallTransfer? || c.CallTransferFrom?
    ensures InOrder(d, After(d, w, c))
  {
    var v := After(d, w, c);
    match c {
      case CallMint(_, to, amount) =>
        TotalUpdate(w.token.balanceOf, to, At(w.token.balanceOf, to) + amount);
      case CallApprove(_, _, _) =>
      case CallTransfer(sender, to, amount) =>
        MoveEffect(w.token.balanceOf, sender, to, amount);
      case CallTransferFrom(sender, from, to, amount) =>
        TransferFromKeeps(d, w, sender, from, to, amount);
    }
    NewTokenKeeps(d, w, v.token);
  }

  /** A fee or a refund changes one slot of `payments` and one league total by the amount it logs. */
  ghost predicate BookEntry(w: World, v: World, l: LeagueKey, sender: Address, e: Event) {
    && v.events == w.events + [e]
    && v.payments == w.payments[l := PaymentsOf(v, l)]
    && v.leagueTotals == w.leagueTotals[l := At(v.leagueTotals, l)]
    && PaymentsOf(v, l) == PaymentsOf(w, l)[sender := At(PaymentsOf(v, l), sender)]
    && match e
       case EntryFeePaid(k, a, amount) =>
         && k == l && a == sender
         && At(PaymentsOf(v, l), sender) == At(PaymentsOf(w, l), sender) + amount
         && At(v.leagueTotals, l) == At(w.leagueTotals, l) + amount
       case RefundClaimed(k, a, amount) =>
         && k == l && a == sender
         && At(PaymentsOf(v, l), sender) + amount == At(PaymentsOf(w, l), sender)
         && At(v.leagueTotals, l) + amount == At(w.leagueTotals, l)
       case _ => false
  }

  lemma EntryKeepsLeague(d: Deployment, w: World, v: World, l: LeagueKey, sender: Address, e: Event, k: LeagueKey)
    requires sender != d.escrow && BookEntry(w, v, l, sender, e) && Conserved(d, w, k)
    ensures Conserved(d, v, k)
  {
    SumAppend(Collected(k), w.events, e);
    SumAppend(Refunded(k), w.events, e);
    SumAppend(PaidOut(k), w.events, e);
    TotalUpdate(PaymentsOf(w, l), sender, At(PaymentsOf(v, l), sender));
  }

  lemma EntryKeepsMember(w: World, v: World, l: LeagueKey, sender: Address, e: Event, k: LeagueKey, a: Address)
    requires BookEntry(w, v, l, sender, e) && MemberConserved(w, k, a)
    ensures MemberConserved(v, k, a)
  {
    SumAppend(DepositedBy(k, a), w.events, e);
    SumAppend(RefundedTo(k, a), w.events, e);
  }

  lemma EntryKeepsConservation(d: Deployment, w: World, v: World, l: LeagueKey, sender: Address, e: Event)
    requires sender != d.escrow && BookEntry(w, v, l, sender, e)
    requires forall k :: Conserved(d, w, k)
    requires forall k, a :: MemberConserved(w, k, a)
    ensures forall k :: Conserved(d, v, k)
    ensures forall k, a :: MemberConserved(v, k, a)
  {
    forall k ensures Conserved(d, v, k) { EntryKeepsLeague(d, w, v, l, sender, e, k); }
    forall k, a ensures MemberConserved(v, k, a) { EntryKeepsMember(w, v, l, sender, e, k, a); }
  }

  lemma PayEntryFeeKeeps(d: Deployment, w: World, sender: Address, l: LeagueKey, amount: nat)
    requires InOrder(d, w) && sender != d.escrow
    ensures var v := PayEntryFee(d, w, sender, l, amount); v.Some? ==> InOrder(d, v.value)
  {
    var r := PayEntryFee(d, w, sender, l, amount);
    if r.Some? {
      TransferFromKeeps(d, w, d.escrow, sender, d.escrow, amount);
      TotalUpdate(w.leagueTotals, l, At(w.leagueTotals, l) + amount);
      EntryKeepsConservation(d, w, r.value, l, sender, EntryFeePaid(l, sender, amount));
    }
  }

  lemma ClaimRefundKeeps(d: Deployment, w: World, sender: Address, l: LeagueKey)
    requires InOrder(d, w) && sender != d.escrow
    ensures var v := ClaimRefund(d, w, sender, l); v.Some? ==> InOrder(d, v.value)
  {
    var r := ClaimRefund(d, w, sender, l);
    if r.Some? {
      var amount := At(PaymentsOf(w, l), sender);
      MoveEffect(w.token.balanceOf, d.escrow, sender, amount);
      TotalUpdate(w.leagueTotals, l, At(w.leagueTotals, l) - amount);
      EntryKeepsConservation(d, w, r.value, l, sender, RefundClaimed(l, sender, amount));
    }
  }

  // ---------- payouts ----------

  /** The sum of the first n amounts. */
  function SumFirst(amounts: seq<nat>, n: nat): nat
    requires n <= |amounts|
  {
    if n == 0 then 0 else SumFirst(amounts, n - 1) + amounts[n - 1]
  }

  /** What one address receives over all its occurrences among the first n recipients. */
  function Received(recipients: seq<Address>, amounts: seq<nat>, a: Address, n: nat): nat
    requires n <= |recipients| == |amounts|
  {
    if n == 0 then 0 else
      Received(recipients, amounts, a, n - 1) + if recipients[n - 1] == a then amounts[n - 1] else 0
  }

  /** The contract's accumulator overflows exactly when the true sum does not fit, and is the true sum otherwise. */
  lemma {:induction false} CheckedSumIsSum(amounts: seq<nat>, n: nat)
    requires n <= |amounts|
    ensures CheckedSum(amounts, n) == if SumFirst(amounts, n) < UINT256_LIMIT then Some(SumFirst(amounts, n)) else None
  {
    if n != 0 {
      CheckedSumIsSum(amounts, n - 1);
    }
  }

  /** Balances after the first n transfers: exactly the recipients' gains have moved. */
  ghost predicate BalancesPaid(d: Deployment, b: map<Address, nat>, c: map<Address, nat>, recipients: seq<Address>, amounts: seq<nat>, n: nat)
    requires n <= |recipients| == |amounts|
  {
    && Total(c) == Total(b)
    && (forall a :: a != d.escrow ==> At(c, a) == At(b, a) + Received(recipients, amounts, a, n))
    && At(c, d.escrow) + SumFirst(amounts, n) == At(b, d.escrow) + Received(recipients, amounts, d.escrow, n)
  }

  /** The event log after the first n payouts from league l: in all, and to each recipient. */
  ghost predicate PayoutsLogged(before: seq<Event>, after: seq<Event>, l: LeagueKey, recipients: seq<Address>, amounts: seq<nat>, n: nat)
    requires n <= |recipients| == |amounts|
  {
    && (forall k :: Sum(PaidOut(k), after) == Sum(PaidOut(k), before) + if k == l then SumFirst(amounts, n) else 0)
    && (forall k, a :: Sum(PaidTo(k, a), after) == Sum(PaidTo(k, a), before) + if k == l then Received(recipients, amounts, a, n) else 0)
    && (forall t: Tally :: !t.PaidOut? && !t.PaidTo? ==> Sum(t, after) == Sum(t, before))
  }

  lemma LogOnePayout(before: seq<Event>, after: seq<Event>, l: LeagueKey, recipients: seq<Address>, amounts: seq<nat>, n: nat)
    requires n < |recipients| == |amounts| && PayoutsLogged(before, after, l, recipients, amounts, n)
    ensures PayoutsLogged(before, after + [PayoutDistributed(l, recipients[n], amounts[n])], l, recipients, amounts, n + 1)
  {
    var e := PayoutDistributed(l, recipients[n], amounts[n]);
    forall t: Tally ensures Sum(t, after + [e]) == Sum(t, after) + Weight(t, e) {
      SumAppend(t, after, e);
    }
  }

  /** One more transfer moves one more recipient's gain. */
  lemma PayOneBalances(d: Deployment, b: map<Address, nat>, c: map<Address, nat>, recipients: seq<Address>, amounts: seq<nat>, n: nat)
    requires n < |recipients| == |amounts| && Total(b) < UINT256_LIMIT && BalancesPaid(d, b, c, recipients, amounts, n)
    ensures Move(c, d.escrow, recipients[n], amounts[n]).Some? <==> amounts[n] <= At(c, d.escrow)
    ensures Move(c, d.escrow, recipients[n], amounts[n]).Some? ==>
              BalancesPaid(d, b, Move(c, d.escrow, recipients[n], amounts[n]).value, recipients, amounts, n + 1)
  {
    MoveEffect(c, d.escrow, recipients[n], amounts[n]);
  }

  /** The state after the first n payouts of the loop: only token balances and the log have changed, as they should. */
  ghost predicate PaidFirst(d: Deployment, w: World, v: World, l: LeagueKey, recipients: seq<Address>, amounts: seq<nat>, n: nat)
    requires n <= |recipients| == |amounts|
  {
    && v == w.(token := v.token, events := v.events)
    && v.token == w.token.(balanceOf := v.token.balanceOf)
    && BalancesPaid(d, w.token.balanceOf, v.token.balanceOf, recipients, amounts, n)
    && PayoutsLogged(w.events, v.events, l, recipients, amounts, n)
  }

  /**
   The transfer loop, whatever the escrow's balance: if it gets to n, exactly the recipients' gains
   have moved, and it is sure to get there when the balance covers the sum.
   */
  lemma {:induction false} PayFirstEffect(d: Deployment, w: World, l: LeagueKey, recipients: seq<Address>, amounts: seq<nat>, n: nat)
    requires n <= |recipients| == |amounts|
    requires TokenInOrder(w.token)
    ensures SumFirst(amounts, n) <= At(w.token.balanceOf, d.escrow) ==> PayFirst(d, w, l, recipients, amounts, n).Some?
    ensures PayFirst(d, w, l, recipients, amounts, n).Some? ==>
              PaidFirst(d, w, PayFirst(d, w, l, recipients, amounts, n).value, l, recipients, amounts, n)
  {
    if n != 0 {
      PayFirstEffect(d, w, l, recipients, amounts, n - 1);
      var r := PayFirst(d, w, l, recipients, amounts, n - 1);
      if r.Some? {
        PayOneBalances(d, w.token.balanceOf, r.value.token.balanceOf, recipients, amounts, n - 1);
        LogOnePayout(w.events, r.value.events, l, recipients, amounts, n - 1);
      }
    }
  }

  /** Everything a successful payout of `total` from league l changes. */
  ghost predicate PayoutEffect(d: Deployment, w: World, v: World, l: LeagueKey, recipients: seq<Address>, amounts: seq<nat>)
    requires |recipients| == |amounts|
  {
    var total := SumFirst(amounts, |amounts|);
    && total <= At(w.leagueTotals, l)
    && v == w.(token := v.token, leagueTotals := w.leagueTotals[l := At(w.leagueTotals, l) - total], events := v.events)
    && v.token == w.token.(balanceOf := v.token.balanceOf)
    && BalancesPaid(d, w.token.balanceOf, v.token.balanceOf, recipients, amounts, |amounts|)
    && PayoutsLogged(w.events, v.events, l, recipients, amounts, |amounts|)
  }

  lemma DistributePayoutEffect(d: Deployment, w: World, sender: Address, l: LeagueKey, recipients: seq<Address>, amounts: seq<nat>)
    requires TokenInOrder(w.token)
    ensures var v := DistributePayout(d, w, sender, l, recipients, amounts);
            v.Some? ==> sender == d.owner && |recipients| == |amounts| && PayoutEffect(d, w, v.value, l, recipients, amounts)
  {
    if DistributePayout(d, w, sender, l, recipients, amounts).Some? {
      CheckedSumIsSum(amounts, |amounts|);
      var u := w.(leagueTotals := w.leagueTotals[l := At(w.leagueTotals, l) - SumFirst(amounts, |amounts|)]);
      PayFirstEffect(d, u, l, recipients, amounts, |amounts|);
    }
  }

  lemma PayoutKeepsConservation(d: Deployment, w: World, v: World, l: LeagueKey, recipients: seq<Address>, amounts: seq<nat>)
    requires |recipients| == |amounts| && PayoutEffect(d, w, v, l, recipients, amounts)
    requires forall k :: Conserved(d, w, k)
    requires forall k, a :: MemberConserved(w, k, a)
    ensures forall k :: Conserved(d, v, k)
    ensures forall k, a :: MemberConserved(v, k, a)
  {
    forall k ensures Conserved(d, v, k) { assert Conserved(d, w, k); }
    forall k, a ensures MemberConserved(v, k, a) { assert MemberConserved(w, k, a); }
  }

  lemma DistributePayoutKeeps(d: Deployment, w: World, sender: Address, l: LeagueKey, recipients: seq<Address>, amounts: seq<nat>)
    requires InOrder(d, w)
    ensures var v := DistributePayout(d, w, sender, l, recipients, amounts); v.Some? ==> InOrder(d, v.value)
  {
    DistributePayoutEffect(d, w, sender, l, recipients, amounts);
    var r := DistributePayout(d, w, sender, l, recipients, amounts);
    if r.Some? {
      PayoutKeepsConservation(d, w, r.value, l, recipients, amounts);
      TotalUpdate(w.leagueTotals, l, At(w.leagueTotals, l) - SumFirst(amounts, |amounts|));
    }
  }

  lemma EmergencyWithdrawKeeps(d: Deployment, w: World, sender: Address, amount: nat)
    requires InOrder(d, w) && d.owner != d.escrow
    ensures var v := EmergencyWithdraw(d, w, sender, amount); v.Some? ==> InOrder(d, v.value)
  {
    var r := EmergencyWithdraw(d, w, sender, amount);
    if r.Some? {
      MoveEffect(w.token.balanceOf, d.escrow, d.owner, amount);
      assert forall l :: Conserved(d, w, l) ==> Conserved(d, r.value, l);
      assert forall l, a :: MemberConserved(w, l, a) ==> MemberConserved(r.value, l, a);
    }
  }

  lemma CallKeeps(d: Deployment, w: World, c: Call)
    requires InOrder(d, w) && d.owner != d.escrow && c.sender != d.escrow
    ensures InOrder(d, After(d, w, c))
  {
    match c {
      case CallPayEntryFee(sender, l, amount) => PayEntryFeeKeeps(d, w, sender, l, amount);
      case CallClaimRefund(sender, l) => ClaimRefundKeeps(d, w, sender, l);
      case CallDistributePayout(sender, l, rs, amounts) => DistributePayoutKeeps(d, w, sender, l, rs, amounts);
      case CallEmergencyWithdraw(sender, amount) => EmergencyWithdrawKeeps(d, w, sender, amount);
      case _ => TokenCallKeeps(d, w, c);
    }
  }
}
