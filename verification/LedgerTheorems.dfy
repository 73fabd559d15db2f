/** The escrow's guarantees, stated over whole runs of calls from deployment. */
module LedgerTheorems {
  import opened Wrappers
  import opened MapSums
  import opened Bytes
  import opened Ledger
  import opened LedgerSafety

  /** Every run of external calls leaves token and escrow in order. */
  lemma {:induction false} EveryRunInOrder(d: Deployment, w: World, calls: seq<Call>)
    requires Deployed(d, w) && External(d, calls)
    ensures InOrder(d, AfterAll(d, w, calls))
  {
    if calls == [] {
      assert forall l :: PaymentsOf(w, l) == map[];
    } else {
      var before := calls[..|calls| - 1];
      EveryRunInOrder(d, w, before);
      CallKeeps(d, AfterAll(d, w, before), calls[|calls| - 1]);
    }
  }

  /** The states that calls from outside lead to from deployment. */
  ghost predicate Reachable(d: Deployment, w: World) {
    exists start, calls :: Deployed(d, start) && External(d, calls) && AfterAll(d, start, calls) == w
  }

  /** An empty token and escrow. */
  function Empty(): World {
    World(Token(map[], map[], 0), map[], map[], [], 0)
  }

  /** The owner has minted the amount, approved it and paid it into the league. */
  function PaidIn(d: Deployment, l: LeagueKey, amount: nat): World {
    World(
      Token(map[d.owner := 0, d.escrow := amount], map[(d.owner, d.escrow) := 0], amount),
      map[l := map[d.owner := amount]], map[l := amount], [EntryFeePaid(l, d.owner, amount)], 0)
  }

  lemma PaidInByCalls(d: Deployment, l: LeagueKey, amount: nat)
    requires d.owner != d.escrow && 0 < amount < UINT256_LIMIT
    ensures var t1 := After(d, Empty(), CallMint(d.owner, d.owner, amount));
            var t2 := After(d, t1, CallApprove(d.owner, d.escrow, amount));
            After(d, t2, CallPayEntryFee(d.owner, l, amount)) == PaidIn(d, l, amount)
  {
    var t1 := After(d, Empty(), CallMint(d.owner, d.owner, amount));
    assert t1.token == Token(map[d.owner := amount], map[], amount);
    var t2 := After(d, t1, CallApprove(d.owner, d.escrow, amount));
    assert t2.token == Token(map[d.owner := amount], map[(d.owner, d.escrow) := amount], amount);
    assert map[d.owner := amount][d.owner := 0] == map[d.owner := 0];
    assert map[(d.owner, d.escrow) := amount][(d.owner, d.escrow) := 0] == map[(d.owner, d.escrow) := 0];
    assert Debit(t2.token.balanceOf, d.owner, amount) == Some(map[d.owner := 0]);
    assert Credit(map[d.owner := 0], d.escrow, amount) == Some(map[d.owner := 0, d.escrow := amount]);
    assert Debit(t2.token.allowance, (d.owner, d.escrow), amount) == Some(map[(d.owner, d.escrow) := 0]);
    var t := TransferFrom(t2.token, d.escrow, d.owner, d.escrow, amount);
    assert t == Some(PaidIn(d, l, amount).token);
    assert PaymentsOf(t2, l) == map[];
    assert Credit(PaymentsOf(t2, l), d.owner, amount) == Some(map[d.owner := amount]);
  }

  /** A league can come to hold any uint256, all of it on record for one member. */
  lemma AnyHoldingIsReachable(d: Deployment, l: LeagueKey, amount: nat) returns (w: World)
    requires d.owner != d.escrow && amount < UINT256_LIMIT
    ensures Reachable(d, w) && At(w.leagueTotals, l) == amount && At(PaymentsOf(w, l), d.owner) == amount
  {
    var calls: seq<Call> := [];
    w := Empty();
    assert AfterAll(d, Empty(), []) == Empty();
    if amount > 0 {
      w := PaidIn(d, l, amount);
      var mint, approve, pay := CallMint(d.owner, d.owner, amount), CallApprove(d.owner, d.escrow, amount), CallPayEntryFee(d.owner, l, amount);
      calls := [mint, approve, pay];
      PaidInByCalls(d, l, amount);
      assert calls[..2] == [mint, approve] && [mint, approve][..1] == [mint] && [mint][..0] == [];
      assert AfterAll(d, Empty(), [mint]) == After(d, Empty(), mint);
      assert AfterAll(d, Empty(), [mint, approve]) == After(d, AfterAll(d, Empty(), [mint]), approve);
      assert AfterAll(d, Empty(), calls) == After(d, AfterAll(d, Empty(), calls[..2]), pay);
    }
    assert Deployed(d, Empty()) && External(d, calls) && AfterAll(d, Empty(), calls) == w;
  }

  /**
   Conservation in every reachable state: what members have on record equals what the league still
   holds plus its payouts; what came in equals refunds plus payouts plus what is held; so a league
   never pays out more than it collected.
   */
  lemma LeagueConservation(d: Deployment, w: World, calls: seq<Call>, l: LeagueKey)
    requires Deployed(d, w) && External(d, calls)
    ensures var v := AfterAll(d, w, calls);
            && Total(PaymentsOf(v, l)) == At(v.leagueTotals, l) + Sum(PaidOut(l), v.events)
            && Sum(Collected(l), v.events) == Sum(Refunded(l), v.events) + Sum(PaidOut(l), v.events) + At(v.leagueTotals, l)
            && Sum(PaidOut(l), v.events) <= Sum(Collected(l), v.events)
  {
    EveryRunInOrder(d, w, calls);
    assert Conserved(d, AfterAll(d, w, calls), l);
  }

  /** In every reachable state the escrow's USDC and what the owner recovered cover all league totals, and no token is created or lost. */
  lemma EscrowSolvency(d: Deployment, w: World, calls: seq<Call>)
    requires Deployed(d, w) && External(d, calls)
    ensures var v := AfterAll(d, w, calls);
            && Total(v.leagueTotals) <= At(v.token.balanceOf, d.escrow) + v.recovered
            && Total(v.token.balanceOf) == v.token.totalSupply
  {
    EveryRunInOrder(d, w, calls);
  }

  /** The league a call works on, if any. */
  function LeagueOf(c: Call): Option<LeagueKey> {
    match c
    case CallPayEntryFee(_, l, _) => Some(l)
    case CallClaimRefund(_, l) => Some(l)
    case CallDistributePayout(_, l, _, _) => Some(l)
    case _ => None
  }

  /** No run of calls on other leagues (or on the token) touches a league's books. */
  lemma {:induction false} OtherLeaguesUntouched(d: Deployment, w: World, calls: seq<Call>, l: LeagueKey)
    requires InOrder(d, w) && d.owner != d.escrow && External(d, calls)
    requires forall i :: 0 <= i < |calls| ==> LeagueOf(calls[i]) != Some(l)
    ensures InOrder(d, AfterAll(d, w, calls)) && SameBooks(w, AfterAll(d, w, calls), l)
  {
    if calls != [] {
      var before, c := calls[..|calls| - 1], calls[|calls| - 1];
      OtherLeaguesUntouched(d, w, before, l);
      OneCallElsewhere(d, AfterAll(d, w, before), c, l);
      CallKeeps(d, AfterAll(d, w, before), c);
    }
  }

  /** League l's books read the same in both states. */
  ghost predicate SameBooks(w: World, v: World, l: LeagueKey) {
    && At(v.leagueTotals, l) == At(w.leagueTotals, l)
    && PaymentsOf(v, l) == PaymentsOf(w, l)
    && Sum(PaidOut(l), v.events) == Sum(PaidOut(l), w.events)
  }

  lemma FeeElsewhere(d: Deployment, w: World, sender: Address, k: LeagueKey, amount: nat, l: LeagueKey)
    requires k != l
    ensures PayEntryFee(d, w, sender, k, amount).Some? ==> SameBooks(w, PayEntryFee(d, w, sender, k, amount).value, l)
  {
    SumAppend(PaidOut(l), w.events, EntryFeePaid(k, sender, amount));
    var r := PayEntryFee(d, w, sender, k, amount);
    assert r.Some? ==> r.value.events == w.events + [EntryFeePaid(k, sender, amount)];
  }

  lemma RefundElsewhere(d: Deployment, w: World, sender: Address, k: LeagueKey, l: LeagueKey)
    requires k != l
    ensures ClaimRefund(d, w, sender, k).Some? ==> SameBooks(w, ClaimRefund(d, w, sender, k).value, l)
  {
    SumAppend(PaidOut(l), w.events, RefundClaimed(k, sender, At(PaymentsOf(w, k), sender)));
  }

  lemma OneCallElsewhere(d: Deployment, w: World, c: Call, l: LeagueKey)
    requires TokenInOrder(w.token) && LeagueOf(c) != Some(l)
    ensures SameBooks(w, After(d, w, c), l)
  {
    match c {
      case CallPayEntryFee(sender, k, amount) => FeeElsewhere(d, w, sender, k, amount, l);
      case CallClaimRefund(sender, k) => RefundElsewhere(d, w, sender, k, l);
      case CallDistributePayout(sender, k, rs, amounts) => DistributePayoutEffect(d, w, sender, k, rs, amounts);
      case _ =>
    }
  }

  // ---------- who moves the escrow's money ----------

  /** Only a refund to its own member, or the owner, ever takes USDC out of the escrow. */
  lemma WhoTakesOut(d: Deployment, w: World, c: Call)
    requires InOrder(d, w) && c.sender != d.escrow
    requires At(After(d, w, c).token.balanceOf, d.escrow) < At(w.token.balanceOf, d.escrow)
    ensures c.CallClaimRefund? || (c.sender == d.owner && (c.CallDistributePayout? || c.CallEmergencyWithdraw?))
  {
    match c {
      case CallTransfer(sender, to, amount) => MoveEffect(w.token.balanceOf, sender, to, amount);
      case CallTransferFrom(sender, from, to, amount) => TransferFromKeeps(d, w, sender, from, to, amount);
      case CallPayEntryFee(sender, _, amount) => TransferFromKeeps(d, w, d.escrow, sender, d.escrow, amount);
      case _ =>
    }
  }

  /**
   With nothing recovered, a fee is accepted exactly when it is positive, approved, held, and fits the
   member's slot; the league's total can then not overflow. It arrives in full.
   */
  lemma FeeSucceedsExactly(d: Deployment, w: World, sender: Address, l: LeagueKey, amount: nat)
    requires InOrder(d, w) && w.recovered == 0 && sender != d.escrow
    ensures var v := PayEntryFee(d, w, sender, l, amount);
            && (v.Some? <==>
                  && 0 < amount <= At(w.token.allowance, (sender, d.escrow))
                  && amount <= At(w.token.balanceOf, sender)
                  && At(PaymentsOf(w, l), sender) + amount < UINT256_LIMIT)
            && (v.Some? ==> At(v.value.token.balanceOf, d.escrow) == At(w.token.balanceOf, d.escrow) + amount)
  {
    TotalBoundsSlot(w.leagueTotals, l);
    TotalBoundsPair(w.token.balanceOf, sender, d.escrow);
    MoveEffect(w.token.balanceOf, sender, d.escrow, amount);
  }

  // ---------- what a successful call changes ----------

  /** Exactly that much has moved from one account to the other, and no token is made or lost. */
  ghost predicate Moved(b: map<Address, nat>, c: map<Address, nat>, from: Address, to: Address, amount: nat) {
    && Total(c) == Total(b)
    && forall a :: At(c, a) == At(b, a) - (if a == from then amount else 0) + (if a == to then amount else 0)
  }

  /** One slot of a mapping now reads v, all others read as before. */
  ghost predicate SlotSet<K(!new)>(m: map<K, nat>, n: map<K, nat>, k: K, v: nat) {
    forall j :: At(n, j) == if j == k then v else At(m, j)
  }

  /** Minting adds to one account and to the supply; it fails exactly when the supply would overflow. */
  lemma MintEffect(t: Token, to: Address, amount: nat)
    requires TokenInOrder(t)
    ensures Mint(t, to, amount).Some? <==> t.totalSupply + amount < UINT256_LIMIT
    ensures Mint(t, to, amount).Some? ==>
              var u := Mint(t, to, amount).value;
              && SlotSet(t.balanceOf, u.balanceOf, to, At(t.balanceOf, to) + amount)
              && u.totalSupply == t.totalSupply + amount && u.allowance == t.allowance
  {
    TotalBoundsSlot(t.balanceOf, to);
  }

  /** An approval sets one allowance, whatever it was. */
  lemma ApproveEffect(t: Token, sender: Address, spender: Address, amount: nat)
    ensures Approve(t, sender, spender, amount).Some?
    ensures var u := Approve(t, sender, spender, amount).value;
            && SlotSet(t.allowance, u.allowance, (sender, spender), amount)
            && u.balanceOf == t.balanceOf && u.totalSupply == t.totalSupply
  {
  }

  /** A delegated transfer succeeds exactly within allowance and balance, spends just that allowance and moves just that amount. */
  lemma TransferFromEffect(t: Token, sender: Address, from: Address, to: Address, amount: nat)
    requires TokenInOrder(t)
    ensures var r := TransferFrom(t, sender, from, to, amount);
            && (r.Some? <==> amount <= At(t.allowance, (from, sender)) && amount <= At(t.balanceOf, from))
            && (r.Some? ==>
                  && Moved(t.balanceOf, r.value.balanceOf, from, to, amount)
                  && SlotSet(t.allowance, r.value.allowance, (from, sender), At(t.allowance, (from, sender)) - amount)
                  && r.value.totalSupply == t.totalSupply)
  {
    MoveEffect(t.balanceOf, from, to, amount);
  }

  /** The recorded payment of one member of one league is now v, all others are as before. */
  ghost predicate PaymentSet(w: World, v: World, l: LeagueKey, member: Address, amount: nat) {
    forall k, a :: At(PaymentsOf(v, k), a) == if k == l && a == member then amount else At(PaymentsOf(w, k), a)
  }

  /** An accepted fee: the amount moves to the escrow, from allowance and account, and onto the member's slot and the league's total, and nothing else changes. */
  lemma FeeEffect(d: Deployment, w: World, sender: Address, l: LeagueKey, amount: nat)
    requires TokenInOrder(w.token) && PayEntryFee(d, w, sender, l, amount).Some?
    ensures var v := PayEntryFee(d, w, sender, l, amount).value;
            && Moved(w.token.balanceOf, v.token.balanceOf, sender, d.escrow, amount)
            && SlotSet(w.token.allowance, v.token.allowance, (sender, d.escrow), At(w.token.allowance, (sender, d.escrow)) - amount)
            && PaymentSet(w, v, l, sender, At(PaymentsOf(w, l), sender) + amount)
            && SlotSet(w.leagueTotals, v.leagueTotals, l, At(w.leagueTotals, l) + amount)
            && v.events == w.events + [EntryFeePaid(l, sender, amount)] && v.recovered == w.recovered
  {
    TransferFromEffect(w.token, d.escrow, sender, d.escrow, amount);
  }

  /** A refund: the member's whole recorded amount moves back, off the slot and the league's total, and nothing else changes. */
  lemma RefundEffect(d: Deployment, w: World, sender: Address, l: LeagueKey)
    requires TokenInOrder(w.token) && ClaimRefund(d, w, sender, l).Some?
    ensures var v, amount := ClaimRefund(d, w, sender, l).value, At(PaymentsOf(w, l), sender);
            && amount <= At(w.leagueTotals, l)
            && Moved(w.token.balanceOf, v.token.balanceOf, d.escrow, sender, amount) && v.token.allowance == w.token.allowance
            && PaymentSet(w, v, l, sender, 0)
            && SlotSet(w.leagueTotals, v.leagueTotals, l, At(w.leagueTotals, l) - amount)
            && v.events == w.events + [RefundClaimed(l, sender, amount)] && v.recovered == w.recovered
  {
    MoveEffect(w.token.balanceOf, d.escrow, sender, At(PaymentsOf(w, l), sender));
  }

  /** An emergency withdrawal: the owner's alone, within the balance; the amount moves to the owner and the books stay as they are. */
  lemma EmergencyWithdrawEffect(d: Deployment, w: World, sender: Address, amount: nat)
    requires TokenInOrder(w.token)
    ensures var r := EmergencyWithdraw(d, w, sender, amount);
            && (r.Some? <==> sender == d.owner && amount <= At(w.token.balanceOf, d.escrow))
            && (r.Some? ==>
                  && Moved(w.token.balanceOf, r.value.token.balanceOf, d.escrow, d.owner, amount)
                  && r.value.token.allowance == w.token.allowance
                  && r.value.payments == w.payments && r.value.leagueTotals == w.leagueTotals && r.value.events == w.events
                  && r.value.recovered == w.recovered + amount)
  {
    MoveEffect(w.token.balanceOf, d.escrow, d.owner, amount);
  }

  // ---------- payouts ----------

  /**
   With nothing recovered by the owner, a payout goes through exactly when the owner sends it, the
   lengths agree and the true sum fits the league's total: it never reverts half way.
   */
  lemma PayoutSucceedsExactly(d: Deployment, w: World, sender: Address, l: LeagueKey, recipients: seq<Address>, amounts: seq<nat>)
    requires InOrder(d, w) && w.recovered == 0
    ensures DistributePayout(d, w, sender, l, recipients, amounts).Some? <==>
            sender == d.owner && |recipients| == |amounts| && SumFirst(amounts, |amounts|) <= At(w.leagueTotals, l)
  {
    DistributePayoutEffect(d, w, sender, l, recipients, amounts);
    if sender == d.owner && |recipients| == |amounts| && SumFirst(amounts, |amounts|) <= At(w.leagueTotals, l) {
      TotalBoundsSlot(w.leagueTotals, l);
      TotalBoundsSlot(w.token.balanceOf, d.escrow);
      CheckedSumIsSum(amounts, |amounts|);
      var u := w.(leagueTotals := w.leagueTotals[l := At(w.leagueTotals, l) - SumFirst(amounts, |amounts|)]);
      PayFirstEffect(d, u, l, recipients, amounts, |amounts|);
    }
  }

  /** In any reachable state, a payout that goes through gives each address exactly its amounts, duplicates included, and takes the sum. */
  lemma PayoutPaysExactly(d: Deployment, w: World, calls: seq<Call>, l: LeagueKey, recipients: seq<Address>, amounts: seq<nat>, a: Address)
    requires Deployed(d, w) && External(d, calls)
    requires DistributePayout(d, AfterAll(d, w, calls), d.owner, l, recipients, amounts).Some?
    ensures |recipients| == |amounts|
    ensures var u := AfterAll(d, w, calls);
            var v := DistributePayout(d, u, d.owner, l, recipients, amounts).value;
            && (a != d.escrow ==> At(v.token.balanceOf, a) == At(u.token.balanceOf, a) + Received(recipients, amounts, a, |amounts|))
            && At(v.leagueTotals, l) + SumFirst(amounts, |amounts|) == At(u.leagueTotals, l)
            && v.payments == u.payments
  {
    EveryRunInOrder(d, w, calls);
    DistributePayoutEffect(d, AfterAll(d, w, calls), d.owner, l, recipients, amounts);
  }

  /** Only `emergencyWithdraw` counts as recovery: a run without it leaves nothing recovered. */
  lemma {:induction false} NothingRecovered(d: Deployment, w: World, calls: seq<Call>)
    requires Deployed(d, w) && External(d, calls)
    requires forall i :: 0 <= i < |calls| ==> !calls[i].CallEmergencyWithdraw?
    ensures AfterAll(d, w, calls).recovered == 0
  {
    if calls != [] {
      var before, c := calls[..|calls| - 1], calls[|calls| - 1];
      NothingRecovered(d, w, before);
      EveryRunInOrder(d, w, before);
      if c.CallDistributePayout? {
        DistributePayoutEffect(d, AfterAll(d, w, before), c.sender, c.league, c.recipients, c.amounts);
      }
    }
  }

  // ---------- refunds ----------

  /** With nothing recovered, a refund goes through exactly when the league still holds the member's recorded amount. */
  lemma RefundSucceedsExactly(d: Deployment, w: World, sender: Address, l: LeagueKey)
    requires InOrder(d, w) && w.recovered == 0
    ensures ClaimRefund(d, w, sender, l).Some? <==> 0 < At(PaymentsOf(w, l), sender) <= At(w.leagueTotals, l)
  {
    TotalBoundsSlot(w.leagueTotals, l);
    MoveEffect(w.token.balanceOf, d.escrow, sender, At(PaymentsOf(w, l), sender));
  }

  /** The members of `order` claim their refunds one after the other. */
  function RefundInOrder(d: Deployment, w: World, l: LeagueKey, order: seq<Address>): Option<World> {
    if order == [] then Some(w) else
      match RefundInOrder(d, w, l, order[..|order| - 1])
      case None => None
      case Some(v) => ClaimRefund(d, v, order[|order| - 1], l)
  }

  /** Where a run of refunds by the members of `order` has got, seen from one address. */
  ghost predicate Settled(d: Deployment, w: World, v: World, l: LeagueKey, order: seq<Address>, a: Address) {
    var amount := At(PaymentsOf(w, l), a);
    && At(PaymentsOf(v, l), a) == (if a in order then 0 else amount)
    && (a != d.escrow ==> At(v.token.balanceOf, a) == At(w.token.balanceOf, a) + if a in order then amount else 0)
  }

  /** Nothing paid out or recovered: the league's members own everything the league holds. */
  ghost predicate Refundable(d: Deployment, w: World, l: LeagueKey) {
    InOrder(d, w) && w.recovered == 0 && Sum(PaidOut(l), w.events) == 0
  }

  /** A prefix of distinct members with money on record all get exactly that money back. */
  lemma {:induction false} RefundPrefix(d: Deployment, w: World, l: LeagueKey, order: seq<Address>)
    requires Refundable(d, w, l)
    requires forall i, j :: 0 <= i < j < |order| ==> order[i] != order[j]
    requires forall i :: 0 <= i < |order| ==> At(PaymentsOf(w, l), order[i]) > 0
    ensures RefundInOrder(d, w, l, order).Some?
    ensures Refundable(d, RefundInOrder(d, w, l, order).value, l)
    ensures forall a :: Settled(d, w, RefundInOrder(d, w, l, order).value, l, order, a)
  {
    if order != [] {
      var before, last := order[..|order| - 1], order[|order| - 1];
      assert order == before + [last];
      RefundPrefix(d, w, l, before);
      var u := RefundInOrder(d, w, l, before).value;
      assert Settled(d, w, u, l, before, last) && last !in before;
      RefundStep(d, u, l, last);
      var v := ClaimRefund(d, u, last, l).value;
      forall a ensures Settled(d, w, v, l, order, a) {
        assert Settled(d, w, u, l, before, a) && Settled(d, u, v, l, [last], a);
      }
    }
  }

  lemma RefundStep(d: Deployment, u: World, l: LeagueKey, last: Address)
    requires Refundable(d, u, l) && At(PaymentsOf(u, l), last) > 0
    ensures ClaimRefund(d, u, last, l).Some?
    ensures Refundable(d, ClaimRefund(d, u, last, l).value, l)
    ensures forall a :: Settled(d, u, ClaimRefund(d, u, last, l).value, l, [last], a)
  {
    var amount := At(PaymentsOf(u, l), last);
    assert Conserved(d, u, l);
    TotalBoundsSlot(PaymentsOf(u, l), last);
    RefundSucceedsExactly(d, u, last, l);
    ClaimRefundKeeps(d, u, last, l);
    MoveEffect(u.token.balanceOf, d.escrow, last, amount);
    SumAppend(PaidOut(l), u.events, RefundClaimed(l, last, amount));
  }

  lemma {:induction false} AllZeroTotal<K(!new)>(m: map<K, nat>)
    requires forall k :: At(m, k) == 0
    ensures Total(m) == 0
    decreases |m|
  {
    if m != map[] {
      var k :| k in m;
      TotalSplit(m, k);
      assert (m - {k}).Keys == m.Keys - {k};
      assert |m - {k}| == |(m - {k}).Keys| && |m| == |m.Keys|;
      assert At(m, k) == 0;
      forall j ensures At(m - {k}, j) == 0 { assert At(m, j) == 0; }
      AllZeroTotal(m - {k});
    }
  }

  /** Once everybody has claimed, the league is empty and everybody has what was theirs. */
  lemma AllRefunded(d: Deployment, u: World, l: LeagueKey, order: seq<Address>)
    requires Refundable(d, u, l)
    requires forall i, j :: 0 <= i < j < |order| ==> order[i] != order[j]
    requires forall a :: a in order <==> At(PaymentsOf(u, l), a) > 0
    ensures var r := RefundInOrder(d, u, l, order);
            && r.Some?
            && At(r.value.leagueTotals, l) == 0
            && (forall a :: At(PaymentsOf(r.value, l), a) == 0)
            && (forall a :: a != d.escrow ==>
                  At(r.value.token.balanceOf, a) == At(u.token.balanceOf, a) + At(PaymentsOf(u, l), a))
  {
    RefundPrefix(d, u, l, order);
    var v := RefundInOrder(d, u, l, order).value;
    forall a
      ensures At(PaymentsOf(v, l), a) == 0
      ensures a != d.escrow ==> At(v.token.balanceOf, a) == At(u.token.balanceOf, a) + At(PaymentsOf(u, l), a)
    {
      assert Settled(d, u, v, l, order, a);
    }
    AllZeroTotal(PaymentsOf(v, l));
    assert Conserved(d, v, l);
  }

  /**
   Refund liveness: in any reachable state of a league with no payouts and no owner recovery, the
   members with money on record can claim in any order; each gets exactly the recorded amount and
   the league ends empty.
   */
  lemma EveryoneCanBeRefunded(d: Deployment, w: World, calls: seq<Call>, l: LeagueKey, order: seq<Address>)
    requires Deployed(d, w) && External(d, calls)
    requires AfterAll(d, w, calls).recovered == 0 && Sum(PaidOut(l), AfterAll(d, w, calls).events) == 0
    requires forall i, j :: 0 <= i < j < |order| ==> order[i] != order[j]
    requires forall a :: a in order <==> At(PaymentsOf(AfterAll(d, w, calls), l), a) > 0
    ensures var u := AfterAll(d, w, calls);
            var r := RefundInOrder(d, u, l, order);
            && r.Some?
            && At(r.value.leagueTotals, l) == 0
            && (forall a :: At(PaymentsOf(r.value, l), a) == 0)
            && (forall a :: a != d.escrow ==>
                  At(r.value.token.balanceOf, a) == At(u.token.balanceOf, a) + At(PaymentsOf(u, l), a))
  {
    EveryRunInOrder(d, w, calls);
    AllRefunded(d, AfterAll(d, w, calls), l, order);
  }
}
