/**
 Season-end settlements and the escrow together: a payout moves money exactly when the contract accepts
 the call, and only then can the chain answer that it landed. Ledger calls by anyone, the weekly job's
 payouts among them, come in between.
 */
module SeasonEndOnChain {
  import opened Wrappers
  import opened Bytes
  import opened Int64
  import opened MapSums
  import opened LeagueId
  import opened Abi
  import opened AbiRoundTrip
  import opened Ledger
  import opened LedgerSafety
  import opened LedgerTheorems
  import opened Bridge
  import SeasonEnd
  import SeasonEndSafety
  import SeasonEndRecords
  import SeasonEndProgress

  /** Both systems, and the other payouts of the league that the contract has accepted. */
  datatype Joint = Joint(world: World, league: SeasonEnd.State, others: seq<PayoutCall>)

  datatype Action = OnLedger(call: Call) | OnLeague(action: SeasonEnd.Action)

  /** What the contract makes of a list of payouts sent for the league. */
  function PayoutFor(d: Deployment, w: World, l: LeagueKey, recipients: seq<Address>, amounts: seq<int>): Option<World> {
    DistributePayout(d, w, d.owner, l, recipients, AsUint64(amounts))
  }

  /** The step is a settlement's transaction. */
  predicate Pays(s: SeasonEnd.State, a: SeasonEnd.Action) {
    a.Step? && a.run in s.runs && s.runs[a.run].pc.Distributing? && a.reply.Chain?
  }

  /** A ledger call; the league's payouts among them are remembered. */
  function AfterCall(d: Deployment, l: LeagueKey, j: Joint, c: Call): Joint {
    match Exec(d, j.world, c)
    case None => j
    case Some(v) =>
      j.(world := v, others := if c.CallDistributePayout? && c.league == l
                               then j.others + [PayoutCall(l, c.recipients, c.amounts)] else j.others)
  }

  /** A settlement's transaction: an answer that it landed is only possible when the contract accepts it, and then it has moved the money. */
  function AfterPayment(d: Deployment, l: LeagueKey, j: Joint, a: SeasonEnd.Action): Joint
    requires Pays(j.league, a)
  {
    var run := j.league.runs[a.run];
    if a.reply.reply.Rejected? then j.(league := SeasonEnd.After(j.league, a)) else
      match PayoutFor(d, j.world, l, SeasonEnd.Recipients(run.resolved), SeasonEnd.Amounts(run.resolved))
      case None => j
      case Some(v) => j.(world := v, league := SeasonEnd.After(j.league, a))
  }

  function After(d: Deployment, l: LeagueKey, j: Joint, a: Action): Joint {
    match a
    case OnLedger(c) => AfterCall(d, l, j, c)
    case OnLeague(b) => if Pays(j.league, b) then AfterPayment(d, l, j, b) else j.(league := SeasonEnd.After(j.league, b))
  }

  function AfterAll(d: Deployment, l: LeagueKey, j: Joint, actions: seq<Action>): Joint {
    if actions == [] then j else After(d, l, AfterAll(d, l, j, actions[..|actions| - 1]), actions[|actions| - 1])
  }

  predicate FromOutside(d: Deployment, actions: seq<Action>) {
    forall i :: 0 <= i < |actions| && actions[i].OnLedger? ==> actions[i].call.sender != d.escrow
  }

  /** A new escrow and a new league, filed under the key l. */
  ghost predicate Start(d: Deployment, l: LeagueKey, j: Joint) {
    && Deployed(d, j.world) && SeasonEnd.Fresh(j.league) && j.others == []
    && UuidToBytes32(j.league.shared.row.id) == Ok(l)
  }

  // ---------- who got what ----------

  /** What an address got from the league's other payouts. */
  function OthersGave(others: seq<PayoutCall>, a: Address): nat
    requires forall i :: 0 <= i < |others| ==> |others[i].recipients| == |others[i].amounts|
  {
    if others == [] then 0 else
      var last := others[|others| - 1];
      OthersGave(others[..|others| - 1], a) + Received(last.recipients, last.amounts, a, |last.amounts|)
  }

  /** What an address is to get from the settlements' transactions that landed. */
  function SettlementsGave(sent: seq<SeasonEnd.Sent>, a: Address): nat {
    if sent == [] then 0 else
      var last := sent[|sent| - 1];
      SettlementsGave(sent[..|sent| - 1], a)
      + if last.reply.Rejected? || |last.recipients| != |last.amounts| then 0
        else Received(last.recipients, AsUint64(last.amounts), a, |last.amounts|)
  }

  ghost predicate EqualLengths(others: seq<PayoutCall>) {
    forall i :: 0 <= i < |others| ==> |others[i].recipients| == |others[i].amounts|
  }

  /** The chain's log has paid each address just what the payouts say. */
  ghost predicate LogAgrees(l: LeagueKey, w: World, others: seq<PayoutCall>, sent: seq<SeasonEnd.Sent>)
    requires EqualLengths(others)
  {
    forall a :: Sum(PaidTo(l, a), w.events) == OthersGave(others, a) + SettlementsGave(sent, a)
  }

  /** Both systems are in order, and the log agrees with the payouts. */
  ghost predicate Settled(d: Deployment, l: LeagueKey, j: Joint) {
    && InOrder(d, j.world) && d.owner != d.escrow && EqualLengths(j.others)
    && LogAgrees(l, j.world, j.others, j.league.shared.sent)
  }

  lemma OneMoreOther(others: seq<PayoutCall>, c: PayoutCall, a: Address)
    requires EqualLengths(others) && |c.recipients| == |c.amounts|
    ensures EqualLengths(others + [c])
    ensures OthersGave(others + [c], a) == OthersGave(others, a) + Received(c.recipients, c.amounts, a, |c.amounts|)
  {
    assert (others + [c])[..|others|] == others;
  }

  lemma OneMoreSent(sent: seq<SeasonEnd.Sent>, p: SeasonEnd.Sent, a: Address)
    requires |p.recipients| == |p.amounts|
    ensures SettlementsGave(sent + [p], a) == SettlementsGave(sent, a)
              + if p.reply.Rejected? then 0 else Received(p.recipients, AsUint64(p.amounts), a, |p.amounts|)
  {
    assert (sent + [p])[..|sent|] == sent;
  }

  lemma FeePaysNobody(d: Deployment, w: World, sender: Address, k: LeagueKey, amount: nat, l: LeagueKey, a: Address)
    requires PayEntryFee(d, w, sender, k, amount).Some?
    ensures Sum(PaidTo(l, a), PayEntryFee(d, w, sender, k, amount).value.events) == Sum(PaidTo(l, a), w.events)
  {
    var e := EntryFeePaid(k, sender, amount);
    assert PayEntryFee(d, w, sender, k, amount).value.events == w.events + [e];
    SumAppend(PaidTo(l, a), w.events, e);
  }

  lemma RefundPaysNobody(d: Deployment, w: World, sender: Address, k: LeagueKey, l: LeagueKey, a: Address)
    requires ClaimRefund(d, w, sender, k).Some?
    ensures Sum(PaidTo(l, a), ClaimRefund(d, w, sender, k).value.events) == Sum(PaidTo(l, a), w.events)
  {
    var e := RefundClaimed(k, sender, At(PaymentsOf(w, k), sender));
    assert ClaimRefund(d, w, sender, k).value.events == w.events + [e];
    SumAppend(PaidTo(l, a), w.events, e);
  }

  /** Only a payout of the league changes what its recipients have been paid. */
  lemma OtherCallPaysNobody(d: Deployment, w: World, c: Call, l: LeagueKey, a: Address)
    requires TokenInOrder(w.token) && !(c.CallDistributePayout? && c.league == l) && Exec(d, w, c).Some?
    ensures Sum(PaidTo(l, a), Exec(d, w, c).value.events) == Sum(PaidTo(l, a), w.events)
  {
    match c {
      case CallPayEntryFee(sender, k, amount) => FeePaysNobody(d, w, sender, k, amount, l, a);
      case CallClaimRefund(sender, k) => RefundPaysNobody(d, w, sender, k, l, a);
      case CallDistributePayout(sender, k, rs, amounts) => DistributePayoutEffect(d, w, sender, k, rs, amounts);
      case _ =>
    }
  }

  lemma CallKeepsSettled(d: Deployment, l: LeagueKey, j: Joint, c: Call)
    requires Settled(d, l, j) && c.sender != d.escrow
    ensures Settled(d, l, AfterCall(d, l, j, c))
  {
    CallKeeps(d, j.world, c);
    if Exec(d, j.world, c).Some? {
      if c.CallDistributePayout? && c.league == l {
        DistributePayoutEffect(d, j.world, c.sender, l, c.recipients, c.amounts);
        forall a { OneMoreOther(j.others, PayoutCall(l, c.recipients, c.amounts), a); }
      } else {
        forall a { OtherCallPaysNobody(d, j.world, c, l, a); }
      }
    }
  }

  lemma LandedAgrees(d: Deployment, l: LeagueKey, w: World, others: seq<PayoutCall>, sent: seq<SeasonEnd.Sent>, p: SeasonEnd.Sent)
    requires TokenInOrder(w.token) && EqualLengths(others) && LogAgrees(l, w, others, sent)
    requires |p.recipients| == |p.amounts| && !p.reply.Rejected? && PayoutFor(d, w, l, p.recipients, p.amounts).Some?
    ensures LogAgrees(l, PayoutFor(d, w, l, p.recipients, p.amounts).value, others, sent + [p])
  {
    var v := PayoutFor(d, w, l, p.recipients, p.amounts).value;
    DistributePayoutEffect(d, w, d.owner, l, p.recipients, AsUint64(p.amounts));
    forall a ensures Sum(PaidTo(l, a), v.events) == OthersGave(others, a) + SettlementsGave(sent + [p], a) {
      OneMoreSent(sent, p, a);
    }
  }

  lemma RejectedAgrees(l: LeagueKey, w: World, others: seq<PayoutCall>, sent: seq<SeasonEnd.Sent>, p: SeasonEnd.Sent)
    requires EqualLengths(others) && LogAgrees(l, w, others, sent) && |p.recipients| == |p.amounts| && p.reply.Rejected?
    ensures LogAgrees(l, w, others, sent + [p])
  {
    forall a { OneMoreSent(sent, p, a); }
  }

  lemma PaymentKeepsSettled(d: Deployment, l: LeagueKey, j: Joint, a: SeasonEnd.Action)
    requires Settled(d, l, j) && Pays(j.league, a)
    ensures Settled(d, l, AfterPayment(d, l, j, a))
  {
    var run := j.league.runs[a.run];
    var p := SeasonEnd.Sent(SeasonEnd.Recipients(run.resolved), SeasonEnd.Amounts(run.resolved), a.reply.reply);
    assert SeasonEnd.After(j.league, a).shared.sent == j.league.shared.sent + [p];
    if p.reply.Rejected? {
      RejectedAgrees(l, j.world, j.others, j.league.shared.sent, p);
    } else if PayoutFor(d, j.world, l, p.recipients, p.amounts).Some? {
      LandedAgrees(d, l, j.world, j.others, j.league.shared.sent, p);
      DistributePayoutKeeps(d, j.world, d.owner, l, p.recipients, AsUint64(p.amounts));
    }
  }

  /** Nothing but a settlement's transaction adds to what was sent. */
  lemma OtherStepSendsNothing(s: SeasonEnd.State, a: SeasonEnd.Action)
    requires !Pays(s, a)
    ensures SeasonEnd.After(s, a).shared.sent == s.shared.sent
  {
  }

  /** Every joint run keeps that, and is a run of the settlement machine as far as the league is concerned. */
  lemma {:induction false} EveryRunSettled(d: Deployment, l: LeagueKey, j: Joint, actions: seq<Action>) returns (steps: seq<SeasonEnd.Action>)
    requires Start(d, l, j) && FromOutside(d, actions)
    ensures Settled(d, l, AfterAll(d, l, j, actions))
    ensures AfterAll(d, l, j, actions).league == SeasonEnd.AfterAll(j.league, steps)
  {
    if actions == [] {
      EveryRunInOrder(d, j.world, []);
      steps := [];
    } else {
      var before, last := actions[..|actions| - 1], actions[|actions| - 1];
      steps := EveryRunSettled(d, l, j, before);
      var k := AfterAll(d, l, j, before);
      match last {
        case OnLedger(c) =>
          CallKeepsSettled(d, l, k, c);
        case OnLeague(a) =>
          if Pays(k.league, a) { PaymentKeepsSettled(d, l, k, a); } else { OtherStepSendsNothing(k.league, a); }
          if After(d, l, k, last).league != k.league {
            SeasonEnd.AfterPush(j.league, steps, a);
            steps := steps + [a];
          }
      }
    }
  }

  // ---------- the theorem ----------

  /** What an address wins, in cents, among the first n resolved payouts. */
  function Won(resolved: seq<SeasonEnd.Resolved>, a: Address, n: nat): int
    requires n <= |resolved|
  {
    if n == 0 then 0 else Won(resolved, a, n - 1) + if resolved[n - 1].address == a then resolved[n - 1].amountCents else 0
  }

  predicate InRange(resolved: seq<SeasonEnd.Resolved>) {
    forall k :: 0 <= k < |resolved| ==> 0 <= resolved[k].amountCents <= MAX_CENTS
  }

  lemma {:induction false} ReceivesWinnings(resolved: seq<SeasonEnd.Resolved>, a: Address, n: nat)
    requires n <= |resolved| && InRange(resolved)
    ensures Received(SeasonEnd.Recipients(resolved), AsUint64(SeasonEnd.Amounts(resolved)), a, n) == MICRO_PER_CENT * Won(resolved, a, n)
  {
    if n != 0 {
      ReceivesWinnings(resolved, a, n - 1);
      assert SeasonEnd.Amounts(resolved)[n - 1] == ToMicro(resolved[n - 1].amountCents) == MICRO_PER_CENT * resolved[n - 1].amountCents;
    }
  }

  /** The settlement's share of what the escrow has paid an address, on top of the league's other payouts. */
  ghost predicate SettlementPaid(l: LeagueKey, t: Joint, a: Address, micro: int)
    requires EqualLengths(t.others)
  {
    Sum(PaidTo(l, a), t.world.events) == OthersGave(t.others, a) + micro
  }

  /** Run i sent the payout, and the escrow has paid the address all it won there, or nothing if `all` is not certain. */
  ghost predicate PaidOut(l: LeagueKey, t: Joint, i: nat, a: Address, all: bool)
    requires EqualLengths(t.others)
  {
    && SeasonEndRecords.PaidBy(t.league, i)
    && var resolved := t.league.runs[i].resolved;
       InRange(resolved) ==>
         SettlementPaid(l, t, a, MICRO_PER_CENT * Won(resolved, a, |resolved|)) || (!all && SettlementPaid(l, t, a, 0))
  }

  lemma SentIsPaidOut(d: Deployment, l: LeagueKey, t: Joint, i: nat, a: Address)
    requires Settled(d, l, t) && SeasonEndRecords.PaidBy(t.league, i)
    ensures PaidOut(l, t, i, a, t.league.shared.sent[0].reply.Accepted?)
  {
    var sent := t.league.shared.sent;
    var resolved := t.league.runs[i].resolved;
    OneMoreSent([], sent[0], a);
    assert [] + [sent[0]] == sent;
    if InRange(resolved) { ReceivesWinnings(resolved, a, |resolved|); }
  }

  /**
   Over every joint run: while a league is pending, or executed without a transaction, its settlement has
   paid nobody anything. Once it is executed with one, there is a run that sent it, and the escrow has
   paid each address exactly what that run resolved for it, duplicates added up, besides what the
   league's other payouts gave it. After a failure the escrow has paid all of it or nothing.
   */
  lemma MembersGetTheirPrizes(d: Deployment, l: LeagueKey, j: Joint, actions: seq<Action>, a: Address)
    requires Start(d, l, j) && FromOutside(d, actions)
    ensures var t := AfterAll(d, l, j, actions);
            var row := t.league.shared.row;
            && EqualLengths(t.others)
            && (row.payout == SeasonEnd.Pending || (row.payout == SeasonEnd.Executed && row.txHash.None?) ==> SettlementPaid(l, t, a, 0))
            && (row.payout == SeasonEnd.Executed && row.txHash.Some? ==> exists i :: PaidOut(l, t, i, a, true))
            && (row.payout == SeasonEnd.Failed ==> exists i :: PaidOut(l, t, i, a, false))
  {
    var steps := EveryRunSettled(d, l, j, actions);
    var t := AfterAll(d, l, j, actions);
    SeasonEndSafety.AtMostOnePayout(j.league, steps);
    SeasonEndRecords.EveryRunTraced(j.league, steps);
    if t.league.shared.sent != [] {
      var i :| SeasonEndRecords.PaidBy(t.league, i);
      SentIsPaidOut(d, l, t, i, a);
    }
  }

  /** A league total below 2^63 is read as it is, and on that balance a settlement's prizes are payable exactly when the contract accepts the call for them in the same state. */
  lemma PayableIsAccepted(d: Deployment, w: World, g: SeasonEndProgress.GoodWorld, id: string, l: LeagueKey, resolved: seq<SeasonEnd.Resolved>)
    requires InOrder(d, w) && w.recovered == 0
    requires UuidToBytes32(id) == Ok(l) && resolved != []
    requires g.balance == At(w.leagueTotals, l) < TWO_63
    requires SumFirst(AsUint64(SeasonEnd.Amounts(resolved)), |resolved|) < TWO_63
    ensures ReadContractPayment(NodeReply(At(w.leagueTotals, l))) == Ok(g.balance)
    ensures SeasonEndProgress.Payable(g, id, resolved) <==>
            PayoutFor(d, w, l, SeasonEnd.Recipients(resolved), SeasonEnd.Amounts(resolved)).Some?
  {
    ReadExactly(At(w.leagueTotals, l));
    SameAnswer(d, w, l, SeasonEnd.Recipients(resolved), SeasonEnd.Amounts(resolved));
  }
}
