/**
 Entry fees between the database and the chain: the payment handlers, each taken as one atomic step
 with an accurate or failing chain read, interleaved with any calls on the escrow and the token.
 */
module PaymentLifecycle {
  import opened MapSums
  import opened Bytes
  import opened Int64
  import opened Ledger
  import opened LedgerSafety
  import opened LedgerTheorems
  import opened Bridge

  datatype PaymentStatus = Unpaid | Paid | Refunded

  /** A member's wallet and payment status; `marks` is the history of fees, in cents, at each time the member was marked paid. */
  datatype MemberRow = MemberRow(wallet: Address, status: PaymentStatus, marks: seq<int>)

  /** One league's rows, members by user. */
  datatype Rows = Rows(members: map<string, MemberRow>, cancelled: bool, feeCents: int)

  datatype Answer = Success | NotLeagueMember | AlreadyPaid | PaymentInsufficient | LeagueNotCancelled | LeagueAlreadyCancelled | NotCommissioner | ReadFailed

  /** The escrow's `payments[league][wallet]` as the Mirror Node reports it. */
  function OnChain(w: World, l: LeagueKey, wallet: Address): int {
    match ReadContractPayment(NodeReply(At(PaymentsOf(w, l), wallet)))
    case Ok(v) => v
    case Err => 0
  }

  function PaymentConfirmed(rows: Rows, w: World, l: LeagueKey, user: string, readable: bool): (Rows, Answer) {
    if user !in rows.members then (rows, NotLeagueMember) else
      var member := rows.members[user];
      if member.status.Paid? then (rows, AlreadyPaid)
      else if !readable then (rows, ReadFailed)
      else if OnChain(w, l, member.wallet) < ToMicro(rows.feeCents) then (rows, PaymentInsufficient)
      else (rows.(members := rows.members[user := member.(status := Paid, marks := member.marks + [rows.feeCents])]), Success)
  }

  function RefundConfirmed(rows: Rows, w: World, l: LeagueKey, user: string, readable: bool): (Rows, Answer) {
    if user !in rows.members then (rows, NotLeagueMember) else
      var member := rows.members[user];
      if !member.status.Paid? then (rows, PaymentInsufficient)
      else if !rows.cancelled then (rows, LeagueNotCancelled)
      else if !readable then (rows, ReadFailed)
      else if OnChain(w, l, member.wallet) != 0 then (rows, PaymentInsufficient)
      else (rows.(members := rows.members[user := member.(status := PaymentStatus.Refunded)]), Success)
  }

  function LeagueCancelled(rows: Rows, commissioner: bool): (Rows, Answer) {
    if !commissioner then (rows, NotCommissioner)
    else if rows.cancelled then (rows, LeagueAlreadyCancelled)
    else (rows.(cancelled := true), Success)
  }

  /** Also resets every refunded member to unpaid. */
  function LeagueReactivated(rows: Rows, commissioner: bool): (Rows, Answer) {
    if !commissioner then (rows, NotCommissioner)
    else if !rows.cancelled then (rows, LeagueNotCancelled)
    else (Rows(map u | u in rows.members :: Reset(rows.members[u]), false, rows.feeCents), Success)
  }

  function Reset(m: MemberRow): MemberRow {
    if m.status.Refunded? then m.(status := Unpaid) else m
  }

  // ---------- what the handlers answer and change ----------

  /** Only that member's status and marks have changed. */
  predicate OnlyMember(rows: Rows, after: Rows, user: string, status: PaymentStatus, marks: seq<int>) {
    && user in rows.members && after.members.Keys == rows.members.Keys
    && after.members[user] == MemberRow(rows.members[user].wallet, status, marks)
    && (forall u :: u in rows.members && u != user ==> after.members[u] == rows.members[u])
    && after.cancelled == rows.cancelled && after.feeCents == rows.feeCents
  }

  /** A payment confirmation: each answer exactly when it is due; a success marks that member paid at the current fee, and any other answer changes nothing. */
  lemma PaymentConfirmedEffect(rows: Rows, w: World, l: LeagueKey, user: string, readable: bool)
    ensures var (after, answer) := PaymentConfirmed(rows, w, l, user, readable);
            && (answer == NotLeagueMember <==> user !in rows.members)
            && (answer == AlreadyPaid <==> user in rows.members && rows.members[user].status == Paid)
            && (answer == ReadFailed <==> user in rows.members && rows.members[user].status != Paid && !readable)
            && (answer == PaymentInsufficient <==>
                  && user in rows.members && rows.members[user].status != Paid && readable
                  && OnChain(w, l, rows.members[user].wallet) < ToMicro(rows.feeCents))
            && (if answer == Success then OnlyMember(rows, after, user, Paid, rows.members[user].marks + [rows.feeCents])
                else after == rows)
  {
  }

  /** A refund confirmation, likewise. */
  lemma RefundConfirmedEffect(rows: Rows, w: World, l: LeagueKey, user: string, readable: bool)
    ensures var (after, answer) := RefundConfirmed(rows, w, l, user, readable);
            && (answer == NotLeagueMember <==> user !in rows.members)
            && (answer == LeagueNotCancelled <==> user in rows.members && rows.members[user].status == Paid && !rows.cancelled)
            && (answer == ReadFailed <==> user in rows.members && rows.members[user].status == Paid && rows.cancelled && !readable)
            && (answer == PaymentInsufficient <==>
                  && user in rows.members
                  && (rows.members[user].status != Paid
                      || (rows.cancelled && readable && OnChain(w, l, rows.members[user].wallet) != 0)))
            && (if answer == Success then OnlyMember(rows, after, user, PaymentStatus.Refunded, rows.members[user].marks)
                else after == rows)
  {
  }

  /** Only the commissioner cancels, only once, and nothing else changes. */
  lemma LeagueCancelledEffect(rows: Rows, commissioner: bool)
    ensures var (after, answer) := LeagueCancelled(rows, commissioner);
            && (answer == NotCommissioner <==> !commissioner)
            && (answer == LeagueAlreadyCancelled <==> commissioner && rows.cancelled)
            && (answer == Success <==> commissioner && !rows.cancelled)
            && after == Rows(rows.members, rows.cancelled || answer == Success, rows.feeCents)
  {
  }

  /** Only the commissioner reactivates, only a cancelled league; exactly the refunded members become unpaid. */
  lemma LeagueReactivatedEffect(rows: Rows, commissioner: bool)
    ensures var (after, answer) := LeagueReactivated(rows, commissioner);
            && (answer == NotCommissioner <==> !commissioner)
            && (answer == LeagueNotCancelled <==> commissioner && !rows.cancelled)
            && (answer == Success <==> commissioner && rows.cancelled)
            && (answer != Success ==> after == rows)
            && (answer == Success ==>
                  && !after.cancelled && after.feeCents == rows.feeCents && after.members.Keys == rows.members.Keys
                  && forall u :: u in rows.members ==>
                       var m := rows.members[u];
                       after.members[u] == MemberRow(m.wallet, if m.status == PaymentStatus.Refunded then Unpaid else m.status, m.marks))
  {
  }

  // ---------- the handlers on the tables ----------

  /** The rows of one league, updated in place. */
  class PaymentTables {
    var members: map<string, MemberRow>
    var cancelled: bool
    var feeCents: int

    function Now(): Rows
      reads this
    {
      Rows(members, cancelled, feeCents)
    }

    constructor (rows: Rows)
      ensures Now() == rows
    {
      members, cancelled, feeCents := rows.members, rows.cancelled, rows.feeCents;
    }

    method ConfirmPayment(w: World, l: LeagueKey, user: string, readable: bool) returns (answer: Answer)
      modifies this
      ensures (Now(), answer) == PaymentConfirmed(old(Now()), w, l, user, readable)
    {
      if user !in members { return NotLeagueMember; }
      var member := members[user];
      if member.status.Paid? { return AlreadyPaid; }
      if !readable { return ReadFailed; }
      var paid := OnChain(w, l, member.wallet);
      var requiredUsdc := Wrap64(feeCents * MICRO_PER_CENT);
      if paid < requiredUsdc { return PaymentInsufficient; }
      members := members[user := MemberRow(member.wallet, Paid, member.marks + [feeCents])];
      return Success;
    }

    method ConfirmRefund(w: World, l: LeagueKey, user: string, readable: bool) returns (answer: Answer)
      modifies this
      ensures (Now(), answer) == RefundConfirmed(old(Now()), w, l, user, readable)
    {
      if user !in members { return NotLeagueMember; }
      var member := members[user];
      if !member.status.Paid? { return PaymentInsufficient; }
      if !cancelled { return LeagueNotCancelled; }
      if !readable { return ReadFailed; }
      if OnChain(w, l, member.wallet) != 0 { return PaymentInsufficient; }
      members := members[user := MemberRow(member.wallet, PaymentStatus.Refunded, member.marks)];
      return Success;
    }

    method CancelLeague(commissioner: bool) returns (answer: Answer)
      modifies this
      ensures (Now(), answer) == LeagueCancelled(old(Now()), commissioner)
    {
      if !commissioner { return NotCommissioner; }
      if cancelled { return LeagueAlreadyCancelled; }
      cancelled := true;
      return Success;
    }

    /** Two updates: the league row, then every refunded member. */
    method ReactivateLeague(commissioner: bool) returns (answer: Answer)
      modifies this
      ensures (Now(), answer) == LeagueReactivated(old(Now()), commissioner)
    {
      if !commissioner { return NotCommissioner; }
      if !cancelled { return LeagueNotCancelled; }
      cancelled := false;
      members := map u | u in members :: if members[u].status.Refunded? then MemberRow(members[u].wallet, Unpaid, members[u].marks) else members[u];
      assert members == map u | u in old(members) :: Reset(old(members)[u]);
      return Success;
    }
  }

  // ---------- runs of database and chain together ----------

  datatype Joint = Joint(world: World, rows: Rows)

  datatype Action =
    | OnLedger(call: Call)
    | DoConfirmPayment(user: string, readable: bool)
    | DoConfirmRefund(user: string, readable: bool)
    | DoCancel(commissioner: bool)
    | DoReactivate(commissioner: bool)
    | SetFee(cents: int)
    | Join(user: string, wallet: Address)

  /** An import inserts a member that is new and leaves the payment of one that is there alone. */
  function Joined(rows: Rows, user: string, wallet: Address): Rows {
    if user in rows.members then rows else rows.(members := rows.members[user := MemberRow(wallet, Unpaid, [])])
  }

  function After(d: Deployment, l: LeagueKey, s: Joint, a: Action): Joint {
    match a
    case OnLedger(c) => s.(world := Ledger.After(d, s.world, c))
    case DoConfirmPayment(u, readable) => s.(rows := PaymentConfirmed(s.rows, s.world, l, u, readable).0)
    case DoConfirmRefund(u, readable) => s.(rows := RefundConfirmed(s.rows, s.world, l, u, readable).0)
    case DoCancel(c) => s.(rows := LeagueCancelled(s.rows, c).0)
    case DoReactivate(c) => s.(rows := LeagueReactivated(s.rows, c).0)
    case SetFee(cents) => s.(rows := s.rows.(feeCents := cents))
    case Join(u, wallet) => s.(rows := Joined(s.rows, u, wallet))
  }

  function AfterAll(d: Deployment, l: LeagueKey, s: Joint, actions: seq<Action>): Joint {
    if actions == [] then s else After(d, l, AfterAll(d, l, s, actions[..|actions| - 1]), actions[|actions| - 1])
  }

  predicate FromOutside(d: Deployment, actions: seq<Action>) {
    forall i :: 0 <= i < |actions| && actions[i].OnLedger? ==> actions[i].call.sender != d.escrow
  }

  /** What was required, in micro-USDC, at the member's paid marks. */
  function Required(marks: seq<int>): int {
    if marks == [] then 0 else Required(marks[..|marks| - 1]) + ToMicro(marks[|marks| - 1])
  }

  /** All the USDC the member has ever paid into the league. */
  function EverPaid(w: World, l: LeagueKey, wallet: Address): nat {
    Sum(DepositedBy(l, wallet), w.events)
  }

  /** The low 64 bits of what the escrow has on record for the member: all that a chain read can see. */
  function Visible(w: World, l: LeagueKey, wallet: Address): nat {
    Uint64(At(PaymentsOf(w, l), wallet))
  }

  /** While a member is not marked paid, the money a new mark could count has not been counted before. */
  predicate Covered(w: World, l: LeagueKey, m: MemberRow) {
    Required(m.marks) + (if m.status.Paid? then 0 else Visible(w, l, m.wallet)) <= EverPaid(w, l, m.wallet)
  }

  ghost predicate AllCovered(s: Joint, l: LeagueKey) {
    forall u :: u in s.rows.members ==> Covered(s.world, l, s.rows.members[u])
  }

  lemma OnChainIsVisible(w: World, l: LeagueKey, wallet: Address)
    ensures OnChain(w, l, wallet) <= Visible(w, l, wallet)
    ensures OnChain(w, l, wallet) == 0 <==> Visible(w, l, wallet) == 0
  {
    ReadIsTruncation(At(PaymentsOf(w, l), wallet));
  }

  /** No single call brings in more visible money than it pays in. */
  lemma CallKeepsCover(d: Deployment, w: World, c: Call, l: LeagueKey, wallet: Address)
    requires TokenInOrder(w.token)
    ensures var v := Ledger.After(d, w, c);
            && EverPaid(w, l, wallet) <= EverPaid(v, l, wallet)
            && Visible(v, l, wallet) + EverPaid(w, l, wallet) <= Visible(w, l, wallet) + EverPaid(v, l, wallet)
  {
    match c {
      case CallPayEntryFee(sender, k, amount) => FeeKeepsCover(d, w, sender, k, amount, l, wallet);
      case CallClaimRefund(sender, k) => RefundKeepsCover(d, w, sender, k, l, wallet);
      case CallDistributePayout(sender, k, rs, amounts) => DistributePayoutEffect(d, w, sender, k, rs, amounts);
      case _ =>
    }
  }

  /** A fee adds the same to what is recorded for a wallet and to what it has ever paid. */
  lemma FeeOnRecord(d: Deployment, w: World, sender: Address, k: LeagueKey, amount: nat, l: LeagueKey, wallet: Address)
    requires PayEntryFee(d, w, sender, k, amount).Some?
    ensures var v, e := PayEntryFee(d, w, sender, k, amount).value, EntryFeePaid(k, sender, amount);
            && At(PaymentsOf(v, l), wallet) == At(PaymentsOf(w, l), wallet) + Weight(DepositedBy(l, wallet), e)
            && EverPaid(v, l, wallet) == EverPaid(w, l, wallet) + Weight(DepositedBy(l, wallet), e)
  {
    SumAppend(DepositedBy(l, wallet), w.events, EntryFeePaid(k, sender, amount));
  }

  lemma FeeKeepsCover(d: Deployment, w: World, sender: Address, k: LeagueKey, amount: nat, l: LeagueKey, wallet: Address)
    ensures var v := PayEntryFee(d, w, sender, k, amount);
            v.Some? ==>
              && EverPaid(w, l, wallet) <= EverPaid(v.value, l, wallet)
              && Visible(v.value, l, wallet) + EverPaid(w, l, wallet) <= Visible(w, l, wallet) + EverPaid(v.value, l, wallet)
  {
    if PayEntryFee(d, w, sender, k, amount).Some? {
      FeeOnRecord(d, w, sender, k, amount, l, wallet);
      LowBitsOfSum(At(PaymentsOf(w, l), wallet), Weight(DepositedBy(l, wallet), EntryFeePaid(k, sender, amount)));
    }
  }

  lemma LowBitsOfSum(a: nat, b: nat)
    ensures Uint64(a + b) <= Uint64(a) + b
  {
  }

  /** A refund takes what is recorded for one wallet to zero and leaves all else on record and ever paid. */
  lemma RefundOnRecord(d: Deployment, w: World, sender: Address, k: LeagueKey, l: LeagueKey, wallet: Address)
    requires ClaimRefund(d, w, sender, k).Some?
    ensures var v := ClaimRefund(d, w, sender, k).value;
            && At(PaymentsOf(v, l), wallet) == (if k == l && sender == wallet then 0 else At(PaymentsOf(w, l), wallet))
            && EverPaid(v, l, wallet) == EverPaid(w, l, wallet)
  {
    var e := RefundClaimed(k, sender, At(PaymentsOf(w, k), sender));
    assert ClaimRefund(d, w, sender, k).value.events == w.events + [e];
    SumAppend(DepositedBy(l, wallet), w.events, e);
  }

  /** No balance reads lower than zero. */
  lemma ZeroReadsLowest(before: nat, after: nat)
    requires after == 0 || after == before
    ensures Uint64(after) <= Uint64(before)
  {
  }

  lemma RefundKeepsCover(d: Deployment, w: World, sender: Address, k: LeagueKey, l: LeagueKey, wallet: Address)
    ensures var v := ClaimRefund(d, w, sender, k);
            v.Some? ==>
              && EverPaid(w, l, wallet) == EverPaid(v.value, l, wallet)
              && Visible(v.value, l, wallet) <= Visible(w, l, wallet)
  {
    var v := ClaimRefund(d, w, sender, k);
    if v.Some? {
      RefundOnRecord(d, w, sender, k, l, wallet);
      ZeroReadsLowest(At(PaymentsOf(w, l), wallet), At(PaymentsOf(v.value, l), wallet));
    }
  }

  /** A mark takes what is visible, which no earlier mark has counted. */
  lemma MarkCovered(w: World, l: LeagueKey, m: MemberRow, feeCents: int)
    requires Covered(w, l, m) && !m.status.Paid? && ToMicro(feeCents) <= Visible(w, l, m.wallet)
    ensures Covered(w, l, m.(status := Paid, marks := m.marks + [feeCents]))
  {
    assert (m.marks + [feeCents])[..|m.marks|] == m.marks;
  }

  lemma ConfirmPaymentKeeps(s: Joint, l: LeagueKey, user: string, readable: bool)
    requires AllCovered(s, l)
    ensures AllCovered(s.(rows := PaymentConfirmed(s.rows, s.world, l, user, readable).0), l)
  {
    if PaymentConfirmed(s.rows, s.world, l, user, readable).1 == Success {
      var m := s.rows.members[user];
      assert Covered(s.world, l, m);
      OnChainIsVisible(s.world, l, m.wallet);
      MarkCovered(s.world, l, m, s.rows.feeCents);
    }
  }

  /** A member who joins unmarked is covered by whatever is on the chain already. */
  lemma JoinKeeps(d: Deployment, l: LeagueKey, s: Joint, user: string, wallet: Address)
    requires InOrder(d, s.world) && AllCovered(s, l)
    ensures AllCovered(s.(rows := Joined(s.rows, user, wallet)), l)
  {
    assert MemberConserved(s.world, l, wallet);
    assert Covered(s.world, l, MemberRow(wallet, Unpaid, []));
  }

  lemma ActionKeeps(d: Deployment, l: LeagueKey, s: Joint, a: Action)
    requires InOrder(d, s.world) && AllCovered(s, l) && d.owner != d.escrow
    requires a.OnLedger? ==> a.call.sender != d.escrow
    ensures InOrder(d, After(d, l, s, a).world) && AllCovered(After(d, l, s, a), l)
  {
    match a {
      case OnLedger(c) =>
        CallKeeps(d, s.world, c);
        forall u | u in s.rows.members ensures Covered(After(d, l, s, a).world, l, s.rows.members[u]) {
          CallKeepsCover(d, s.world, c, l, s.rows.members[u].wallet);
        }
      case DoConfirmPayment(u, readable) => ConfirmPaymentKeeps(s, l, u, readable);
      case DoConfirmRefund(u, readable) =>
        if u in s.rows.members { OnChainIsVisible(s.world, l, s.rows.members[u].wallet); }
      case Join(u, wallet) => JoinKeeps(d, l, s, u, wallet);
      case _ =>
    }
  }

  /** Before anyone is marked paid; money may already be on the chain. */
  ghost predicate NobodyMarked(d: Deployment, s: Joint) {
    && InOrder(d, s.world) && d.owner != d.escrow
    && forall u :: u in s.rows.members ==> s.rows.members[u].status == Unpaid && s.rows.members[u].marks == []
  }

  lemma {:induction false} EveryRunCovered(d: Deployment, l: LeagueKey, s: Joint, actions: seq<Action>)
    requires NobodyMarked(d, s) && FromOutside(d, actions)
    ensures InOrder(d, AfterAll(d, l, s, actions).world) && AllCovered(AfterAll(d, l, s, actions), l)
  {
    if actions == [] {
      forall u | u in s.rows.members ensures Covered(s.world, l, s.rows.members[u]) {
        assert MemberConserved(s.world, l, s.rows.members[u].wallet);
      }
    } else {
      var before := actions[..|actions| - 1];
      EveryRunCovered(d, l, s, before);
      ActionKeeps(d, l, AfterAll(d, l, s, before), actions[|actions| - 1]);
    }
  }

  predicate FeesInRange(marks: seq<int>) {
    forall i :: 0 <= i < |marks| ==> IsInt64(marks[i] * MICRO_PER_CENT)
  }

  lemma {:induction false} RequiredInRange(marks: seq<int>)
    requires FeesInRange(marks)
    ensures Required(marks) == SumOf(marks) * MICRO_PER_CENT
  {
    if marks != [] { RequiredInRange(marks[..|marks| - 1]); }
  }

  /**
   Paid means paid: over every interleaving of handlers, fee changes and ledger calls, the USDC a
   member has ever paid into the league covers what was required at all of the member's paid marks,
   which is the sum of the fees at those marks when no fee overflows int64 micro-USDC.
   */
  lemma EveryMarkIsPaidFor(d: Deployment, l: LeagueKey, s: Joint, actions: seq<Action>, user: string)
    requires NobodyMarked(d, s) && FromOutside(d, actions)
    requires user in AfterAll(d, l, s, actions).rows.members
    ensures var t := AfterAll(d, l, s, actions);
            var m := t.rows.members[user];
            && Required(m.marks) <= EverPaid(t.world, l, m.wallet)
            && (FeesInRange(m.marks) ==> SumOf(m.marks) * MICRO_PER_CENT <= EverPaid(t.world, l, m.wallet))
  {
    EveryRunCovered(d, l, s, actions);
    var t := AfterAll(d, l, s, actions);
    assert Covered(t.world, l, t.rows.members[user]);
    if FeesInRange(t.rows.members[user].marks) { RequiredInRange(t.rows.members[user].marks); }
  }

  // ---------- when a mark means that the fee is there ----------

  /** If the member is marked paid now, the chain has the fee on record. */
  predicate MarkMeansPaid(rows: Rows, w: World, l: LeagueKey, user: string, readable: bool) {
    PaymentConfirmed(rows, w, l, user, readable).1 == Success ==>
      user in rows.members && At(PaymentsOf(w, l), rows.members[user].wallet) >= rows.feeCents * MICRO_PER_CENT
  }

  /** Within the bound a mark means just that, in every state of the chain. */
  lemma FeeInRangeMeansPaid(rows: Rows, w: World, l: LeagueKey, user: string, readable: bool)
    requires rows.feeCents <= MAX_CENTS
    ensures MarkMeansPaid(rows, w, l, user, readable)
  {
    if user in rows.members { ReadExactly(At(PaymentsOf(w, l), rows.members[user].wallet)); }
  }

  /** Beyond it, whoever has paid what is left of the fee in int64, or nothing when that is negative, is marked paid and has not paid the fee. */
  lemma FeeBeyondRange(rows: Rows, w: World, l: LeagueKey, user: string)
    requires rows.feeCents > MAX_CENTS && user in rows.members && rows.members[user].status != Paid
    requires At(PaymentsOf(w, l), rows.members[user].wallet) == LeastAccepted(rows.feeCents)
    ensures PaymentConfirmed(rows, w, l, user, true).1 == Success && !MarkMeansPaid(rows, w, l, user, true)
  {
    ReadExactly(LeastAccepted(rows.feeCents));
  }

  function LeastAccepted(feeCents: int): nat {
    if ToMicro(feeCents) > 0 then ToMicro(feeCents) else 0
  }

  /** A fee of the given cents is sound when, in every reachable state of the chain, a mark means that it is paid. */
  ghost predicate SoundFee(d: Deployment, feeCents: int) {
    forall rows: Rows, w: World, l: LeagueKey, user: string, readable: bool ::
      rows.feeCents == feeCents && Reachable(d, w) ==> MarkMeansPaid(rows, w, l, user, readable)
  }

  lemma UnsoundAt(d: Deployment, rows: Rows, w: World, l: LeagueKey, user: string)
    requires rows.feeCents > MAX_CENTS && user in rows.members && rows.members[user].status != Paid
    requires Reachable(d, w) && At(PaymentsOf(w, l), rows.members[user].wallet) == LeastAccepted(rows.feeCents)
    ensures !SoundFee(d, rows.feeCents)
  {
    FeeBeyondRange(rows, w, l, user);
  }

  /** A league with one unpaid member. */
  function OneMember(feeCents: int, wallet: Address): Rows {
    Rows(map["user" := MemberRow(wallet, Unpaid, [])], false, feeCents)
  }

  /** That is so exactly when the fee is at most 922337203685477 cents. */
  lemma MarkMeansPaidExactly(d: Deployment, feeCents: int)
    requires d.owner != d.escrow
    ensures SoundFee(d, feeCents) <==> feeCents <= MAX_CENTS
  {
    forall rows: Rows, w: World, l: LeagueKey, user: string, readable: bool | rows.feeCents == feeCents <= MAX_CENTS
      ensures MarkMeansPaid(rows, w, l, user, readable)
    {
      FeeInRangeMeansPaid(rows, w, l, user, readable);
    }
    if feeCents > MAX_CENTS {
      var l := LeagueKey(Zeros(32));
      var w := AnyHoldingIsReachable(d, l, LeastAccepted(feeCents));
      UnsoundAt(d, OneMember(feeCents, d.owner), w, l, "user");
    }
  }

  /** One cent beyond it, a member who has paid nothing is marked paid. */
  lemma HugeFeeIsFree(rows: Rows, w: World, l: LeagueKey, user: string)
    requires rows.feeCents == MAX_CENTS + 1
    requires user in rows.members && rows.members[user].status == Unpaid
    requires At(PaymentsOf(w, l), rows.members[user].wallet) == 0
    ensures PaymentConfirmed(rows, w, l, user, true).1 == Success
  {
    FeeBeyondRange(rows, w, l, user);
  }

  // ---------- marks and refunds ----------

  /** Whether the action is a successful refund confirmation of the member. */
  function RefundCount(l: LeagueKey, s: Joint, a: Action, user: string): nat {
    if a.DoConfirmRefund? && a.user == user && RefundConfirmed(s.rows, s.world, l, user, a.readable).1 == Success then 1 else 0
  }

  /** Successful refund confirmations of one member along a run. */
  function Refunds(d: Deployment, l: LeagueKey, s: Joint, actions: seq<Action>, user: string): nat {
    if actions == [] then 0 else
      var before, last := actions[..|actions| - 1], actions[|actions| - 1];
      Refunds(d, l, s, before, user) + RefundCount(l, AfterAll(d, l, s, before), last, user)
  }

  /** Paid marks not yet followed by a refund. */
  function OpenMarks(m: MemberRow): nat {
    if m.status.Paid? then 1 else 0
  }

  /** Nobody's marks or open marks when the user is not a member yet. */
  function MemberOf(rows: Rows, user: string): MemberRow {
    if user in rows.members then rows.members[user] else MemberRow(Address(Zeros(20)), Unpaid, [])
  }

  lemma MarksStep(d: Deployment, l: LeagueKey, s: Joint, a: Action, user: string)
    ensures user in s.rows.members ==> user in After(d, l, s, a).rows.members
    ensures var m, n := MemberOf(s.rows, user), MemberOf(After(d, l, s, a).rows, user);
            |n.marks| + OpenMarks(m) == |m.marks| + OpenMarks(n) + RefundCount(l, s, a, user)
  {
  }

  /** A further paid mark needs a refund in between: marks never exceed refunds by more than one, and only while the member is marked paid. */
  lemma {:induction false} MarksNeedRefunds(d: Deployment, l: LeagueKey, s: Joint, actions: seq<Action>, user: string)
    requires user in s.rows.members ==> s.rows.members[user].status == Unpaid && s.rows.members[user].marks == []
    ensures var m := MemberOf(AfterAll(d, l, s, actions).rows, user);
            |m.marks| == Refunds(d, l, s, actions, user) + OpenMarks(m)
  {
    if actions != [] {
      MarksNeedRefunds(d, l, s, actions[..|actions| - 1], user);
      MarksStep(d, l, AfterAll(d, l, s, actions[..|actions| - 1]), actions[|actions| - 1], user);
    }
  }

  /** A refund is only confirmed in a cancelled league, for a member marked paid whose visible on-chain balance is zero. */
  lemma RefundConfirmedAtZero(rows: Rows, w: World, l: LeagueKey, user: string, readable: bool)
    ensures RefundConfirmed(rows, w, l, user, readable).1 == Success <==>
            && readable && user in rows.members && rows.cancelled && rows.members[user].status == Paid
            && Visible(w, l, rows.members[user].wallet) == 0
  {
    if user in rows.members { OnChainIsVisible(w, l, rows.members[user].wallet); }
  }

  /**
   With a fee within int64, a member not yet marked is marked paid on a readable chain exactly when the
   low 64 bits of the recorded payment reach the fee; below 2^63 those are the payment itself.
   Nothing else marks anyone.
   */
  lemma PaymentConfirmedExactly(rows: Rows, w: World, l: LeagueKey, user: string, readable: bool)
    ensures PaymentConfirmed(rows, w, l, user, readable).1 == Success ==>
              readable && user in rows.members && rows.members[user].status != Paid
    ensures readable && user in rows.members && rows.members[user].status != Paid && IsInt64(rows.feeCents * MICRO_PER_CENT) ==>
              var recorded := At(PaymentsOf(w, l), rows.members[user].wallet);
              && (PaymentConfirmed(rows, w, l, user, true).1 == Success <==> Wrap64(recorded) >= rows.feeCents * MICRO_PER_CENT)
              && (recorded < TWO_63 ==> Wrap64(recorded) == recorded)
  {
    if user in rows.members { ReadIsTruncation(At(PaymentsOf(w, l), rows.members[user].wallet)); }
  }

  /** With atomic handlers, a refunded member's league is cancelled, over every run. */
  lemma {:induction false} RefundedOnlyWhenCancelled(d: Deployment, l: LeagueKey, s: Joint, actions: seq<Action>, user: string)
    requires forall u :: u in s.rows.members ==> s.rows.members[u].status != PaymentStatus.Refunded
    requires user in AfterAll(d, l, s, actions).rows.members
    requires AfterAll(d, l, s, actions).rows.members[user].status == PaymentStatus.Refunded
    ensures AfterAll(d, l, s, actions).rows.cancelled
  {
    if actions != [] {
      var t := AfterAll(d, l, s, actions[..|actions| - 1]);
      RefundedStep(d, l, t, actions[|actions| - 1], user);
      if user in t.rows.members && t.rows.members[user].status == PaymentStatus.Refunded {
        RefundedOnlyWhenCancelled(d, l, s, actions[..|actions| - 1], user);
      }
    }
  }

  lemma RefundedStep(d: Deployment, l: LeagueKey, t: Joint, a: Action, user: string)
    requires user in After(d, l, t, a).rows.members && After(d, l, t, a).rows.members[user].status == PaymentStatus.Refunded
    ensures user in t.rows.members
    ensures t.rows.members[user].status == PaymentStatus.Refunded && t.rows.cancelled ==> After(d, l, t, a).rows.cancelled
    ensures t.rows.members[user].status != PaymentStatus.Refunded ==> After(d, l, t, a).rows.cancelled
  {
  }
}
