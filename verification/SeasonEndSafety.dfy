/** What every interleaving of settlement runs, refreshes and other writers keeps. */
module SeasonEndSafety {
  import opened Wrappers
  import opened League
  import opened LeagueId
  import opened StatusRefresh
  import opened SeasonEnd

  /** The run has won the claim and still owes the row its final status. */
  predicate HoldsClaim(run: Run) {
    run.pc.Distributing? || run.pc.MarkingFailed? || run.pc.MarkingExecuted?
  }

  /** The run has got past resolving: it has something to pay and a valid league key. */
  predicate PastResolving(pc: Pc) {
    pc.AskBalance? || pc.Claiming? || pc.Distributing? || pc.MarkingFailed? || pc.MarkingExecuted? || pc.Recording?
  }

  predicate SentBy(sent: seq<Sent>, run: Run, reply: ChainReply) {
    sent == [Sent(Recipients(run.resolved), Amounts(run.resolved), reply)]
  }

  /** What a run's program counter says about the row and the chain. */
  predicate RunInOrder(s: Shared, run: Run) {
    && run.id == s.row.id
    && (PastResolving(run.pc) ==> run.resolved != [] && UuidToBytes32(run.id).Ok?)
    && match run.pc
       case Distributing => s.row.payout == Executing && s.sent == []
       case MarkingFailed => s.row.payout == Executing && (SentBy(s.sent, run, LandedButError) || SentBy(s.sent, run, Rejected))
       case MarkingExecuted(hash) => s.row.payout == Executing && SentBy(s.sent, run, Accepted(hash))
       case Recording(i, hash) =>
         s.row.payout == Executed && s.row.txHash == Some(hash) && i < |run.resolved| && SentBy(s.sent, run, Accepted(hash))
       case _ => true
  }

  /** What the payout status says about the chain. */
  predicate RowInOrder(s: Shared) {
    && |s.sent| <= 1
    && (s.row.txHash.Some? ==> s.row.payout == Executed)
    && match s.row.payout
       case Pending => s.sent == []
       case Executing => true
       case Executed => if s.row.txHash.Some? then |s.sent| == 1 && s.sent[0].reply == Accepted(s.row.txHash.value) else s.sent == []
       case Failed => |s.sent| == 1 && !s.sent[0].reply.Accepted?
  }

  ghost predicate InOrder(s: State) {
    && RowInOrder(s.shared)
    && (forall i :: i in s.runs ==> RunInOrder(s.shared, s.runs[i]))
    && (forall i, j :: i in s.runs && j in s.runs && HoldsClaim(s.runs[i]) && HoldsClaim(s.runs[j]) ==> i == j)
  }

  /** Advancing the standings loop never claims anything and keeps what later steps rely on. */
  lemma ResolvingKeeps(s: Shared, run: Run, next: nat, resolved: seq<Resolved>)
    requires run.id == s.row.id
    ensures RunInOrder(s, ResolveFrom(run, next, resolved)) && !HoldsClaim(ResolveFrom(run, next, resolved))
  {
  }

  /** A step keeps the row consistent with the chain. */
  lemma OwnStepRow(s: Shared, run: Run, reply: Reply)
    requires RowInOrder(s) && RunInOrder(s, run)
    ensures RowInOrder(AdvanceShared(s, run, reply))
  {
  }

  /** Up to the end of the standings loop a run neither claims nor changes anything. */
  lemma EarlyStep(s: Shared, run: Run, reply: Reply)
    requires RunInOrder(s, run)
    requires run.pc.AskPlatform? || run.pc.AskStandings? || run.pc.AskMembers? || run.pc.Resolving?
    ensures AdvanceShared(s, run, reply) == s
    ensures RunInOrder(s, AdvanceRun(run, reply, true)) && !HoldsClaim(AdvanceRun(run, reply, true))
  {
    match (run.pc, reply) {
      case (AskMembers, Members(m)) =>
        if m.Some? { ResolvingKeeps(s, run.(members := m.value), 0, []); }
      case (Resolving(i), EvmAddress(a)) =>
        if i < |run.standings| && Target(run.structure, run.members, run.standings[i]).Some? {
          var (member, entry) := Target(run.structure, run.members, run.standings[i]).value;
          ResolvingKeeps(s, run, i + 1, if a.None? then run.resolved
            else run.resolved + [Resolved(member, entry.amountCents, run.standings[i].place, a.value)]);
        }
      case _ =>
    }
  }

  /** The stepping run itself stays in order, and only a run that finds the league pending starts to hold the claim. */
  lemma OwnStep(s: Shared, run: Run, reply: Reply)
    requires RowInOrder(s) && RunInOrder(s, run)
    ensures RunInOrder(AdvanceShared(s, run, reply), AdvanceRun(run, reply, Hit(s.row, run)))
    ensures HoldsClaim(AdvanceRun(run, reply, Hit(s.row, run))) ==> HoldsClaim(run) || s.row.payout == Pending
  {
    if run.pc.AskPlatform? || run.pc.AskStandings? || run.pc.AskMembers? || run.pc.Resolving? {
      EarlyStep(s, run, reply);
    }
  }

  /** Another run's step never invalidates a run: no two hold the claim, and a claim blocks every other write. */
  lemma OthersStep(s: Shared, run: Run, reply: Reply, other: Run)
    requires RowInOrder(s) && RunInOrder(s, run) && RunInOrder(s, other)
    requires !(HoldsClaim(run) && HoldsClaim(other))
    ensures RunInOrder(AdvanceShared(s, run, reply), other)
    ensures HoldsClaim(AdvanceRun(run, reply, Hit(s.row, run))) && HoldsClaim(other) ==> HoldsClaim(run)
  {
    OwnStep(s, run, reply);
  }

  lemma StepKeeps(s: State, i: nat, reply: Reply)
    requires InOrder(s) && i in s.runs
    ensures InOrder(After(s, Step(i, reply)))
  {
    var t := After(s, Step(i, reply));
    OwnStep(s.shared, s.runs[i], reply);
    OwnStepRow(s.shared, s.runs[i], reply);
    forall j | j in t.runs && j != i
      ensures RunInOrder(t.shared, t.runs[j])
      ensures HoldsClaim(t.runs[i]) && HoldsClaim(t.runs[j]) ==> HoldsClaim(s.runs[i])
    {
      OthersStep(s.shared, s.runs[i], reply, s.runs[j]);
    }
  }

  /** Only status, cancellation and settings may differ. */
  predicate SamePayout(s: Shared, t: Shared) {
    t == s.(row := s.row.(status := t.row.status, cancelled := t.row.cancelled, structure := t.row.structure))
  }

  /** None of those bears on a run's order. */
  lemma SamePayoutSameOrder(s: Shared, t: Shared, run: Run)
    requires SamePayout(s, t) && RunInOrder(s, run)
    ensures RunInOrder(t, run)
  {
  }

  /** Writers other than settlement runs leave payout status, hash, records and history alone; at most they start a run. */
  lemma OtherWriterEffect(s: State, a: Action)
    requires !a.Step?
    ensures SamePayout(s.shared, After(s, a).shared)
    ensures After(s, a).runs == s.runs
         || (a.StartRun? && a.run !in s.runs && After(s, a).runs == s.runs[a.run := NewRun(s.shared.row)])
  {
  }

  lemma OtherWriterKeeps(s: State, a: Action)
    requires InOrder(s) && !a.Step?
    ensures InOrder(After(s, a))
  {
    var t := After(s, a);
    OtherWriterEffect(s, a);
    forall i | i in t.runs ensures RunInOrder(t.shared, t.runs[i]) && (HoldsClaim(t.runs[i]) ==> i in s.runs && HoldsClaim(s.runs[i])) {
      if i in s.runs && t.runs[i] == s.runs[i] { SamePayoutSameOrder(s.shared, t.shared, s.runs[i]); }
    }
  }

  lemma ActionKeeps(s: State, a: Action)
    requires InOrder(s)
    ensures InOrder(After(s, a))
  {
    if a.Step? {
      if a.run in s.runs { StepKeeps(s, a.run, a.reply); }
    } else {
      OtherWriterKeeps(s, a);
    }
  }

  lemma {:induction false} EveryRunInOrder(s: State, actions: seq<Action>)
    requires Fresh(s)
    ensures InOrder(AfterAll(s, actions))
  {
    if actions != [] {
      EveryRunInOrder(s, actions[..|actions| - 1]);
      ActionKeeps(AfterAll(s, actions[..|actions| - 1]), actions[|actions| - 1]);
    }
  }

  /**
   At most one payout: over every interleaving, `distribute` is called at most once for the league.
   A pending league has never been paid and nobody holds its claim; an executed league with a hash
   was paid by exactly one call, accepted with that hash; one without a hash was never paid; and a
   failed league had exactly one call, which reported an error.
   */
  lemma AtMostOnePayout(s: State, actions: seq<Action>)
    requires Fresh(s)
    ensures var t := AfterAll(s, actions);
            var row, sent := t.shared.row, t.shared.sent;
            && |sent| <= 1
            && (row.payout == Pending ==> sent == [] && forall i :: i in t.runs ==> !HoldsClaim(t.runs[i]))
            && (row.payout == Executed && row.txHash.Some? ==> |sent| == 1 && sent[0].reply == Accepted(row.txHash.value))
            && (row.payout == Executed && row.txHash.None? ==> sent == [])
            && (row.payout == Failed ==> |sent| == 1 && !sent[0].reply.Accepted?)
  {
    EveryRunInOrder(s, actions);
  }

  /** At any moment at most one run holds the claim, and what it sends is never empty and has equal lengths. */
  lemma {:induction false} OneClaimHolder(s: State, actions: seq<Action>, i: nat, j: nat)
    requires Fresh(s)
    requires i in AfterAll(s, actions).runs && HoldsClaim(AfterAll(s, actions).runs[i])
    ensures AfterAll(s, actions).shared.row.payout == Executing
    ensures j in AfterAll(s, actions).runs && HoldsClaim(AfterAll(s, actions).runs[j]) ==> i == j
    ensures var run := AfterAll(s, actions).runs[i];
            |Recipients(run.resolved)| == |Amounts(run.resolved)| > 0 && UuidToBytes32(run.id).Ok?
  {
    EveryRunInOrder(s, actions);
    assert RunInOrder(AfterAll(s, actions).shared, AfterAll(s, actions).runs[i]);
  }

  // ---------- the status column ----------

  function StatusRank(s: Status): Option<nat> {
    Rank(Effective(s))
  }

  predicate ReadBeforeSeason(s: Status) {
    s.Unset? || s.PreDraft? || s.Drafting? || s.PostSeason?
  }

  /** Refreshes only hold statuses that are eligible for a refresh. */
  predicate RefreshesInOrder(s: State) {
    forall i :: i in s.refreshes ==> ReadBeforeSeason(s.refreshes[i].seen)
  }

  lemma RefreshStep(s: State, a: Action)
    requires RefreshesInOrder(s)
    ensures RefreshesInOrder(After(s, a))
  {
  }

  lemma {:induction false} EveryRefreshInOrder(s: State, actions: seq<Action>)
    requires Fresh(s)
    ensures RefreshesInOrder(AfterAll(s, actions))
  {
    if actions != [] {
      EveryRefreshInOrder(s, actions[..|actions| - 1]);
      RefreshStep(AfterAll(s, actions[..|actions| - 1]), actions[|actions| - 1]);
    }
  }

  /** The status has not gone back or become unknown, and `complete` and `executed` have not been parted. */
  predicate StatusKept(before: Row, after: Row) {
    && StatusRank(before.status).Some? && StatusRank(after.status).Some?
    && StatusRank(before.status).value <= StatusRank(after.status).value
    && (before.status == Complete ==> after.status == Complete)
    && ((before.status == Complete <==> before.payout == Executed) ==> (after.status == Complete <==> after.payout == Executed))
  }

  /** A settlement run only ever writes `complete`, and together with `executed`. */
  lemma RunKeepsStatus(s: Shared, run: Run, reply: Reply)
    requires RowInOrder(s) && StatusRank(s.row.status).Some?
    ensures StatusKept(s.row, AdvanceShared(s, run, reply).row)
  {
  }

  /** One action other than an import keeps the status, and a refresh never writes `complete`. */
  lemma StatusStep(s: State, a: Action)
    requires InOrder(s) && RefreshesInOrder(s) && !a.Import?
    requires StatusRank(s.shared.row.status).Some?
    ensures StatusKept(s.shared.row, After(s, a).shared.row)
    ensures a.WriteStatus? && After(s, a).shared.row.status == Complete ==> s.shared.row.status == Complete
  {
    if a.Step? {
      if a.run in s.runs { RunKeepsStatus(s.shared, s.runs[a.run], a.reply); }
    } else {
      OtherWriterEffect(s, a);
      if a.WriteStatus? && RefreshApplies(s, a) { UpdateMovesForward(s.refreshes[a.refresh].seen, a.report); }
    }
  }

  lemma {:induction false} StatusKeptFrom(t: State, later: seq<Action>)
    requires InOrder(t) && RefreshesInOrder(t) && StatusRank(t.shared.row.status).Some?
    requires forall k :: 0 <= k < |later| ==> !later[k].Import?
    ensures var u := AfterAll(t, later);
            InOrder(u) && RefreshesInOrder(u) && StatusKept(t.shared.row, u.shared.row)
  {
    if later != [] {
      var before, last := later[..|later| - 1], later[|later| - 1];
      StatusKeptFrom(t, before);
      var u := AfterAll(t, before);
      StatusStep(u, last);
      ActionKeeps(u, last);
      RefreshStep(u, last);
    }
  }

  /**
   Over every interleaving after any run whatsoever, as long as no import rewrites the status: the
   rank of a known status never decreases, and a row on which `complete` and `executed` agree keeps
   them in agreement, stale reads included.
   */
  lemma {:induction false} StatusNeverGoesBack(s: State, earlier: seq<Action>, later: seq<Action>)
    requires Fresh(s)
    requires StatusRank(AfterAll(s, earlier).shared.row.status).Some?
    requires forall k :: 0 <= k < |later| ==> !later[k].Import?
    ensures StatusKept(AfterAll(s, earlier).shared.row, AfterAll(AfterAll(s, earlier), later).shared.row)
  {
    EveryRunInOrder(s, earlier);
    EveryRefreshInOrder(s, earlier);
    StatusKeptFrom(AfterAll(s, earlier), later);
  }

  /** The number of refresh writes among the actions that change the row. */
  function RefreshUpdates(s: State, actions: seq<Action>): nat {
    if actions == [] then 0 else
      var before, last := actions[..|actions| - 1], actions[|actions| - 1];
      RefreshUpdates(s, before) + UpdateCount(AfterAll(s, before), last)
  }

  function UpdateCount(s: State, a: Action): nat {
    if a.WriteStatus? && RefreshApplies(s, a) then 1 else 0
  }

  /** No action but an import gives a row new refresh updates, and each one made uses one up. */
  lemma UpdateUsesOneUp(s: State, a: Action)
    requires !a.Import?
    ensures UpdateCount(s, a) + UpdatesLeft(After(s, a).shared.row.status) <= UpdatesLeft(s.shared.row.status)
  {
    if a.WriteStatus? && RefreshApplies(s, a) {
      UpdateMovesForward(s.refreshes[a.refresh].seen, a.report);
    }
  }

  /** However many stale refreshes run at once, at most two of their writes ever change a league that is not re-imported. */
  lemma {:induction false} AtMostTwoRefreshUpdates(s: State, actions: seq<Action>)
    requires forall k :: 0 <= k < |actions| ==> !actions[k].Import?
    ensures RefreshUpdates(s, actions) + UpdatesLeft(AfterAll(s, actions).shared.row.status) <= UpdatesLeft(s.shared.row.status) <= 2
  {
    if actions != [] {
      var before, last := actions[..|actions| - 1], actions[|actions| - 1];
      AtMostTwoRefreshUpdates(s, before);
      UpdateUsesOneUp(AfterAll(s, before), last);
    }
  }

  // ---------- imports ----------

  /** `complete` and `executed` agree. */
  predicate Agrees(row: Row) {
    row.status == Complete <==> row.payout == Executed
  }

  /** The import reports what was paid: `complete` exactly when the league is executed. */
  predicate ImportAgrees(s: State, a: Action) {
    a.Import? ==> (a.status == Complete <==> s.shared.row.payout == Executed)
  }

  /** From agreement, an action leads to agreement exactly when it is no import that disagrees. */
  lemma AgreementStep(s: State, a: Action)
    requires RowInOrder(s.shared) && RefreshesInOrder(s) && Agrees(s.shared.row)
    ensures Agrees(After(s, a).shared.row) <==> ImportAgrees(s, a)
  {
    if a.WriteStatus? && RefreshApplies(s, a) { UpdateMovesForward(s.refreshes[a.refresh].seen, a.report); }
  }

  /** `complete` and `executed` agree from start to end. */
  ghost predicate AlwaysAgrees(s: State, actions: seq<Action>) {
    forall n :: 0 <= n <= |actions| ==> Agrees(AfterAll(s, actions[..n]).shared.row)
  }

  /** Every import agrees with what had been paid at its moment. */
  ghost predicate ImportsAgree(s: State, actions: seq<Action>) {
    forall n :: 0 <= n < |actions| ==> ImportAgrees(AfterAll(s, actions[..n]), actions[n])
  }

  lemma OneMore(s: State, actions: seq<Action>, n: nat)
    requires n < |actions|
    ensures AfterAll(s, actions[..n + 1]) == After(AfterAll(s, actions[..n]), actions[n])
  {
    assert actions[..n + 1][..n] == actions[..n];
  }

  /**
   Over every run from a league on which they agree: `complete` and `executed` agree at every moment of
   the run exactly when every import in it agrees with what has been paid when it comes.
   */
  lemma AgreementKeptExactly(s: State, actions: seq<Action>)
    requires Fresh(s) && Agrees(s.shared.row)
    ensures AlwaysAgrees(s, actions) <==> ImportsAgree(s, actions)
  {
    if AlwaysAgrees(s, actions) {
      forall n | 0 <= n < |actions| ensures ImportAgrees(AfterAll(s, actions[..n]), actions[n]) {
        AgreementAfter(s, actions, n);
        assert Agrees(AfterAll(s, actions[..n]).shared.row) && Agrees(AfterAll(s, actions[..n + 1]).shared.row);
      }
    }
    if ImportsAgree(s, actions) {
      forall n | 0 <= n <= |actions| ensures Agrees(AfterAll(s, actions[..n]).shared.row) { AgreesAt(s, actions, n); }
    }
  }

  /** The agreement step at one moment of a run. */
  lemma AgreementAfter(s: State, actions: seq<Action>, n: nat)
    requires Fresh(s) && n < |actions|
    ensures Agrees(AfterAll(s, actions[..n]).shared.row) ==>
              (Agrees(AfterAll(s, actions[..n + 1]).shared.row) <==> ImportAgrees(AfterAll(s, actions[..n]), actions[n]))
  {
    EveryRunInOrder(s, actions[..n]);
    EveryRefreshInOrder(s, actions[..n]);
    OneMore(s, actions, n);
    if Agrees(AfterAll(s, actions[..n]).shared.row) { AgreementStep(AfterAll(s, actions[..n]), actions[n]); }
  }

  lemma {:induction false} AgreesAt(s: State, actions: seq<Action>, n: nat)
    requires Fresh(s) && Agrees(s.shared.row) && ImportsAgree(s, actions) && n <= |actions|
    ensures Agrees(AfterAll(s, actions[..n]).shared.row)
  {
    if n != 0 {
      var m := n - 1;
      AgreesAt(s, actions, m);
      AgreementAfter(s, actions, m);
      assert ImportAgrees(AfterAll(s, actions[..m]), actions[m]);
    }
  }

  /** Paid, but not stored as complete. */
  predicate Parted(s: State) {
    s.shared.row.payout == Executed && s.shared.row.status != Complete
  }

  lemma PartedStep(s: State, a: Action)
    requires RefreshesInOrder(s) && Parted(s) && !a.Import?
    ensures RefreshesInOrder(After(s, a)) && Parted(After(s, a))
  {
    if a.WriteStatus? && RefreshApplies(s, a) { UpdateMovesForward(s.refreshes[a.refresh].seen, a.report); }
  }

  lemma {:induction false} PartedStays(s: State, later: seq<Action>)
    requires RefreshesInOrder(s) && Parted(s)
    requires forall k :: 0 <= k < |later| ==> !later[k].Import?
    ensures RefreshesInOrder(AfterAll(s, later)) && Parted(AfterAll(s, later))
  {
    if later != [] {
      PartedStays(s, later[..|later| - 1]);
      PartedStep(AfterAll(s, later[..|later| - 1]), later[|later| - 1]);
    }
  }

  /** Once an import has parted them on an executed league, only a further import brings them together: the league is never selected again, and no refresh writes `complete`. */
  lemma {:induction false} ImportPartsForGood(s: State, actions: seq<Action>, status: Status, later: seq<Action>)
    requires Fresh(s) && AfterAll(s, actions).shared.row.payout == Executed && status != Complete
    requires forall k :: 0 <= k < |later| ==> !later[k].Import?
    ensures var t := AfterAll(After(AfterAll(s, actions), Import(status)), later);
            Parted(t) && !SelectedForSeasonEnd(t.shared.row)
  {
    EveryRefreshInOrder(s, actions);
    PartedStays(After(AfterAll(s, actions), Import(status)), later);
  }
}
