/** Failures before the claim cost nothing, and a league that can be paid ends paid. */
module SeasonEndProgress {
  import opened Wrappers
  import opened Bytes
  import opened League
  import opened LeagueId
  import opened SeasonEnd

  // ---------- before the claim ----------

  /** The run has not yet sent its claim. */
  predicate BeforeClaim(pc: Pc) {
    match pc
    case AskPlatform => true
    case AskStandings => true
    case AskMembers => true
    case Resolving(_) => true
    case AskBalance => true
    case Claiming => true
    case MarkingSettled => true
    case Finished(o) =>
      o.NotComplete? || o.PlatformError? || o.StandingsError? || o.MembersError? || o.BadLeagueId? || o.BalanceError? || o.InsufficientEscrow?
    case _ => false
  }

  /** A run that has not got past its claim has changed neither the database nor the chain; it cannot come back to that point either. */
  lemma NothingBeforeClaim(s: Shared, run: Run, reply: Reply)
    requires BeforeClaim(AdvanceRun(run, reply, Hit(s.row, run)).pc)
    ensures BeforeClaim(run.pc) && AdvanceShared(s, run, reply) == s
  {
  }

  /** One attempt: the run is selected and started, then its calls are answered one by one. An attempt that stops being answered is a run that died. */
  function AfterAttempt(s: State, id: nat, replies: seq<Reply>): State {
    if replies == [] then After(s, StartRun(id)) else
      After(AfterAttempt(s, id, replies[..|replies| - 1]), Step(id, replies[|replies| - 1]))
  }

  /** The attempt came to nothing before its claim. */
  predicate GaveUp(s: State, id: nat, replies: seq<Reply>) {
    var t := AfterAttempt(s, id, replies);
    id in t.runs && BeforeClaim(t.runs[id].pc)
  }

  /** An attempt that gave up before its claim leaves league row, member records and chain as they were. */
  lemma {:induction false} GivingUpChangesNothing(s: State, id: nat, replies: seq<Reply>)
    requires id !in s.runs && GaveUp(s, id, replies)
    ensures AfterAttempt(s, id, replies).shared == s.shared
    ensures AfterAttempt(s, id, replies).runs.Keys == s.runs.Keys + {id}
  {
    if replies != [] {
      var before := replies[..|replies| - 1];
      var t := AfterAttempt(s, id, before);
      if id in t.runs {
        NothingBeforeClaim(t.shared, t.runs[id], replies[|replies| - 1]);
        GivingUpChangesNothing(s, id, before);
      }
    }
  }

  /** Two states with the same rows and history give an attempt the same course. */
  lemma {:induction false} SameCourse(s: State, t: State, id: nat, replies: seq<Reply>)
    requires s.shared == t.shared && id !in s.runs && id !in t.runs
    ensures AfterAttempt(s, id, replies).shared == AfterAttempt(t, id, replies).shared
    ensures id in AfterAttempt(s, id, replies).runs <==> id in AfterAttempt(t, id, replies).runs
    ensures id in AfterAttempt(s, id, replies).runs ==> AfterAttempt(s, id, replies).runs[id] == AfterAttempt(t, id, replies).runs[id]
  {
    if replies != [] { SameCourse(s, t, id, replies[..|replies| - 1]); }
  }

  /** Attempts with run numbers first, first + 1, ... one after the other. */
  function AfterAttempts(s: State, first: nat, attempts: seq<seq<Reply>>): State {
    if attempts == [] then s else
      var n := |attempts| - 1;
      AfterAttempt(AfterAttempts(s, first, attempts[..n]), first + n, attempts[n])
  }

  predicate AllGaveUp(s: State, first: nat, attempts: seq<seq<Reply>>) {
    attempts == [] ||
    (var n := |attempts| - 1;
     && AllGaveUp(s, first, attempts[..n])
     && GaveUp(AfterAttempts(s, first, attempts[..n]), first + n, attempts[n]))
  }

  /** The rows and the chain are untouched, and every run number in use is below `bound`. */
  predicate UntouchedBelow(s: State, t: State, bound: nat) {
    t.shared == s.shared && forall id :: id in t.runs.Keys ==> id < bound
  }

  lemma GivingUpOnceMore(s: State, t: State, id: nat, replies: seq<Reply>)
    requires UntouchedBelow(s, t, id) && GaveUp(t, id, replies)
    ensures UntouchedBelow(s, AfterAttempt(t, id, replies), id + 1)
  {
    GivingUpChangesNothing(t, id, replies);
  }

  lemma {:induction false} GivingUpOftenChangesNothing(s: State, first: nat, attempts: seq<seq<Reply>>)
    requires UntouchedBelow(s, s, first) && AllGaveUp(s, first, attempts)
    ensures UntouchedBelow(s, AfterAttempts(s, first, attempts), first + |attempts|)
  {
    if attempts != [] {
      var n := |attempts| - 1;
      GivingUpOftenChangesNothing(s, first, attempts[..n]);
      GivingUpOnceMore(s, AfterAttempts(s, first, attempts[..n]), first + n, attempts[n]);
    }
  }

  /** Retry equivalence: any number of attempts that gave up before their claim, followed by one more, is that one alone. */
  lemma RetryEquivalence(s: State, first: nat, attempts: seq<seq<Reply>>, replies: seq<Reply>)
    requires UntouchedBelow(s, s, first) && AllGaveUp(s, first, attempts)
    ensures var id := first + |attempts|;
            AfterAttempt(AfterAttempts(s, first, attempts), id, replies).shared == AfterAttempt(s, id, replies).shared
  {
    GivingUpOftenChangesNothing(s, first, attempts);
    SameCourse(AfterAttempts(s, first, attempts), s, first + |attempts|, replies);
  }

  // ---------- progress ----------

  /** A world in which every read and every write works; what the chain answers to a payout is part of it. */
  datatype GoodWorld = GoodWorld(
    platform: Status,
    standings: seq<Standing>,
    members: seq<Member>,
    addressOf: string -> Address,
    balance: int,
    chain: ChainReply
  )

  /** The answer to a run's next call in such a world. */
  function GoodReply(g: GoodWorld, run: Run): Reply {
    match run.pc
    case AskPlatform => PlatformStatus(Some(g.platform))
    case AskStandings => FinalStandings(Some(g.standings))
    case AskMembers => Members(Some(g.members))
    case Resolving(i) =>
      if i < |run.standings| && Target(run.structure, run.members, run.standings[i]).Some?
      then EvmAddress(Some(g.addressOf(Target(run.structure, run.members, run.standings[i]).value.0.wallet)))
      else Skip
    case AskBalance => EscrowBalance(Some(g.balance))
    case Distributing => Chain(g.chain)
    case _ => Database(Committed)
  }

  /** What the standings loop resolves from the first n standings when every lookup succeeds. */
  function ResolvedIn(g: GoodWorld, structure: seq<PayoutEntry>, n: nat): seq<Resolved>
    requires n <= |g.standings|
  {
    if n == 0 then [] else
      var before, s := ResolvedIn(g, structure, n - 1), g.standings[n - 1];
      match Target(structure, g.members, s)
      case None => before
      case Some((member, entry)) => before + [Resolved(member, entry.amountCents, s.place, g.addressOf(member.wallet))]
  }

  /** Stage and distance within it; every call in a good world brings the run closer to its end. */
  function Stage(run: Run): nat {
    match run.pc
    case AskPlatform => 10
    case AskStandings => 9
    case AskMembers => 8
    case Resolving(_) => 7
    case AskBalance => 6
    case Claiming => 5
    case Distributing => 4
    case MarkingExecuted(_) => 3
    case MarkingFailed => 3
    case MarkingSettled => 3
    case Recording(_, _) => 2
    case Finished(_) => 0
    case Crashed => 0
  }

  function Distance(run: Run): nat {
    match run.pc
    case Resolving(i) => if i < |run.standings| then |run.standings| - i else 0
    case Recording(i, _) => if i < |run.resolved| then |run.resolved| - i else 0
    case _ => 0
  }

  /** A run as the machine makes them: the loops' indices are in range, and what it loaded is the world's. */
  predicate AtWork(g: GoodWorld, run: Run) {
    match run.pc
    case AskMembers => run.standings == g.standings
    case Resolving(i) => i < |run.standings| && run.standings == g.standings && run.members == g.members && run.resolved == ResolvedIn(g, run.structure, i)
    case Recording(i, _) => i < |run.resolved|
    case _ => true
  }

  lemma ResolvingCloser(g: GoodWorld, run: Run, hit: bool)
    requires AtWork(g, run) && run.pc.Resolving?
    ensures var next := AdvanceRun(run, GoodReply(g, run), hit);
            && next == ResolveFrom(run, run.pc.next + 1, ResolvedIn(g, run.structure, run.pc.next + 1))
            && AtWork(g, next)
  {
  }

  lemma GoodStepCloser(g: GoodWorld, run: Run, hit: bool)
    requires AtWork(g, run) && !run.pc.Finished? && !run.pc.Crashed?
    ensures var next := AdvanceRun(run, GoodReply(g, run), hit);
            && AtWork(g, next) && !next.pc.Crashed?
            && (Stage(next) < Stage(run) || (Stage(next) == Stage(run) && Distance(next) < Distance(run)))
  {
    if run.pc.Resolving? { ResolvingCloser(g, run, hit); }
  }

  /** Lets run `id` take its steps, undisturbed, to its end. */
  function Drive(s: State, id: nat, g: GoodWorld): State
    requires id in s.runs && AtWork(g, s.runs[id])
    decreases Stage(s.runs[id]), Distance(s.runs[id])
  {
    var run := s.runs[id];
    if run.pc.Finished? || run.pc.Crashed? then s else
      GoodStepCloser(g, run, Hit(s.shared.row, run));
      Drive(After(s, Step(id, GoodReply(g, run))), id, g)
  }

  /** The member records once the first n resolved payouts are recorded. */
  function WithRecords(records: map<int, Record>, resolved: seq<Resolved>, n: nat, hash: string): map<int, Record>
    requires n <= |resolved|
  {
    if n == 0 then records else
      var r := resolved[n - 1];
      WithRecords(records, resolved, n - 1, hash)[r.member.rosterId := Record(r.place, r.amountCents, hash)]
  }

  /** Paid or settled: `complete` and `executed`; with the hash, one call and the members' records exactly when something was paid. */
  predicate SettledWith(before: Shared, after: Shared, resolved: seq<Resolved>, hash: string) {
    && after.row == before.row.(status := Complete, payout := Executed, txHash := if resolved == [] then before.row.txHash else Some(hash))
    && after.sent == (if resolved == [] then before.sent else before.sent + [Sent(Recipients(resolved), Amounts(resolved), Accepted(hash))])
    && after.records == WithRecords(before.records, resolved, |resolved|, hash)
  }

  /** The escrow covers the prizes, or there are none. */
  predicate Payable(g: GoodWorld, id: string, resolved: seq<Resolved>) {
    resolved == [] || (UuidToBytes32(id).Ok? && TotalPayout(resolved) <= g.balance)
  }

  lemma {:induction false} DriveRecords(s: State, id: nat, g: GoodWorld, records: map<int, Record>)
    requires id in s.runs && s.runs[id].pc.Recording? && s.runs[id].pc.next < |s.runs[id].resolved|
    requires s.shared.records == WithRecords(records, s.runs[id].resolved, s.runs[id].pc.next, s.runs[id].pc.hash)
    ensures Drive(s, id, g).shared == s.shared.(
              records := WithRecords(records, s.runs[id].resolved, |s.runs[id].resolved|, s.runs[id].pc.hash))
    decreases Distance(s.runs[id])
  {
    var t := After(s, Step(id, GoodReply(g, s.runs[id])));
    if t.runs[id].pc.Recording? { DriveRecords(t, id, g, records); }
  }

  lemma DriveSettles(s: State, id: nat, g: GoodWorld)
    requires id in s.runs && s.runs[id].pc.MarkingSettled? && s.shared.row.payout == Pending
    ensures SettledWith(s.shared, Drive(s, id, g).shared, [], "")
  {
    var t := After(s, Step(id, GoodReply(g, s.runs[id])));
    assert Drive(s, id, g) == Drive(t, id, g) == t;
  }

  /** From the accepted transaction on: the mark, then the records. */
  lemma DriveMarks(s: State, id: nat, g: GoodWorld)
    requires g.chain.Accepted?
    requires id in s.runs && s.runs[id].pc == MarkingExecuted(g.chain.hash) && s.runs[id].resolved != [] && s.shared.row.payout == Executing
    ensures var resolved := s.runs[id].resolved;
            Drive(s, id, g).shared == s.shared.(
              row := s.shared.row.(status := Complete, payout := Executed, txHash := Some(g.chain.hash)),
              records := WithRecords(s.shared.records, resolved, |resolved|, g.chain.hash))
  {
    var t := After(s, Step(id, Database(Committed)));
    assert t.runs[id].pc == Recording(0, g.chain.hash);
    DriveRecords(t, id, g, s.shared.records);
    assert Drive(s, id, g) == Drive(t, id, g);
  }

  /** Sent without a confirmed receipt: the league ends `failed`, with the one call and nothing recorded. */
  predicate FailedWith(before: Shared, after: Shared, resolved: seq<Resolved>, reply: ChainReply) {
    && after.row == before.row.(payout := Failed)
    && after.sent == before.sent + [Sent(Recipients(resolved), Amounts(resolved), reply)]
    && after.records == before.records
  }

  lemma DrivePays(s: State, id: nat, g: GoodWorld)
    requires id in s.runs && s.runs[id].pc.Claiming? && s.runs[id].resolved != [] && s.shared.row.payout == Pending
    ensures if g.chain.Accepted? then SettledWith(s.shared, Drive(s, id, g).shared, s.runs[id].resolved, g.chain.hash)
            else FailedWith(s.shared, Drive(s, id, g).shared, s.runs[id].resolved, g.chain)
  {
    var t1 := After(s, Step(id, Database(Committed)));
    var t2 := After(t1, Step(id, Chain(g.chain)));
    assert Drive(s, id, g) == Drive(t1, id, g);
    assert Drive(t1, id, g) == Drive(t2, id, g);
    if g.chain.Accepted? {
      DriveMarks(t2, id, g);
    } else {
      DriveFails(t2, id, g);
    }
  }

  lemma DriveFails(s: State, id: nat, g: GoodWorld)
    requires id in s.runs && s.runs[id].pc.MarkingFailed? && s.shared.row.payout == Executing
    ensures Drive(s, id, g).shared == s.shared.(row := s.shared.row.(payout := Failed))
  {
    var t := After(s, Step(id, Database(Committed)));
    assert Drive(s, id, g) == Drive(t, id, g) == t;
  }

  /** How a settlement of those prizes ends: nothing changed when they are not payable, all of them paid and recorded when the chain confirms, and failed when it does not. */
  predicate EndsWith(g: GoodWorld, id: string, before: Shared, after: Shared, resolved: seq<Resolved>) {
    if !Payable(g, id, resolved) then after == before
    else if resolved == [] then SettledWith(before, after, [], "")
    else if g.chain.Accepted? then SettledWith(before, after, resolved, g.chain.hash)
    else FailedWith(before, after, resolved, g.chain)
  }

  /** From the end of the standings loop. */
  lemma DriveResolved(s: State, id: nat, g: GoodWorld, resolved: seq<Resolved>)
    requires id in s.runs && s.shared.row.payout == Pending
    requires s.runs[id] == ResolveFrom(s.runs[id], |s.runs[id].standings|, resolved)
    ensures EndsWith(g, s.runs[id].id, s.shared, Drive(s, id, g).shared, resolved)
  {
    if resolved == [] {
      DriveSettles(s, id, g);
    } else if UuidToBytes32(s.runs[id].id).Ok? {
      var t := After(s, Step(id, EscrowBalance(Some(g.balance))));
      assert Drive(s, id, g) == Drive(t, id, g);
      if Payable(g, s.runs[id].id, resolved) { DrivePays(t, id, g); }
    }
  }

  /** The run has handled the first i standings. */
  predicate Handled(g: GoodWorld, run: Run, structure: seq<PayoutEntry>, i: nat) {
    && i <= |g.standings| && run.standings == g.standings && run.members == g.members && run.structure == structure
    && run == ResolveFrom(run, i, ResolvedIn(g, structure, i))
  }

  /** One standing on. */
  lemma StandingsStep(g: GoodWorld, run: Run, structure: seq<PayoutEntry>, i: nat, hit: bool)
    requires Handled(g, run, structure, i) && i < |g.standings|
    ensures run.pc == Resolving(i) && AtWork(g, run)
    ensures Handled(g, AdvanceRun(run, GoodReply(g, run), hit), structure, i + 1)
    ensures AdvanceRun(run, GoodReply(g, run), hit).id == run.id
  {
    ResolvingCloser(g, run, hit);
  }

  /** The run's next call in the standings loop: on to the next standing, and driving ends where it did. */
  lemma NextStanding(s: State, id: nat, g: GoodWorld, structure: seq<PayoutEntry>, i: nat) returns (t: State)
    requires id in s.runs && Handled(g, s.runs[id], structure, i) && i < |g.standings|
    ensures id in t.runs && Handled(g, t.runs[id], structure, i + 1)
    ensures t.runs[id].id == s.runs[id].id && t.shared == s.shared
    ensures AtWork(g, s.runs[id]) && AtWork(g, t.runs[id]) && Drive(s, id, g) == Drive(t, id, g)
  {
    StandingsStep(g, s.runs[id], structure, i, Hit(s.shared.row, s.runs[id]));
    GoodStepCloser(g, s.runs[id], Hit(s.shared.row, s.runs[id]));
    t := After(s, Step(id, GoodReply(g, s.runs[id])));
  }

  /** Call by call it comes to the end of the standings. */
  lemma {:induction false} ToLastStanding(s: State, id: nat, g: GoodWorld, structure: seq<PayoutEntry>, i: nat) returns (t: State)
    requires id in s.runs && Handled(g, s.runs[id], structure, i)
    ensures id in t.runs && Handled(g, t.runs[id], structure, |g.standings|)
    ensures t.runs[id].id == s.runs[id].id && t.shared == s.shared
    ensures AtWork(g, s.runs[id]) && AtWork(g, t.runs[id]) && Drive(s, id, g) == Drive(t, id, g)
    decreases |g.standings| - i
  {
    t := s;
    if i < |g.standings| {
      var next := NextStanding(s, id, g, structure, i);
      t := ToLastStanding(next, id, g, structure, i + 1);
    }
  }

  lemma DriveStandings(s: State, id: nat, g: GoodWorld, structure: seq<PayoutEntry>)
    requires id in s.runs && s.shared.row.payout == Pending && Handled(g, s.runs[id], structure, 0)
    ensures AtWork(g, s.runs[id]) && EndsWith(g, s.runs[id].id, s.shared, Drive(s, id, g).shared, ResolvedIn(g, structure, |g.standings|))
  {
    var t := ToLastStanding(s, id, g, structure, 0);
    DriveResolved(t, id, g, ResolvedIn(g, structure, |g.standings|));
  }

  /** The prizes a league owes in a good world. */
  function Prizes(g: GoodWorld, row: Row): seq<Resolved> {
    if Placements(row.structure) == [] then [] else ResolvedIn(g, row.structure, |g.standings|)
  }

  /**
   An uncontended settlement of a pending league in which every read and write works: it changes nothing
   unless the platform reports `complete` and the prizes are payable, and then pays and records them all,
   or ends `failed` when the chain does not confirm them.
   */
  lemma SettlementCompletes(s: State, id: nat, g: GoodWorld)
    requires id in s.runs && s.runs[id] == NewRun(s.shared.row) && s.shared.row.payout == Pending
    ensures if g.platform == Complete then EndsWith(g, s.shared.row.id, s.shared, Drive(s, id, g).shared, Prizes(g, s.shared.row))
            else Drive(s, id, g).shared == s.shared
  {
    var t1 := After(s, Step(id, PlatformStatus(Some(g.platform))));
    assert Drive(s, id, g) == Drive(t1, id, g);
    if g.platform == Complete {
      if Placements(s.shared.row.structure) == [] {
        DriveSettles(t1, id, g);
      } else {
        DriveAsked(t1, id, g);
      }
    }
  }

  /** From the platform's `complete` on, when there is a placement rule. */
  lemma DriveAsked(s: State, id: nat, g: GoodWorld)
    requires id in s.runs && s.runs[id] == NewRun(s.shared.row).(pc := AskStandings) && s.shared.row.payout == Pending
    ensures EndsWith(g, s.shared.row.id, s.shared, Drive(s, id, g).shared, ResolvedIn(g, s.shared.row.structure, |g.standings|))
  {
    var t2 := After(s, Step(id, FinalStandings(Some(g.standings))));
    var t3 := After(t2, Step(id, Members(Some(g.members))));
    assert Drive(s, id, g) == Drive(t2, id, g);
    assert Drive(t2, id, g) == Drive(t3, id, g);
    DriveStandings(t3, id, g, s.shared.row.structure);
  }

  /** A known status short of `complete`: what the refresh and the season-end job between them act on. */
  predicate CanBeSelected(status: Status) {
    status.Unset? || status.PreDraft? || status.Drafting? || status.InSeason? || status.PostSeason?
  }

  /** In season already, or still to be brought there by a refresh during the league's own season. */
  predicate Startable(row: Row, currentSeason: Option<string>, platform: Status) {
    || row.status == InSeason
    || (CanBeSelected(row.status) && currentSeason == Some(row.season) && (platform.InSeason? || platform.PostSeason? || platform.Complete?))
  }

  /** One refresh with a single platform report, then the season-end job's selection. */
  function AfterOracleRun(s: State, refresh: nat, id: nat, currentSeason: Option<string>, platform: Status): State {
    After(After(After(s, ReadStatus(refresh, currentSeason)), WriteStatus(refresh, platform, Committed)), StartRun(id))
  }

  /**
   A settlement starts exactly when the league is pending and not cancelled and was in season, or had a
   known status short of `complete`, in the platform's current season, and the platform reports it as in
   season or beyond. On a cancelled league not even the status changes.
   */
  lemma SelectedExactly(s: State, refresh: nat, id: nat, currentSeason: Option<string>, platform: Status)
    requires refresh !in s.refreshes && id !in s.runs
    ensures var t := AfterOracleRun(s, refresh, id, currentSeason, platform);
            && (id in t.runs <==> s.shared.row.payout == Pending && !s.shared.row.cancelled && Startable(s.shared.row, currentSeason, platform))
            && (s.shared.row.cancelled ==> t.shared == s.shared)
            && (id in t.runs ==> t.runs[id] == NewRun(t.shared.row) && t.shared == s.shared.(row := s.shared.row.(status := InSeason)))
  {
  }

  /** The state a started settlement leads to in a good world. */
  function Settled(t: State, id: nat, g: GoodWorld): State
    requires id in t.runs ==> AtWork(g, t.runs[id])
  {
    if id in t.runs then Drive(t, id, g) else t
  }

  /**
   One oracle run on a pending league nobody else touches: it ends `complete` and `executed` exactly when
   it is not cancelled and could be started, the platform reports `complete`, and its prizes are payable
   and, if there are any, confirmed by the chain.
   */
  lemma RefreshThenSettle(s: State, refresh: nat, id: nat, currentSeason: Option<string>, g: GoodWorld)
    requires refresh !in s.refreshes && id !in s.runs
    requires s.shared.row.payout == Pending
    ensures var t := AfterOracleRun(s, refresh, id, currentSeason, g.platform);
            && (id in t.runs ==> AtWork(g, t.runs[id]))
            && (Settled(t, id, g).shared.row.status == Complete && Settled(t, id, g).shared.row.payout == Executed
                <==> && !s.shared.row.cancelled && Startable(s.shared.row, currentSeason, g.platform) && g.platform == Complete
                     && Payable(g, s.shared.row.id, Prizes(g, s.shared.row)) && (Prizes(g, s.shared.row) == [] || g.chain.Accepted?))
  {
    var t := AfterOracleRun(s, refresh, id, currentSeason, g.platform);
    SelectedExactly(s, refresh, id, currentSeason, g.platform);
    if id in t.runs {
      SettlementCompletes(t, id, g);
      assert Prizes(g, t.shared.row) == Prizes(g, s.shared.row);
    }
  }

  // ---------- only a completed season is settled ----------

  /** No settlement is told that the season is complete. */
  predicate NeverComplete(actions: seq<Action>) {
    forall k :: 0 <= k < |actions| && actions[k].Step? ==> actions[k].reply != PlatformStatus(Some(Complete))
  }

  predicate StillAsking(run: Run) {
    run.pc.AskPlatform? || run.pc.Finished? || run.pc.Crashed?
  }

  /** Until a settlement is told so, none gets beyond asking: nothing is claimed, sent, recorded or settled. */
  lemma {:induction false} OnlyCompleteIsSettled(s: State, actions: seq<Action>)
    requires Fresh(s) && NeverComplete(actions)
    ensures var t := AfterAll(s, actions);
            && t.shared.row.payout == Pending && t.shared.sent == [] && t.shared.records == map[]
            && forall i :: i in t.runs ==> StillAsking(t.runs[i])
  {
    if actions != [] {
      var before, last := actions[..|actions| - 1], actions[|actions| - 1];
      OnlyCompleteIsSettled(s, before);
      var t := AfterAll(s, before);
      StillAskingAfter(t, last);
    }
  }

  lemma StillAskingAfter(s: State, a: Action)
    requires a.Step? ==> a.reply != PlatformStatus(Some(Complete))
    requires forall i :: i in s.runs ==> StillAsking(s.runs[i])
    ensures forall i :: i in After(s, a).runs ==> StillAsking(After(s, a).runs[i])
    ensures After(s, a).shared.row.payout == s.shared.row.payout
    ensures After(s, a).shared.sent == s.shared.sent && After(s, a).shared.records == s.shared.records
  {
    if a.Step? && a.run in s.runs { StillAskingStep(s.shared, s.runs[a.run], a.reply); }
  }

  lemma StillAskingStep(s: Shared, run: Run, reply: Reply)
    requires StillAsking(run) && reply != PlatformStatus(Some(Complete))
    ensures AdvanceShared(s, run, reply) == s && StillAsking(AdvanceRun(run, reply, Hit(s.row, run)))
  {
  }
}
