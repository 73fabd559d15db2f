/**
 The season-end payout of one league as a state machine. The league row is shared; every settlement
 run is a program counter and its locals, and takes one step per external call. Runs and status
 refreshes interleave freely with imports, cancellations and settings changes; any call may fail, an
 UPDATE may commit although it reports an error, a payout may land although its receipt is lost, and
 a run may crash anywhere.
 */
module SeasonEnd {
  import opened Wrappers
  import opened Bytes
  import opened Int64
  import opened Lists
  import opened League
  import opened LeagueId
  import opened StatusRefresh

  // ---------- the league row and what has been sent ----------

  datatype PayoutStatus = Pending | Executing | Executed | Failed

  datatype Row = Row(
    id: string,
    season: string,
    status: Status,
    payout: PayoutStatus,
    txHash: Option<string>,
    cancelled: bool,
    structure: seq<PayoutEntry>
  )

  /** How `distribute` answers: only the first is no error, but the second has moved money too. */
  datatype ChainReply = Accepted(hash: string) | LandedButError | Rejected

  datatype Sent = Sent(recipients: seq<Address>, amounts: seq<int>, reply: ChainReply)

  /** `final_rank`, `payout_amount_cents` and `payout_tx_hash` of a member row. */
  datatype Record = Record(place: int, amountCents: int, txHash: string)

  /** The database rows, and the history of `distribute` calls. */
  datatype Shared = Shared(row: Row, records: map<int, Record>, sent: seq<Sent>)

  // ---------- what a run computes between its calls ----------

  datatype Resolved = Resolved(member: Member, amountCents: int, place: int, address: Address)

  predicate IsPlacement(e: PayoutEntry) {
    e.kind.Placement?
  }

  function Placements(entries: seq<PayoutEntry>): seq<PayoutEntry> {
    Filter(entries, IsPlacement)
  }

  function PlaceOf(e: PayoutEntry): int {
    e.place
  }

  /** place -> entry; a later entry replaces an earlier one. */
  function PlaceToEntry(entries: seq<PayoutEntry>): map<int, PayoutEntry> {
    Latest(entries, PlaceOf)
  }

  function RosterOf(m: Member): int {
    m.rosterId
  }

  /** roster -> member; a later member replaces an earlier one. */
  function MemberByRoster(members: seq<Member>): map<int, Member> {
    Latest(members, RosterOf)
  }

  /** The member and entry a standing pays, when it has a rule and a member with a wallet. */
  function Target(entries: seq<PayoutEntry>, members: seq<Member>, s: Standing): Option<(Member, PayoutEntry)> {
    var places, rosters := PlaceToEntry(Placements(entries)), MemberByRoster(members);
    if s.place !in places || s.rosterId !in rosters || rosters[s.rosterId].wallet == "" then None
    else Some((rosters[s.rosterId], places[s.place]))
  }

  function Recipients(resolved: seq<Resolved>): (rs: seq<Address>)
    ensures |rs| == |resolved|
  {
    seq(|resolved|, i requires 0 <= i < |resolved| => resolved[i].address)
  }

  function Amounts(resolved: seq<Resolved>): (amounts: seq<int>)
    ensures |amounts| == |resolved|
  {
    seq(|resolved|, i requires 0 <= i < |resolved| => ToMicro(resolved[i].amountCents))
  }

  /** `totalPayout` of a resolved list. */
  function TotalPayout(resolved: seq<Resolved>): int {
    WrappedSum(Amounts(resolved), |resolved|)
  }

  // ---------- runs ----------

  /** How a run ends: what `settleSeasonEnd` returns, and where. */
  datatype Outcome =
    | NotComplete
    | PlatformError | StandingsError | MembersError | BadLeagueId | BalanceError
    | InsufficientEscrow
    | ClaimError | ClaimLost
    | SettledWithoutPayout(ok: bool)
    | DistributeFailed
    | NotMarked
    | PaidOut

  /** The call a run makes next. */
  datatype Pc =
    | AskPlatform
    | AskStandings
    | AskMembers
    | Resolving(next: nat)
    | AskBalance
    | Claiming
    | Distributing
    | MarkingFailed
    | MarkingExecuted(hash: string)
    | Recording(next: nat, hash: string)
    | MarkingSettled
    | Finished(outcome: Outcome)
    | Crashed

  datatype Run = Run(
    id: string,
    structure: seq<PayoutEntry>,
    pc: Pc,
    standings: seq<Standing>,
    members: seq<Member>,
    resolved: seq<Resolved>
  )

  /** The answer to a run's next call. */
  datatype Reply =
    | Crash
    | PlatformStatus(status: Option<Status>)
    | FinalStandings(standings: Option<seq<Standing>>)
    | Members(members: Option<seq<Member>>)
    | Skip
    | EvmAddress(address: Option<Address>)
    | EscrowBalance(balance: Option<int>)
    | Database(write: Write)
    | Chain(reply: ChainReply)

  function NewRun(row: Row): Run {
    Run(row.id, row.structure, AskPlatform, [], [], [])
  }

  /** Where the standings loop goes after handling a standing; past the last one the run decides what to do. */
  function ResolveFrom(run: Run, next: nat, resolved: seq<Resolved>): Run {
    var r := run.(resolved := resolved);
    if next < |run.standings| then r.(pc := Resolving(next))
    else if resolved == [] then r.(pc := MarkingSettled)
    else if UuidToBytes32(run.id).Err? then r.(pc := Finished(BadLeagueId))
    else r.(pc := AskBalance)
  }

  /** Whether the conditional UPDATE the run is about to send matches the row. */
  predicate Hit(row: Row, run: Run) {
    match run.pc
    case Claiming => row.payout == Pending
    case MarkingSettled => row.payout == Pending
    case MarkingFailed => row.payout == Executing
    case MarkingExecuted(_) => row.payout == Executing
    case _ => true
  }

  /** The run after its call is answered; `hit` says whether its UPDATE matched the row. */
  function AdvanceRun(run: Run, reply: Reply, hit: bool): Run {
    match (run.pc, reply)
    case (Finished(_), _) => run
    case (Crashed, _) => run
    case (_, Crash) => run.(pc := Crashed)
    case (AskPlatform, PlatformStatus(s)) =>
      if s.None? then run.(pc := Finished(PlatformError))
      else if s.value != Complete then run.(pc := Finished(NotComplete))
      else if Placements(run.structure) == [] then run.(pc := MarkingSettled)
      else run.(pc := AskStandings)
    case (AskStandings, FinalStandings(s)) =>
      if s.None? then run.(pc := Finished(StandingsError)) else run.(pc := AskMembers, standings := s.value)
    case (AskMembers, Members(m)) =>
      if m.None? then run.(pc := Finished(MembersError)) else ResolveFrom(run.(members := m.value), 0, [])
    case (Resolving(i), Skip) =>
      if i < |run.standings| && Target(run.structure, run.members, run.standings[i]).None?
      then ResolveFrom(run, i + 1, run.resolved) else run
    case (Resolving(i), EvmAddress(a)) =>
      if i < |run.standings| && Target(run.structure, run.members, run.standings[i]).Some? then
        var (member, entry) := Target(run.structure, run.members, run.standings[i]).value;
        ResolveFrom(run, i + 1,
          if a.None? then run.resolved
          else run.resolved + [Resolved(member, entry.amountCents, run.standings[i].place, a.value)])
      else run
    case (AskBalance, EscrowBalance(b)) =>
      if b.None? then run.(pc := Finished(BalanceError))
      else if TotalPayout(run.resolved) > b.value then run.(pc := Finished(InsufficientEscrow))
      else run.(pc := Claiming)
    case (Claiming, Database(w)) =>
      if w != Committed then run.(pc := Finished(ClaimError))
      else if !hit then run.(pc := Finished(ClaimLost))
      else run.(pc := Distributing)
    case (Distributing, Chain(c)) =>
      if c.Accepted? then run.(pc := MarkingExecuted(c.hash)) else run.(pc := MarkingFailed)
    case (MarkingFailed, Database(_)) => run.(pc := Finished(DistributeFailed))
    case (MarkingExecuted(hash), Database(w)) =>
      if w != Committed || !hit then run.(pc := Finished(NotMarked))
      else if run.resolved == [] then run.(pc := Finished(PaidOut))
      else run.(pc := Recording(0, hash))
    case (Recording(i, hash), Database(_)) =>
      if i + 1 < |run.resolved| then run.(pc := Recording(i + 1, hash)) else run.(pc := Finished(PaidOut))
    case (MarkingSettled, Database(w)) => run.(pc := Finished(SettledWithoutPayout(w == Committed)))
    case _ => run
  }

  /** What the call changes in the database and on the chain. */
  function AdvanceShared(s: Shared, run: Run, reply: Reply): Shared {
    match (run.pc, reply)
    case (Distributing, Chain(c)) =>
      s.(sent := s.sent + [Sent(Recipients(run.resolved), Amounts(run.resolved), c)])
    case (Recording(i, hash), Database(w)) =>
      if w == NotCommitted || i >= |run.resolved| then s else
        var r := run.resolved[i];
        s.(records := s.records[r.member.rosterId := Record(r.place, r.amountCents, hash)])
    case (Claiming, Database(w)) =>
      if w == NotCommitted || !Hit(s.row, run) then s else s.(row := s.row.(payout := Executing))
    case (MarkingFailed, Database(w)) =>
      if w == NotCommitted || !Hit(s.row, run) then s else s.(row := s.row.(payout := Failed))
    case (MarkingExecuted(hash), Database(w)) =>
      if w == NotCommitted || !Hit(s.row, run) then s
      else s.(row := s.row.(status := Complete, payout := Executed, txHash := Some(hash)))
    case (MarkingSettled, Database(w)) =>
      if w == NotCommitted || !Hit(s.row, run) then s
      else s.(row := s.row.(status := Complete, payout := Executed))
    case _ => s
  }

  // ---------- the whole system ----------

  /** A status refresh that has read the row and not yet written. */
  datatype Refresh = Refresh(seen: Status, done: bool)

  datatype State = State(shared: Shared, runs: map<nat, Run>, refreshes: map<nat, Refresh>)

  /** A refresh reads the row together with the platform's current season, if that is known; other leagues it drops. */
  datatype Action =
    | StartRun(run: nat)
    | Step(run: nat, reply: Reply)
    | ReadStatus(refresh: nat, currentSeason: Option<string>)
    | WriteStatus(refresh: nat, report: Status, write: Write)
    | Import(status: Status)
    | Cancel
    | Reactivate
    | UpdateSettings(structure: seq<PayoutEntry>)

  /** `WHERE status = 'in_season' AND payout_status = 'pending' AND cancelled_at IS NULL`. */
  predicate SelectedForSeasonEnd(row: Row) {
    row.status == InSeason && row.payout == Pending && !row.cancelled
  }

  /** `WHERE cancelled_at IS NULL AND (status IS NULL OR status IN ('pre_draft', 'drafting', 'post_season'))`. */
  predicate SelectedForRefresh(row: Row) {
    !row.cancelled && (row.status.Unset? || row.status.PreDraft? || row.status.Drafting? || row.status.PostSeason?)
  }

  /** Whether a refresh write changes the row: the report calls for an update and the row still has the status read. */
  predicate RefreshApplies(s: State, a: Action)
    requires a.WriteStatus?
  {
    && a.refresh in s.refreshes && !s.refreshes[a.refresh].done
    && Rank(a.report).Some?
    && NextLeagueStatus(s.refreshes[a.refresh].seen, a.report).1
    && a.write != NotCommitted
    && s.shared.row.status == s.refreshes[a.refresh].seen
  }

  /** An action that is not possible in a state leaves it as it is. */
  function After(s: State, a: Action): State {
    var row := s.shared.row;
    match a
    case StartRun(i) =>
      if i !in s.runs && SelectedForSeasonEnd(row) then s.(runs := s.runs[i := NewRun(row)]) else s
    case Step(i, reply) =>
      if i !in s.runs then s else
        s.(shared := AdvanceShared(s.shared, s.runs[i], reply),
           runs := s.runs[i := AdvanceRun(s.runs[i], reply, Hit(row, s.runs[i]))])
    case ReadStatus(i, currentSeason) =>
      if i !in s.refreshes && SelectedForRefresh(row) && currentSeason == Some(row.season) then s.(refreshes := s.refreshes[i := Refresh(row.status, false)]) else s
    case WriteStatus(i, report, _) =>
      if i !in s.refreshes then s else
        var t := s.(refreshes := s.refreshes[i := s.refreshes[i].(done := true)]);
        if RefreshApplies(s, a)
        then t.(shared := t.shared.(row := row.(status := NextLeagueStatus(s.refreshes[i].seen, report).0)))
        else t
    case Import(status) => s.(shared := s.shared.(row := row.(status := status)))
    case Cancel => s.(shared := s.shared.(row := row.(cancelled := true)))
    case Reactivate => s.(shared := s.shared.(row := row.(cancelled := false)))
    case UpdateSettings(structure) => s.(shared := s.shared.(row := row.(structure := structure)))
  }

  function AfterAll(s: State, actions: seq<Action>): State {
    if actions == [] then s else After(AfterAll(s, actions[..|actions| - 1]), actions[|actions| - 1])
  }

  /** A freshly imported league: nothing paid, nothing running. Its status may be anything. */
  predicate Fresh(s: State) {
    && s.shared.row.payout == Pending && s.shared.row.txHash == None
    && s.shared.records == map[] && s.shared.sent == []
    && s.runs == map[] && s.refreshes == map[]
  }

  lemma AfterPush(s: State, before: seq<Action>, a: Action)
    ensures AfterAll(s, before + [a]) == After(AfterAll(s, before), a)
    ensures AfterAll(s, []) == s
  {
    assert (before + [a])[..|before|] == before;
  }

  /** Runs join end to end. */
  lemma {:induction false} RunsJoin(s: State, earlier: seq<Action>, later: seq<Action>)
    ensures AfterAll(AfterAll(s, earlier), later) == AfterAll(s, earlier + later)
  {
    if later == [] {
      assert earlier + later == earlier;
    } else {
      var n := |later| - 1;
      RunsJoin(s, earlier, later[..n]);
      assert (earlier + later)[..|earlier| + n] == earlier + later[..n];
    }
  }
}
