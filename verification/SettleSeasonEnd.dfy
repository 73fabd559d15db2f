/**
 `settleSeasonEnd` as the step-by-step procedure it is, run against an environment in which any other
 actions may happen before each of its external calls. Every execution is proved to be a run of the
 state machine of module SeasonEnd, so what holds of all interleavings there holds of the procedure.
 */
module SettleSeasonEnd {
  import opened Wrappers
  import opened Bytes
  import opened Int64
  import opened Lists
  import opened League
  import opened LeagueId
  import opened SeasonEnd
  import SeasonEndSafety

  /** Whether `settleSeasonEnd` returns an error for an outcome. */
  predicate IsError(o: Outcome) {
    match o
    case NotComplete => false
    case ClaimLost => false
    case PaidOut => false
    case SettledWithoutPayout(ok) => !ok
    case _ => true
  }

  /** A run of the machine as the states it passes through. */
  predicate IsRun(trace: seq<State>, actions: seq<Action>) {
    && |trace| == |actions| + 1
    && forall k :: 0 <= k < |actions| ==> trace[k + 1] == After(trace[k], actions[k])
  }

  /** It ends where its actions lead. */
  lemma {:induction false} RunReaches(trace: seq<State>, actions: seq<Action>)
    requires IsRun(trace, actions)
    ensures trace[|trace| - 1] == AfterAll(trace[0], actions)
  {
    if actions != [] {
      RunReaches(trace[..|trace| - 1], actions[..|actions| - 1]);
    }
  }

  /** Along any such run that starts in a reachable state, however its procedures were interleaved, at most one payout is sent. */
  lemma TracePaysAtMostOnce(s: State, earlier: seq<Action>, trace: seq<State>, actions: seq<Action>)
    requires Fresh(s) && IsRun(trace, actions) && trace[0] == AfterAll(s, earlier)
    ensures trace[|trace| - 1] == AfterAll(s, earlier + actions)
    ensures |trace[|trace| - 1].shared.sent| <= 1
  {
    RunReaches(trace, actions);
    RunsJoin(s, earlier, actions);
    SeasonEndSafety.AtMostOnePayout(s, earlier + actions);
  }

  /** The injected dependencies of one settlement run, and the system's run they take part in. */
  class Deps {
    /** This run's number. */
    const id: nat
    var trace: seq<State>
    var actions: seq<Action>

    predicate Valid()
      reads this
    {
      IsRun(trace, actions) && id in Now().runs
    }

    function Now(): State
      reads this
      requires |trace| > 0
    {
      trace[|trace| - 1]
    }

    function Me(): Run
      reads this
      requires Valid()
    {
      Now().runs[id]
    }

    constructor (s: State, run: nat)
      requires run in s.runs
      ensures Valid() && id == run && trace == [s] && actions == []
    {
      id, trace, actions := run, [s], [];
    }

    /** One more action of the system. */
    method Append(a: Action)
      requires Valid()
      modifies this
      ensures Valid() && trace == old(trace) + [After(old(Now()), a)] && actions == old(actions) + [a]
    {
      trace, actions := trace + [After(Now(), a)], actions + [a];
    }

    /** Any number of actions of other runs and writers, none of which moves this run. */
    method Others()
      requires Valid()
      modifies this
      ensures Valid() && old(actions) <= actions && trace[0] == old(trace[0]) && Me() == old(Me())
    {
      var others: seq<Action> := *;
      for k := 0 to |others|
        invariant Valid() && old(actions) <= actions && trace[0] == old(trace[0]) && Me() == old(Me())
      {
        if !(others[k].Step? && others[k].run == id) { Append(others[k]); }
      }
    }

    /** Actions of others, then this run's step with the reply it got. */
    method Take(reply: Reply) returns (hit: bool)
      requires Valid()
      modifies this
      ensures Valid() && old(actions) <= actions && trace[0] == old(trace[0])
      ensures Me() == AdvanceRun(old(Me()), reply, hit)
    {
      Others();
      hit := Hit(Now().shared.row, Me());
      Append(Step(id, reply));
    }

    method PlatformStatus() returns (status: Option<Status>)
      requires Valid() && Me().pc.AskPlatform?
      modifies this
      ensures Valid() && old(actions) <= actions && trace[0] == old(trace[0])
      ensures Me() == old(Me()).(pc :=
                if status.None? then Finished(PlatformError)
                else if status.value != Complete then Finished(NotComplete)
                else if Placements(old(Me()).structure) == [] then MarkingSettled
                else AskStandings)
    {
      status := *;
      var hit := Take(Reply.PlatformStatus(status));
    }

    method FinalStandings() returns (standings: Option<seq<Standing>>)
      requires Valid() && Me().pc.AskStandings?
      modifies this
      ensures Valid() && old(actions) <= actions && trace[0] == old(trace[0])
      ensures Me() == if standings.None? then old(Me()).(pc := Finished(StandingsError))
                      else old(Me()).(pc := AskMembers, standings := standings.value)
    {
      standings := *;
      var hit := Take(Reply.FinalStandings(standings));
    }

    method LoadMembers() returns (members: Option<seq<Member>>)
      requires Valid() && Me().pc.AskMembers?
      modifies this
      ensures Valid() && old(actions) <= actions && trace[0] == old(trace[0])
      ensures Me() == if members.None? then old(Me()).(pc := Finished(MembersError))
                      else ResolveFrom(old(Me()).(members := members.value), 0, [])
    {
      members := *;
      var hit := Take(Members(members));
    }

    /** No call: the loop passes over a standing that has no target. */
    method SkipStanding()
      requires Valid() && Me().pc.Resolving? && Me().pc.next < |Me().standings|
      requires Target(Me().structure, Me().members, Me().standings[Me().pc.next]).None?
      modifies this
      ensures Valid() && old(actions) <= actions && trace[0] == old(trace[0])
      ensures Me() == ResolveFrom(old(Me()), old(Me()).pc.next + 1, old(Me()).resolved)
    {
      var hit := Take(Skip);
    }

    /** The wallet asked for is the one of the standing's target. */
    method ResolveEVM(wallet: string) returns (address: Option<Address>)
      requires Valid() && Me().pc.Resolving? && Me().pc.next < |Me().standings|
      requires var target := Target(Me().structure, Me().members, Me().standings[Me().pc.next]);
               target.Some? && target.value.0.wallet == wallet
      modifies this
      ensures Valid() && old(actions) <= actions && trace[0] == old(trace[0])
      ensures var run := old(Me());
              var (member, entry) := Target(run.structure, run.members, run.standings[run.pc.next]).value;
              Me() == ResolveFrom(run, run.pc.next + 1,
                if address.None? then run.resolved
                else run.resolved + [Resolved(member, entry.amountCents, run.standings[run.pc.next].place, address.value)])
    {
      address := *;
      var hit := Take(EvmAddress(address));
    }

    method EscrowBalance(league: LeagueKey) returns (balance: Option<int>)
      requires Valid() && Me().pc.AskBalance? && UuidToBytes32(Me().id) == Ok(league)
      modifies this
      ensures Valid() && old(actions) <= actions && trace[0] == old(trace[0])
      ensures Me() == old(Me()).(pc :=
                if balance.None? then Finished(BalanceError)
                else if TotalPayout(old(Me()).resolved) > balance.value then Finished(InsufficientEscrow)
                else Claiming)
    {
      balance := *;
      var hit := Take(Reply.EscrowBalance(balance));
    }

    method MarkSettledWithoutPayout() returns (error: bool)
      requires Valid() && Me().pc.MarkingSettled?
      modifies this
      ensures Valid() && old(actions) <= actions && trace[0] == old(trace[0])
      ensures Me() == old(Me()).(pc := Finished(SettledWithoutPayout(!error)))
    {
      var write: Write := *;
      var hit := Take(Database(write));
      error := write != Committed;
    }

    /** `error` wins over `claimed`; without an error the claim was won exactly when the run may go on. */
    method ClaimPayout() returns (claimed: bool, error: bool)
      requires Valid() && Me().pc.Claiming?
      modifies this
      ensures Valid() && old(actions) <= actions && trace[0] == old(trace[0])
      ensures Me() == old(Me()).(pc := if error then Finished(ClaimError) else if claimed then Distributing else Finished(ClaimLost))
    {
      var write: Write := *;
      var hit := Take(Database(write));
      error := write != Committed;
      claimed := hit && !error;
    }

    /** Only the holder of the claim may send, and only what it resolved. */
    method Distribute(league: LeagueKey, recipients: seq<Address>, amounts: seq<int>) returns (txHash: Option<string>)
      requires Valid() && Me().pc.Distributing?
      requires UuidToBytes32(Me().id) == Ok(league)
      requires recipients == Recipients(Me().resolved) && amounts == Amounts(Me().resolved)
      modifies this
      ensures Valid() && old(actions) <= actions && trace[0] == old(trace[0])
      ensures Me() == old(Me()).(pc := if txHash.Some? then MarkingExecuted(txHash.value) else MarkingFailed)
    {
      var reply: ChainReply := *;
      var hit := Take(Chain(reply));
      txHash := match reply case Accepted(hash) => Some(hash) case _ => None;
    }

    method MarkPayoutFailed() returns (error: bool)
      requires Valid() && Me().pc.MarkingFailed?
      modifies this
      ensures Valid() && old(actions) <= actions && trace[0] == old(trace[0])
      ensures Me() == old(Me()).(pc := Finished(DistributeFailed))
    {
      var write: Write := *;
      var hit := Take(Database(write));
      error := write != Committed;
    }

    method MarkPayoutExecuted(txHash: string) returns (updated: bool, error: bool)
      requires Valid() && Me().pc == MarkingExecuted(txHash) && Me().resolved != []
      modifies this
      ensures Valid() && old(actions) <= actions && trace[0] == old(trace[0])
      ensures Me() == old(Me()).(pc := if error || !updated then Finished(NotMarked) else Recording(0, txHash))
    {
      var write: Write := *;
      var hit := Take(Database(write));
      error := write != Committed;
      updated := hit && !error;
    }

    /** The row written is that of the next resolved payout. */
    method RecordMemberPayout(rosterId: int, place: int, amountCents: int, txHash: string) returns (error: bool)
      requires Valid() && Me().pc.Recording? && Me().pc.hash == txHash && Me().pc.next < |Me().resolved|
      requires var r := Me().resolved[Me().pc.next];
               r.member.rosterId == rosterId && r.place == place && r.amountCents == amountCents
      modifies this
      ensures Valid() && old(actions) <= actions && trace[0] == old(trace[0])
      ensures Me() == old(Me()).(pc :=
                if old(Me().pc).next + 1 < |old(Me()).resolved| then Recording(old(Me().pc).next + 1, txHash) else Finished(PaidOut))
    {
      var write: Write := *;
      var hit := Take(Database(write));
      error := write != Committed;
    }
  }

  // ---------- the local loops ----------

  method PlacementEntries(structure: seq<PayoutEntry>) returns (placementEntries: seq<PayoutEntry>)
    ensures placementEntries == Placements(structure)
  {
    placementEntries := [];
    for i := 0 to |structure|
      invariant placementEntries == Placements(structure[..i])
    {
      FilterNext(structure, IsPlacement, i);
      if structure[i].kind.Placement? { placementEntries := placementEntries + [structure[i]]; }
    }
    assert structure[..|structure|] == structure;
  }

  method BuildMaps(members: seq<Member>, placementEntries: seq<PayoutEntry>)
    returns (memberByRoster: map<int, Member>, placeToEntry: map<int, PayoutEntry>)
    ensures memberByRoster == MemberByRoster(members)
    ensures placeToEntry == PlaceToEntry(placementEntries)
  {
    memberByRoster, placeToEntry := map[], map[];
    for i := 0 to |members|
      invariant memberByRoster == MemberByRoster(members[..i])
    {
      LatestNext(members, RosterOf, i);
      memberByRoster := memberByRoster[members[i].rosterId := members[i]];
    }
    for i := 0 to |placementEntries|
      invariant placeToEntry == PlaceToEntry(placementEntries[..i])
    {
      LatestNext(placementEntries, PlaceOf, i);
      placeToEntry := placeToEntry[placementEntries[i].place := placementEntries[i]];
    }
    assert members[..|members|] == members && placementEntries[..|placementEntries|] == placementEntries;
  }

  method PayoutLists(resolved: seq<Resolved>) returns (recipients: seq<Address>, amounts: seq<int>, totalPayout: int)
    ensures recipients == Recipients(resolved) && amounts == Amounts(resolved)
    ensures totalPayout == TotalPayout(resolved)
  {
    var to := new Address[|resolved|];
    var micro := new int[|resolved|];
    totalPayout := 0;
    for i := 0 to |resolved|
      invariant forall k :: 0 <= k < i ==> to[k] == resolved[k].address && micro[k] == ToMicro(resolved[k].amountCents)
      invariant totalPayout == WrappedSum(Amounts(resolved), i)
    {
      to[i] := resolved[i].address;
      micro[i] := Wrap64(resolved[i].amountCents * MICRO_PER_CENT);
      totalPayout := Wrap64(totalPayout + micro[i]);
    }
    recipients, amounts := to[..], micro[..];
  }

  /** The standings loop: one lookup per standing that has a target, none for the others. */
  method ResolveStandings(deps: Deps, standings: seq<Standing>, memberByRoster: map<int, Member>, placeToEntry: map<int, PayoutEntry>)
    returns (resolved: seq<Resolved>)
    requires deps.Valid()
    requires deps.Me() == ResolveFrom(deps.Me().(pc := AskMembers), 0, []) && deps.Me().standings == standings
    requires memberByRoster == MemberByRoster(deps.Me().members)
    requires placeToEntry == PlaceToEntry(Placements(deps.Me().structure))
    modifies deps
    ensures deps.Valid() && old(deps.actions) <= deps.actions && deps.trace[0] == old(deps.trace[0])
    ensures deps.Me() == ResolveFrom(old(deps.Me()), |standings|, resolved)
  {
    resolved := [];
    ghost var run := deps.Me();
    for i := 0 to |standings|
      invariant deps.Valid() && old(deps.actions) <= deps.actions && deps.trace[0] == old(deps.trace[0])
      invariant deps.Me() == ResolveFrom(run, i, resolved)
    {
      var standing := standings[i];
      if standing.place !in placeToEntry {
        deps.SkipStanding();
        continue;
      }
      var entry := placeToEntry[standing.place];
      if standing.rosterId !in memberByRoster {
        deps.SkipStanding();
        continue;
      }
      var member := memberByRoster[standing.rosterId];
      if member.wallet == "" {
        deps.SkipStanding();
        continue;
      }
      var addr := deps.ResolveEVM(member.wallet);
      if addr.None? { continue; }
      resolved := resolved + [Resolved(member, entry.amountCents, standing.place, addr.value)];
    }
  }

  /** From the claim on: the transaction is sent only while holding the claim, with the lists that were resolved. */
  method ClaimAndPay(deps: Deps, league: LeagueKey, resolved: seq<Resolved>, recipients: seq<Address>, amounts: seq<int>) returns (error: bool)
    requires deps.Valid() && deps.Me().pc.Claiming?
    requires UuidToBytes32(deps.Me().id) == Ok(league) && deps.Me().resolved == resolved != []
    requires recipients == Recipients(resolved) && amounts == Amounts(resolved)
    modifies deps
    ensures deps.Valid() && old(deps.actions) <= deps.actions && deps.trace[0] == old(deps.trace[0])
    ensures deps.Me().pc.Finished?
    ensures error <==> IsError(deps.Me().pc.outcome)
  {
    var claimed, claimError := deps.ClaimPayout();
    if claimError { return true; }
    if !claimed { return false; }

    var txHash := deps.Distribute(league, recipients, amounts);
    if txHash.None? {
      var dbError := deps.MarkPayoutFailed();
      return true;
    }
    var updated, markError := deps.MarkPayoutExecuted(txHash.value);
    if markError || !updated { return true; }

    for i := 0 to |resolved|
      invariant deps.Valid() && old(deps.actions) <= deps.actions && deps.trace[0] == old(deps.trace[0]) && deps.Me().resolved == resolved
      invariant deps.Me().pc == if i < |resolved| then Recording(i, txHash.value) else Finished(PaidOut)
    {
      var r := resolved[i];
      var recordError := deps.RecordMemberPayout(r.member.rosterId, r.place, r.amountCents, txHash.value);
    }
    return false;
  }

  /** From the resolved list on: nothing to pay, a bad league id, or a balance to check. */
  method PayResolved(deps: Deps, leagueId: string, resolved: seq<Resolved>) returns (error: bool)
    requires deps.Valid() && deps.Me().id == leagueId
    requires deps.Me() == ResolveFrom(deps.Me(), |deps.Me().standings|, resolved)
    modifies deps
    ensures deps.Valid() && old(deps.actions) <= deps.actions && deps.trace[0] == old(deps.trace[0])
    ensures deps.Me().pc.Finished?
    ensures error <==> IsError(deps.Me().pc.outcome)
  {
    if |resolved| == 0 {
      error := deps.MarkSettledWithoutPayout();
      return;
    }
    var leagueKey := UuidToBytes32(leagueId);
    if leagueKey.Err? { return true; }

    var recipients, amounts, totalPayout := PayoutLists(resolved);
    var escrowBalance := deps.EscrowBalance(leagueKey.value);
    if escrowBalance.None? { return true; }
    if totalPayout > escrowBalance.value { return true; }

    error := ClaimAndPay(deps, leagueKey.value, resolved, recipients, amounts);
  }

  /**
   `settleSeasonEnd`. Whatever happens in between, the run the environment starts is carried to an
   end of the state machine, and the procedure returns an error exactly for the outcomes that are
   errors. The calls' preconditions make the order of calls and their arguments part of the proof.
   */
  method Settle(deps: Deps, leagueId: string, structure: seq<PayoutEntry>) returns (error: bool)
    requires deps.Valid()
    requires deps.Me() == Run(leagueId, structure, AskPlatform, [], [], [])
    modifies deps
    ensures deps.Valid() && old(deps.actions) <= deps.actions && deps.trace[0] == old(deps.trace[0])
    ensures deps.Me().pc.Finished?
    ensures error <==> IsError(deps.Me().pc.outcome)
  {
    var platformStatus := deps.PlatformStatus();
    if platformStatus.None? { return true; }
    if platformStatus.value != Complete { return false; }

    var placementEntries := PlacementEntries(structure);
    if |placementEntries| == 0 {
      error := deps.MarkSettledWithoutPayout();
      return;
    }

    error := SettlePlacements(deps, leagueId, structure, placementEntries);
  }

  /** The league has placement prizes: ask for the standings and the members, and pay. */
  method SettlePlacements(deps: Deps, leagueId: string, structure: seq<PayoutEntry>, placementEntries: seq<PayoutEntry>) returns (error: bool)
    requires deps.Valid() && deps.Me().pc.AskStandings? && deps.Me().id == leagueId
    requires deps.Me().structure == structure && placementEntries == Placements(structure)
    modifies deps
    ensures deps.Valid() && old(deps.actions) <= deps.actions && deps.trace[0] == old(deps.trace[0])
    ensures deps.Me().pc.Finished?
    ensures error <==> IsError(deps.Me().pc.outcome)
  {
    var standings := deps.FinalStandings();
    if standings.None? { return true; }
    var members := deps.LoadMembers();
    if members.None? { return true; }
    var memberByRoster, placeToEntry := BuildMaps(members.value, placementEntries);
    var resolved := ResolveStandings(deps, standings.value, memberByRoster, placeToEntry);
    error := PayResolved(deps, leagueId, resolved);
  }

  /**
   The job's work on one league: any history of the league, its selection, and `settleSeasonEnd` on the
   row selected, others acting in between. The end is a reachable state of the machine, so everything
   proved of those holds there; in particular at most one payout was ever sent.
   */
  method SettleSelected(s: State, earlier: seq<Action>, id: nat) returns (deps: Deps, error: bool)
    requires Fresh(s) && id !in AfterAll(s, earlier).runs
    requires SelectedForSeasonEnd(AfterAll(s, earlier).shared.row)
    ensures deps.Valid() && deps.id == id
    ensures deps.Now() == AfterAll(s, earlier + [StartRun(id)] + deps.actions)
    ensures deps.Me().pc.Finished? && (error <==> IsError(deps.Me().pc.outcome))
    ensures |deps.Now().shared.sent| <= 1
  {
    var row := AfterAll(s, earlier).shared.row;
    var selected := earlier + [StartRun(id)];
    assert selected[..|earlier|] == earlier;
    deps := new Deps(AfterAll(s, selected), id);
    error := Settle(deps, row.id, row.structure);
    TracePaysAtMostOnce(s, selected, deps.trace, deps.actions);
  }
}
