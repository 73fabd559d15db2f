/** From the playoff bracket to the budget: final standings, and what a settlement pays for them. */
module Standings {
  import opened Wrappers
  import opened MapSums
  import opened Int64
  import opened Lists
  import opened League
  import opened SeasonEnd
  import opened SeasonEndRecords

  /** One playoff game; place is set on games that decide a placement, and roster 0 means undecided. */
  datatype BracketEntry = BracketEntry(winner: int, loser: int, place: Option<int>)

  /** The game gives this standing: its winner takes the place, its loser the next one. */
  predicate Gives(e: BracketEntry, s: Standing) {
    && e.place.Some?
    && ((e.winner != 0 && s == Standing(e.winner, e.place.value))
        || (e.loser != 0 && s == Standing(e.loser, e.place.value + 1)))
  }

  predicate GivenBy(bracket: seq<BracketEntry>, s: Standing) {
    exists i :: 0 <= i < |bracket| && Gives(bracket[i], s)
  }

  predicate Distinct(standings: seq<Standing>) {
    forall i, j :: 0 <= i < j < |standings| ==>
      standings[i].place != standings[j].place && standings[i].rosterId != standings[j].rosterId
  }

  /** Two games can never claim the same place: their places are at least 2 apart. */
  predicate PlacesApart(bracket: seq<BracketEntry>) {
    forall i, j :: 0 <= i < j < |bracket| && bracket[i].place.Some? && bracket[j].place.Some? ==>
      bracket[i].place.value + 2 <= bracket[j].place.value || bracket[j].place.value + 2 <= bracket[i].place.value
  }

  predicate PlaysIn(e: BracketEntry, roster: int) {
    e.place.Some? && roster != 0 && (e.winner == roster || e.loser == roster)
  }

  /** No roster plays in two placement games, nor against itself. */
  ghost predicate RostersApart(bracket: seq<BracketEntry>) {
    && (forall i, j, r :: 0 <= i < j < |bracket| && PlaysIn(bracket[i], r) ==> !PlaysIn(bracket[j], r))
    && (forall i :: 0 <= i < |bracket| && bracket[i].place.Some? && bracket[i].winner != 0 ==> bracket[i].winner != bracket[i].loser)
  }

  function GameStandings(e: BracketEntry): seq<Standing> {
    if e.place.None? then [] else
      (if e.winner != 0 then [Standing(e.winner, e.place.value)] else [])
      + (if e.loser != 0 then [Standing(e.loser, e.place.value + 1)] else [])
  }

  function StandingsOf(bracket: seq<BracketEntry>): seq<Standing> {
    if bracket == [] then [] else
      StandingsOf(bracket[..|bracket| - 1]) + GameStandings(bracket[|bracket| - 1])
  }

  /** `GetFinalStandings`. */
  method GetFinalStandings(bracket: seq<BracketEntry>) returns (standings: seq<Standing>)
    ensures standings == StandingsOf(bracket)
  {
    standings := [];
    for n := 0 to |bracket|
      invariant standings == StandingsOf(bracket[..n])
    {
      assert bracket[..n + 1][..n] == bracket[..n];
      var entry := bracket[n];
      if entry.place.None? { continue; }
      if entry.winner != 0 {
        standings := standings + [Standing(entry.winner, entry.place.value)];
      }
      if entry.loser != 0 {
        standings := standings + [Standing(entry.loser, entry.place.value + 1)];
      }
    }
    assert bracket[..|bracket|] == bracket;
  }

  lemma GivenByLast(bracket: seq<BracketEntry>, s: Standing)
    requires bracket != []
    ensures GivenBy(bracket, s) <==> GivenBy(bracket[..|bracket| - 1], s) || Gives(bracket[|bracket| - 1], s)
  {
    var n := |bracket| - 1;
    if GivenBy(bracket[..n], s) {
      var i :| 0 <= i < n && Gives(bracket[..n][i], s);
      assert Gives(bracket[i], s);
    }
    if GivenBy(bracket, s) && !Gives(bracket[n], s) {
      var i :| 0 <= i < |bracket| && Gives(bracket[i], s);
      assert Gives(bracket[..n][i], s);
    }
  }

  lemma GameGives(e: BracketEntry, s: Standing)
    ensures s in GameStandings(e) <==> Gives(e, s)
  {
  }

  /** The standings are exactly those the games give. */
  lemma {:induction false} StandingsAreGiven(bracket: seq<BracketEntry>, s: Standing)
    ensures s in StandingsOf(bracket) <==> GivenBy(bracket, s)
  {
    if bracket != [] {
      StandingsAreGiven(bracket[..|bracket| - 1], s);
      GameGives(bracket[|bracket| - 1], s);
      GivenByLast(bracket, s);
    }
  }

  /** One position for each standing: the game it comes from; games keep their order, and a game's winner comes before its loser. */
  ghost predicate InGameOrder(bracket: seq<BracketEntry>, standings: seq<Standing>, origin: seq<nat>) {
    && |origin| == |standings|
    && (forall k :: 0 <= k < |standings| ==> origin[k] < |bracket| && Gives(bracket[origin[k]], standings[k]))
    && (forall j, k :: 0 <= j < k < |standings| ==>
          origin[j] < origin[k] || (origin[j] == origin[k] && k == j + 1 && standings[k].place == standings[j].place + 1))
  }

  /** The standings come game by game, each winner and each loser once, the winner first. */
  lemma {:induction false} StandingsInGameOrder(bracket: seq<BracketEntry>) returns (origin: seq<nat>)
    ensures InGameOrder(bracket, StandingsOf(bracket), origin)
  {
    origin := [];
    if bracket != [] {
      var n := |bracket| - 1;
      var before := StandingsInGameOrder(bracket[..n]);
      var game := GameStandings(bracket[n]);
      origin := before + seq(|game|, _ => n as nat);
      forall k | 0 <= k < |game| ensures Gives(bracket[n], game[k]) { GameGives(bracket[n], game[k]); }
      GameJoins(bracket, StandingsOf(bracket[..n]), before, game, origin);
    }
  }

  lemma GameJoins(bracket: seq<BracketEntry>, standings: seq<Standing>, before: seq<nat>, game: seq<Standing>, origin: seq<nat>)
    requires bracket != [] && InGameOrder(bracket[..|bracket| - 1], standings, before)
    requires |game| <= 2 && (|game| == 2 ==> game[1].place == game[0].place + 1)
    requires forall k :: 0 <= k < |game| ==> Gives(bracket[|bracket| - 1], game[k])
    requires origin == before + seq(|game|, _ => (|bracket| - 1) as nat)
    ensures InGameOrder(bracket, standings + game, origin)
  {
    var n := |bracket| - 1;
    forall k | 0 <= k < |standings + game| ensures origin[k] < |bracket| && Gives(bracket[origin[k]], (standings + game)[k]) {
      if k < |before| { assert Gives(bracket[..n][before[k]], standings[k]); }
    }
  }

  lemma DistinctConcat(a: seq<Standing>, b: seq<Standing>)
    requires Distinct(a) && Distinct(b)
    requires forall s, t :: s in a && t in b ==> s.place != t.place && s.rosterId != t.rosterId
    ensures Distinct(a + b)
  {
    forall i, j | 0 <= i < j < |a + b|
      ensures (a + b)[i].place != (a + b)[j].place && (a + b)[i].rosterId != (a + b)[j].rosterId
    {
      if i < |a| <= j { assert (a + b)[i] in a && (a + b)[j] in b; }
    }
  }

  /** Two games apart in places and rosters give different standings. */
  lemma GamesApart(bracket: seq<BracketEntry>, i: nat, j: nat, s: Standing, t: Standing)
    requires PlacesApart(bracket) && RostersApart(bracket)
    requires i < j < |bracket| && Gives(bracket[i], s) && Gives(bracket[j], t)
    ensures s.place != t.place && s.rosterId != t.rosterId
  {
    assert PlaysIn(bracket[i], s.rosterId) && PlaysIn(bracket[j], t.rosterId);
  }

  lemma FewerGamesApart(bracket: seq<BracketEntry>, n: nat)
    requires PlacesApart(bracket) && RostersApart(bracket) && n <= |bracket|
    ensures PlacesApart(bracket[..n]) && RostersApart(bracket[..n])
  {
    forall i, j, r | 0 <= i < j < n && PlaysIn(bracket[..n][i], r) ensures !PlaysIn(bracket[..n][j], r) {
      assert PlaysIn(bracket[i], r);
    }
  }

  /** When no two games compete for a place or a roster, all places and all rosters are different. */
  lemma {:induction false} StandingsDistinct(bracket: seq<BracketEntry>)
    requires PlacesApart(bracket) && RostersApart(bracket)
    ensures Distinct(StandingsOf(bracket))
  {
    if bracket != [] {
      var n := |bracket| - 1;
      FewerGamesApart(bracket, n);
      StandingsDistinct(bracket[..n]);
      forall s, t | s in StandingsOf(bracket[..n]) && t in GameStandings(bracket[n])
        ensures s.place != t.place && s.rosterId != t.rosterId
      {
        StandingsAreGiven(bracket[..n], s);
        GameGives(bracket[n], t);
        var i :| 0 <= i < n && Gives(bracket[..n][i], s);
        GamesApart(bracket, i, n, s, t);
      }
      DistinctConcat(StandingsOf(bracket[..n]), GameStandings(bracket[n]));
    }
  }

  // ---------- what a run resolves ----------

  /** The resolved payout is the one the standing calls for. */
  predicate Pays(entries: seq<PayoutEntry>, members: seq<Member>, s: Standing, r: Resolved) {
    var target := Target(entries, members, s);
    target.Some? && r.member == target.value.0 && r.amountCents == target.value.1.amountCents && r.place == s.place
  }

  /** The resolved payouts answer some of the standings, in order, each at most once. */
  predicate PicksFrom(entries: seq<PayoutEntry>, members: seq<Member>, standings: seq<Standing>, resolved: seq<Resolved>) {
    if standings == [] then resolved == [] else
      var n := |standings| - 1;
      || PicksFrom(entries, members, standings[..n], resolved)
      || (resolved != []
          && Pays(entries, members, standings[n], resolved[|resolved| - 1])
          && PicksFrom(entries, members, standings[..n], resolved[..|resolved| - 1]))
  }

  /** What every run of the machine has resolved so far. */
  predicate PicksInOrder(run: Run) {
    match run.pc
    case Resolving(i) => i <= |run.standings| && PicksFrom(run.structure, run.members, run.standings[..i], run.resolved)
    case AskPlatform => run.resolved == []
    case AskStandings => run.resolved == []
    case AskMembers => run.resolved == []
    case _ => PicksFrom(run.structure, run.members, run.standings, run.resolved)
  }

  lemma {:induction false} EmptyPicks(entries: seq<PayoutEntry>, members: seq<Member>, standings: seq<Standing>)
    ensures PicksFrom(entries, members, standings, [])
  {
    if standings != [] { EmptyPicks(entries, members, standings[..|standings| - 1]); }
  }

  /** The rest of the standings may all be passed over. */
  lemma {:induction false} PicksLater(run: Run, i: nat, j: nat)
    requires i <= j <= |run.standings| && PicksFrom(run.structure, run.members, run.standings[..i], run.resolved)
    ensures PicksFrom(run.structure, run.members, run.standings[..j], run.resolved)
  {
    if i < j {
      PicksLater(run, i, j - 1);
      assert run.standings[..j][..j - 1] == run.standings[..j - 1];
    }
  }

  lemma ResolveFromPicks(run: Run, next: nat, resolved: seq<Resolved>)
    requires next <= |run.standings|
    requires PicksFrom(run.structure, run.members, run.standings[..next], resolved)
    ensures PicksInOrder(ResolveFrom(run, next, resolved))
  {
    assert run.standings[..|run.standings|] == run.standings;
  }

  lemma ResolvingStepPicks(run: Run, reply: Reply, hit: bool)
    requires run.pc.Resolving? && PicksInOrder(run) && !reply.Crash?
    ensures PicksInOrder(AdvanceRun(run, reply, hit))
  {
    var i := run.pc.next;
    if i < |run.standings| {
      assert run.standings[..i + 1][..i] == run.standings[..i];
      PicksLater(run, i, i + 1);
      ResolveFromPicks(run, i + 1, run.resolved);
      if reply.EvmAddress? && reply.address.Some? && Target(run.structure, run.members, run.standings[i]).Some? {
        var (member, entry) := Target(run.structure, run.members, run.standings[i]).value;
        var r := Resolved(member, entry.amountCents, run.standings[i].place, reply.address.value);
        assert (run.resolved + [r])[..|run.resolved|] == run.resolved;
        ResolveFromPicks(run, i + 1, run.resolved + [r]);
      }
    }
  }

  lemma StepPicks(run: Run, reply: Reply, hit: bool)
    requires PicksInOrder(run)
    ensures PicksInOrder(AdvanceRun(run, reply, hit))
  {
    RunPicks(run);
    EmptyPicks(run.structure, run.members, run.standings);
    if run.pc.Resolving? && !reply.Crash? {
      ResolvingStepPicks(run, reply, hit);
    } else if run.pc.AskMembers? && reply.Members? && reply.members.Some? {
      ResolveFromPicks(run.(members := reply.members.value), 0, []);
    } else if run.pc.AskStandings? && reply.FinalStandings? && reply.standings.Some? {
      EmptyPicks(run.structure, run.members, reply.standings.value);
    }
  }

  /** Where a run has got to, its payouts answer its standings. */
  lemma RunPicks(run: Run)
    requires PicksInOrder(run)
    ensures PicksFrom(run.structure, run.members, run.standings, run.resolved)
  {
    EmptyPicks(run.structure, run.members, run.standings);
    if run.pc.Resolving? {
      PicksLater(run, run.pc.next, |run.standings|);
      assert run.standings[..|run.standings|] == run.standings;
    }
  }

  /** In every reachable state, every run has resolved only what its standings call for. */
  lemma {:induction false} EveryRunPicks(s: State, actions: seq<Action>, id: nat)
    requires Fresh(s) && id in AfterAll(s, actions).runs
    ensures PicksInOrder(AfterAll(s, actions).runs[id])
  {
    var before, last := actions[..|actions| - 1], actions[|actions| - 1];
    var t := AfterAll(s, before);
    if id in t.runs {
      EveryRunPicks(s, before, id);
      if last.Step? && last.run == id {
        StepPicks(t.runs[id], last.reply, Hit(t.shared.row, t.runs[id]));
      }
    }
  }

  // ---------- the budget ----------

  function SumResolved(resolved: seq<Resolved>): int {
    if resolved == [] then 0 else SumResolved(resolved[..|resolved| - 1]) + resolved[|resolved| - 1].amountCents
  }

  function SumEntries(entries: seq<PayoutEntry>): int {
    if entries == [] then 0 else SumEntries(entries[..|entries| - 1]) + entries[|entries| - 1].amountCents
  }

  predicate NonNegative(entries: seq<PayoutEntry>) {
    forall e :: e in entries ==> e.amountCents >= 0
  }

  /** Each place's amount. */
  function Budget(places: map<int, PayoutEntry>): map<int, nat>
    requires forall p :: p in places ==> places[p].amountCents >= 0
  {
    map p | p in places :: places[p].amountCents as nat
  }

  /** The rules by place never promise more than the entries they come from: a replaced entry is not paid. */
  lemma {:induction false} BudgetWithinEntries(entries: seq<PayoutEntry>)
    requires NonNegative(entries)
    ensures forall p :: p in PlaceToEntry(entries) ==> PlaceToEntry(entries)[p] in entries && PlaceToEntry(entries)[p].place == p
    ensures Total(Budget(PlaceToEntry(entries))) <= SumEntries(entries)
  {
    if entries == [] {
      assert Budget(PlaceToEntry(entries)) == map[];
    } else {
      var before, last := entries[..|entries| - 1], entries[|entries| - 1];
      assert entries == before + [last];
      BudgetWithinEntries(before);
      TotalUpdate(Budget(PlaceToEntry(before)), last.place, last.amountCents);
      assert Budget(PlaceToEntry(entries)) == Budget(PlaceToEntry(before))[last.place := last.amountCents as nat];
    }
  }

  /** Payouts with different places fit the budget. */
  lemma {:induction false} DistinctPlacesFit(budget: map<int, nat>, resolved: seq<Resolved>)
    requires forall k :: 0 <= k < |resolved| ==> resolved[k].place in budget && resolved[k].amountCents == budget[resolved[k].place]
    requires forall j, k :: 0 <= j < k < |resolved| ==> resolved[j].place != resolved[k].place
    ensures SumResolved(resolved) <= Total(budget)
  {
    if resolved != [] {
      var n := |resolved| - 1;
      TotalSplit(budget, resolved[n].place);
      DistinctPlacesFit(budget - {resolved[n].place}, resolved[..n]);
    }
  }

  predicate PaysSome(entries: seq<PayoutEntry>, members: seq<Member>, standings: seq<Standing>, r: Resolved) {
    exists i :: 0 <= i < |standings| && Pays(entries, members, standings[i], r)
  }

  lemma PaysSomeOfMore(entries: seq<PayoutEntry>, members: seq<Member>, standings: seq<Standing>, n: nat, r: Resolved)
    requires n <= |standings| && PaysSome(entries, members, standings[..n], r)
    ensures PaysSome(entries, members, standings, r)
  {
    var i :| 0 <= i < n && Pays(entries, members, standings[..n][i], r);
    assert Pays(entries, members, standings[i], r);
  }

  lemma {:induction false} PicksPayStandings(entries: seq<PayoutEntry>, members: seq<Member>, standings: seq<Standing>, resolved: seq<Resolved>, k: nat)
    requires PicksFrom(entries, members, standings, resolved) && k < |resolved|
    ensures PaysSome(entries, members, standings, resolved[k])
  {
    var n, m := |standings| - 1, |resolved| - 1;
    if PicksFrom(entries, members, standings[..n], resolved) {
      PicksPayStandings(entries, members, standings[..n], resolved, k);
      PaysSomeOfMore(entries, members, standings, n, resolved[k]);
    } else if k < m {
      PicksPayStandings(entries, members, standings[..n], resolved[..m], k);
      PaysSomeOfMore(entries, members, standings, n, resolved[k]);
    } else {
      assert Pays(entries, members, standings[n], resolved[k]);
    }
  }

  /** Distinct places among the standings give distinct places among the payouts. */
  lemma {:induction false} PicksDistinct(entries: seq<PayoutEntry>, members: seq<Member>, standings: seq<Standing>, resolved: seq<Resolved>)
    requires PicksFrom(entries, members, standings, resolved) && Distinct(standings)
    ensures forall j, k :: 0 <= j < k < |resolved| ==>
              resolved[j].place != resolved[k].place && resolved[j].member.rosterId != resolved[k].member.rosterId
  {
    MembersKeepRoster(members);
    if standings != [] {
      var n := |standings| - 1;
      if PicksFrom(entries, members, standings[..n], resolved) {
        PicksDistinct(entries, members, standings[..n], resolved);
      } else {
        var m := |resolved| - 1;
        PicksDistinct(entries, members, standings[..n], resolved[..m]);
        forall j | 0 <= j < m
          ensures resolved[j].place != resolved[m].place && resolved[j].member.rosterId != resolved[m].member.rosterId
        {
          PicksPayStandings(entries, members, standings[..n], resolved[..m], j);
          var i :| 0 <= i < n && Pays(entries, members, standings[..n][i], resolved[..m][j]);
          assert standings[i].place != standings[n].place && standings[i].rosterId != standings[n].rosterId;
        }
      }
    }
  }

  lemma MembersKeepRoster(members: seq<Member>)
    ensures forall r :: r in MemberByRoster(members) ==> MemberByRoster(members)[r].rosterId == r
  {
    forall r | r in MemberByRoster(members) ensures MemberByRoster(members)[r].rosterId == r {
      LatestIsLast(members, RosterOf, r);
    }
  }

  /**
   Bracket to budget: in every reachable state of every interleaving, a run that settles a league
   with non-negative placement amounts from a bracket whose games do not compete for places or
   rosters pays each place and each roster at most once, in all at most the sum of the placement entries.
   */
  lemma PaysWithinBudget(s: State, actions: seq<Action>, id: nat, bracket: seq<BracketEntry>)
    requires Fresh(s) && id in AfterAll(s, actions).runs
    requires PlacesApart(bracket) && RostersApart(bracket)
    requires AfterAll(s, actions).runs[id].standings == StandingsOf(bracket)
    requires NonNegative(Placements(AfterAll(s, actions).runs[id].structure))
    ensures var run := AfterAll(s, actions).runs[id];
            && (forall j, k :: 0 <= j < k < |run.resolved| ==>
                  run.resolved[j].place != run.resolved[k].place && run.resolved[j].member.rosterId != run.resolved[k].member.rosterId)
            && SumResolved(run.resolved) <= SumEntries(Placements(run.structure))
  {
    var run := AfterAll(s, actions).runs[id];
    var entries := Placements(run.structure);
    EveryRunPicks(s, actions, id);
    StandingsDistinct(bracket);
    BudgetWithinEntries(entries);
    RunPicks(run);
    PicksDistinct(run.structure, run.members, run.standings, run.resolved);
    forall k | 0 <= k < |run.resolved|
      ensures run.resolved[k].place in PlaceToEntry(entries) && run.resolved[k].amountCents == PlaceToEntry(entries)[run.resolved[k].place].amountCents
    {
      PicksPayStandings(run.structure, run.members, run.standings, run.resolved, k);
    }
    DistinctPlacesFit(Budget(PlaceToEntry(entries)), run.resolved);
  }

  /** What is sent for payouts in cents that are non-negative and together fit int64 micro-USDC. */
  lemma {:induction false} AmountsSum(resolved: seq<Resolved>)
    requires forall k :: 0 <= k < |resolved| ==> resolved[k].amountCents >= 0
    requires SumResolved(resolved) <= MAX_CENTS
    ensures 0 <= SumOf(Amounts(resolved)) == MICRO_PER_CENT * SumResolved(resolved)
    ensures forall k :: 0 <= k < |resolved| ==> Amounts(resolved)[k] == MICRO_PER_CENT * resolved[k].amountCents
  {
    if resolved != [] {
      var n := |resolved| - 1;
      NonNegativeSum(resolved[..n]);
      AmountsSum(resolved[..n]);
      MicroInRange(resolved[n].amountCents);
      assert Amounts(resolved)[..n] == Amounts(resolved[..n]);
      assert forall k :: 0 <= k < n ==> Amounts(resolved)[k] == Amounts(resolved[..n])[k];
    }
  }

  lemma MicroInRange(cents: int)
    requires 0 <= cents <= MAX_CENTS
    ensures ToMicro(cents) == MICRO_PER_CENT * cents
  {
  }

  lemma {:induction false} NonNegativeSum(resolved: seq<Resolved>)
    requires forall k :: 0 <= k < |resolved| ==> resolved[k].amountCents >= 0
    ensures SumResolved(resolved) >= 0
  {
    if resolved != [] { NonNegativeSum(resolved[..|resolved| - 1]); }
  }

  /**
   What is sent: in every reachable state in which a payout has been sent, by a run on such a bracket
   and with placement amounts that fit int64 micro-USDC, the amounts on the chain are 10_000 times the
   cents owed, total at most 10_000 times the placement entries, and each entry of the payout is for
   a different place and a different roster.
   */
  lemma SendsWithinBudget(s: State, actions: seq<Action>, id: nat, bracket: seq<BracketEntry>)
    requires Fresh(s) && PaidBy(AfterAll(s, actions), id)
    requires PlacesApart(bracket) && RostersApart(bracket)
    requires AfterAll(s, actions).runs[id].standings == StandingsOf(bracket)
    requires NonNegative(Placements(AfterAll(s, actions).runs[id].structure))
    requires SumEntries(Placements(AfterAll(s, actions).runs[id].structure)) <= MAX_CENTS
    ensures var t := AfterAll(s, actions);
            var run, amounts := t.runs[id], t.shared.sent[0].amounts;
            && |t.shared.sent| == 1 && |amounts| == |run.resolved|
            && SumOf(amounts) <= MICRO_PER_CENT * SumEntries(Placements(run.structure))
            && (forall k :: 0 <= k < |amounts| ==> amounts[k] == MICRO_PER_CENT * run.resolved[k].amountCents)
            && (forall j, k :: 0 <= j < k < |amounts| ==>
                  run.resolved[j].place != run.resolved[k].place && run.resolved[j].member.rosterId != run.resolved[k].member.rosterId)
  {
    var run := AfterAll(s, actions).runs[id];
    PaysWithinBudget(s, actions, id, bracket);
    OwedNonNegative(s, actions, id);
    AmountsSum(run.resolved);
  }

  lemma OwedNonNegative(s: State, actions: seq<Action>, id: nat)
    requires Fresh(s) && id in AfterAll(s, actions).runs
    requires NonNegative(Placements(AfterAll(s, actions).runs[id].structure))
    ensures forall k :: 0 <= k < |AfterAll(s, actions).runs[id].resolved| ==> AfterAll(s, actions).runs[id].resolved[k].amountCents >= 0
  {
    var run := AfterAll(s, actions).runs[id];
    EveryRunPicks(s, actions, id);
    RunPicks(run);
    BudgetWithinEntries(Placements(run.structure));
    forall k | 0 <= k < |run.resolved| ensures run.resolved[k].amountCents >= 0 {
      PicksPayStandings(run.structure, run.members, run.standings, run.resolved, k);
    }
  }
}
