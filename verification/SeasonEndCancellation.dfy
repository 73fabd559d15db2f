/** What a cancellation does to settlements under way, and when a cancelled league is still paid. */
module SeasonEndCancellation {
  import opened Wrappers
  import opened Bytes
  import opened Int64
  import opened League
  import opened LeagueId
  import opened SeasonEnd
  import opened SeasonEndSafety
  import opened SeasonEndProgress

  // ---------- a settlement under way never notices ----------

  predicate StepsOnly(actions: seq<Action>) {
    forall k :: 0 <= k < |actions| ==> actions[k].Step?
  }

  function WithCancelled(s: Shared, cancelled: bool): Shared {
    s.(row := s.row.(cancelled := cancelled))
  }

  /** No call of a run reads or writes the cancellation. */
  lemma CallIgnoresCancelled(s: Shared, run: Run, reply: Reply, cancelled: bool)
    ensures AdvanceShared(WithCancelled(s, cancelled), run, reply) == WithCancelled(AdvanceShared(s, run, reply), cancelled)
    ensures Hit(WithCancelled(s, cancelled).row, run) == Hit(s.row, run)
  {
  }

  lemma CancelCommutes(s: State, a: Action)
    requires a.Step?
    ensures After(After(s, Cancel), a) == After(After(s, a), Cancel)
  {
    if a.run in s.runs { CallIgnoresCancelled(s.shared, s.runs[a.run], a.reply, true); }
  }

  /** After its selection a settlement never notices a cancellation: cancelling before its steps or after them makes no difference. */
  lemma {:induction false} CancelNeverMatters(s: State, steps: seq<Action>)
    requires StepsOnly(steps)
    ensures AfterAll(After(s, Cancel), steps) == After(AfterAll(s, steps), Cancel)
  {
    if steps != [] {
      CancelNeverMatters(s, steps[..|steps| - 1]);
      CancelCommutes(AfterAll(s, steps[..|steps| - 1]), steps[|steps| - 1]);
    }
  }

  // ---------- when a cancelled league is still paid ----------

  predicate ReactivateFree(actions: seq<Action>) {
    forall k :: 0 <= k < |actions| ==> !actions[k].Reactivate?
  }

  /** Somewhere among the standings from position i on there is one with a rule, a member and a wallet. */
  predicate TargetAhead(run: Run, i: nat) {
    exists j :: i <= j < |run.standings| && Target(run.structure, run.members, run.standings[j]).Some?
  }

  /** There may still be something to pay: a rule, a place with a rule, a target, or something resolved, by how far the run has got. */
  predicate SomethingAhead(run: Run) {
    match run.pc
    case AskPlatform => Placements(run.structure) != []
    case AskStandings => Placements(run.structure) != []
    case AskMembers => exists j :: 0 <= j < |run.standings| && run.standings[j].place in PlaceToEntry(Placements(run.structure))
    case Resolving(i) => run.resolved != [] || TargetAhead(run, i)
    case _ => false
  }

  /** The run may still send a payout. */
  predicate CouldSend(s: Shared, run: Run) {
    match run.pc
    case Distributing => true
    case AskBalance => s.row.payout == Pending
    case Claiming => s.row.payout == Pending
    case _ => s.row.payout == Pending && UuidToBytes32(run.id).Ok? && SomethingAhead(run)
  }

  ghost predicate NobodyCouldSend(s: State) {
    forall i :: i in s.runs ==> !CouldSend(s.shared, s.runs[i])
  }

  /** The standings loop never runs past its end. */
  predicate IndexInRange(run: Run) {
    run.pc.Resolving? ==> run.pc.next < |run.standings|
  }

  /** Going on in the standings loop brings no chance of a payout that was not there. */
  lemma ResolveFromCannotSend(s: Shared, run: Run, i: nat, resolved: seq<Resolved>)
    requires CouldSend(s, ResolveFrom(run, i, resolved))
    ensures s.row.payout == Pending && UuidToBytes32(run.id).Ok? && (resolved != [] || TargetAhead(run, i))
  {
    var next := ResolveFrom(run, i, resolved);
    if i < |run.standings| && resolved == [] {
      var j :| i <= j < |next.standings| && Target(next.structure, next.members, next.standings[j]).Some?;
      assert Target(run.structure, run.members, run.standings[j]).Some?;
    }
  }

  /** Whoever resolves something has a rule for the place. */
  lemma TargetHasRule(entries: seq<PayoutEntry>, members: seq<Member>, s: Standing)
    requires Target(entries, members, s).Some?
    ensures s.place in PlaceToEntry(Placements(entries))
  {
  }

  /** Inside the standings loop. */
  lemma ResolvingCannotSend(s: Shared, run: Run, reply: Reply)
    requires run.pc.Resolving? && run.pc.next < |run.standings| && !CouldSend(s, run)
    ensures !CouldSend(s, AdvanceRun(run, reply, true))
  {
    var i := run.pc.next;
    var next := AdvanceRun(run, reply, true);
    if CouldSend(s, next) && next != run {
      assert Target(run.structure, run.members, run.standings[i]).Some? ==> TargetAhead(run, i);
      if reply.Skip? {
        ResolveFromCannotSend(s, run, i + 1, run.resolved);
      }
    }
  }

  /** Before it. */
  lemma EarlyCannotSend(s: Shared, run: Run, reply: Reply)
    requires run.pc.AskPlatform? || run.pc.AskStandings? || run.pc.AskMembers?
    requires !CouldSend(s, run)
    ensures !CouldSend(s, AdvanceRun(run, reply, true))
  {
    if run.pc.AskMembers? && reply.Members? && reply.members.Some? && CouldSend(s, AdvanceRun(run, reply, true)) {
      var r := run.(members := reply.members.value);
      ResolveFromCannotSend(s, r, 0, []);
      var j :| 0 <= j < |r.standings| && Target(r.structure, r.members, r.standings[j]).Some?;
      TargetHasRule(r.structure, r.members, r.standings[j]);
    }
    if run.pc.AskStandings? && reply.FinalStandings? && reply.standings.Some? && Placements(run.structure) == [] {
      assert PlaceToEntry([]) == map[];
    }
  }

  /** A run that could not send sends nothing and still cannot. */
  lemma StepCannotSend(s: Shared, run: Run, reply: Reply)
    requires RunInOrder(s, run) && IndexInRange(run) && !CouldSend(s, run)
    ensures AdvanceShared(s, run, reply).sent == s.sent
    ensures !CouldSend(AdvanceShared(s, run, reply), AdvanceRun(run, reply, Hit(s.row, run)))
  {
    if run.pc.AskPlatform? || run.pc.AskStandings? || run.pc.AskMembers? {
      EarlyCannotSend(s, run, reply);
    } else if run.pc.Resolving? {
      ResolvingCannotSend(s, run, reply);
    }
  }

  /** Nobody else's step gives a run the chance: a league that is not pending stays so. */
  lemma OthersGiveNoChance(s: Shared, run: Run, reply: Reply, other: Run)
    requires !CouldSend(s, other)
    ensures !CouldSend(AdvanceShared(s, run, reply), other)
  {
    assert AdvanceShared(s, run, reply).row.payout == Pending ==> s.row.payout == Pending;
  }

  ghost predicate AllInRange(s: State) {
    forall i :: i in s.runs ==> IndexInRange(s.runs[i])
  }

  lemma IndexStaysInRange(s: State, a: Action)
    requires AllInRange(s)
    ensures AllInRange(After(s, a))
  {
    if a.Step? && a.run in s.runs {
      assert IndexInRange(AdvanceRun(s.runs[a.run], a.reply, Hit(s.shared.row, s.runs[a.run])));
    }
  }

  /** Cancelled, and nobody could send. */
  ghost predicate Idle(s: State) {
    InOrder(s) && AllInRange(s) && s.shared.row.cancelled && NobodyCouldSend(s)
  }

  lemma IdleStepStays(s: State, i: nat, reply: Reply)
    requires Idle(s) && i in s.runs
    ensures NobodyCouldSend(After(s, Step(i, reply))) && After(s, Step(i, reply)).shared.sent == s.shared.sent
  {
    var t := After(s, Step(i, reply));
    assert RunInOrder(s.shared, s.runs[i]) && IndexInRange(s.runs[i]);
    StepCannotSend(s.shared, s.runs[i], reply);
    forall j | j in t.runs && j != i ensures !CouldSend(t.shared, t.runs[j]) {
      OthersGiveNoChance(s.shared, s.runs[i], reply, s.runs[j]);
    }
  }

  lemma IdleStays(s: State, a: Action)
    requires Idle(s) && !a.Reactivate?
    ensures Idle(After(s, a)) && After(s, a).shared.sent == s.shared.sent
  {
    ActionKeeps(s, a);
    IndexStaysInRange(s, a);
    if a.Step? {
      if a.run in s.runs { IdleStepStays(s, a.run, a.reply); }
    } else {
      assert forall i :: i in s.runs && !CouldSend(s.shared, s.runs[i]) ==> !CouldSend(After(s, a).shared, s.runs[i]);
    }
  }

  lemma {:induction false} IdleForGood(s: State, actions: seq<Action>)
    requires Idle(s) && ReactivateFree(actions)
    ensures Idle(AfterAll(s, actions)) && AfterAll(s, actions).shared.sent == s.shared.sent
  {
    if actions != [] {
      IdleForGood(s, actions[..|actions| - 1]);
      IdleStays(AfterAll(s, actions[..|actions| - 1]), actions[|actions| - 1]);
    }
  }

  // ---------- the other half: a run that could send does, if its calls go well ----------

  /** A member with a wallet for that roster, or a standing for that rule. */
  function SomeMember(roster: int): Member {
    Member(roster, "user", "wallet")
  }

  function SomeAddress(): Address {
    Address(Zeros(20))
  }

  /** The first standing with a rule. */
  function FirstRuled(run: Run): nat
    requires run.pc.AskMembers? && SomethingAhead(run)
    ensures FirstRuled(run) < |run.standings| && run.standings[FirstRuled(run)].place in PlaceToEntry(Placements(run.structure))
  {
    FirstRuledFrom(run.standings, PlaceToEntry(Placements(run.structure)), 0)
  }

  function FirstRuledFrom(standings: seq<Standing>, rules: map<int, PayoutEntry>, i: nat): (j: nat)
    requires exists j :: i <= j < |standings| && standings[j].place in rules
    ensures i <= j < |standings| && standings[j].place in rules
    decreases |standings| - i
  {
    if standings[i].place in rules then i else FirstRuledFrom(standings, rules, i + 1)
  }

  /** Some place with a rule. */
  function RuledPlace(entries: seq<PayoutEntry>): int
    requires entries != []
  {
    entries[|entries| - 1].place
  }

  /** An answer that brings a run closer to sending. */
  function HelpfulReply(s: Shared, run: Run): Reply
    requires CouldSend(s, run)
  {
    match run.pc
    case AskPlatform => PlatformStatus(Some(Complete))
    case AskStandings => FinalStandings(Some([Standing(1, RuledPlace(Placements(run.structure)))]))
    case AskMembers => Members(Some([SomeMember(run.standings[FirstRuled(run)].rosterId)]))
    case Resolving(i) =>
      if i < |run.standings| && Target(run.structure, run.members, run.standings[i]).Some? then EvmAddress(Some(SomeAddress())) else Skip
    case AskBalance => EscrowBalance(Some(TotalPayout(run.resolved)))
    case Distributing => Chain(Rejected)
    case _ => Database(Committed)
  }

  lemma ResolveFromCouldSend(s: Shared, run: Run, i: nat, resolved: seq<Resolved>)
    requires s.row.payout == Pending && UuidToBytes32(run.id).Ok? && (resolved != [] || TargetAhead(run, i))
    ensures CouldSend(s, ResolveFrom(run, i, resolved))
  {
    if i < |run.standings| && resolved == [] {
      var next := ResolveFrom(run, i, resolved);
      var j :| i <= j < |run.standings| && Target(run.structure, run.members, run.standings[j]).Some?;
      assert Target(next.structure, next.members, next.standings[j]).Some?;
    }
  }

  lemma ResolvingHelped(s: Shared, run: Run)
    requires run.pc.Resolving? && run.pc.next < |run.standings| && CouldSend(s, run)
    ensures CouldSend(s, AdvanceRun(run, HelpfulReply(s, run), true))
  {
    var i := run.pc.next;
    if Target(run.structure, run.members, run.standings[i]).Some? {
      var (member, entry) := Target(run.structure, run.members, run.standings[i]).value;
      ResolveFromCouldSend(s, run, i + 1, run.resolved + [Resolved(member, entry.amountCents, run.standings[i].place, SomeAddress())]);
    } else {
      if run.resolved == [] {
        var j :| i <= j < |run.standings| && Target(run.structure, run.members, run.standings[j]).Some?;
        assert i + 1 <= j && TargetAhead(run, i + 1);
      }
      ResolveFromCouldSend(s, run, i + 1, run.resolved);
    }
  }

  lemma MembersHelped(s: Shared, run: Run)
    requires run.pc.AskMembers? && CouldSend(s, run)
    ensures CouldSend(s, AdvanceRun(run, HelpfulReply(s, run), true))
  {
    var j := FirstRuled(run);
    var member := SomeMember(run.standings[j].rosterId);
    var r := run.(members := [member]);
    assert MemberByRoster([member][..0]) == map[] && MemberByRoster([member]) == map[member.rosterId := member];
    assert Target(r.structure, r.members, r.standings[j]).Some?;
    ResolveFromCouldSend(s, r, 0, []);
  }

  lemma StandingsHelped(s: Shared, run: Run)
    requires run.pc.AskStandings? && CouldSend(s, run)
    ensures CouldSend(s, AdvanceRun(run, HelpfulReply(s, run), true))
  {
    var entries := Placements(run.structure);
    var next := AdvanceRun(run, HelpfulReply(s, run), true);
    assert RuledPlace(entries) in PlaceToEntry(entries);
    assert next.standings[0].place in PlaceToEntry(entries);
  }

  /** Each such answer keeps the chance, until the run sends. */
  lemma HelpedKeepsChance(s: Shared, run: Run)
    requires IndexInRange(run) && CouldSend(s, run) && !run.pc.Distributing?
    ensures var t := AdvanceShared(s, run, HelpfulReply(s, run));
            CouldSend(t, AdvanceRun(run, HelpfulReply(s, run), Hit(s.row, run))) && t.sent == s.sent
  {
    if run.pc.Resolving? {
      ResolvingHelped(s, run);
    } else if run.pc.AskMembers? {
      MembersHelped(s, run);
    } else if run.pc.AskStandings? {
      StandingsHelped(s, run);
    }
  }

  /** And it brings the run closer. */
  lemma HelpedCloser(s: Shared, run: Run)
    requires IndexInRange(run) && CouldSend(s, run) && !run.pc.Distributing?
    ensures var next := AdvanceRun(run, HelpfulReply(s, run), Hit(s.row, run));
            && IndexInRange(next)
            && (Stage(next) < Stage(run) || (Stage(next) == Stage(run) && Distance(next) < Distance(run)))
  {
  }

  lemma Helped(s: State, i: nat)
    requires i in s.runs && IndexInRange(s.runs[i]) && CouldSend(s.shared, s.runs[i]) && !s.runs[i].pc.Distributing?
    ensures var t := After(s, Step(i, HelpfulReply(s.shared, s.runs[i])));
            && CouldSend(t.shared, t.runs[i]) && IndexInRange(t.runs[i]) && t.shared.sent == s.shared.sent
            && (Stage(t.runs[i]) < Stage(s.runs[i]) || (Stage(t.runs[i]) == Stage(s.runs[i]) && Distance(t.runs[i]) < Distance(s.runs[i])))
  {
    HelpedKeepsChance(s.shared, s.runs[i]);
    HelpedCloser(s.shared, s.runs[i]);
  }

  lemma {:induction false} SendsIfHelped(s: State, i: nat) returns (steps: seq<Action>)
    requires i in s.runs && IndexInRange(s.runs[i]) && CouldSend(s.shared, s.runs[i])
    ensures StepsOnly(steps) && AfterAll(s, steps).shared.sent != s.shared.sent
    decreases Stage(s.runs[i]), Distance(s.runs[i])
  {
    var first := Step(i, HelpfulReply(s.shared, s.runs[i]));
    AfterPush(s, [], first);
    assert [] + [first] == [first];
    if s.runs[i].pc.Distributing? {
      steps := [first];
      assert |After(s, first).shared.sent| == |s.shared.sent| + 1;
    } else {
      Helped(s, i);
      var rest := SendsIfHelped(After(s, first), i);
      steps := [first] + rest;
      RunsJoin(s, [first], rest);
    }
  }

  // ---------- the exact condition ----------

  lemma {:induction false} EveryIndexInRange(s: State, actions: seq<Action>)
    requires Fresh(s)
    ensures AllInRange(AfterAll(s, actions))
  {
    if actions != [] {
      EveryIndexInRange(s, actions[..|actions| - 1]);
      IndexStaysInRange(AfterAll(s, actions[..|actions| - 1]), actions[|actions| - 1]);
    }
  }

  /** Some course of events that does not reactivate the league sends a payout. */
  ghost predicate MayStillBePaid(s: State) {
    exists actions :: ReactivateFree(actions) && AfterAll(s, actions).shared.sent != s.shared.sent
  }

  /**
   When a cancelled league is still paid: in every reachable state in which the league is cancelled, some
   course of events without a reactivation sends a payout exactly when some settlement under way holds
   the claim unsent, or may still win it with something to pay.
   */
  lemma CancelledIsPaidExactly(s: State, earlier: seq<Action>)
    requires Fresh(s) && AfterAll(s, earlier).shared.row.cancelled
    ensures var t := AfterAll(s, earlier);
            MayStillBePaid(t) <==> exists i :: i in t.runs && CouldSend(t.shared, t.runs[i])
  {
    var t := AfterAll(s, earlier);
    EveryRunInOrder(s, earlier);
    EveryIndexInRange(s, earlier);
    if i :| i in t.runs && CouldSend(t.shared, t.runs[i]) {
      assert IndexInRange(t.runs[i]);
      var steps := SendsIfHelped(t, i);
      assert ReactivateFree(steps);
    } else {
      forall actions | ReactivateFree(actions) ensures AfterAll(t, actions).shared.sent == t.shared.sent {
        IdleForGood(t, actions);
      }
    }
  }

  /** In particular a league cancelled while no settlement is under way is not paid until it is reactivated. */
  lemma {:induction false} CancelledInTimeIsNotPaid(s: State, earlier: seq<Action>, later: seq<Action>)
    requires Fresh(s) && ReactivateFree(later)
    requires forall i :: i in AfterAll(s, earlier).runs ==> AfterAll(s, earlier).runs[i].pc.Finished? || AfterAll(s, earlier).runs[i].pc.Crashed?
    ensures AfterAll(After(AfterAll(s, earlier), Cancel), later).shared.sent == AfterAll(s, earlier).shared.sent
  {
    var t := AfterAll(s, earlier);
    EveryRunInOrder(s, earlier);
    EveryIndexInRange(s, earlier);
    ActionKeeps(t, Cancel);
    IndexStaysInRange(t, Cancel);
    assert forall i :: i in t.runs && (t.runs[i].pc.Finished? || t.runs[i].pc.Crashed?) ==> !CouldSend(After(t, Cancel).shared, t.runs[i]);
    IdleForGood(After(t, Cancel), later);
  }

  /** Driving a run to its end is a run of the machine made of its own steps. */
  lemma {:induction false} DriveIsRun(s: State, id: nat, g: GoodWorld) returns (steps: seq<Action>)
    requires id in s.runs && AtWork(g, s.runs[id])
    ensures StepsOnly(steps) && AfterAll(s, steps) == Drive(s, id, g)
    decreases Stage(s.runs[id]), Distance(s.runs[id])
  {
    var run := s.runs[id];
    if run.pc.Finished? || run.pc.Crashed? {
      steps := [];
    } else {
      GoodStepCloser(g, run, Hit(s.shared.row, run));
      var first := Step(id, GoodReply(g, run));
      var rest := DriveIsRun(After(s, first), id, g);
      steps := [first] + rest;
      AfterPush(s, [], first);
      assert [] + [first] == [first];
      RunsJoin(s, [first], rest);
    }
  }

  /**
   Cancelled and still paid: every league that a settlement would pay is paid just the same when it is
   cancelled right after its selection.
   */
  lemma CancelledIsStillPaid(s: State, id: nat, g: GoodWorld) returns (steps: seq<Action>)
    requires Fresh(s) && SelectedForSeasonEnd(s.shared.row) && g.platform == Complete
    requires Payable(g, s.shared.row.id, Prizes(g, s.shared.row)) && Prizes(g, s.shared.row) != [] && g.chain.Accepted?
    ensures StepsOnly(steps)
    ensures var t, prizes := AfterAll(After(After(s, StartRun(id)), Cancel), steps), Prizes(g, s.shared.row);
            && t.shared.row.cancelled && t.shared.row.payout == Executed
            && t.shared.sent == [Sent(Recipients(prizes), Amounts(prizes), g.chain)]
  {
    var t := After(s, StartRun(id));
    SettlementCompletes(t, id, g);
    steps := DriveIsRun(t, id, g);
    CancelNeverMatters(t, steps);
  }

  /** One prize of 100 cents for the first place, and a world that pays it. */
  const OnePrize := [PayoutEntry(Placement, OtherBonus(""), 1, 100, None)]

  function OneWinner(to: Address): GoodWorld {
    GoodWorld(Complete, [Standing(1, 1)], [Member(1, "user", "wallet")], (wallet: string) => to, 1_000_000, Accepted("hash"))
  }

  /** For instance: a cancelled league that sends one USDC. */
  lemma OneWinnerIsPaid(s: State, id: nat, to: Address) returns (steps: seq<Action>)
    requires Fresh(s) && SelectedForSeasonEnd(s.shared.row)
    requires UuidToBytes32(s.shared.row.id).Ok? && s.shared.row.structure == OnePrize
    ensures var t := AfterAll(After(After(s, StartRun(id)), Cancel), steps);
            t.shared.row.cancelled && t.shared.sent == [Sent([to], [1_000_000], Accepted("hash"))]
  {
    var g := OneWinner(to);
    OneWinnerPrizes(s.shared.row, to);
    steps := CancelledIsStillPaid(s, id, g);
  }

  lemma OneWinnerPrizes(row: Row, to: Address)
    requires row.structure == OnePrize
    ensures var prizes := Prizes(OneWinner(to), row);
            && Recipients(prizes) == [to] && Amounts(prizes) == [1_000_000] && TotalPayout(prizes) == 1_000_000
  {
    var g := OneWinner(to);
    var member, entry := g.members[0], OnePrize[0];
    assert Placements(OnePrize[..0]) == [];
    assert Placements(OnePrize) == OnePrize;
    assert PlaceToEntry(OnePrize[..0]) == map[] && PlaceToEntry(OnePrize) == map[1 := entry];
    assert MemberByRoster(g.members[..0]) == map[] && MemberByRoster(g.members) == map[1 := member];
    assert Target(OnePrize, g.members, g.standings[0]) == Some((member, entry));
    assert ResolvedIn(g, OnePrize, 0) == [];
    assert ResolvedIn(g, OnePrize, 1) == [Resolved(member, 100, 1, to)];
    assert WrappedSum(Amounts(Prizes(g, row)), 0) == 0;
  }
}
