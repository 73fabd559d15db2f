/** Whom a standing pays: what the lookup maps of a settlement contain, and that every winner is found. */
module SeasonEndTargets {
  import opened Wrappers
  import opened Lists
  import opened League
  import opened SeasonEnd
  import opened SeasonEndProgress

  /** Position i holds the last member listed with that roster. */
  predicate LastMember(members: seq<Member>, roster: int, i: int) {
    && 0 <= i < |members| && members[i].rosterId == roster
    && forall j :: i < j < |members| ==> members[j].rosterId != roster
  }

  /** Position i holds the last placement rule for that place. */
  predicate LastRule(entries: seq<PayoutEntry>, place: int, i: int) {
    && 0 <= i < |entries| && entries[i].kind == Placement && entries[i].place == place
    && forall j :: i < j < |entries| && entries[j].kind == Placement ==> entries[j].place != place
  }

  /** A roster is in the map exactly when some member has it, and leads to the last such member. */
  lemma MemberByRosterExactly(members: seq<Member>, roster: int)
    ensures roster in MemberByRoster(members) <==> exists i :: 0 <= i < |members| && members[i].rosterId == roster
    ensures roster in MemberByRoster(members) ==>
              exists i :: LastMember(members, roster, i) && MemberByRoster(members)[roster] == members[i]
    ensures forall i :: LastMember(members, roster, i) ==>
              roster in MemberByRoster(members) && MemberByRoster(members)[roster] == members[i]
  {
    LatestIsLast(members, RosterOf, roster);
    forall i ensures IsLast(members, RosterOf, roster, i) <==> LastMember(members, roster, i) {
    }
    if exists i :: 0 <= i < |members| && members[i].rosterId == roster {
      var i :| 0 <= i < |members| && members[i].rosterId == roster;
      assert RosterOf(members[i]) == roster;
    }
  }

  /** Placements keeps the placement rules, all of them and in order. */
  lemma PlacementsExactly(entries: seq<PayoutEntry>) returns (origin: seq<nat>)
    ensures |origin| == |Placements(entries)|
    ensures forall k :: 0 <= k < |origin| ==> origin[k] < |entries| && Placements(entries)[k] == entries[origin[k]]
    ensures forall j, k :: 0 <= j < k < |origin| ==> origin[j] < origin[k]
    ensures forall i :: 0 <= i < |entries| ==> (entries[i].kind == Placement <==> i in origin)
  {
    origin := FilterSelects(entries, IsPlacement);
  }

  /** The last rule for a place among the placement rules is the last one among all entries. */
  lemma LastOfPlacements(entries: seq<PayoutEntry>, place: int, k: int)
    ensures IsLast(Placements(entries), PlaceOf, place, k) ==> exists i :: LastRule(entries, place, i) && entries[i] == Placements(entries)[k]
  {
    if IsLast(Placements(entries), PlaceOf, place, k) {
      var origin := PlacementsExactly(entries);
      var i := origin[k];
      forall j | i < j < |entries| && entries[j].kind == Placement ensures entries[j].place != place {
        assert j in origin;
        var m :| 0 <= m < |origin| && origin[m] == j;
        assert k < m && PlaceOf(Placements(entries)[m]) != place;
      }
      assert i in origin && LastRule(entries, place, i);
    }
  }

  /** A place is in the map exactly when some placement entry has it, and leads to the last such entry. */
  lemma PlaceToEntryExactly(entries: seq<PayoutEntry>, place: int)
    ensures place in PlaceToEntry(Placements(entries)) <==>
              exists i :: 0 <= i < |entries| && entries[i].kind == Placement && entries[i].place == place
    ensures place in PlaceToEntry(Placements(entries)) ==>
              exists i :: LastRule(entries, place, i) && PlaceToEntry(Placements(entries))[place] == entries[i]
    ensures forall i :: LastRule(entries, place, i) ==>
              place in PlaceToEntry(Placements(entries)) && PlaceToEntry(Placements(entries))[place] == entries[i]
  {
    var ps := Placements(entries);
    LatestIsLast(ps, PlaceOf, place);
    if place in PlaceToEntry(ps) {
      var k :| IsLast(ps, PlaceOf, place, k) && PlaceToEntry(ps)[place] == ps[k];
      LastOfPlacements(entries, place, k);
    }
    if exists i :: 0 <= i < |entries| && entries[i].kind == Placement && entries[i].place == place {
      var i :| 0 <= i < |entries| && entries[i].kind == Placement && entries[i].place == place;
      FilterKeeps(entries, IsPlacement, entries[i]);
      var k :| 0 <= k < |ps| && ps[k] == entries[i];
      assert PlaceOf(ps[k]) == place;
    }
    forall i, j | LastRule(entries, place, i) && LastRule(entries, place, j) ensures i == j {
    }
  }

  // ---------- targets ----------

  /** The standing pays that member under that rule: the last member with its roster, who has a wallet, and the last placement rule for its place. */
  ghost predicate Wins(entries: seq<PayoutEntry>, members: seq<Member>, s: Standing, member: Member, entry: PayoutEntry) {
    && (exists i :: LastMember(members, s.rosterId, i) && members[i] == member)
    && (exists i :: LastRule(entries, s.place, i) && entries[i] == entry)
    && member.wallet != ""
  }

  lemma TargetExactly(entries: seq<PayoutEntry>, members: seq<Member>, s: Standing)
    ensures forall member, entry :: Target(entries, members, s) == Some((member, entry)) <==> Wins(entries, members, s, member, entry)
  {
    MemberByRosterExactly(members, s.rosterId);
    PlaceToEntryExactly(entries, s.place);
  }

  /** The payout is what the standing wins. */
  ghost predicate WonBy(g: GoodWorld, structure: seq<PayoutEntry>, s: Standing, r: Resolved) {
    exists entry ::
      && Wins(structure, g.members, s, r.member, entry)
      && r == Resolved(r.member, entry.amountCents, s.place, g.addressOf(r.member.wallet))
  }

  ghost predicate WinsSomething(g: GoodWorld, structure: seq<PayoutEntry>, s: Standing) {
    exists member, entry :: Wins(structure, g.members, s, member, entry)
  }

  /** The payouts answer the standings at the positions `origin`: all that win something, in order, each with what it wins. */
  ghost predicate PaysWinners(g: GoodWorld, structure: seq<PayoutEntry>, n: nat, resolved: seq<Resolved>, origin: seq<nat>)
    requires n <= |g.standings|
  {
    && |origin| == |resolved|
    && (forall k :: 0 <= k < |origin| ==> origin[k] < n && WonBy(g, structure, g.standings[origin[k]], resolved[k]))
    && (forall j, k :: 0 <= j < k < |origin| ==> origin[j] < origin[k])
    && (forall i :: 0 <= i < n ==> (WinsSomething(g, structure, g.standings[i]) <==> i in origin))
  }

  lemma {:induction false} ResolvedPaysWinners(g: GoodWorld, structure: seq<PayoutEntry>, n: nat) returns (origin: seq<nat>)
    requires n <= |g.standings|
    ensures PaysWinners(g, structure, n, ResolvedIn(g, structure, n), origin)
  {
    origin := [];
    if n != 0 {
      origin := ResolvedPaysWinners(g, structure, n - 1);
      var s := g.standings[n - 1];
      TargetExactly(structure, g.members, s);
      var target := Target(structure, g.members, s);
      if target.Some? {
        var (member, entry) := target.value;
        assert Wins(structure, g.members, s, member, entry);
        assert WonBy(g, structure, s, Resolved(member, entry.amountCents, s.place, g.addressOf(member.wallet)));
        origin := origin + [n - 1];
      } else {
        assert !WinsSomething(g, structure, s) by {
          forall member, entry ensures !Wins(structure, g.members, s, member, entry) {
            assert Target(structure, g.members, s) != Some((member, entry));
          }
        }
      }
    }
  }

  /** Without a placement rule nobody wins anything. */
  lemma NoRuleNoWinner(g: GoodWorld, structure: seq<PayoutEntry>, s: Standing)
    requires Placements(structure) == []
    ensures !WinsSomething(g, structure, s)
  {
    var origin := PlacementsExactly(structure);
  }

  /**
   In a good world exactly the winners are paid: one payout for each standing whose place has a placement
   rule and whose roster has a member with a wallet, in the order of the standings, to the last such
   member, with the amount of the last such rule, at the address of that member's wallet.
   */
  lemma PrizesPayWinners(g: GoodWorld, row: Row)
    ensures exists origin :: PaysWinners(g, row.structure, |g.standings|, Prizes(g, row), origin)
  {
    if Placements(row.structure) == [] {
      forall i | 0 <= i < |g.standings| ensures !WinsSomething(g, row.structure, g.standings[i]) {
        NoRuleNoWinner(g, row.structure, g.standings[i]);
      }
      var origin: seq<nat> := [];
      assert PaysWinners(g, row.structure, |g.standings|, Prizes(g, row), origin);
    } else {
      var origin := ResolvedPaysWinners(g, row.structure, |g.standings|);
      assert PaysWinners(g, row.structure, |g.standings|, Prizes(g, row), origin);
    }
  }

  // ---------- what is recorded ----------

  /** Position k holds the last payout to that roster. */
  predicate LastPayout(resolved: seq<Resolved>, roster: int, k: int) {
    && 0 <= k < |resolved| && resolved[k].member.rosterId == roster
    && forall j :: k < j < |resolved| ==> resolved[j].member.rosterId != roster
  }

  /** Every roster paid has its last payout on record, with place, amount and hash, and every other record is as it was. */
  ghost predicate Records(before: map<int, Record>, after: map<int, Record>, resolved: seq<Resolved>, hash: string, roster: int) {
    if exists k :: LastPayout(resolved, roster, k)
    then roster in after && exists k :: LastPayout(resolved, roster, k) && after[roster] == Record(resolved[k].place, resolved[k].amountCents, hash)
    else (roster in after <==> roster in before) && (roster in before ==> after[roster] == before[roster])
  }

  lemma {:induction false} RecordsOfPayouts(before: map<int, Record>, resolved: seq<Resolved>, n: nat, hash: string, roster: int)
    requires n <= |resolved|
    ensures Records(before, WithRecords(before, resolved, n, hash), resolved[..n], hash, roster)
  {
    if n != 0 {
      var m := n - 1;
      RecordsOfPayouts(before, resolved, m, hash, roster);
      assert resolved[..n] == resolved[..m] + [resolved[m]];
      if resolved[m].member.rosterId == roster {
        assert LastPayout(resolved[..n], roster, m);
      } else {
        forall k ensures LastPayout(resolved[..n], roster, k) <==> LastPayout(resolved[..m], roster, k) {
          if LastPayout(resolved[..n], roster, k) { assert k < m; }
        }
      }
    }
  }

  /**
   A season end that goes well: the league is complete and executed with the chain's hash, one call has
   paid exactly the winners, and each paid roster has its place and amount on record under that hash.
   */
  lemma WinnersArePaidAndRecorded(s: State, id: nat, g: GoodWorld, roster: int)
    requires id in s.runs && s.runs[id] == NewRun(s.shared.row) && s.shared.row.payout == Pending
    requires g.platform == Complete && g.chain.Accepted?
    requires Prizes(g, s.shared.row) != [] && Payable(g, s.shared.row.id, Prizes(g, s.shared.row))
    ensures var t, prizes := Drive(s, id, g).shared, Prizes(g, s.shared.row);
            && t.row == s.shared.row.(status := Complete, payout := Executed, txHash := Some(g.chain.hash))
            && t.sent == s.shared.sent + [Sent(Recipients(prizes), Amounts(prizes), g.chain)]
            && (exists origin :: PaysWinners(g, s.shared.row.structure, |g.standings|, prizes, origin))
            && Records(s.shared.records, t.records, prizes, g.chain.hash, roster)
  {
    var prizes := Prizes(g, s.shared.row);
    SettlementCompletes(s, id, g);
    PrizesPayWinners(g, s.shared.row);
    RecordsOfPayouts(s.shared.records, prizes, |prizes|, g.chain.hash, roster);
    assert prizes[..|prizes|] == prizes;
  }
}
