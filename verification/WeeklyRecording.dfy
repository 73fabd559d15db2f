/** Who earns a weekly bonus, and which payout events a run records for them. */
module WeeklyRecording {
  import opened Wrappers
  import opened Lists
  import opened League
  import opened SeasonEnd
  import opened SeasonEndTargets

  // ---------- qualifiers ----------

  /** The first matchup with the highest positive points among the first n. */
  function Best(ms: seq<Matchup>, n: nat): (best: Option<nat>)
    requires n <= |ms|
    ensures best.Some? ==> best.value < n
  {
    if n == 0 then None else
      var best := Best(ms, n - 1);
      if ms[n - 1].points <= 0.0 then best
      else if best.None? || ms[n - 1].points > ms[best.value].points then Some(n - 1)
      else best
  }

  /** It is a maximum, it is positive, and it is the earliest such. */
  lemma {:induction false} BestIsFirstMaximum(ms: seq<Matchup>, n: nat)
    requires n <= |ms|
    ensures match Best(ms, n)
            case None => forall i :: 0 <= i < n ==> ms[i].points <= 0.0
            case Some(b) =>
              && ms[b].points > 0.0
              && (forall i :: 0 <= i < n ==> ms[i].points <= ms[b].points)
              && (forall i :: 0 <= i < b ==> ms[i].points < ms[b].points)
  {
    if n != 0 { BestIsFirstMaximum(ms, n - 1); }
  }

  method HighScorer(matchups: seq<Matchup>) returns (winner: seq<Matchup>)
    ensures winner == HighScorers(matchups)
  {
    var best: Option<nat> := None;
    for i := 0 to |matchups|
      invariant best == Best(matchups, i)
    {
      if matchups[i].points <= 0.0 { continue; }
      if best.None? || matchups[i].points > matchups[best.value].points {
        best := Some(i);
      }
    }
    if best.None? { return []; }
    return [matchups[best.value]];
  }

  function HighScorers(matchups: seq<Matchup>): seq<Matchup> {
    match Best(matchups, |matchups|)
    case None => []
    case Some(b) => [matchups[b]]
  }

  /** The matchups with at least the threshold's points, in order. */
  function AtLeast(ms: seq<Matchup>, threshold: real): seq<Matchup> {
    Filter(ms, Reaches(threshold))
  }

  function Reaches(threshold: real): Matchup -> bool {
    (m: Matchup) => m.points >= threshold
  }

  method ThresholdScorers(matchups: seq<Matchup>, threshold: real) returns (result: seq<Matchup>)
    ensures result == AtLeast(matchups, threshold)
  {
    result := [];
    for i := 0 to |matchups|
      invariant result == AtLeast(matchups[..i], threshold)
    {
      FilterNext(matchups, Reaches(threshold), i);
      if matchups[i].points >= threshold { result := result + [matchups[i]]; }
    }
    assert matchups[..|matchups|] == matchups;
  }

  /** Bye weeks have matchup id 0. */
  predicate IsActive(m: Matchup) {
    m.matchupId > 0
  }

  function ActiveMatchups(ms: seq<Matchup>): seq<Matchup> {
    Filter(ms, IsActive)
  }

  function WeeklyQualifiers(matchups: seq<Matchup>, entry: PayoutEntry): seq<Matchup> {
    match entry.bonus
    case WeeklyHighScore => HighScorers(matchups)
    case ScoreThreshold =>
      (match entry.threshold
       case None => []
       case Some(t) => AtLeast(matchups, t))
    case OtherBonus(_) => []
  }

  /** Threshold bonuses: exactly the teams that played and reached the threshold, if one is set. */
  lemma ThresholdQualifiers(ms: seq<Matchup>, entry: PayoutEntry, m: Matchup)
    requires entry.bonus.ScoreThreshold?
    ensures m in WeeklyQualifiers(ActiveMatchups(ms), entry) <==>
            m in ms && m.matchupId > 0 && entry.threshold.Some? && m.points >= entry.threshold.value
  {
    FilterKeeps(ms, IsActive, m);
    if entry.threshold.Some? { FilterKeeps(ActiveMatchups(ms), Reaches(entry.threshold.value), m); }
  }

  /** High-score bonus: one team with a positive maximum among those that played, unless nobody scored. */
  lemma HighScoreQualifier(ms: seq<Matchup>, entry: PayoutEntry)
    requires entry.bonus.WeeklyHighScore?
    ensures var qs := WeeklyQualifiers(ActiveMatchups(ms), entry);
            && |qs| <= 1
            && (qs == [] ==> forall o :: o in ms && o.matchupId > 0 ==> o.points <= 0.0)
            && (qs != [] ==> qs[0] in ms && qs[0].matchupId > 0 && qs[0].points > 0.0
                             && forall o :: o in ms && o.matchupId > 0 ==> o.points <= qs[0].points)
  {
    var active := ActiveMatchups(ms);
    BestIsFirstMaximum(active, |active|);
    var best := Best(active, |active|);
    if best.Some? { FilterKeeps(ms, IsActive, active[best.value]); }
    forall o | o in ms && o.matchupId > 0
      ensures o.points <= if best.None? then 0.0 else active[best.value].points
    {
      FilterKeeps(ms, IsActive, o);
    }
  }

  // ---------- the event table ----------

  /** The table's uniqueness constraint. */
  datatype Key = Key(league: string, week: int, roster: int, bonus: BonusType)

  /** `executed` holds the transaction hash once the event is paid. */
  datatype Event = Event(userId: string, points: real, amountCents: int, wallet: string, executed: Option<string>)

  type Table = map<Key, Event>

  /** What one run knows when it records. */
  datatype Week = Week(league: string, number: int, entries: seq<PayoutEntry>, matchups: seq<Matchup>, members: seq<Member>)

  function KeyOf(w: Week, entry: PayoutEntry, m: Matchup): Key {
    Key(w.league, w.number, m.rosterId, entry.bonus)
  }

  predicate HasWallet(w: Week, roster: int) {
    roster in MemberByRoster(w.members) && MemberByRoster(w.members)[roster].wallet != ""
  }

  function NewEvent(w: Week, entry: PayoutEntry, m: Matchup): Event
    requires HasWallet(w, m.rosterId)
  {
    var member := MemberByRoster(w.members)[m.rosterId];
    Event(member.platformUserId, m.points, entry.amountCents, member.wallet, None)
  }

  /** `INSERT ... ON CONFLICT DO NOTHING` for each of the first n qualifiers with a member and a wallet. */
  function InsertQualifiers(w: Week, rows: Table, entry: PayoutEntry, qualifiers: seq<Matchup>, n: nat): Table
    requires n <= |qualifiers|
  {
    if n == 0 then rows else
      var before, m := InsertQualifiers(w, rows, entry, qualifiers, n - 1), qualifiers[n - 1];
      if HasWallet(w, m.rosterId) && KeyOf(w, entry, m) !in before then before[KeyOf(w, entry, m) := NewEvent(w, entry, m)] else before
  }

  /** The same for each of the first n entries. */
  function InsertEntries(w: Week, rows: Table, n: nat): Table
    requires n <= |w.entries|
  {
    if n == 0 then rows else
      var qualifiers := WeeklyQualifiers(ActiveMatchups(w.matchups), w.entries[n - 1]);
      InsertQualifiers(w, InsertEntries(w, rows, n - 1), w.entries[n - 1], qualifiers, |qualifiers|)
  }

  // ---------- the set specification ----------

  /** The matchup at position j qualifies: played, and at the threshold, or the first of the highest positive scores among those played. */
  predicate Qualifies(ms: seq<Matchup>, entry: PayoutEntry, j: int) {
    && 0 <= j < |ms| && ms[j].matchupId > 0
    && match entry.bonus
       case ScoreThreshold => entry.threshold.Some? && ms[j].points >= entry.threshold.value
       case WeeklyHighScore =>
         && ms[j].points > 0.0
         && (forall i :: 0 <= i < |ms| && ms[i].matchupId > 0 ==> ms[i].points <= ms[j].points)
         && (forall i :: 0 <= i < j && ms[i].matchupId > 0 ==> ms[i].points < ms[j].points)
       case OtherBonus(_) => false
  }

  /** The qualifiers of an entry are exactly the matchups that qualify. */
  lemma QualifiersExactly(ms: seq<Matchup>, entry: PayoutEntry, m: Matchup)
    ensures m in WeeklyQualifiers(ActiveMatchups(ms), entry) <==> exists j :: Qualifies(ms, entry, j) && ms[j] == m
  {
    match entry.bonus {
      case ScoreThreshold =>
        ThresholdQualifiers(ms, entry, m);
        if m in WeeklyQualifiers(ActiveMatchups(ms), entry) {
          var j :| 0 <= j < |ms| && ms[j] == m;
          assert Qualifies(ms, entry, j);
        }
      case WeeklyHighScore =>
        if m in WeeklyQualifiers(ActiveMatchups(ms), entry) {
          var j := HighScorePosition(ms, entry);
        }
        if j :| Qualifies(ms, entry, j) && ms[j] == m {
          HighScoreFound(ms, entry, j);
        }
      case OtherBonus(_) =>
    }
  }

  /** The high scorer stands at a position that qualifies. */
  lemma HighScorePosition(ms: seq<Matchup>, entry: PayoutEntry) returns (j: nat)
    requires entry.bonus.WeeklyHighScore? && HighScorers(ActiveMatchups(ms)) != []
    ensures Qualifies(ms, entry, j) && HighScorers(ActiveMatchups(ms)) == [ms[j]]
  {
    var active := ActiveMatchups(ms);
    var origin := FilterSelects(ms, IsActive);
    BestIsFirstMaximum(active, |active|);
    var b := Best(active, |active|).value;
    j := origin[b];
    forall i | 0 <= i < |ms| && ms[i].matchupId > 0 ensures ms[i].points <= ms[j].points && (i < j ==> ms[i].points < ms[j].points) {
      assert IsActive(ms[i]) && i in origin;
      var k :| 0 <= k < |origin| && origin[k] == i;
      assert active[k] == ms[i];
      assert b < k ==> j < i;
    }
    assert j in origin && IsActive(ms[j]);
  }

  /** And a position that qualifies holds the high scorer. */
  lemma HighScoreFound(ms: seq<Matchup>, entry: PayoutEntry, j: nat)
    requires entry.bonus.WeeklyHighScore? && Qualifies(ms, entry, j)
    ensures HighScorers(ActiveMatchups(ms)) == [ms[j]]
  {
    var active := ActiveMatchups(ms);
    FilterKeeps(ms, IsActive, ms[j]);
    BestIsFirstMaximum(active, |active|);
    if Best(active, |active|).Some? {
      var i := HighScorePosition(ms, entry);
      assert i == j;
    }
  }

  /** The roster belongs to a member with a wallet. */
  ghost predicate WalletListed(members: seq<Member>, roster: int) {
    exists i :: LastMember(members, roster, i) && members[i].wallet != ""
  }

  lemma HasWalletExactly(w: Week, roster: int)
    ensures HasWallet(w, roster) <==> WalletListed(w.members, roster)
  {
    MemberByRosterExactly(w.members, roster);
  }

  /** The entry earns the event: its bonus type is the key's, and a qualifying matchup is of the key's roster, whose member has a wallet. */
  ghost predicate Earns(w: Week, entry: PayoutEntry, k: Key) {
    && k.league == w.league && k.week == w.number && k.bonus == entry.bonus && WalletListed(w.members, k.roster)
    && exists j :: Qualifies(w.matchups, entry, j) && w.matchups[j].rosterId == k.roster
  }

  /** The event has the entry's amount, the points of a qualifying matchup of the roster, user and wallet of the roster's last member, and is unpaid. */
  ghost predicate EventFor(w: Week, entry: PayoutEntry, k: Key, ev: Event) {
    && (exists j :: Qualifies(w.matchups, entry, j) && w.matchups[j].rosterId == k.roster && ev.points == w.matchups[j].points)
    && (exists i :: LastMember(w.members, k.roster, i) && ev.userId == w.members[i].platformUserId && ev.wallet == w.members[i].wallet)
    && ev.amountCents == entry.amountCents && ev.executed == None
  }

  /** What is inserted for a qualifier is that event. */
  lemma InsertedIsEventFor(w: Week, entry: PayoutEntry, m: Matchup)
    requires m in WeeklyQualifiers(ActiveMatchups(w.matchups), entry) && HasWallet(w, m.rosterId)
    ensures EventFor(w, entry, KeyOf(w, entry, m), NewEvent(w, entry, m))
  {
    QualifiersExactly(w.matchups, entry, m);
    MemberByRosterExactly(w.members, m.rosterId);
  }

  /** In terms of the list of qualifiers. */
  lemma EarnsByQualifier(w: Week, entry: PayoutEntry, k: Key)
    ensures var qs := WeeklyQualifiers(ActiveMatchups(w.matchups), entry);
            Earns(w, entry, k) <==>
            k.league == w.league && k.week == w.number && k.bonus == entry.bonus && HasWallet(w, k.roster)
            && exists i :: 0 <= i < |qs| && qs[i].rosterId == k.roster
  {
    var qs := WeeklyQualifiers(ActiveMatchups(w.matchups), entry);
    HasWalletExactly(w, k.roster);
    if j :| Qualifies(w.matchups, entry, j) && w.matchups[j].rosterId == k.roster {
      QualifiersExactly(w.matchups, entry, w.matchups[j]);
      var i :| 0 <= i < |qs| && qs[i] == w.matchups[j];
    }
    if exists i :: 0 <= i < |qs| && qs[i].rosterId == k.roster {
      var i :| 0 <= i < |qs| && qs[i].rosterId == k.roster;
      QualifiersExactly(w.matchups, entry, qs[i]);
    }
  }

  /** Index of the first of the first n entries that earns the event. */
  ghost function FirstEarning(w: Week, n: nat, k: Key): (first: Option<nat>)
    requires n <= |w.entries|
    ensures first.Some? ==> first.value < n && Earns(w, w.entries[first.value], k) && forall i :: 0 <= i < first.value ==> !Earns(w, w.entries[i], k)
    ensures first.None? ==> forall i :: 0 <= i < n ==> !Earns(w, w.entries[i], k)
  {
    if n == 0 then None
    else if FirstEarning(w, n - 1, k).Some? then FirstEarning(w, n - 1, k)
    else if Earns(w, w.entries[n - 1], k) then Some(n - 1)
    else None
  }

  /** Inserting one entry's qualifiers adds exactly the events it earns that were not there. */
  lemma {:induction false} QualifiersInserted(w: Week, rows: Table, entry: PayoutEntry, n: nat, k: Key)
    requires n <= |WeeklyQualifiers(ActiveMatchups(w.matchups), entry)|
    ensures var qs := WeeklyQualifiers(ActiveMatchups(w.matchups), entry);
            var after := InsertQualifiers(w, rows, entry, qs, n);
            && (k in rows ==> k in after && after[k] == rows[k])
            && (k !in rows ==> (k in after <==> k.league == w.league && k.week == w.number && k.bonus == entry.bonus && HasWallet(w, k.roster)
                                                && exists i :: 0 <= i < n && qs[i].rosterId == k.roster))
            && (k !in rows && k in after ==> EventFor(w, entry, k, after[k]))
  {
    if n != 0 {
      QualifiersInserted(w, rows, entry, n - 1, k);
      var m := WeeklyQualifiers(ActiveMatchups(w.matchups), entry)[n - 1];
      if HasWallet(w, m.rosterId) { InsertedIsEventFor(w, entry, m); }
    }
  }

  /**
   Weekly recording meets its set specification: after the insert loop, the events are the old ones
   unchanged, plus one for each key not yet there that some entry earns, with the amount of the first
   such entry in payout order, and nothing else.
   */
  lemma {:induction false} RecordingSpecification(w: Week, rows: Table, n: nat, k: Key)
    requires n <= |w.entries|
    ensures var after := InsertEntries(w, rows, n);
            && (k in rows ==> k in after && after[k] == rows[k])
            && (k !in rows ==> (k in after <==> exists i :: 0 <= i < n && Earns(w, w.entries[i], k)))
            && (k !in rows && k in after ==>
                  FirstEarning(w, n, k).Some? && EventFor(w, w.entries[FirstEarning(w, n, k).value], k, after[k]))
  {
    if n != 0 {
      RecordingSpecification(w, rows, n - 1, k);
      var entry := w.entries[n - 1];
      var qs := WeeklyQualifiers(ActiveMatchups(w.matchups), entry);
      QualifiersInserted(w, InsertEntries(w, rows, n - 1), entry, |qs|, k);
      EarnsByQualifier(w, entry, k);
    }
  }

  /** Old events stay as they are; a new one is earned, and is the one of the first entry that earns it. */
  ghost predicate RowIsEarned(w: Week, before: Table, after: Table, k: Key) {
    && (k in before ==> k in after && after[k] == before[k])
    && (k in after && k !in before ==>
          FirstEarning(w, |w.entries|, k).Some? && EventFor(w, w.entries[FirstEarning(w, |w.entries|, k).value], k, after[k]))
  }

  lemma {:induction false} FirstEarningStays(w: Week, m: nat, n: nat, k: Key)
    requires m <= n <= |w.entries| && FirstEarning(w, m, k).Some?
    ensures FirstEarning(w, n, k) == FirstEarning(w, m, k)
  {
    if m < n { FirstEarningStays(w, m, n - 1, k); }
  }

  /** A loop stopped after i entries has only recorded earned events. */
  lemma StoppedBetweenEntries(w: Week, before: Table, i: nat, k: Key)
    requires i <= |w.entries|
    ensures RowIsEarned(w, before, InsertEntries(w, before, i), k)
  {
    RecordingSpecification(w, before, i, k);
    if FirstEarning(w, i, k).Some? { FirstEarningStays(w, i, |w.entries|, k); }
  }

  /** So has one stopped after j qualifiers of the next entry. */
  lemma StoppedWithinEntry(w: Week, before: Table, i: nat, j: nat, k: Key)
    requires i < |w.entries| && j <= |WeeklyQualifiers(ActiveMatchups(w.matchups), w.entries[i])|
    ensures RowIsEarned(w, before,
              InsertQualifiers(w, InsertEntries(w, before, i), w.entries[i], WeeklyQualifiers(ActiveMatchups(w.matchups), w.entries[i]), j), k)
  {
    var qs := WeeklyQualifiers(ActiveMatchups(w.matchups), w.entries[i]);
    StoppedBetweenEntries(w, before, i, k);
    RecordingSpecification(w, before, i, k);
    QualifiersInserted(w, InsertEntries(w, before, i), w.entries[i], j, k);
    if k !in InsertEntries(w, before, i) && exists n :: 0 <= n < j && qs[n].rosterId == k.roster {
      EarnsByQualifier(w, w.entries[i], k);
      if Earns(w, w.entries[i], k) { FirstEarningStays(w, i + 1, |w.entries|, k); }
    }
  }
}
