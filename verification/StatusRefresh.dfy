/** Which status the refresh stores, and the loop that applies it to a list of leagues. */
module StatusRefresh {
  import opened Wrappers
  import opened Lists
  import opened League

  function Rank(s: Status): Option<nat> {
    match s
    case PreDraft => Some(0)
    case Drafting => Some(1)
    case InSeason => Some(2)
    case PostSeason => Some(2)
    case Complete => Some(3)
    case _ => None
  }

  function Canonical(s: Status): Status {
    match s
    case PostSeason => InSeason
    case Complete => InSeason
    case _ => s
  }

  /** A stored NULL counts as pre_draft. */
  function Effective(stored: Status): Status {
    if stored.Unset? then PreDraft else stored
  }

  /** The status to store and whether an update is needed. */
  function NextLeagueStatus(stored: Status, platform: Status): (Status, bool) {
    var storedRank := Rank(Effective(stored));
    if storedRank.None? then (stored, false)
    else if Effective(stored).PostSeason? then
      if Rank(platform).Some? && Rank(platform).value >= storedRank.value then (InSeason, true) else (stored, false)
    else
      var target := Canonical(platform);
      if Rank(target).None? || Rank(target).value <= storedRank.value then (stored, false) else (target, true)
  }

  /** A league that has not got beyond drafting order is reported as drafting. */
  predicate ToDrafting(stored: Status, platform: Status) {
    (stored == Unset || stored == PreDraft) && platform == Drafting
  }

  /** A league not yet stored as in season, nor complete, is reported as in season or beyond. */
  predicate ToInSeason(stored: Status, platform: Status) {
    && (stored == Unset || stored == PreDraft || stored == Drafting || stored == PostSeason)
    && (platform == InSeason || platform == PostSeason || platform == Complete)
  }

  /** Every update there is: to drafting or to in season, and nothing else is ever written. */
  lemma UpdatesExactly(stored: Status, platform: Status)
    ensures NextLeagueStatus(stored, platform) ==
            if ToDrafting(stored, platform) then (Drafting, true)
            else if ToInSeason(stored, platform) then (InSeason, true)
            else (stored, false)
  {
  }

  // ---------- many reports ----------

  /** The stored status after the reports have been applied one after the other. */
  function AfterReports(stored: Status, reports: seq<Status>): Status {
    if reports == [] then stored else
      NextLeagueStatus(AfterReports(stored, reports[..|reports| - 1]), reports[|reports| - 1]).0
  }

  /** The highest known rank reported; None when no report is known. */
  function HighestRank(reports: seq<Status>): Option<nat> {
    if reports == [] then None else
      match (HighestRank(reports[..|reports| - 1]), Rank(reports[|reports| - 1]))
      case (Some(a), Some(b)) => Some(if a < b then b else a)
      case (None, r) => r
      case (h, None) => h
  }

  /** The status that stands for a rank the refresh may store. */
  function StatusOf(rank: nat): Status {
    if rank == 0 then PreDraft else if rank == 1 then Drafting else InSeason
  }

  /** The refresh in one step: the maximum of the stored rank and the highest reported one, capped at in_season. */
  function Maximum(stored: Status, highest: Option<nat>): Status {
    match (Rank(Effective(stored)), highest)
    case (Some(r), Some(h)) =>
      var capped := if h > 2 then 2 else h;
      if capped > r || (stored.PostSeason? && h >= 2) then StatusOf(capped) else stored
    case _ => stored
  }

  /** Any sequence of reports amounts to that one step. */
  lemma {:induction false} RefreshIsMaximum(stored: Status, reports: seq<Status>)
    ensures AfterReports(stored, reports) == Maximum(stored, HighestRank(reports))
  {
    if reports != [] {
      RefreshIsMaximum(stored, reports[..|reports| - 1]);
    }
  }

  predicate SomeReport(reports: seq<Status>, condition: Status -> bool) {
    exists i :: 0 <= i < |reports| && condition(reports[i])
  }

  lemma OneMoreReport(before: seq<Status>, last: Status, condition: Status -> bool)
    ensures SomeReport(before + [last], condition) <==> SomeReport(before, condition) || condition(last)
  {
    if i :| 0 <= i < |before| && condition(before[i]) { assert condition((before + [last])[i]); }
    if condition(last) { assert condition((before + [last])[|before|]); }
  }

  /**
   In the order pre_draft < drafting < in_season: the highest report counts. Any report of in season or
   beyond takes a league short of it to in_season; failing that, a report of drafting takes a league short
   of that to drafting; otherwise the stored status stays.
   */
  lemma {:induction false} HighestReportCounts(stored: Status, reports: seq<Status>)
    ensures AfterReports(stored, reports) ==
            if SomeReport(reports, p => ToInSeason(stored, p)) then InSeason
            else if SomeReport(reports, p => ToDrafting(stored, p)) then Drafting
            else stored
  {
    if reports != [] {
      var before, last := reports[..|reports| - 1], reports[|reports| - 1];
      HighestReportCounts(stored, before);
      UpdatesExactly(AfterReports(stored, before), last);
      OneMoreReport(before, last, p => ToInSeason(stored, p));
      OneMoreReport(before, last, p => ToDrafting(stored, p));
      assert reports == before + [last];
    }
  }

  /** A rank is the highest exactly when it is reported and no known report exceeds it. */
  lemma {:induction false} HighestRankIsMaximum(reports: seq<Status>)
    ensures match HighestRank(reports)
            case None => forall s :: s in reports ==> Rank(s).None?
            case Some(h) => (exists s :: s in reports && Rank(s) == Some(h))
                            && forall s :: s in reports && Rank(s).Some? ==> Rank(s).value <= h
  {
    if reports != [] {
      var before, last := reports[..|reports| - 1], reports[|reports| - 1];
      HighestRankIsMaximum(before);
      assert reports == before + [last];
    }
  }

  /** Order and repetition do not matter: the same set of reports stores the same status, and a report repeated changes nothing. */
  lemma ReportOrderIrrelevant(stored: Status, a: seq<Status>, b: seq<Status>)
    requires forall s :: s in a <==> s in b
    ensures AfterReports(stored, a) == AfterReports(stored, b)
  {
    RefreshIsMaximum(stored, a);
    RefreshIsMaximum(stored, b);
    HighestRankIsMaximum(a);
    HighestRankIsMaximum(b);
    if HighestRank(a).Some? && HighestRank(b).Some? {
      var s :| s in a && Rank(s) == HighestRank(a);
      var t :| t in b && Rank(t) == HighestRank(b);
      assert s in b && t in a;
    }
  }

  /** How many updates a refresh can still make to a row. */
  function UpdatesLeft(s: Status): nat {
    match s
    case Unset => 2
    case PreDraft => 2
    case Drafting => 1
    case PostSeason => 1
    case _ => 0
  }

  /** Every update moves forward, never to complete, and uses up one of the updates left. */
  lemma UpdateMovesForward(stored: Status, platform: Status)
    ensures var (next, update) := NextLeagueStatus(stored, platform);
            if update then
              && Rank(next).Some? && Rank(Effective(stored)).Some?
              && Rank(Effective(stored)).value <= Rank(next).value <= 2
              && next != stored && UpdatesLeft(next) < UpdatesLeft(stored)
            else next == stored
  {
  }

  // ---------- the loops ----------

  datatype RefreshLeague = RefreshLeague(id: string, platform: string, season: string, status: Status)

  /** A league survives when its platform's current season is known and is the league's own. */
  function InCurrentSeason(seasonByPlatform: map<string, string>): RefreshLeague -> bool {
    (l: RefreshLeague) => l.platform in seasonByPlatform && l.season == seasonByPlatform[l.platform]
  }

  /** Keeps exactly the current-season leagues, each as often as it occurs and in order. */
  method FilterCurrentSeasonLeagues(leagues: seq<RefreshLeague>, seasonByPlatform: map<string, string>)
    returns (kept: seq<RefreshLeague>)
    ensures exists origin :: Selects(leagues, InCurrentSeason(seasonByPlatform), kept, origin)
  {
    kept := [];
    ghost var origin: seq<nat> := [];
    for i := 0 to |leagues|
      invariant Selects(leagues[..i], InCurrentSeason(seasonByPlatform), kept, origin)
    {
      var l := leagues[i];
      if l.platform !in seasonByPlatform {
      } else if l.season != seasonByPlatform[l.platform] {
      } else {
        kept, origin := kept + [l], origin + [i];
      }
    }
    assert leagues[..|leagues|] == leagues;
  }

  /** The status column of the leagues table. */
  class StatusTable {
    var status: map<string, Status>

    /** `UPDATE leagues SET status = new WHERE id = id AND COALESCE(status, '') = old`, as the database answers it. */
    method Update(id: string, oldStatus: Status, newStatus: Status, write: Write) returns (changed: bool, error: bool)
      modifies this
      ensures status == if id in old(status) && old(status)[id] == oldStatus && write != NotCommitted
                        then old(status)[id := newStatus] else old(status)
      ensures error <==> write != Committed
      ensures changed <==> !error && id in old(status) && old(status)[id] == oldStatus
    {
      error := write != Committed;
      changed := false;
      if id in status && status[id] == oldStatus && write != NotCommitted {
        status := status[id := newStatus];
        changed := !error;
      }
    }
  }

  /** League i's row is matched by the update its report calls for. */
  predicate Matched(rows: map<string, Status>, leagues: seq<RefreshLeague>, reports: seq<Option<Status>>, writes: seq<Write>, i: nat)
    requires i < |leagues| == |reports| == |writes|
  {
    && leagues[i].id in rows && rows[leagues[i].id] == leagues[i].status
    && reports[i].Some? && NextLeagueStatus(leagues[i].status, reports[i].value).1
    && writes[i] != NotCommitted
  }

  /** League i's row holds the status its report calls for when it is matched, and is as it was otherwise. */
  predicate RowRefreshed(rows: map<string, Status>, after: map<string, Status>, leagues: seq<RefreshLeague>, reports: seq<Option<Status>>, writes: seq<Write>, i: nat)
    requires i < |leagues| == |reports| == |writes| && after.Keys == rows.Keys
  {
    var id := leagues[i].id;
    id in rows ==>
      after[id] == if Matched(rows, leagues, reports, writes, i) then NextLeagueStatus(leagues[i].status, reports[i].value).0 else rows[id]
  }

  /** How many of the first n leagues are matched by an update that the database confirms. */
  function Confirmed(rows: map<string, Status>, leagues: seq<RefreshLeague>, reports: seq<Option<Status>>, writes: seq<Write>, n: nat): nat
    requires n <= |leagues| == |reports| == |writes|
  {
    if n == 0 then 0 else
      Confirmed(rows, leagues, reports, writes, n - 1)
      + if Matched(rows, leagues, reports, writes, n - 1) && writes[n - 1] == Committed then 1 else 0
  }

  /**
   `refreshLeagueStatuses` on rows that may have changed since they were read: a row changes exactly
   when its status is still the one read and its report calls for an update, it then holds the status
   for that report, every other row is left alone, and the count is that of the confirmed updates.
   */
  method RefreshLeagueStatuses(leagues: seq<RefreshLeague>, reports: seq<Option<Status>>, writes: seq<Write>, table: StatusTable)
    returns (updated: nat)
    requires |leagues| == |reports| == |writes|
    requires forall i, j :: 0 <= i < j < |leagues| ==> leagues[i].id != leagues[j].id
    modifies table
    ensures RefreshedTo(old(table.status), table.status, leagues, reports, writes, |leagues|)
    ensures updated == Confirmed(old(table.status), leagues, reports, writes, |leagues|)
  {
    updated := 0;
    ghost var rows := table.status;
    for i := 0 to |leagues|
      invariant RefreshedTo(rows, table.status, leagues, reports, writes, i)
      invariant updated == Confirmed(rows, leagues, reports, writes, i)
    {
      ghost var before := table.status;
      var counted := RefreshOne(leagues[i], reports[i], writes[i], table);
      NextRow(rows, before, table.status, leagues, reports, writes, i);
      if counted { updated := updated + 1; }
    }
  }

  /** The first n leagues' rows are refreshed, and every row of no such league is as it was. */
  ghost predicate RefreshedTo(rows: map<string, Status>, after: map<string, Status>, leagues: seq<RefreshLeague>, reports: seq<Option<Status>>, writes: seq<Write>, n: nat)
    requires n <= |leagues| == |reports| == |writes|
  {
    && after.Keys == rows.Keys
    && (forall i :: 0 <= i < n ==> RowRefreshed(rows, after, leagues, reports, writes, i))
    && (forall id :: id in rows && (forall i :: 0 <= i < n ==> leagues[i].id != id) ==> after[id] == rows[id])
  }

  lemma NextRow(rows: map<string, Status>, before: map<string, Status>, after: map<string, Status>, leagues: seq<RefreshLeague>, reports: seq<Option<Status>>, writes: seq<Write>, n: nat)
    requires n < |leagues| == |reports| == |writes|
    requires forall i, j :: 0 <= i < j < |leagues| ==> leagues[i].id != leagues[j].id
    requires RefreshedTo(rows, before, leagues, reports, writes, n)
    requires after == if Matched(before, leagues, reports, writes, n)
                      then before[leagues[n].id := NextLeagueStatus(leagues[n].status, reports[n].value).0] else before
    ensures RefreshedTo(rows, after, leagues, reports, writes, n + 1)
    ensures Matched(before, leagues, reports, writes, n) == Matched(rows, leagues, reports, writes, n)
  {
    forall i | 0 <= i < n ensures RowRefreshed(rows, after, leagues, reports, writes, i) {
      assert RowRefreshed(rows, before, leagues, reports, writes, i) && leagues[i].id != leagues[n].id;
    }
    forall id | id in rows && (forall i :: 0 <= i < n + 1 ==> leagues[i].id != id) ensures after[id] == rows[id] {
      assert leagues[n].id != id;
    }
  }

  /** The body of that loop: one league's report, and the update it calls for. */
  method RefreshOne(l: RefreshLeague, report: Option<Status>, write: Write, table: StatusTable) returns (counted: bool)
    modifies table
    ensures var hit := l.id in old(table.status) && old(table.status)[l.id] == l.status
                       && report.Some? && NextLeagueStatus(l.status, report.value).1 && write != NotCommitted;
            && table.status == (if hit then old(table.status)[l.id := NextLeagueStatus(l.status, report.value).0] else old(table.status))
            && (counted <==> hit && write == Committed)
  {
    if report.None? { return false; }
    var platformStatus := report.value;
    if Rank(platformStatus).None? { return false; }
    var (next, ok) := NextLeagueStatus(l.status, platformStatus);
    if !ok { return false; }
    var changed, error := table.Update(l.id, l.status, next, write);
    if error { return false; }
    if !changed { return false; }
    return true;
  }
}
