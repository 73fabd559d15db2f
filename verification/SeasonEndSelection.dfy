/** Which leagues ever come to a settlement. */
module SeasonEndSelection {
  import opened Wrappers
  import opened League
  import opened SeasonEnd
  import opened SeasonEndSafety
  import opened SeasonEndProgress

  predicate ImportFree(actions: seq<Action>) {
    forall k :: 0 <= k < |actions| ==> !actions[k].Import?
  }

  // ---------- stranded leagues ----------

  /** Whenever a refresh looks up the platform's current season, it fails or gets one of these. */
  predicate SeasonsIn(actions: seq<Action>, seasons: set<string>) {
    forall k :: 0 <= k < |actions| && actions[k].ReadStatus? && actions[k].currentSeason.Some? ==> actions[k].currentSeason.value in seasons
  }

  /** In season already, or with a known status short of `complete` and its own season among those to come. */
  predicate MayStart(row: Row, seasons: set<string>) {
    row.status == InSeason || (CanBeSelected(row.status) && row.season in seasons)
  }

  /** No settlement is under way, none may start, and no refresh has yet to write a status that it could still change. */
  predicate Stranded(s: State, seasons: set<string>) {
    && s.runs == map[] && !MayStart(s.shared.row, seasons)
    && (CanBeSelected(s.shared.row.status) ==> s.refreshes == map[])
    && RefreshesInOrder(s)
  }

  /** The league is as it was, but for a cancellation or new settings. */
  predicate StillThere(s: State, t: State) {
    t.shared == s.shared.(row := s.shared.row.(cancelled := t.shared.row.cancelled, structure := t.shared.row.structure))
  }

  lemma StrandedStep(s: State, a: Action, seasons: set<string>)
    requires Stranded(s, seasons) && ImportFree([a]) && SeasonsIn([a], seasons)
    ensures Stranded(After(s, a), seasons) && StillThere(s, After(s, a))
  {
    assert [a][0] == a;
  }

  /** Without an import it stays like that: no settlement starts, and nothing is paid or marked. */
  lemma {:induction false} StrandedStays(s: State, actions: seq<Action>, seasons: set<string>)
    requires Stranded(s, seasons) && ImportFree(actions) && SeasonsIn(actions, seasons)
    ensures Stranded(AfterAll(s, actions), seasons) && StillThere(s, AfterAll(s, actions))
  {
    if actions != [] {
      StrandedStays(s, actions[..|actions| - 1], seasons);
      StrandedStep(AfterAll(s, actions[..|actions| - 1]), actions[|actions| - 1], seasons);
    }
  }

  /** A league imported when the platform already reports `complete` is never paid: it stays pending, whatever the oracle does, until a further import. */
  lemma {:induction false} ImportedCompleteIsNeverPaid(s: State, actions: seq<Action>)
    requires Fresh(s) && ImportFree(actions)
    ensures var t := AfterAll(After(s, Import(Complete)), actions);
            t.runs == map[] && t.shared.sent == [] && t.shared.row.payout == Pending && t.shared.row.status == Complete
  {
    var seasons := set k | 0 <= k < |actions| && actions[k].ReadStatus? && actions[k].currentSeason.Some? :: actions[k].currentSeason.value;
    StrandedStays(After(s, Import(Complete)), actions, seasons);
  }

  /** A league whose season was over before any refresh saw it in season is never paid either: every refresh drops it. */
  lemma {:induction false} PastSeasonIsNeverPaid(s: State, actions: seq<Action>, seasons: set<string>)
    requires Fresh(s) && s.shared.row.status != InSeason && s.shared.row.season !in seasons
    requires ImportFree(actions) && SeasonsIn(actions, seasons)
    ensures var t := AfterAll(s, actions);
            t.runs == map[] && t.shared.sent == [] && t.shared.row.payout == Pending && t.shared.row.status == s.shared.row.status
  {
    StrandedStays(s, actions, seasons);
  }

  /** Some course of events without an import, during those seasons, starts a settlement. */
  ghost predicate CanStart(s: State, seasons: set<string>) {
    exists actions :: ImportFree(actions) && SeasonsIn(actions, seasons) && AfterAll(s, actions).runs != map[]
  }

  /** One refresh and one selection, as a course of events. */
  function OracleRun(currentSeason: string): seq<Action> {
    [Reactivate, ReadStatus(0, Some(currentSeason)), WriteStatus(0, Complete, Committed), StartRun(0)]
  }

  lemma OracleRunIsRun(s: State, season: string)
    ensures AfterAll(s, OracleRun(season)) == AfterOracleRun(After(s, Reactivate), 0, 0, Some(season), Complete)
  {
    var t := After(s, Reactivate);
    var a1 := [Reactivate];
    var a2 := a1 + [ReadStatus(0, Some(season))];
    var a3 := a2 + [WriteStatus(0, Complete, Committed)];
    AfterPush(s, [], Reactivate);
    AfterPush(s, a1, ReadStatus(0, Some(season)));
    AfterPush(s, a2, WriteStatus(0, Complete, Committed));
    AfterPush(s, a3, StartRun(0));
    assert [] + [Reactivate] == a1;
    assert AfterAll(s, a3 + [StartRun(0)]) == AfterOracleRun(t, 0, 0, Some(season), Complete);
    assert a3 + [StartRun(0)] == OracleRun(season);
  }

  lemma StartInSeason(s: State)
    requires s.runs == map[] && s.shared.row.payout == Pending && s.shared.row.status == InSeason
    ensures 0 in AfterAll(s, [Reactivate, StartRun(0)]).runs
  {
    AfterPush(s, [], Reactivate);
    AfterPush(s, [Reactivate], StartRun(0));
    assert [] + [Reactivate] == [Reactivate] && [Reactivate] + [StartRun(0)] == [Reactivate, StartRun(0)];
  }

  /**
   For a pending league with nothing under way that is exactly when it is in season, or its stored status
   is known and not `complete` and its own season is among those the platform goes through.
   */
  lemma CanStartExactly(s: State, seasons: set<string>)
    requires s.runs == map[] && s.refreshes == map[] && s.shared.row.payout == Pending
    ensures CanStart(s, seasons) <==> MayStart(s.shared.row, seasons)
  {
    if s.shared.row.status == InSeason {
      StartInSeason(s);
      assert ImportFree([Reactivate, StartRun(0)]) && SeasonsIn([Reactivate, StartRun(0)], seasons);
    } else if MayStart(s.shared.row, seasons) {
      var season := s.shared.row.season;
      SelectedExactly(After(s, Reactivate), 0, 0, Some(season), Complete);
      OracleRunIsRun(s, season);
      assert ImportFree(OracleRun(season)) && SeasonsIn(OracleRun(season), seasons) && 0 in AfterAll(s, OracleRun(season)).runs;
    } else {
      forall actions | ImportFree(actions) && SeasonsIn(actions, seasons) ensures AfterAll(s, actions).runs == map[] {
        StrandedStays(s, actions, seasons);
      }
    }
  }
}
