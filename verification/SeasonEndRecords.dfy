/** What is recorded for the members is what the one payout sent, member by member. */
module SeasonEndRecords {
  import opened Int64
  import opened SeasonEnd
  import opened SeasonEndSafety

  /** The run has sent its payout and goes on: what it resolved is final. */
  predicate Owes(pc: Pc) {
    pc.MarkingFailed? || pc.MarkingExecuted? || pc.Recording?
  }

  /** The member's record is that of the run's k-th payout: its roster, place and amount, under the hash the chain accepted it with. */
  predicate RecordOf(s: Shared, run: Run, roster: int, k: nat)
    requires roster in s.records && k < |run.resolved|
  {
    var r := run.resolved[k];
    && r.member.rosterId == roster
    && |s.sent| == 1 && s.sent[0].reply.Accepted?
    && s.records[roster] == Record(r.place, r.amountCents, s.sent[0].reply.hash)
  }

  /** Run i sent the one payout, no other run still acts on one, and every member record is of a payout it resolved. */
  ghost predicate PaidBy(s: State, i: nat) {
    && i in s.runs && (Owes(s.runs[i].pc) || s.runs[i].pc.Finished? || s.runs[i].pc.Crashed?)
    && |s.shared.sent| == 1 && SentBy(s.shared.sent, s.runs[i], s.shared.sent[0].reply)
    && (forall j :: j in s.runs && Owes(s.runs[j].pc) ==> j == i)
    && (forall r :: r in s.shared.records ==> exists k :: 0 <= k < |s.runs[i].resolved| && RecordOf(s.shared, s.runs[i], r, k))
  }

  ghost predicate Traced(s: State) {
    if s.shared.sent == [] then s.shared.records == map[] else exists i :: PaidBy(s, i)
  }

  /** A payer's own step keeps the chain and what it resolved. */
  lemma PayerGoesOn(s: Shared, run: Run, reply: Reply)
    requires RunInOrder(s, run) && |s.sent| == 1 && SentBy(s.sent, run, s.sent[0].reply)
    requires Owes(run.pc) || run.pc.Finished? || run.pc.Crashed?
    ensures var t, next := AdvanceShared(s, run, reply), AdvanceRun(run, reply, Hit(s.row, run));
            && t.sent == s.sent && next.resolved == run.resolved
            && (Owes(next.pc) || next.pc.Finished? || next.pc.Crashed?) && (Owes(next.pc) ==> Owes(run.pc))
            && (t.records == s.records
                || (run.pc.Recording? && run.pc.next < |run.resolved| && s.sent[0].reply == Accepted(run.pc.hash)
                    && var r := run.resolved[run.pc.next];
                       t.records == s.records[r.member.rosterId := Record(r.place, r.amountCents, run.pc.hash)]))
  {
  }

  /** The payer takes a step. */
  lemma PayerSteps(s: State, i: nat, reply: Reply)
    requires InOrder(s) && PaidBy(s, i)
    ensures PaidBy(After(s, Step(i, reply)), i)
  {
    var t := After(s, Step(i, reply));
    var run := s.runs[i];
    assert RunInOrder(s.shared, run);
    PayerGoesOn(s.shared, run, reply);
    forall r | r in t.shared.records
      ensures exists k :: 0 <= k < |run.resolved| && RecordOf(t.shared, t.runs[i], r, k)
    {
      if r in s.shared.records && t.shared.records[r] == s.shared.records[r] {
        var k :| 0 <= k < |run.resolved| && RecordOf(s.shared, run, r, k);
        assert RecordOf(t.shared, t.runs[i], r, k);
      } else {
        assert RecordOf(t.shared, t.runs[i], r, run.pc.next);
      }
    }
  }

  /** A step of a run that does not act on a payout sends and records nothing once there is one. */
  lemma IdleStep(s: Shared, run: Run, reply: Reply)
    requires RunInOrder(s, run) && s.sent != [] && !Owes(run.pc)
    ensures AdvanceShared(s, run, reply).sent == s.sent && AdvanceShared(s, run, reply).records == s.records
    ensures !Owes(AdvanceRun(run, reply, Hit(s.row, run)).pc)
  {
  }

  /** While payer, chain and records stay as they are and nobody else acts on a payout, the payer is the payer. */
  lemma PayerStays(s: State, t: State, i: nat)
    requires PaidBy(s, i) && i in t.runs && t.runs[i] == s.runs[i]
    requires t.shared.sent == s.shared.sent && t.shared.records == s.shared.records
    requires forall j :: j in t.runs && Owes(t.runs[j].pc) ==> j == i
    ensures PaidBy(t, i)
  {
    forall r | r in t.shared.records
      ensures exists k :: 0 <= k < |t.runs[i].resolved| && RecordOf(t.shared, t.runs[i], r, k)
    {
      var k :| 0 <= k < |s.runs[i].resolved| && RecordOf(s.shared, s.runs[i], r, k);
      assert RecordOf(t.shared, t.runs[i], r, k);
    }
  }

  /** Any other action leaves the payer, the chain and the records as they are. */
  lemma OthersLeavePayer(s: State, a: Action, i: nat)
    requires InOrder(s) && PaidBy(s, i) && !(a.Step? && a.run == i)
    ensures PaidBy(After(s, a), i)
  {
    if a.Step? && a.run in s.runs {
      assert RunInOrder(s.shared, s.runs[a.run]);
      IdleStep(s.shared, s.runs[a.run], a.reply);
    }
    PayerStays(s, After(s, a), i);
  }

  /** The first payout makes its sender the payer. */
  lemma FirstPayout(s: State, a: Action)
    requires InOrder(s) && s.shared.sent == [] && s.shared.records == map[]
    ensures Traced(After(s, a))
  {
    var t := After(s, a);
    forall j | j in s.runs ensures !Owes(s.runs[j].pc) {
      assert RunInOrder(s.shared, s.runs[j]);
    }
    if a.Step? && a.run in s.runs && t.shared.sent != [] {
      assert s.runs[a.run].pc.Distributing?;
      assert PaidBy(t, a.run);
    }
  }

  lemma {:induction false} EveryRunTraced(s: State, actions: seq<Action>)
    requires Fresh(s)
    ensures InOrder(AfterAll(s, actions)) && Traced(AfterAll(s, actions))
  {
    EveryRunInOrder(s, actions);
    if actions != [] {
      var before, last := actions[..|actions| - 1], actions[|actions| - 1];
      var t := AfterAll(s, before);
      EveryRunTraced(s, before);
      if t.shared.sent == [] {
        FirstPayout(t, last);
      } else {
        var i :| PaidBy(t, i);
        if last.Step? && last.run == i { PayerSteps(t, i, last.reply); } else { OthersLeavePayer(t, last, i); }
      }
    }
  }

  /**
   Over every interleaving: nothing is recorded before a payout is sent. Once one is, there is one run
   that sent it, index by index the addresses and amounts it had resolved, and every member record is,
   for some index, the place and amount of the payout at that index, to that member, under the hash
   the chain accepted the payout with.
   */
  lemma RecordsMatchPayout(s: State, actions: seq<Action>)
    requires Fresh(s)
    ensures var t := AfterAll(s, actions);
            && (t.shared.sent == [] ==> t.shared.records == map[])
            && (t.shared.sent != [] ==> exists i :: PaidBy(t, i) && IndexByIndex(t, i))
  {
    EveryRunTraced(s, actions);
    var t := AfterAll(s, actions);
    if t.shared.sent != [] {
      var i :| PaidBy(t, i);
      assert IndexByIndex(t, i);
    }
  }

  /** The payout's lists are the run's resolved payouts, position by position. */
  ghost predicate IndexByIndex(s: State, i: nat) {
    && i in s.runs && |s.shared.sent| == 1
    && var sent, resolved := s.shared.sent[0], s.runs[i].resolved;
       && |sent.recipients| == |sent.amounts| == |resolved|
       && forall k :: 0 <= k < |resolved| ==>
            sent.recipients[k] == resolved[k].address && sent.amounts[k] == ToMicro(resolved[k].amountCents)
  }
}
