/** The weekly job for one league and week: record events, pay the unpaid ones, mark them. */
module WeeklyPayout {
  import opened Wrappers
  import opened Bytes
  import opened Int64
  import opened League
  import opened LeagueId
  import opened SeasonEnd
  import opened WeeklyRecording

  /**
   A payment that reached the chain: the events it was made of, the addresses, the amounts, the balance
   read just before, the transaction if its receipt came back, and the events then marked with it.
   */
  datatype Payment = Payment(keys: seq<Key>, recipients: seq<Address>, amounts: seq<int>, balance: int, hash: Option<string>, marked: set<Key>)

  /** A wallet looked up on the Mirror Node, and the address it answered, if any. */
  datatype Lookup = Lookup(wallet: string, answer: Option<Address>)

  /** The event table, the payments the chain has seen, and the lookups made so far. */
  datatype Books = Books(rows: Table, paid: seq<Payment>, lookups: seq<Lookup>)

  // ---------- what one run may do ----------

  /** No event is lost or altered, and none is added as already paid. */
  predicate Recorded(before: Table, after: Table) {
    && (forall k :: k in before ==> k in after && after[k] == before[k])
    && (forall k :: k in after && k !in before ==> after[k].executed.None?)
  }

  /** The payment is made of distinct unexecuted events at their recorded amounts, some of which, none without a receipt, are marked. */
  predicate Entries(recorded: Table, p: Payment) {
    && |p.keys| == |p.amounts| == |p.recipients|
    && (forall i, j :: 0 <= i < j < |p.keys| ==> p.keys[i] != p.keys[j])
    && (forall i :: 0 <= i < |p.keys| ==>
          p.keys[i] in recorded && recorded[p.keys[i]].executed.None? && p.amounts[i] == ToMicro(recorded[p.keys[i]].amountCents))
    && (forall k :: k in p.marked ==> k in p.keys) && (p.hash.None? ==> p.marked == {})
  }

  /** Each goes to an address that one of these lookups answered for the event's wallet. */
  predicate GoesBy(lookups: seq<Lookup>, recorded: Table, p: Payment)
    requires Entries(recorded, p)
  {
    forall i :: 0 <= i < |p.keys| ==> Lookup(recorded[p.keys[i]].wallet, Some(p.recipients[i])) in lookups
  }

  /** The table after the payment: its marked events carry its hash, and nothing else has changed. */
  predicate Marks(recorded: Table, after: Table, p: Payment) {
    && after.Keys == recorded.Keys
    && (forall k :: k in after ==> after[k] == if k in p.marked then recorded[k].(executed := p.hash) else recorded[k])
  }

  /** A payment of at least one event, going by the lookups, within the balance read, and then marked. */
  predicate PaidAndMarked(lookups: seq<Lookup>, recorded: Table, after: Table, p: Payment) {
    && Entries(recorded, p) && |p.keys| > 0
    && GoesBy(lookups, recorded, p)
    && WrappedSum(p.amounts, |p.amounts|) <= p.balance
    && Marks(recorded, after, p)
  }

  /** One run of the job, whatever fails in it; a payment goes by this run's own lookups. */
  ghost predicate WeeklyRun(before: Books, after: Books) {
    && before.lookups <= after.lookups
    && (|| (Recorded(before.rows, after.rows) && after.paid == before.paid)
        || (exists recorded, p ::
              && Recorded(before.rows, recorded)
              && PaidAndMarked(after.lookups[|before.lookups|..], recorded, after.rows, p)
              && after.paid == before.paid + [p]))
  }

  // ---------- the job ----------

  /** What the platform, the members table, the configuration, the Mirror Node, the chain and the event table answer to one run. */
  datatype Answers = Answers(
    matchups: Option<seq<Matchup>>,
    members: Option<seq<Member>>,
    contractKnown: bool,
    escrowBalance: Option<int>,
    reply: ChainReply,
    inserts: Key -> Write,
    marks: Key -> Write
  ) {
    predicate IdsValid(league: string) {
      UuidToBytes32(league).Ok? && contractKnown
    }

    /** These amounts would reach the chain: the balance was read and covers them, and the chain does not reject them. */
    predicate Lands(amounts: seq<int>) {
      escrowBalance.Some? && WrappedSum(amounts, |amounts|) <= escrowBalance.value && !reply.Rejected?
    }

    /** If the payment is confirmed, exactly the events whose mark went through are marked, with its hash. */
    ghost predicate MarkedExactly(p: Payment) {
      Lands(p.amounts) && reply.Accepted? && p.keys != [] ==>
        p.hash == Some(reply.hash) && forall k :: k in p.marked <==> k in p.keys && marks(k) != NotCommitted
    }
  }

  /** The insert for the qualifier is made and answered with an error. */
  predicate InsertFails(w: Week, entry: PayoutEntry, m: Matchup, inserts: Key -> Write) {
    HasWallet(w, m.rosterId) && inserts(KeyOf(w, entry, m)) != Committed
  }

  lemma EntryFailsExactly(w: Week, entry: PayoutEntry, inserts: Key -> Write)
    ensures var qs := WeeklyQualifiers(ActiveMatchups(w.matchups), entry);
            (exists j :: 0 <= j < |qs| && InsertFails(w, entry, qs[j], inserts))
            <==> exists k :: Earns(w, entry, k) && inserts(k) != Committed
  {
    var qs := WeeklyQualifiers(ActiveMatchups(w.matchups), entry);
    if exists j :: 0 <= j < |qs| && InsertFails(w, entry, qs[j], inserts) {
      var j :| 0 <= j < |qs| && InsertFails(w, entry, qs[j], inserts);
      EarnsByQualifier(w, entry, KeyOf(w, entry, qs[j]));
    }
    if k :| Earns(w, entry, k) && inserts(k) != Committed {
      EarnsByQualifier(w, entry, k);
      var j :| 0 <= j < |qs| && qs[j].rosterId == k.roster;
      assert KeyOf(w, entry, qs[j]) == k;
    }
  }

  class WeeklyStore {
    var rows: Table
    /** The payments so far: what the chain has seen of this table. */
    var paid: seq<Payment>
    /** The lookups so far, with their answers. */
    var lookups: seq<Lookup>

    function Now(): Books
      reads this
    {
      Books(rows, paid, lookups)
    }

    constructor ()
      ensures Now() == Books(map[], [], [])
    {
      rows, paid, lookups := map[], [], [];
    }

    /** `getAccountEVMAddress`: any address, or an error. */
    method GetAccountEVMAddress(wallet: string) returns (address: Option<Address>)
      modifies this`lookups
      ensures lookups == old(lookups) + [Lookup(wallet, address)]
    {
      address := *;
      lookups := lookups + [Lookup(wallet, address)];
    }

    /** `INSERT ... ON CONFLICT DO NOTHING`. */
    method Insert(k: Key, ev: Event, write: Write) returns (error: bool)
      modifies this`rows
      ensures rows == if k !in old(rows) && write != NotCommitted then old(rows)[k := ev] else old(rows)
      ensures error <==> write != Committed
    {
      if write != NotCommitted && k !in rows { rows := rows[k := ev]; }
      error := write != Committed;
    }

    /** The inner insert loop, for one entry's qualifiers; `done` says how far it got. */
    method RecordEntry(w: Week, entry: PayoutEntry, qualifiers: seq<Matchup>, memberByRoster: map<int, Member>, inserts: Key -> Write)
      returns (error: bool, ghost done: nat)
      requires memberByRoster == MemberByRoster(w.members)
      modifies this`rows
      ensures done <= |qualifiers| && rows == InsertQualifiers(w, old(rows), entry, qualifiers, done)
      ensures !error ==> done == |qualifiers|
      ensures error <==> exists j :: 0 <= j < |qualifiers| && InsertFails(w, entry, qualifiers[j], inserts)
    {
      for j := 0 to |qualifiers|
        invariant rows == InsertQualifiers(w, old(rows), entry, qualifiers, j)
        invariant forall i :: 0 <= i < j ==> !InsertFails(w, entry, qualifiers[i], inserts)
      {
        var m := qualifiers[j];
        if m.rosterId !in memberByRoster { continue; }
        var member := memberByRoster[m.rosterId];
        if member.wallet == "" { continue; }
        ghost var before := rows;
        var k := KeyOf(w, entry, m);
        error := Insert(k, Event(member.platformUserId, m.points, entry.amountCents, member.wallet, None), inserts(k));
        if error {
          assert InsertFails(w, entry, qualifiers[j], inserts);
          return true, if rows == before then j else j + 1;
        }
      }
      return false, |qualifiers|;
    }

    /**
     The insert loop. It fails exactly when the insert of some earned event does; without an error it records
     exactly the specified events, and after one, some of them.
     */
    method RecordEvents(w: Week, inserts: Key -> Write) returns (error: bool)
      modifies this`rows
      ensures !error ==> rows == InsertEntries(w, old(rows), |w.entries|)
      ensures forall k :: RowIsEarned(w, old(rows), rows, k)
      ensures error <==> exists i, k :: 0 <= i < |w.entries| && Earns(w, w.entries[i], k) && inserts(k) != Committed
    {
      ghost var before := rows;
      var active := ActiveMatchups(w.matchups);
      var memberByRoster := MemberByRoster(w.members);
      for i := 0 to |w.entries|
        invariant rows == InsertEntries(w, before, i)
        invariant forall h, k :: 0 <= h < i && Earns(w, w.entries[h], k) ==> inserts(k) == Committed
      {
        ghost var done: nat;
        error, done := RecordEntry(w, w.entries[i], WeeklyQualifiers(active, w.entries[i]), memberByRoster, inserts);
        EntryFailsExactly(w, w.entries[i], inserts);
        if error {
          forall k ensures RowIsEarned(w, before, rows, k) { StoppedWithinEntry(w, before, i, done, k); }
          return;
        }
      }
      error := false;
      forall k ensures RowIsEarned(w, before, rows, k) { StoppedBetweenEntries(w, before, |w.entries|, k); }
    }

    /** `SELECT ... WHERE league_id = league AND week = week AND executed_at IS NULL`, in whatever order. */
    method SelectUnexecuted(league: string, week: int) returns (keys: seq<Key>)
      ensures forall i, j :: 0 <= i < j < |keys| ==> keys[i] != keys[j]
      ensures forall k :: k in keys <==> k in rows && k.league == league && k.week == week && rows[k].executed.None?
    {
      keys := [];
      var left := rows.Keys;
      while left != {}
        invariant left <= rows.Keys
        invariant forall i, j :: 0 <= i < j < |keys| ==> keys[i] != keys[j]
        invariant forall k :: k in keys ==> k !in left
        invariant forall k :: k in keys <==> k in rows && k !in left && k.league == league && k.week == week && rows[k].executed.None?
        decreases left
      {
        var k :| k in left;
        if k.league == league && k.week == week && rows[k].executed.None? { keys := keys + [k]; }
        left := left - {k};
      }
    }

    /**
     `processWeeklyPayoutsForLeague`, for any answers of the platform, the members table, the Mirror Node
     and the chain, inserts and marks that fail as they like, and a transaction that may land although its
     receipt is lost.
     */
    method ProcessWeeklyPayouts(league: string, week: int, entries: seq<PayoutEntry>, answers: Answers) returns (error: bool)
      modifies this
      ensures WeeklyRun(old(Now()), Now())
      ensures paid == old(paid) ==> forall k :: k in old(rows) ==> k in rows && rows[k] == old(rows)[k]
      ensures !error ==> answers.matchups.Some? && answers.members.Some?
                         && forall k :: k in InsertEntries(Week(league, week, entries, answers.matchups.value, answers.members.value), old(rows), |entries|) ==> k in rows
    {
      if answers.matchups.None? { return true; }
      if answers.members.None? { return true; }
      var w := Week(league, week, entries, answers.matchups.value, answers.members.value);
      var recordError := RecordEvents(w, answers.inserts);
      assert Recorded(old(rows), rows) by {
        assert forall k :: RowIsEarned(w, old(rows), rows, k) ==>
            (k in old(rows) ==> k in rows && rows[k] == old(rows)[k]) && (k in rows && k !in old(rows) ==> rows[k].executed.None?);
      }
      if recordError { return true; }

      ghost var p: Payment;
      error, p := PayEvents(league, week, answers);
    }

    /** Every unexecuted event of the league and week is in the payment, unless a lookup of its wallet failed. */
    ghost predicate TakesAll(asked: seq<Lookup>, recorded: Table, p: Payment, league: string, week: int) {
      forall k :: k in recorded && k.league == league && k.week == week && recorded[k].executed.None? ==>
        k in p.keys || Lookup(recorded[k].wallet, None) in asked
    }

    /**
     From the recorded table on. `p` is the payment to make: all unexecuted events whose wallets resolve. It
     reaches the chain exactly when there is something in it, the ids are valid, the balance was read and
     covers it, and the chain does not reject it; then it is marked, and otherwise nothing changes. No error
     is returned exactly when it is confirmed or there was nothing to pay.
     */
    method PayEvents(league: string, week: int, answers: Answers) returns (error: bool, ghost p: Payment)
      modifies this
      ensures old(lookups) <= lookups
      ensures Entries(old(rows), p) && GoesBy(lookups[|old(lookups)|..], old(rows), p)
      ensures forall k :: k in p.keys ==> k.league == league && k.week == week
      ensures answers.IdsValid(league) ==> TakesAll(lookups[|old(lookups)|..], old(rows), p, league, week)
      ensures if p.keys != [] && answers.Lands(p.amounts)
              then paid == old(paid) + [p] && PaidAndMarked(lookups[|old(lookups)|..], old(rows), rows, p)
              else rows == old(rows) && paid == old(paid)
      ensures answers.MarkedExactly(p)
      ensures answers.IdsValid(league) ==> (error <==> p.keys != [] && !(answers.Lands(p.amounts) && answers.reply.Accepted?))
      ensures !answers.IdsValid(league) ==>
                (error <==> exists k :: k in old(rows) && k.league == league && k.week == week && old(rows)[k].executed.None?)
    {
      p := Payment([], [], [], 0, None, {});
      var events := SelectUnexecuted(league, week);
      if |events| == 0 { return false, p; }
      assert events[0] in events;
      var leagueKey := UuidToBytes32(league);
      if leagueKey.Err? { return true, p; }
      if !answers.contractKnown { return true, p; }

      var recipients, amounts, executed := ResolveEvents(events);
      p := Payment(executed, recipients, amounts, 0, None, {});
      if |recipients| == 0 { return false, p; }
      error, p := PayResolved(lookups[|old(lookups)|..], recipients, amounts, executed, answers);
    }

    /** The balance check, the transaction and the marks. */
    method PayResolved(ghost asked: seq<Lookup>, recipients: seq<Address>, amounts: seq<int>, executed: seq<Key>, answers: Answers)
      returns (error: bool, ghost p: Payment)
      requires var q := Payment(executed, recipients, amounts, 0, None, {});
               Entries(rows, q) && executed != [] && GoesBy(asked, rows, q)
      modifies this`rows, this`paid
      ensures p.keys == executed && p.recipients == recipients && p.amounts == amounts && Entries(old(rows), p)
      ensures if answers.Lands(amounts) then paid == old(paid) + [p] && PaidAndMarked(asked, old(rows), rows, p)
              else rows == old(rows) && paid == old(paid)
      ensures error <==> !(answers.Lands(amounts) && answers.reply.Accepted?)
      ensures answers.MarkedExactly(p)
    {
      p := Payment(executed, recipients, amounts, 0, None, {});
      var totalPayout := 0;
      for i := 0 to |amounts|
        invariant totalPayout == WrappedSum(amounts, i)
      {
        totalPayout := Wrap64(totalPayout + amounts[i]);
      }
      if answers.escrowBalance.None? { return true, p; }
      if totalPayout > answers.escrowBalance.value { return true, p; }

      match answers.reply {
        case Rejected =>
          return true, p;
        case LandedButError =>
          p := Payment(executed, recipients, amounts, answers.escrowBalance.value, None, {});
          paid := paid + [Payment(executed, recipients, amounts, answers.escrowBalance.value, None, {})];
          return true, p;
        case Accepted(txHash) =>
          var marked := MarkExecuted(executed, txHash, answers.marks);
          p := Payment(executed, recipients, amounts, answers.escrowBalance.value, Some(txHash), marked);
          paid := paid + [Payment(executed, recipients, amounts, answers.escrowBalance.value, Some(txHash), marked)];
          return false, p;
      }
    }

    /** The lookup loop: events whose wallet resolves, each with its amount in micro-USDC. */
    method ResolveEvents(events: seq<Key>) returns (recipients: seq<Address>, amounts: seq<int>, executed: seq<Key>)
      requires forall i, j :: 0 <= i < j < |events| ==> events[i] != events[j]
      requires forall k :: k in events ==> k in rows
      modifies this`lookups
      ensures old(lookups) <= lookups
      ensures |recipients| == |amounts| == |executed|
      ensures forall i, j :: 0 <= i < j < |executed| ==> executed[i] != executed[j]
      ensures forall k :: k in executed ==> k in events
      ensures forall i :: 0 <= i < |executed| ==> executed[i] in rows && amounts[i] == ToMicro(rows[executed[i]].amountCents)
      ensures forall i :: 0 <= i < |executed| ==> Lookup(rows[executed[i]].wallet, Some(recipients[i])) in lookups[|old(lookups)|..]
      ensures forall k :: k in events && k !in executed ==> Lookup(rows[k].wallet, None) in lookups[|old(lookups)|..]
    {
      recipients, amounts, executed := [], [], [];
      for i := 0 to |events|
        invariant |recipients| == |amounts| == |executed|
        invariant forall j, k :: 0 <= j < k < |executed| ==> executed[j] != executed[k]
        invariant forall k :: k in executed ==> k in events[..i]
        invariant old(lookups) <= lookups
        invariant forall j :: 0 <= j < |executed| ==> executed[j] in rows && amounts[j] == ToMicro(rows[executed[j]].amountCents)
        invariant forall j :: 0 <= j < |executed| ==> Lookup(rows[executed[j]].wallet, Some(recipients[j])) in lookups[|old(lookups)|..]
        invariant forall k :: k in events[..i] && k !in executed ==> Lookup(rows[k].wallet, None) in lookups[|old(lookups)|..]
      {
        assert events[..i + 1] == events[..i] + [events[i]] && events[i] !in events[..i] && events[i] in events;
        ghost var before := lookups[|old(lookups)|..];
        var addr := GetAccountEVMAddress(rows[events[i]].wallet);
        assert lookups[|old(lookups)|..] == before + [Lookup(rows[events[i]].wallet, addr)];
        if addr.None? { continue; }
        recipients := recipients + [addr.value];
        amounts := amounts + [Wrap64(rows[events[i]].amountCents * MICRO_PER_CENT)];
        executed := executed + [events[i]];
      }
    }

    /** `UPDATE weekly_payout_events SET tx_hash = hash, executed_at = NOW() WHERE id = id` for each id; failures are only logged. */
    method MarkExecuted(keys: seq<Key>, hash: string, marks: Key -> Write) returns (marked: set<Key>)
      requires forall k :: k in keys ==> k in rows
      modifies this`rows
      ensures forall k :: k in marked <==> k in keys && marks(k) != NotCommitted
      ensures rows.Keys == old(rows).Keys
      ensures forall k :: k in rows ==> rows[k] == if k in marked then old(rows)[k].(executed := Some(hash)) else old(rows)[k]
    {
      marked := {};
      for i := 0 to |keys|
        invariant rows.Keys == old(rows).Keys
        invariant forall k :: k in marked <==> k in keys[..i] && marks(k) != NotCommitted
        invariant forall k :: k in rows ==> rows[k] == if k in marked then old(rows)[k].(executed := Some(hash)) else old(rows)[k]
      {
        assert keys[i] in keys && keys[..i + 1] == keys[..i] + [keys[i]];
        if marks(keys[i]) != NotCommitted {
          rows := rows[keys[i] := rows[keys[i]].(executed := Some(hash))];
          marked := marked + {keys[i]};
        }
      }
      assert keys[..|keys|] == keys;
    }
  }
}
