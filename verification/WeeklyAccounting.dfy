/** The weekly books over any sequence of runs that do not overlap. */
module WeeklyAccounting {
  import opened Wrappers
  import opened MapSums
  import opened Bytes
  import opened Int64
  import opened WeeklyRecording
  import opened WeeklyPayout

  /** Amounts that fit: non-negative, and their micro-USDC is an int64. */
  predicate Bounded(rows: Table) {
    forall k :: k in rows ==> 0 <= rows[k].amountCents <= MAX_CENTS
  }

  // ---------- sums, over all addresses or one ----------

  /** Whose money is counted. */
  datatype Part = Everyone | Only(to: Address)

  predicate Counts(part: Part, a: Address) {
    part.Everyone? || part.to == a
  }

  /** Where wallets lead, as far as lookups answer at all. */
  type Directory = string -> Address

  predicate Follows(lookups: seq<Lookup>, evm: Directory) {
    forall l :: l in lookups && l.answer.Some? ==> l.answer.value == evm(l.wallet)
  }

  /** The cents of the executed events whose wallet counts. */
  function ExecutedCents(rows: Table, evm: Directory, part: Part): map<Key, nat>
    requires Bounded(rows)
  {
    map k | k in rows :: if rows[k].executed.Some? && Counts(part, evm(rows[k].wallet)) then rows[k].amountCents as nat else 0
  }

  predicate Even(p: Payment) {
    |p.keys| == |p.recipients| == |p.amounts|
  }

  predicate AllEven(paid: seq<Payment>) {
    forall i :: 0 <= i < |paid| ==> Even(paid[i])
  }

  /** What the first n entries of a payment sent to the addresses that count. */
  function SentIn(p: Payment, n: nat, part: Part): int
    requires Even(p) && n <= |p.keys|
  {
    if n == 0 then 0 else SentIn(p, n - 1, part) + if Counts(part, p.recipients[n - 1]) then p.amounts[n - 1] else 0
  }

  /** What of that was not marked as paid: the mark failed, or the receipt was lost. */
  function MissedIn(p: Payment, n: nat, part: Part): int
    requires Even(p) && n <= |p.keys|
  {
    if n == 0 then 0 else
      MissedIn(p, n - 1, part)
      + if p.keys[n - 1] !in p.marked && Counts(part, p.recipients[n - 1]) then p.amounts[n - 1] else 0
  }

  function TotalSent(paid: seq<Payment>, part: Part): int
    requires AllEven(paid)
  {
    if paid == [] then 0 else
      var p := paid[|paid| - 1];
      assert Even(p);
      TotalSent(paid[..|paid| - 1], part) + SentIn(p, |p.keys|, part)
  }

  function TotalMissed(paid: seq<Payment>, part: Part): int
    requires AllEven(paid)
  {
    if paid == [] then 0 else
      var p := paid[|paid| - 1];
      assert Even(p);
      TotalMissed(paid[..|paid| - 1], part) + MissedIn(p, |p.keys|, part)
  }

  // ---------- counts ----------

  /** How many payments an event is part of. */
  function Times(paid: seq<Payment>, k: Key): nat {
    if paid == [] then 0 else Times(paid[..|paid| - 1], k) + if k in paid[|paid| - 1].keys then 1 else 0
  }

  /** In how many of them it was not marked. */
  function Misses(paid: seq<Payment>, k: Key): nat {
    if paid == [] then 0 else
      Misses(paid[..|paid| - 1], k) + if k in paid[|paid| - 1].keys && k !in paid[|paid| - 1].marked then 1 else 0
  }

  predicate Executed(rows: Table, k: Key) {
    k in rows && rows[k].executed.Some?
  }

  /** Executed events are exactly those that some payment marked, with its hash. */
  ghost predicate Matched(b: Books) {
    && (forall i, k :: 0 <= i < |b.paid| && k in b.paid[i].marked ==> k in b.rows && b.rows[k].executed.Some? && b.rows[k].executed == b.paid[i].hash)
    && (forall k :: Executed(b.rows, k) ==> exists i :: 0 <= i < |b.paid| && k in b.paid[i].marked)
  }

  /** Every payment of an event but one is a missed mark, and that one is there exactly when the event is executed. */
  ghost predicate Counted(b: Books) {
    forall k :: Times(b.paid, k) == Misses(b.paid, k) + if Executed(b.rows, k) then 1 else 0
  }

  ghost predicate InBooks(b: Books) {
    Matched(b) && Counted(b) && Bounded(b.rows) && AllEven(b.paid)
  }

  ghost predicate Balanced(b: Books, evm: Directory, part: Part)
    requires Bounded(b.rows) && AllEven(b.paid)
  {
    TotalSent(b.paid, part) == MICRO_PER_CENT * Total(ExecutedCents(b.rows, evm, part)) + TotalMissed(b.paid, part)
  }

  // ---------- recording ----------

  lemma RecordingKeepsBalance(before: Table, after: Table, evm: Directory, part: Part)
    requires Bounded(after) && Recorded(before, after)
    ensures Bounded(before) && Total(ExecutedCents(after, evm, part)) == Total(ExecutedCents(before, evm, part))
  {
    assert Bounded(before) by {
      forall k | k in before ensures 0 <= before[k].amountCents <= MAX_CENTS { assert k in after && after[k] == before[k]; }
    }
    ZerosDoNotCount(ExecutedCents(before, evm, part), ExecutedCents(after, evm, part));
  }

  /** A mapping with extra zero slots has the same sum. */
  lemma {:induction false} ZerosDoNotCount(small: map<Key, nat>, large: map<Key, nat>)
    requires forall k :: k in small ==> k in large && large[k] == small[k]
    requires forall k :: k in large && k !in small ==> large[k] == 0
    ensures Total(small) == Total(large)
    decreases |large|
  {
    if large == map[] {
      assert small == map[];
    } else {
      var k :| k in large;
      assert (large - {k}).Keys == large.Keys - {k};
      assert |large - {k}| == |(large - {k}).Keys| && |large| == |large.Keys|;
      TotalSplit(large, k);
      if k in small {
        TotalSplit(small, k);
        ZerosDoNotCount(small - {k}, large - {k});
      } else {
        ZerosDoNotCount(small, large - {k});
      }
    }
  }

  // ---------- paying ----------

  /** The table once the marks among the first n events of a payment are made. */
  function MarkFirst(rows: Table, p: Payment, n: nat): Table
    requires n <= |p.keys| && forall k :: k in p.keys ==> k in rows
    ensures MarkFirst(rows, p, n).Keys == rows.Keys
  {
    if n == 0 then rows else
      var before, k := MarkFirst(rows, p, n - 1), p.keys[n - 1];
      if k in p.marked then before[k := before[k].(executed := p.hash)] else before
  }

  lemma {:induction false} MarkFirstRow(rows: Table, p: Payment, n: nat, k: Key)
    requires n <= |p.keys| && (forall j :: j in p.keys ==> j in rows) && k in rows
    ensures MarkFirst(rows, p, n)[k] == if k in p.keys[..n] && k in p.marked then rows[k].(executed := p.hash) else rows[k]
  {
    if n != 0 {
      MarkFirstRow(rows, p, n - 1, k);
      assert p.keys[..n] == p.keys[..n - 1] + [p.keys[n - 1]];
    }
  }

  lemma MarkFirstBounded(rows: Table, p: Payment, n: nat)
    requires n <= |p.keys| && (forall k :: k in p.keys ==> k in rows) && Bounded(rows)
    ensures Bounded(MarkFirst(rows, p, n))
  {
    forall k | k in rows ensures MarkFirst(rows, p, n)[k].amountCents == rows[k].amountCents { MarkFirstRow(rows, p, n, k); }
  }

  lemma MarkOne(rows: Table, k: Key, hash: string, evm: Directory, part: Part)
    requires Bounded(rows) && k in rows && rows[k].executed.None?
    ensures var after := rows[k := rows[k].(executed := Some(hash))];
            && Bounded(after)
            && Total(ExecutedCents(after, evm, part))
               == Total(ExecutedCents(rows, evm, part)) + if Counts(part, evm(rows[k].wallet)) then rows[k].amountCents else 0
  {
    var after := rows[k := rows[k].(executed := Some(hash))];
    var counted := if Counts(part, evm(rows[k].wallet)) then rows[k].amountCents as nat else 0;
    TotalUpdate(ExecutedCents(rows, evm, part), k, counted);
    assert ExecutedCents(after, evm, part) == ExecutedCents(rows, evm, part)[k := counted];
  }

  /** The payment goes where the directory says, or everyone is counted anyway. */
  predicate Attributed(p: Payment, recorded: Table, evm: Directory, part: Part) {
    part.Everyone? || forall i :: 0 <= i < |p.keys| && i < |p.recipients| && p.keys[i] in recorded ==>
      p.recipients[i] == evm(recorded[p.keys[i]].wallet)
  }

  /** Everything accounted for after the first n events of a payment: executed or missed. */
  ghost function Accounted(recorded: Table, p: Payment, n: nat, evm: Directory, part: Part): int
    requires Even(p) && n <= |p.keys| && (forall k :: k in p.keys ==> k in recorded) && Bounded(recorded)
  {
    MarkFirstBounded(recorded, p, n);
    MICRO_PER_CENT * Total(ExecutedCents(MarkFirst(recorded, p, n), evm, part)) + MissedIn(p, n, part)
  }

  /** The next event of a payment: its amount is now executed or missed. */
  lemma MarkNext(recorded: Table, p: Payment, n: nat, evm: Directory, part: Part)
    requires Bounded(recorded) && Entries(recorded, p) && n < |p.keys| && Attributed(p, recorded, evm, part)
    ensures Accounted(recorded, p, n + 1, evm, part)
         == Accounted(recorded, p, n, evm, part) + if Counts(part, p.recipients[n]) then p.amounts[n] else 0
  {
    var k := p.keys[n];
    MarkFirstBounded(recorded, p, n);
    MarkFirstBounded(recorded, p, n + 1);
    MarkFirstRow(recorded, p, n, k);
    assert k !in p.keys[..n];
    if k in p.marked {
      MarkOne(MarkFirst(recorded, p, n), k, p.hash.value, evm, part);
      assert p.amounts[n] == MICRO_PER_CENT * recorded[k].amountCents;
    }
  }

  /** Each event of the payment moves its amount from unpaid to executed or missed, and the payment sent just that amount. */
  lemma {:induction false} MarkFirstBalance(recorded: Table, p: Payment, n: nat, evm: Directory, part: Part)
    requires Bounded(recorded) && Entries(recorded, p) && n <= |p.keys| && Attributed(p, recorded, evm, part)
    ensures Accounted(recorded, p, n, evm, part) == Accounted(recorded, p, 0, evm, part) + SentIn(p, n, part)
  {
    if n != 0 {
      MarkFirstBalance(recorded, p, n - 1, evm, part);
      MarkNext(recorded, p, n - 1, evm, part);
    }
  }

  lemma PaymentKeepsBalance(recorded: Table, after: Table, p: Payment, evm: Directory, part: Part)
    requires Bounded(recorded) && Entries(recorded, p) && Marks(recorded, after, p) && Attributed(p, recorded, evm, part)
    ensures Bounded(after)
    ensures MICRO_PER_CENT * Total(ExecutedCents(after, evm, part)) + MissedIn(p, |p.keys|, part)
         == MICRO_PER_CENT * Total(ExecutedCents(recorded, evm, part)) + SentIn(p, |p.keys|, part)
  {
    var n := |p.keys|;
    MarkFirstBalance(recorded, p, n, evm, part);
    assert Accounted(recorded, p, 0, evm, part) == MICRO_PER_CENT * Total(ExecutedCents(recorded, evm, part));
    forall k | k in recorded ensures MarkFirst(recorded, p, n)[k] == after[k] {
      MarkFirstRow(recorded, p, n, k);
      assert p.keys[..n] == p.keys;
    }
    assert MarkFirst(recorded, p, n) == after;
  }

  /** One more payment adds one to its events' counts: a miss, or the mark that executes the event. */
  lemma PaymentKeepsCounts(b: Books, recorded: Table, c: Books, p: Payment)
    requires Counted(b) && Recorded(b.rows, recorded) && Entries(recorded, p) && Marks(recorded, c.rows, p) && c.paid == b.paid + [p]
    ensures Counted(c)
  {
    assert c.paid[..|b.paid|] == b.paid;
    forall k ensures Times(c.paid, k) == Misses(c.paid, k) + if Executed(c.rows, k) then 1 else 0 {
      assert Times(b.paid, k) == Misses(b.paid, k) + if Executed(b.rows, k) then 1 else 0;
      assert Executed(recorded, k) <==> Executed(b.rows, k);
      if k in p.keys { var m :| 0 <= m < |p.keys| && p.keys[m] == k; }
    }
  }

  lemma PaymentKeepsMatching(b: Books, recorded: Table, c: Books, p: Payment)
    requires Matched(b) && Recorded(b.rows, recorded) && Entries(recorded, p) && Marks(recorded, c.rows, p) && c.paid == b.paid + [p]
    ensures Matched(c)
  {
    forall i, k | 0 <= i < |c.paid| && k in c.paid[i].marked
      ensures k in c.rows && c.rows[k].executed.Some? && c.rows[k].executed == c.paid[i].hash
    {
      if i < |b.paid| {
        assert k in b.rows && recorded[k] == b.rows[k];
        assert k !in p.keys;
      } else {
        var m :| 0 <= m < |p.keys| && p.keys[m] == k;
      }
    }
    forall k | Executed(c.rows, k) ensures exists i :: 0 <= i < |c.paid| && k in c.paid[i].marked {
      if k in p.marked {
        assert c.paid[|b.paid|] == p;
      } else {
        assert Executed(b.rows, k);
        var i :| 0 <= i < |b.paid| && k in b.paid[i].marked;
        assert c.paid[i] == b.paid[i];
      }
    }
  }

  // ---------- one run, any run ----------

  lemma PaymentBounded(recorded: Table, after: Table, p: Payment)
    requires Bounded(after) && Marks(recorded, after, p)
    ensures Bounded(recorded)
  {
    forall k | k in recorded ensures 0 <= recorded[k].amountCents <= MAX_CENTS { assert after[k].amountCents == recorded[k].amountCents; }
  }

  lemma RunKeepsBooks(b: Books, c: Books)
    requires InBooks(b) && Bounded(c.rows) && WeeklyRun(b, c)
    ensures InBooks(c)
  {
    if Recorded(b.rows, c.rows) && c.paid == b.paid {
      assert forall k :: Executed(c.rows, k) <==> Executed(b.rows, k);
    } else {
      var asked := c.lookups[|b.lookups|..];
      var recorded: Table, p: Payment :| Recorded(b.rows, recorded) && PaidAndMarked(asked, recorded, c.rows, p) && c.paid == b.paid + [p];
      PaymentKeepsMatching(b, recorded, c, p);
      PaymentKeepsCounts(b, recorded, c, p);
    }
  }

  lemma PaymentKeepsTotals(b: Books, recorded: Table, c: Books, p: Payment, evm: Directory, part: Part)
    requires Bounded(b.rows) && AllEven(b.paid) && Balanced(b, evm, part) && Attributed(p, recorded, evm, part)
    requires Bounded(c.rows) && Recorded(b.rows, recorded) && Entries(recorded, p) && Marks(recorded, c.rows, p) && c.paid == b.paid + [p]
    ensures AllEven(c.paid) && Balanced(c, evm, part)
  {
    PaymentBounded(recorded, c.rows, p);
    RecordingKeepsBalance(b.rows, recorded, evm, part);
    PaymentKeepsBalance(recorded, c.rows, p, evm, part);
    assert c.paid[..|b.paid|] == b.paid;
  }

  /** A payment that goes by lookups that follow the directory goes where the directory says. */
  lemma LookupsAttribute(lookups: seq<Lookup>, recorded: Table, after: Table, p: Payment, evm: Directory, part: Part)
    requires PaidAndMarked(lookups, recorded, after, p) && (part.Everyone? || Follows(lookups, evm))
    ensures Attributed(p, recorded, evm, part)
  {
    if part.Only? {
      forall i | 0 <= i < |p.keys| && i < |p.recipients| && p.keys[i] in recorded
        ensures p.recipients[i] == evm(recorded[p.keys[i]].wallet)
      {
        assert Lookup(recorded[p.keys[i]].wallet, Some(p.recipients[i])) in lookups;
      }
    }
  }

  lemma RunKeepsBalance(b: Books, c: Books, evm: Directory, part: Part)
    requires Bounded(b.rows) && AllEven(b.paid) && Balanced(b, evm, part)
    requires Bounded(c.rows) && AllEven(c.paid) && WeeklyRun(b, c) && (part.Everyone? || Follows(c.lookups, evm))
    ensures Balanced(c, evm, part)
  {
    if Recorded(b.rows, c.rows) && c.paid == b.paid {
      RecordingKeepsBalance(b.rows, c.rows, evm, part);
    } else {
      var asked := c.lookups[|b.lookups|..];
      var recorded: Table, p: Payment :| Recorded(b.rows, recorded) && PaidAndMarked(asked, recorded, c.rows, p) && c.paid == b.paid + [p];
      LookupsAttribute(asked, recorded, c.rows, p, evm, part);
      PaymentKeepsTotals(b, recorded, c, p, evm, part);
    }
  }

  /** The books after each of a sequence of runs that do not overlap, with amounts in bounds, from nothing. */
  ghost predicate BooksOfRuns(states: seq<Books>) {
    && |states| > 0 && states[0] == Books(map[], [], [])
    && (forall i :: 0 < i < |states| ==> WeeklyRun(states[i - 1], states[i]))
    && (forall i :: 0 <= i < |states| ==> Bounded(states[i].rows))
  }

  lemma {:induction false} EveryRunInBooks(states: seq<Books>, n: nat)
    requires BooksOfRuns(states) && n < |states|
    ensures InBooks(states[n])
  {
    if n != 0 {
      EveryRunInBooks(states, n - 1);
      RunKeepsBooks(states[n - 1], states[n]);
    }
  }

  lemma NothingYet(evm: Directory, part: Part)
    ensures Balanced(Books(map[], [], []), evm, part)
  {
    assert ExecutedCents(map[], evm, part) == map[];
  }

  lemma FollowedBefore(b: Books, c: Books, evm: Directory)
    requires WeeklyRun(b, c)
    ensures Follows(c.lookups, evm) ==> Follows(b.lookups, evm)
  {
    assert forall l :: l in b.lookups ==> l in c.lookups;
  }

  lemma {:induction false} EveryRunBalanced(states: seq<Books>, n: nat, evm: Directory, part: Part)
    requires BooksOfRuns(states) && n < |states| && (part.Everyone? || Follows(states[n].lookups, evm))
    ensures InBooks(states[n]) && Balanced(states[n], evm, part)
  {
    EveryRunInBooks(states, n);
    if n == 0 {
      NothingYet(evm, part);
    } else {
      var b, c := states[n - 1], states[n];
      FollowedBefore(b, c, evm);
      EveryRunBalanced(states, n - 1, evm, part);
      RunKeepsBalance(b, c, evm, part);
    }
  }

  /**
   Weekly accounting, whatever fails: an event is part of exactly one payment more than it had failed
   marks and lost receipts when it is executed, and of as many when it is not; executed events carry the
   hash of a payment that marked them; and everything ever sent is 10_000 times the cents of the executed
   events plus the amounts of the misses.
   */
  lemma WeeklyBooksBalance(states: seq<Books>, n: nat, evm: Directory)
    requires BooksOfRuns(states) && n < |states|
    ensures InBooks(states[n]) && Balanced(states[n], evm, Everyone)
  {
    EveryRunBalanced(states, n, evm, Everyone);
  }

  /**
   The same for each address: when a wallet's lookups all give one address, or fail, an address has been
   sent exactly 10_000 times the cents of the executed events whose wallet leads to it, plus the misses
   that went to it.
   */
  lemma EachAddressIsSentItsOwn(states: seq<Books>, n: nat, evm: Directory, a: Address)
    requires BooksOfRuns(states) && n < |states| && Follows(states[n].lookups, evm)
    ensures InBooks(states[n]) && Balanced(states[n], evm, Only(a))
  {
    EveryRunBalanced(states, n, evm, Only(a));
  }

  /** No mark failed and no receipt was lost. */
  predicate NothingMissed(paid: seq<Payment>) {
    forall i, k :: 0 <= i < |paid| && k in paid[i].keys ==> k in paid[i].marked
  }

  lemma {:induction false} NoMisses(paid: seq<Payment>, k: Key, part: Part)
    requires NothingMissed(paid) && AllEven(paid)
    ensures Misses(paid, k) == 0 && TotalMissed(paid, part) == 0
  {
    if paid != [] {
      var p := paid[|paid| - 1];
      NoMisses(paid[..|paid| - 1], k, part);
      assert forall j :: j in p.keys ==> j in p.marked;
      assert Even(p);
      NoMissIn(p, |p.keys|, part);
    }
  }

  lemma {:induction false} NoMissIn(p: Payment, n: nat, part: Part)
    requires Even(p) && n <= |p.keys| && forall k :: k in p.keys ==> k in p.marked
    ensures MissedIn(p, n, part) == 0
  {
    if n != 0 { NoMissIn(p, n - 1, part); }
  }

  /** When nothing was missed, each event is in at most one payment, the executed ones in exactly one, and each address was sent just what its executed events are worth. */
  lemma PaidOnceWithoutMisses(states: seq<Books>, n: nat, k: Key, evm: Directory, a: Address)
    requires BooksOfRuns(states) && n < |states| && NothingMissed(states[n].paid) && Follows(states[n].lookups, evm)
    ensures Times(states[n].paid, k) == if Executed(states[n].rows, k) then 1 else 0
    ensures Bounded(states[n].rows) && AllEven(states[n].paid)
    ensures TotalSent(states[n].paid, Everyone) == MICRO_PER_CENT * Total(ExecutedCents(states[n].rows, evm, Everyone))
    ensures TotalSent(states[n].paid, Only(a)) == MICRO_PER_CENT * Total(ExecutedCents(states[n].rows, evm, Only(a)))
  {
    WeeklyBooksBalance(states, n, evm);
    EachAddressIsSentItsOwn(states, n, evm, a);
    NoMisses(states[n].paid, k, Everyone);
    NoMisses(states[n].paid, k, Only(a));
  }

  lemma TimesNext(paid: seq<Payment>, p: Payment, k: Key)
    ensures Times(paid + [p], k) == Times(paid, k) + if k in p.keys then 1 else 0
  {
    assert (paid + [p])[..|paid|] == paid;
  }

  /** A payment of one event. */
  function Single(k: Key, ev: Event, to: Address, hash: Option<string>): Payment {
    Payment([k], [to], [ToMicro(ev.amountCents)], MAX_CENTS * MICRO_PER_CENT, hash, if hash.Some? then {k} else {})
  }

  lemma SingleIsPayment(k: Key, ev: Event, to: Address, hash: Option<string>)
    requires ev.executed.None? && 0 <= ev.amountCents <= MAX_CENTS
    ensures PaidAndMarked([Lookup(ev.wallet, Some(to))], map[k := ev], map[k := ev.(executed := hash)], Single(k, ev, to, hash))
  {
    assert WrappedSum(Single(k, ev, to, hash).amounts, 0) == 0;
  }

  /** A lost receipt pays an event twice: it is paid, stays unmarked, and the next run pays it again. */
  lemma LostReceiptPaysTwice(k: Key, ev: Event, to: Address, hash: string) returns (states: seq<Books>)
    requires ev.executed.None? && 0 <= ev.amountCents <= MAX_CENTS
    ensures |states| == 3 && BooksOfRuns(states) && Times(states[2].paid, k) == 2
  {
    var lost, again := Single(k, ev, to, None), Single(k, ev, to, Some(hash));
    var recorded, after := map[k := ev], map[k := ev.(executed := Some(hash))];
    var asked := [Lookup(ev.wallet, Some(to))];
    SingleIsPayment(k, ev, to, None);
    SingleIsPayment(k, ev, to, Some(hash));
    TimesNext([], lost, k);
    TimesNext([] + [lost], again, k);
    states := [Books(map[], [], []), Books(recorded, [] + [lost], asked), Books(after, [] + [lost] + [again], asked + asked)];
    OneRun(states[0], states[1], recorded, lost, asked);
    OneRun(states[1], states[2], recorded, again, asked);
  }

  /** A run from its parts. */
  lemma OneRun(b: Books, c: Books, recorded: Table, p: Payment, asked: seq<Lookup>)
    requires Recorded(b.rows, recorded) && PaidAndMarked(asked, recorded, c.rows, p)
    requires c.paid == b.paid + [p] && c.lookups == b.lookups + asked
    ensures WeeklyRun(b, c)
  {
    assert c.lookups[|b.lookups|..] == asked;
  }
}
