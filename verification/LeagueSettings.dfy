/** The settings page's clean-up of payout entries, including legacy ones with missing fields. */
module LeagueSettings {
  import opened Wrappers

  /** A payout entry as it comes from the server: every field but the amount may be missing. */
  datatype Entry = Entry(
    kind: Option<string>,
    bonusType: Option<string>,
    caption: Option<string>,
    place: Option<int>,
    amountCents: int,
    weeks: Option<int>,
    threshold: Option<real>
  )

  /** `a ?? b`. */
  function OrElse<T>(a: Option<T>, b: T): T {
    match a
    case Some(v) => v
    case None => b
  }

  function DefaultLabelForBonusType(bonusType: string): string {
    if bonusType == "weekly_high_score" then "Weekly High Score"
    else if bonusType == "highest_weekly_score" then "Highest Weekly Score"
    else if bonusType == "score_threshold" then "Score Threshold"
    else bonusType
  }

  /** JavaScript's `%`: the remainder has the sign of the dividend. */
  function Remainder(a: int, b: int): int
    requires b > 0
  {
    if a >= 0 then a % b else -((-a) % b)
  }

  function Digits(n: nat): string {
    (if n < 10 then "" else Digits(n / 10)) + ["0123456789"[n % 10]]
  }

  function NumberText(n: int): string {
    if n < 0 then "-" + Digits(-n) else Digits(n)
  }

  function OrdinalLabel(n: int): string {
    var s := Remainder(n, 100);
    var suffix :=
      if 11 <= s <= 13 then "th"
      else if Remainder(n, 10) == 1 then "st"
      else if Remainder(n, 10) == 2 then "nd"
      else if Remainder(n, 10) == 3 then "rd"
      else "th";
    NumberText(n) + suffix + " Place"
  }

  predicate IsWeekly(e: Entry) {
    e.kind == Some("weekly")
  }

  function Normalize(e: Entry, i: nat): Entry {
    var bonusType := OrElse(e.bonusType, "weekly_high_score");
    Entry(
      Some(OrElse(e.kind, "placement")),
      if IsWeekly(e) then Some(bonusType) else None,
      Some(if e.caption.Some? && e.caption.value != "" then e.caption.value
           else if IsWeekly(e) then DefaultLabelForBonusType(bonusType)
           else OrdinalLabel(OrElse(e.place, i + 1))),
      e.place,
      e.amountCents,
      e.weeks,
      e.threshold)
  }

  function NormalizeEntries(entries: seq<Entry>): (r: seq<Entry>)
    ensures |r| == |entries|
  {
    seq(|entries|, i requires 0 <= i < |entries| => Normalize(entries[i], i))
  }

  predicate IsWeeklyBonus(bonusType: Option<string>) {
    OrElse(bonusType, "weekly_high_score") in ["weekly_high_score", "score_threshold"]
  }

  /** What one entry adds to the total: recurring weekly bonuses count once a week. */
  function Cost(e: Entry): int {
    if IsWeekly(e) && IsWeeklyBonus(e.bonusType) then e.amountCents * OrElse(e.weeks, 0) else e.amountCents
  }

  function TotalPayout(rows: seq<Entry>): int {
    if rows == [] then 0 else TotalPayout(rows[..|rows| - 1]) + Cost(rows[|rows| - 1])
  }

  /** The suffix of a positive place, by the rule of English ordinals: 1st, 2nd, 3rd, but 11th, 12th, 13th. */
  lemma OrdinalSuffix(n: nat)
    ensures var suffix := if n % 10 == 1 && n % 100 != 11 then "st"
                          else if n % 10 == 2 && n % 100 != 12 then "nd"
                          else if n % 10 == 3 && n % 100 != 13 then "rd"
                          else "th";
            OrdinalLabel(n) == NumberText(n) + suffix + " Place"
  {
  }

  /** Nothing that is given is lost or altered, what is missing is filled in, and only weekly entries keep a bonus type. */
  lemma NormalizeFillsIn(entries: seq<Entry>, i: nat)
    requires i < |entries|
    ensures var e, f := entries[i], NormalizeEntries(entries)[i];
            && f.amountCents == e.amountCents && f.place == e.place && f.weeks == e.weeks && f.threshold == e.threshold
            && f.kind == (if e.kind.Some? then e.kind else Some("placement"))
            && (e.kind == Some("weekly") ==> f.bonusType == if e.bonusType.Some? then e.bonusType else Some("weekly_high_score"))
            && (e.kind != Some("weekly") ==> f.bonusType == None)
            && f.caption.Some?
            && (e.caption.Some? && e.caption != Some("") ==> f.caption == e.caption)
            && (e.caption.None? || e.caption == Some("") ==>
                  f.caption.value == if e.kind == Some("weekly") then DefaultLabelForBonusType(f.bonusType.value)
                                     else OrdinalLabel(if e.place.Some? then e.place.value else i + 1))
  {
  }

  /** One entry: cleaning up twice is cleaning up once, and its cost stays. */
  lemma NormalizeEntry(e: Entry, i: nat)
    ensures Normalize(Normalize(e, i), i) == Normalize(e, i)
    ensures Cost(Normalize(e, i)) == Cost(e)
  {
    assert IsWeekly(Normalize(e, i)) == IsWeekly(e);
  }

  /** `normalizeEntries` is idempotent on every list, whatever is missing. */
  lemma NormalizeTwice(entries: seq<Entry>)
    ensures NormalizeEntries(NormalizeEntries(entries)) == NormalizeEntries(entries)
  {
    forall i | 0 <= i < |entries|
      ensures NormalizeEntries(NormalizeEntries(entries))[i] == NormalizeEntries(entries)[i]
    {
      NormalizeEntry(entries[i], i);
    }
  }

  /** It never changes what the league is going to pay. */
  lemma {:induction false} NormalizeKeepsTotal(entries: seq<Entry>)
    ensures TotalPayout(NormalizeEntries(entries)) == TotalPayout(entries)
  {
    if entries != [] {
      var n := |entries| - 1;
      assert NormalizeEntries(entries)[..n] == NormalizeEntries(entries[..n]);
      NormalizeKeepsTotal(entries[..n]);
      NormalizeEntry(entries[n], n);
    }
  }
}
