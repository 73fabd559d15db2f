/** The values the oracle works on: league statuses, payout rules, members, standings and matchups. */
module League {
  import opened Wrappers

  /** A stored or platform-reported status; Unset is SQL NULL (or the empty string). */
  datatype Status = Unset | PreDraft | Drafting | InSeason | PostSeason | Complete | Unknown(text: string)

  datatype PayoutKind = Placement | Weekly | OtherKind(text: string)

  datatype BonusType = WeeklyHighScore | ScoreThreshold | OtherBonus(text: string)

  datatype PayoutEntry = PayoutEntry(kind: PayoutKind, bonus: BonusType, place: int, amountCents: int, threshold: Option<real>)

  /** The empty wallet string means that no wallet is linked. */
  datatype Member = Member(rosterId: int, platformUserId: string, wallet: string)

  datatype Standing = Standing(rosterId: int, place: int)

  datatype Matchup = Matchup(rosterId: int, matchupId: int, points: real)

  /** How the database answers an UPDATE: the error may come before or after the commit. */
  datatype Write = Committed | CommittedButError | NotCommitted
}
