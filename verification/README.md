# WAGR: league escrow, payout oracle and the bridge between them

WAGR keeps fantasy-league entry fees in an on-chain escrow (`LeagueEscrow.sol`, holding a USDC
token). A scheduled oracle (`service_oracle.go`) pays prizes out of it, while Postgres rows track
each league and member. This project models the three parts and proves what they keep together.

- **Chain.** `Ledger.dfy` gives every call of token and escrow as a function that reverts or yields
  the next state, with Solidity 0.8 checked arithmetic ("Checked or Unchecked Arithmetic") and EIP-20
  transfers ("Methods"). `Contracts.dfy` holds the two contracts as classes that update their
  storage in place and undo it on revert, proved against those functions. `LedgerSafety.dfy` and
  `LedgerTheorems.dfy` state conservation, solvency and liveness over every run of calls.
- **Bridge.** `Abi.dfy` is the hand-written call-data encoder on a byte buffer; `AbiRoundTrip.dfy` has a
  decoder following "Formal Specification of the Encoding" of the Solidity Contract ABI Specification
  and the round trip. `LeagueId.dfy` has the Go and TypeScript UUID conversions (text form: section 4
  of RFC 9562). `Bridge.dfy` reads balances back as truncated int64 and compares the oracle's check
  with the contract's. `ViewCalls.dfy` has the two balance queries, from call data to the value read.
- **Season end.** `SeasonEnd.dfy` is the settlement as a state machine over one shared league row: any
  number of runs, one step per external call, crashes, failed calls, commits reported as errors,
  payouts whose receipt is lost, status refreshes with stale reads, imports, cancellations and
  settings changes, all interleaved. `SeasonEndSafety.dfy` proves what every interleaving keeps,
  `SeasonEndRecords.dfy` that members' records are what was sent, `SeasonEndOnChain.dfy` that the escrow
  has paid each address what was resolved for it, `SeasonEndSelection.dfy` which leagues ever settle,
  `SeasonEndCancellation.dfy` when a cancelled league is still paid, `SeasonEndProgress.dfy` retry and
  completion, `SeasonEndTargets.dfy` that exactly the winners are paid and recorded, `Standings.dfy` the
  way from bracket to budget. `SettleSeasonEnd.dfy` is
  `settleSeasonEnd` itself with its loops, proved to be a run of that machine.
- **Other jobs and handlers.** `StatusRefresh.dfy`, `WeeklyRecording.dfy`, `WeeklyPayout.dfy` and
  `WeeklyAccounting.dfy`, `PaymentLifecycle.dfy`, and `LeagueSettings.dfy` for the settings page.

Histories that no storage holds (`distribute` calls, paid marks, USDC taken by the owner, successful
weekly payments) are carried as extra components and never read by the modelled code.

Where the code and its comments part, the model follows the code: the comment at
`src/internal/league/service_oracle.go:560` says that only the season-end job may set `complete`, but
a re-import writes whatever the platform reports (`src/internal/league/service.go:135`); the comment at
`src/internal/league/service.go:808` takes amounts to fit int64, which holds exactly below 2^63.

Five tempting claims fail in the code. Each has a lemma at an input and a lemma with its exact condition:

- "What passes the oracle's check passes the contract's": `Bridge.OneCentOverTheBound` (a prize of
  922337203685478 cents on an empty league), `Bridge.ChecksAgreeExactly` and, in cents,
  `Bridge.CentsAreSafeExactly`.
- "A member marked paid has paid the fee": `PaymentLifecycle.HugeFeeIsFree` (a fee of 922337203685478
  cents is required as a negative amount), `PaymentLifecycle.MarkMeansPaidExactly`.
- "A league whose season is over gets paid": `SeasonEndSelection.ImportedCompleteIsNeverPaid` (a league
  imported when the platform already reports `complete`) and `SeasonEndSelection.PastSeasonIsNeverPaid`
  (a league that no refresh saw during its own season); `SeasonEndSelection.CanStartExactly` and
  `SeasonEndProgress.RefreshThenSettle`.
- "A cancelled league is not paid": `SeasonEndCancellation.OneWinnerIsPaid` (cancelled right after its
  selection), `SeasonEndCancellation.CancelledIsPaidExactly`.
- "A weekly bonus is paid once": `WeeklyAccounting.LostReceiptPaysTwice`,
  `WeeklyAccounting.WeeklyBooksBalance` (one payment more for every failed mark and every lost receipt).

## Model

| member | source | states |
|---|---|---|
| LedgerTheorems.EveryRunInOrder | contracts/src/LeagueEscrow.sol:45-97 | every run of external calls from deployment keeps all invariants: supply equation, no approval by the escrow, per-league and per-member conservation, solvency |
| LedgerTheorems.LeagueConservation | contracts/src/LeagueEscrow.sol:45-91 | in every reachable state recorded payments equal held total plus payouts, money in equals refunds plus payouts plus held, so payouts never exceed collections |
| LedgerTheorems.EscrowSolvency | contracts/src/LeagueEscrow.sol:45-97 | the sum of all league totals never exceeds the escrow's USDC plus what the owner recovered, and balances always sum to the supply |
| LedgerTheorems.OtherLeaguesUntouched | contracts/src/LeagueEscrow.sol:45-91 | no run of calls on other leagues or on the token changes a league's total, payments or payouts |
| LedgerTheorems.WhoTakesOut | contracts/src/LeagueEscrow.sol:40-97 | USDC leaves the escrow only by a member's refund or by the owner |
| LedgerTheorems.MintEffect | contracts/src/mocks/MockUSDC.sol:17-21 | minting adds to one account and the supply, and fails exactly when the supply would overflow |
| LedgerTheorems.ApproveEffect | contracts/src/mocks/MockUSDC.sol:23-27 | an approval sets one allowance, whatever it was, and nothing else |
| LedgerTheorems.TransferFromEffect | contracts/src/mocks/MockUSDC.sol:37-45 | succeeds exactly within allowance and balance, spends just that allowance, moves just that amount |
| LedgerTheorems.FeeEffect | contracts/src/LeagueEscrow.sol:45-53 | an accepted fee moves into the escrow, onto the member's slot and the league's total, and changes nothing else |
| LedgerTheorems.RefundEffect | contracts/src/LeagueEscrow.sol:58-67 | a refund gives back the whole recorded amount, off slot and total, and changes nothing else |
| LedgerTheorems.EmergencyWithdrawEffect | contracts/src/LeagueEscrow.sol:94-97 | the owner's alone, exactly within the balance; the amount goes to the owner and the books stay |
| LedgerTheorems.FeeSucceedsExactly | contracts/src/LeagueEscrow.sol:45-53 | a fee is accepted if and only if it is positive, approved, held and fits the member's slot; the league total then cannot overflow, and the escrow receives it in full |
| LedgerTheorems.PayoutSucceedsExactly | contracts/src/LeagueEscrow.sol:70-91 | with nothing recovered, a payout succeeds if and only if the owner sends it, lengths agree and the true sum fits the league total: no revert half way |
| LedgerTheorems.PayoutPaysExactly | contracts/src/LeagueEscrow.sol:75-90 | in every reachable state a successful payout gives each address exactly the sum over all its occurrences, and takes exactly the sum from the league |
| LedgerTheorems.NothingRecovered | contracts/src/LeagueEscrow.sol:94-97 | only `emergencyWithdraw` counts as recovery, so the no-recovery results apply to every run without it |
| LedgerTheorems.RefundSucceedsExactly | contracts/src/LeagueEscrow.sol:58-67 | with nothing recovered, a refund succeeds if and only if the league still holds the member's recorded amount |
| LedgerTheorems.EveryoneCanBeRefunded | contracts/src/LeagueEscrow.sol:58-67 | without payouts and recovery, members refund in any order, each gets exactly the recorded amount, and the league ends at 0 |
| LedgerSafety.DistributePayoutEffect | contracts/src/LeagueEscrow.sol:70-91 | whatever the escrow's solvency, a payout that goes through changes balances, league total and log by exactly the amounts given, and nothing else |
| LedgerSafety.CheckedSumIsSum | contracts/src/LeagueEscrow.sol:77-80 | the contract's accumulator is the true sum, and overflows exactly when that does not fit uint256 |
| LedgerSafety.MoveEffect | contracts/src/mocks/MockUSDC.sol:29-45 | a token move succeeds exactly when the source holds the amount, keeps the sum of balances and moves exactly the amount |
| Contracts.MockUSDC.Mint | contracts/src/mocks/MockUSDC.sol:17-21 | in place, the token's new storage, or a revert that leaves it alone |
| Contracts.MockUSDC.Approve | contracts/src/mocks/MockUSDC.sol:23-27 | in place, the new allowance |
| Contracts.MockUSDC.Transfer | contracts/src/mocks/MockUSDC.sol:29-35 | in place, the moved balances, or a revert that leaves them alone |
| Contracts.MockUSDC.TransferFrom | contracts/src/mocks/MockUSDC.sol:37-45 | in place, spent allowance and moved balances, or a revert that leaves them alone |
| Contracts.LeagueEscrow.PayEntryFee | contracts/src/LeagueEscrow.sol:45-53 | in place, the state the ledger function gives; on revert escrow and token are as before |
| Contracts.LeagueEscrow.ClaimRefund | contracts/src/LeagueEscrow.sol:58-67 | in place, the state the ledger function gives; on revert escrow and token are as before |
| Contracts.LeagueEscrow.DistributePayout | contracts/src/LeagueEscrow.sol:70-91 | both loops in place; a failing transfer undoes all earlier ones |
| Contracts.LeagueEscrow.EmergencyWithdraw | contracts/src/LeagueEscrow.sol:94-97 | in place, for the escrow's own USDC and for any other token, whose books stay apart |
| Abi.EncodeDistributePayoutCall | src/internal/league/hedera_client.go:98-141 | the buffer written slot by slot over zeros is the call data, missing amounts reading as zero; every write is in bounds, and with as many amounts as recipients the cursor ends at 164 + 64 N |
| AbiRoundTrip.DecodedCall | src/internal/league/hedera_client.go:85-141 | for every N and all int64 amounts the decoder returns exactly the league, the recipients, and each amount as its uint64 |
| AbiRoundTrip.AmountsSurviveExactly | src/internal/league/hedera_client.go:135-138 | decoded amounts equal the given ones if and only if none is negative |
| AbiRoundTrip.ExecuteDistributePayout | src/internal/league/hedera_client.go:54-83 | nothing is submitted for empty or unequal lists; what is submitted decodes to the arguments; an id is returned if and only if a receipt reports success |
| LeagueId.LeagueIdBytes32 | src/web/src/strategies/HederaStrategy.ts:373-377 | for any text the byte loop fills the 32 bytes with what parseInt makes of the padded pairs |
| LeagueId.TwoImplementationsAgree | src/internal/league/service.go:713-725 | Go accepts an id if and only if 32 hex digits remain without dashes, and then TypeScript computes the same 32 bytes |
| LeagueId.KeyIsTheDigits | src/internal/league/service.go:713-725 | a UUID's key is its 16 bytes, which written out are its own digits in lower case, and 16 zeros |
| LeagueId.OneKeyPerLeague | src/internal/league/service.go:713-725 | every well-formed UUID has a key, the same in both languages, and two UUIDs share it if and only if they are equal up to hex case |
| Bridge.ReadIsTruncation | src/internal/league/service.go:795-810 | decoding the node's hex answer for a uint256 gives its low 64 bits as int64 |
| Bridge.ReadExactly | src/internal/league/service.go:808-810 | the balance is read exactly if and only if it is below 2^63, and never too high |
| Bridge.TotalIsTruncatedSum | src/internal/league/service_oracle.go:506-511 | the oracle's int64 total is the low 64 bits of the sum of the decoded amounts, whatever they are |
| Bridge.NothingWraps | src/internal/league/service_oracle.go:504-511 | non-negative cents totalling at most 922337203685477 wrap in no product and no prefix sum |
| Bridge.ChecksAgreeExactly | src/internal/league/service_oracle.go:513-519 | in all reachable states passing the oracle's check means passing the contract's, if and only if the decoded sum is below 2^63, and under the same condition the two agree wherever the league total is below 2^63 |
| Bridge.CentsAreSafeExactly | src/internal/league/service_oracle.go:504-519 | non-negative prizes decode as 10000 times their cents, with a check safe on every league total, if and only if they total at most 922337203685477 cents |
| Bridge.OneCentOverTheBound | src/internal/league/service_oracle.go:509-519 | one cent over the bound, the oracle's check passes on an empty league and the contract's does not |
| Bridge.EndToEnd | src/internal/league/service_oracle.go:504-519 | within the bound the balance is read exactly, amounts decode exactly, and the oracle's check passes if and only if the contract accepts the decoded call in the same state |
| ViewCalls.EncodePaymentsCall | src/internal/league/service.go:728-743 | the padded array and the appended parts are the selector, the league and the address word |
| ViewCalls.EncodeLeagueTotalsCall | src/internal/league/service_oracle.go:23-31 | the 36-byte buffer is the selector and the league |
| ViewCalls.PaymentRead | src/internal/league/service.go:728-811 | the query for a member's payment is answered from exactly that league's and member's slot and read as its low 64 bits, which is what the payment handlers act on |
| ViewCalls.LeagueTotalRead | src/internal/league/service_oracle.go:356-361 | the query for a league's total is answered from exactly that league's slot and read as its low 64 bits |
| SeasonEndSafety.EveryRunInOrder | src/internal/league/service_oracle.go:420-558 | every interleaving of runs, refreshes, imports, cancellations and settings changes keeps row, runs, records and chain consistent |
| SeasonEndSafety.AtMostOnePayout | src/internal/league/service_oracle.go:521-548 | `distribute` is called at most once ever; pending means never paid and no claim held; executed with a hash means exactly one accepted call with it; failed means one call that reported an error |
| SeasonEndSafety.OneClaimHolder | src/internal/league/service_oracle.go:371-380 | at most one run holds the claim, the row is then executing, and what it sends is non-empty with equal lengths |
| SeasonEndSafety.StatusNeverGoesBack | src/internal/league/service_oracle.go:363-399 | without imports a known status never loses rank, and a row with complete exactly when executed keeps that, stale reads included |
| SeasonEndSafety.StatusStep | src/internal/league/service_oracle.go:746-757 | one action other than an import keeps the status order, and a refresh never writes complete |
| SeasonEndSafety.AtMostTwoRefreshUpdates | src/internal/league/service_oracle.go:746-757 | however many stale refreshes run, at most two of their writes ever change a league that is not re-imported |
| SeasonEndSafety.AgreementKeptExactly | src/internal/league/service.go:128-138 | over every run, complete and executed agree at every moment if and only if every import agrees, when it comes, with what has been paid |
| SeasonEndSafety.ImportPartsForGood | src/internal/league/service.go:128-138 | once an import has parted them on an executed league, only another import rejoins them, and the league is never selected again |
| SeasonEndRecords.RecordsMatchPayout | src/internal/league/service_oracle.go:504-554 | in every reachable state nothing is recorded before a payout; after it, one run sent it, its resolved addresses and amounts index by index, and every member record is the place and amount of that member's entry among them, under the accepted hash |
| SeasonEndOnChain.MembersGetTheirPrizes | src/internal/league/service_oracle.go:521-554 | over every joint run of settlements and ledger calls, an executed league with a hash has paid each address exactly what one run resolved for it, duplicates added, besides the league's other payouts; a pending one has paid nothing; a failed one all or nothing |
| SeasonEndOnChain.PayableIsAccepted | src/internal/league/service_oracle.go:504-519 | a league total below 2^63 is read as it is, and on it the prizes pass the oracle's check if and only if the contract accepts them in the same state |
| SeasonEndSelection.ImportedCompleteIsNeverPaid | src/internal/league/service.go:128-138 | a league imported as complete stays pending and unpaid over every run without a further import |
| SeasonEndSelection.PastSeasonIsNeverPaid | src/internal/league/service_oracle.go:634-649 | a league not yet in season whose own season is never the platform's current one stays pending and unpaid over every import-free run |
| SeasonEndSelection.CanStartExactly | src/internal/league/service_oracle.go:695-757 | some import-free run starts a settlement of a pending idle league if and only if it is in season, or its stored status is known and not complete and its season is among those the platform goes through |
| SeasonEndCancellation.CancelledIsPaidExactly | src/internal/league/service_oracle.go:280-558 | in every reachable state in which the league is cancelled, some course of events without a reactivation sends a payout if and only if a settlement under way holds the claim unsent, or the league is pending and the settlement has a balance to ask for or a claim to make, or a valid id and still a rule, place or target ahead |
| SeasonEndCancellation.CancelledInTimeIsNotPaid | src/internal/league/service_oracle.go:280-286 | a league cancelled with no settlement under way is sent no payout until it is reactivated |
| SeasonEndCancellation.CancelNeverMatters | src/internal/league/service_oracle.go:363-399 | cancelling before or after any steps of settlements under way gives the same state |
| SeasonEndCancellation.CancelledIsStillPaid | src/internal/league/service_oracle.go:363-399 | every payable league is paid in full although it is cancelled right after its selection |
| SeasonEndCancellation.OneWinnerIsPaid | src/internal/league/service_oracle.go:363-399 | for instance, a cancelled league sends one USDC to its winner |
| SettleSeasonEnd.Settle | src/internal/league/service_oracle.go:420-519 | the procedure, with other actions before any of its calls, is a run of the machine to its end, and errors exactly for the outcomes that are errors |
| SettleSeasonEnd.ClaimAndPay | src/internal/league/service_oracle.go:521-558 | claim, transaction, mark and records in this order; the transaction only while holding the claim and only with the resolved lists |
| SettleSeasonEnd.ResolveStandings | src/internal/league/service_oracle.go:466-492 | the standings loop asks for exactly the targets' wallets and resolves what the machine resolves |
| SettleSeasonEnd.BuildMaps | src/internal/league/service_oracle.go:449-457 | the loops build both lookup maps, whose contents are in the next two rows |
| SeasonEndTargets.MemberByRosterExactly | src/internal/league/service_oracle.go:449-452 | a roster is in the map if and only if some member has it, and leads to the last such member |
| SeasonEndTargets.PlaceToEntryExactly | src/internal/league/service_oracle.go:429-457 | a place is in the map if and only if some placement entry has it, and leads to the last such entry |
| SeasonEndTargets.TargetExactly | src/internal/league/service_oracle.go:466-492 | a standing pays the last member of its roster, who has a wallet, under the last placement entry of its place, and otherwise nobody |
| SeasonEndTargets.PrizesPayWinners | src/internal/league/service_oracle.go:466-492 | when no lookup fails, exactly the standings with a rule, a member and a wallet are paid, each once and in order, with that rule's amount at that wallet's address |
| SeasonEndTargets.WinnersArePaidAndRecorded | src/internal/league/service_oracle.go:504-554 | a season end that goes well pays exactly the winners in one call and puts each paid roster's place and amount on record under its hash |
| SettleSeasonEnd.PayoutLists | src/internal/league/service_oracle.go:504-511 | recipients, micro-USDC amounts and their wrapped total, index by index |
| SettleSeasonEnd.TracePaysAtMostOnce | src/internal/league/service_oracle.go:521-533 | an execution that starts in any reachable state ends in a reachable state, so at most one payout was ever sent |
| SettleSeasonEnd.SettleSelected | src/internal/league/service_oracle.go:275-413 | selection and settlement of a league with any history end, others acting in between, in a reachable state with the run finished and at most one payout sent |
| SeasonEndProgress.GivingUpChangesNothing | src/internal/league/service_oracle.go:415-419 | an attempt that fails or dies before its claim leaves row, records and chain as they were |
| SeasonEndProgress.RetryEquivalence | src/internal/league/service_oracle.go:415-419 | any number of such attempts followed by one more equals that one alone |
| SeasonEndProgress.SettlementCompletes | src/internal/league/service_oracle.go:420-558 | an uncontended run whose reads and writes work changes nothing unless the platform reports complete and the prizes are payable; then it settles, pays and records them, or ends failed when the chain does not confirm |
| SeasonEndProgress.OnlyCompleteIsSettled | src/internal/league/service_oracle.go:420-432 | over every interleaving, until some run is told that the season is complete nothing is claimed, sent, recorded or settled |
| SeasonEndProgress.SelectedExactly | src/cmd/oracle/main.go:88-111 | refresh then selection starts a settlement if and only if the league is pending, not cancelled, and was in season, or had a known status short of complete in its own season and is reported as in season or beyond; a cancelled league does not change |
| SeasonEndProgress.RefreshThenSettle | src/cmd/oracle/main.go:88-111 | refresh then season end takes a pending league to complete and executed if and only if a settlement starts, as just said, the platform reports complete, and its prizes are payable and confirmed |
| Standings.GetFinalStandings | src/internal/fantasy/sleeper/adapter.go:153-178 | the loop collects the standings of the placement games in order |
| Standings.StandingsAreGiven | src/internal/fantasy/sleeper/adapter.go:150-176 | a standing is listed if and only if some placement game gives it |
| Standings.StandingsInGameOrder | src/internal/fantasy/sleeper/adapter.go:153-178 | the standings come game by game, each winner and loser once, the winner first |
| Standings.StandingsDistinct | src/internal/fantasy/sleeper/adapter.go:160-176 | games at least 2 places apart with no roster twice give distinct places and rosters |
| Standings.PaysWithinBudget | src/internal/league/service_oracle.go:429-511 | in every reachable state a run on such a bracket resolves each place and roster at most once, in all at most the sum of the placement entries |
| Standings.SendsWithinBudget | src/internal/league/service_oracle.go:429-533 | the amounts actually sent are 10000 times the cents owed, for different places and rosters, and total at most 10000 times the placement entries |
| Standings.BudgetWithinEntries | src/internal/league/service_oracle.go:454-457 | the rules by place promise no more than the entries they come from |
| StatusRefresh.UpdatesExactly | src/internal/league/service_oracle.go:590-618 | NULL or pre_draft moves to drafting exactly on drafting; NULL, pre_draft, drafting and post_season move to in_season exactly on in_season, post_season or complete; nothing else is ever written |
| StatusRefresh.HighestReportCounts | src/internal/league/service_oracle.go:590-618 | over any sequence of reports the highest in the order pre_draft, drafting, in_season counts |
| StatusRefresh.RefreshIsMaximum | src/internal/league/service_oracle.go:590-618 | any sequence of reports amounts to one maximum of the stored rank and the highest reported one, capped at in_season |
| StatusRefresh.HighestRankIsMaximum | src/internal/league/service_oracle.go:565-571 | that rank is reported and no known report exceeds it |
| StatusRefresh.ReportOrderIrrelevant | src/internal/league/service_oracle.go:590-618 | order and repetition of reports do not matter |
| StatusRefresh.RefreshLeagueStatuses | src/internal/league/service_oracle.go:660-689 | on rows that may have changed, a row changes exactly when it still has the status read and its report calls for it; others are left alone; the count is of confirmed updates |
| StatusRefresh.FilterCurrentSeasonLeagues | src/internal/league/service_oracle.go:634-649 | keeps exactly the current-season leagues, in order |
| StatusRefresh.StatusTable.Update | src/internal/league/service_oracle.go:746-757 | the conditional update as the database answers it |
| WeeklyRecording.RecordingSpecification | src/internal/league/service_oracle.go:122-139 | after the insert loop the events are the old ones unchanged plus one per unkeyed (roster, bonus) that some entry earns: with the first such entry's amount, the points of a qualifying matchup of the roster, user and wallet of its last member, unpaid; and nothing else |
| WeeklyRecording.QualifiersExactly | src/internal/league/service_oracle.go:231-270 | the qualifiers of an entry are exactly the played matchups at its threshold, or the first of the highest positive scores |
| WeeklyRecording.ThresholdQualifiers | src/internal/league/service_oracle.go:262-270 | threshold bonuses go to exactly the teams that played and reached the threshold |
| WeeklyRecording.HighScoreQualifier | src/internal/league/service_oracle.go:245-259 | the high-score bonus goes to one positive maximum among those that played, or nobody scored |
| WeeklyRecording.BestIsFirstMaximum | src/internal/league/service_oracle.go:245-259 | the high scorer is the first positive maximum |
| WeeklyRecording.HighScorer | src/internal/league/service_oracle.go:245-259 | the loop finds that matchup |
| WeeklyRecording.ThresholdScorers | src/internal/league/service_oracle.go:262-270 | the loop keeps those matchups in order |
| WeeklyPayout.WeeklyStore.RecordEvents | src/internal/league/service_oracle.go:105-139 | fails exactly when the insert of some earned event does; without an error exactly the specified events are recorded, after one only earned events are new and old ones are unchanged |
| WeeklyPayout.WeeklyStore.SelectUnexecuted | src/internal/league/service_oracle.go:147-165 | each unexecuted event of the league and week once, in any order |
| WeeklyPayout.WeeklyStore.PayEvents | src/internal/league/service_oracle.go:141-228 | the payment takes every unexecuted event of the week whose wallet resolves, at its recorded amount, to the address answered for its wallet; it is sent exactly when ids, balance and chain allow, and exactly its events whose mark goes through are executed |
| WeeklyPayout.WeeklyStore.ProcessWeeklyPayouts | src/internal/league/service_oracle.go:99-228 | whatever fails, one run records and then pays at most once; when nothing reaches the chain no existing event changes, and without an error every earned event is recorded |
| WeeklyAccounting.WeeklyBooksBalance | src/internal/league/service_oracle.go:141-228 | over any sequence of runs, whatever fails in them, an event is part of as many payments as it had failed marks and lost receipts, plus one exactly when it is executed; the total sent is 10000 times the executed cents plus the missed amounts |
| WeeklyAccounting.EachAddressIsSentItsOwn | src/internal/league/service_oracle.go:180-228 | over any sequence of runs each address is sent exactly 10000 times the cents of the executed events whose wallet leads to it, plus the misses that went to it |
| WeeklyAccounting.PaidOnceWithoutMisses | src/internal/league/service_oracle.go:141-228 | when no mark failed and no receipt was lost, each executed event is in exactly one payment, the others in none, and in all and per address what was sent is 10000 times the executed cents |
| WeeklyAccounting.LostReceiptPaysTwice | src/internal/league/service_oracle.go:208-211 | a lost receipt lets the next run pay the same event again |
| PaymentLifecycle.EveryMarkIsPaidFor | src/internal/league/service.go:591-658 | over every joint run, members joining included, the USDC a member ever paid covers what was required at all of its paid marks, which is the sum of fees when none overflows |
| PaymentLifecycle.MarksNeedRefunds | src/internal/league/service.go:841-941 | paid marks equal confirmed refunds plus one if the member is marked paid now |
| PaymentLifecycle.RefundConfirmedAtZero | src/internal/league/service.go:876-941 | a refund is confirmed if and only if the league is cancelled, the member marked paid and the visible on-chain balance zero |
| PaymentLifecycle.RefundedOnlyWhenCancelled | src/internal/league/service.go:814-873 | with atomic handlers a refunded member's league is cancelled, over every run |
| PaymentLifecycle.MarkMeansPaidExactly | src/internal/league/service.go:612-642 | being marked paid means, in every reachable state of the chain, that the recorded payment reaches the fee, if and only if the fee is at most 922337203685477 cents |
| PaymentLifecycle.FeeBeyondRange | src/internal/league/service.go:638-642 | for every larger fee, whoever has paid what is left of it in int64, or nothing, is marked paid without having paid it |
| PaymentLifecycle.PaymentConfirmedExactly | src/internal/league/service.go:612-642 | with a fee within int64 a member is marked paid if and only if the low 64 bits of the recorded payment reach the fee |
| PaymentLifecycle.HugeFeeIsFree | src/internal/league/service.go:638-642 | one cent over the bound, a member who paid nothing is marked paid |
| PaymentLifecycle.PaymentConfirmedEffect | src/internal/league/service.go:591-658 | each answer exactly when it is due; a success leaves that member paid at the current fee and all else alone, any other answer changes nothing |
| PaymentLifecycle.RefundConfirmedEffect | src/internal/league/service.go:876-941 | likewise, a success leaves that member refunded and all else alone |
| PaymentLifecycle.LeagueCancelledEffect | src/internal/league/service.go:814-838 | only the commissioner cancels, only once, and nothing else changes |
| PaymentLifecycle.LeagueReactivatedEffect | src/internal/league/service.go:841-873 | only the commissioner reactivates a cancelled league; exactly its refunded members become unpaid |
| PaymentLifecycle.PaymentTables.ConfirmPayment | src/internal/league/service.go:591-658 | the handler in place: its answer and the rows after it |
| PaymentLifecycle.PaymentTables.ConfirmRefund | src/internal/league/service.go:876-941 | the handler in place: its answer and the rows after it |
| PaymentLifecycle.PaymentTables.CancelLeague | src/internal/league/service.go:814-838 | the handler in place: its answer and the rows after it |
| PaymentLifecycle.PaymentTables.ReactivateLeague | src/internal/league/service.go:841-873 | the handler in place: both updates, refunded members back to unpaid |
| LeagueSettings.NormalizeTwice | src/web/src/pages/LeagueSettings.tsx:35-45 | cleaning up payout entries is idempotent on every list, whatever fields are missing |
| LeagueSettings.NormalizeKeepsTotal | src/web/src/pages/LeagueSettings.tsx:35-56 | it never changes the total payout |
| LeagueSettings.NormalizeFillsIn | src/web/src/pages/LeagueSettings.tsx:35-45 | nothing given is lost or altered, what is missing gets its default, and only weekly entries keep a bonus type |
| LeagueSettings.OrdinalSuffix | src/web/src/pages/LeagueSettings.tsx:19-28 | 1st, 2nd, 3rd, but 11th, 12th, 13th |

## Left out

- TypeScript's UTF-16: a character beyond the basic plane counts as one here.
- Abi.EncodeDistributePayoutCall: the buffer length is required to be below 2^63, as any buffer in memory is, and no more amounts than recipients, where Go panics at the end of the buffer.
- WeeklyAccounting.WeeklyBooksBalance: runs do not overlap; two that select the same events before either marks them can both pay (`features/season-end-unfunded-retry/DECISIONS.md:109`).
- PaymentLifecycle.EveryMarkIsPaidFor: each handler is one atomic step and chain reads are accurate or fail; member wallets do not change and rows are not deleted.
- Concurrent handlers: `ReactivateLeague` is two statements in the database, so `refunded` can outlive a cancellation there.
- Manual repair of a league left `executing` or `failed`.
- The jobs' loops over all leagues, which treat each league on its own, and their JSON parsing.
- Keccak-256 is a parameter; selectors are whatever it gives.
- Gas, events of the token, HTS association and the escrow constructor's association check.
- Real tokens other than the mock, reentrancy, and approval races.
- `hederaAccountToEVM` and the Mirror Node account lookup: a wallet resolves to any address, or to an error.
- Points are reals: float64 rounding, NaN and the table's two decimals are not modelled.
- Go's `int` for places, weeks and roster ids, and JavaScript numbers, are unbounded integers.
- WeeklyAccounting.EachAddressIsSentItsOwn: lookups of one wallet all give one address, or fail; the other weekly results need no such thing.
- HTTP handlers, authentication and the settings page's state.
