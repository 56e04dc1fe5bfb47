# Treasury OS in Dafny

A model of the reconciliation, money and ledger logic of the Treasury OS backend, with proofs.
`dafny verify dfyconfig.toml` checks all of it.

## What is modelled

**Reconciliation.**  Stage 5C walks the bank rows of a run and writes one suggestion, a tied set
or a "nothing found" row for each (`OneToOneMatching`).  Stage 5D forms groups: one bank row
against several ledger rows, several against one, the two legs of a transfer, and pairs in
different currencies (`AdvancedMatching`, `AdvancedEngine`, with the search in `GroupSearch` and
the key in `GroupKey`).  Stage 5E decides proposals (`Acceptance`), under real interleaving
(`AcceptanceRaces`, `LosingRaces`) and after the migration that introduced the claims table
(`ClaimsMigration`).  What these guarantee is said of the rows themselves, field by field, in
`SuggestionEvidence`, `GroupFigures` and `AcceptedTransactions`.  Suggestions, groups, decisions
and claims are sequences and maps that the engine classes reassign; bank and ledger rows are
tables keyed by id.

**Queries.**  A query without ORDER BY returns its rows in any order (`RowOrder.SelectUnordered`),
one with ORDER BY on a separating key has one answer (`RowOrder.InOrder`).  Where the code takes
the first row of an unordered query the model takes any, and the theorems hold for every choice.

**Concurrency.**  `AcceptanceRaces` takes a request apart into atomic database steps: lock the
proposal row, check what is committed, insert the claim rows one by one, commit.  An insert waits
for an open transaction that holds the key and fails on a committed one.  A request can be
abandoned at any point, which covers deadlock victims.

**Money.**  Amounts are whole cents (the columns are `NUMERIC(20, 2)`), rates are reals, rounding
is explicit and half-up.  Dates are Gregorian, with day numbers where only distance matters.
`InterestFigures` says what each interest, period and penalty is in numbers.

**Ledgers.**  The investment lifecycle against the cash ledger (`InvestmentBook`, `InvestmentService`),
with principal and cash over whole runs (`InvestmentConservation`, `InvestmentCash`,
`InvestmentLife`); facilities (`FacilityLedger`, `FacilityLimits`, `FacilityBalances`,
`FacilityFigures`, `FacilityService`); operational cash (`OperationalCash`); and recurring flows in
forecast weeks (`RecurringFlows`, `RecurringSchedule`).  Each service class is proved to do what
the function of the same step says, and the theorems are about runs of those steps.

## Where the code does less than it says

- The claim refresh of a Stage 5C pass reads rows the session has not flushed
  (`backend/app/db/session.py:20-26`), so it sees nothing.  Whether it does is a parameter here: with
  it, each ledger row has at most one live sole suggestion over any run; without it, exactly when
  at no execution two bank rows share their only candidate (`UnflushedRuns`), and
  `TwoReceiptsShareOneLedgerRow` is a case.
- `max_group_size` is read and never used (`backend/app/services/reconciliation_advanced_matching.py:106`).  What
  bounds a group is `max_candidates_evaluated`, as `GroupEvidence` states.
- Transfer detection runs even when advanced matching is switched off.
- Many-to-one, and only it, treats every ledger row that is not an inflow as a debit: bank debits are grouped with
  transfers and NON_CASH rows (`GroupDirections`: exactly then directions disagree, and a scene).
- A rate reduction is subtracted from interest that is already reduced
  (`backend/app/services/investment_engine.py:97-111`).
- The status request can activate an investment that was never placed
  (`backend/app/models/investment.py:63`); principal conservation then fails by the amount moved.
- A recurring flow that began before the horizon is stepped from the horizon's first day
  (`backend/app/services/forecast_engine.py:181`).  `RecurringSchedule` compares that with the flow's own dates:
  they agree exactly when the window is empty, the flow does not begin before the horizon, or the horizon begins
  in phase; a weekly flow from a Monday can be forecast on Wednesdays (`WeeklyFlowIsMoved`).
- A negative custom interval runs back to the start of the calendar.
- No schema requires drawdown, sub-limit, repayment, payment or top-up amounts to be positive, and a limit
  can be cut below what is drawn; `FacilityLimits` says exactly when each step leaves the limits, and
  `InvestmentInvariants` exactly when outstanding principal stays at or above zero.
- A one-to-one pass does not look at groups, and many-to-one does not look at the suggestions of its bank
  rows: one row can be in a live suggestion and a live group at once (`OverlapScene`; `SuggestionOverlap` says
  exactly when, for either side).
- The execution lock is per entity, account and exact period
  (`backend/app/services/reconciliation_service.py:194-217`), so executions of other periods can run side by side
  and take the same rows, in groups and in suggestions.  `BankClashes.GroupsClashExactlyWhen` and
  `ExecutionClashes.SuggestionsClashExactlyWhen` say for which periods and tolerances; the tables on which it
  happens are in `LedgerClashScene` and `BankClashScene`.
- Two sources may report different balances for one day; the figure uses whichever comes first.
- Interest periods step from the last period end, so a day lost to a short month stays lost: the exact day is in
  `EndsOnTheReachedDay`, when it is the start day in `EndsOnTheStartDayExactlyWhen`, and 31 January monthly is
  a case.

## Model

| member | source | states |
|---|---|---|
| RowOrder.InOrder | backend/app/services/reconciliation_matching_engine.py:242-248 | a query ordered on a separating key has one answer: every row of the selection once |
| RowOrder.InOrderAscends | backend/app/services/reconciliation_matching_engine.py:242-248 | that answer ascends in the key |
| RowOrder.SortForgetsArrivalOrder | backend/app/services/reconciliation_matching_engine.py:157 | sorting on a separating key gives the one ordered listing whatever order the rows arrived in |
| OneToOneMatching.MatchingEngine.RunMatchingForBankTransaction | backend/app/services/reconciliation_matching_engine.py:104-213 | one bank row writes nothing if the run already has a row for it, else exactly what its unbeaten unclaimed candidates give, and the counters gain the matching amounts |
| OneToOneMatching.MatchingEngine.RankCandidates | backend/app/services/reconciliation_matching_engine.py:132-157 | for every order the candidate query may return, the ranked list ascends in (-score, date, id) and starts with exactly the unbeaten candidates |
| OneToOneMatching.MatchingEngine.ScoreCandidates | backend/app/services/reconciliation_matching_engine.py:141-151 | exactly the candidates whose score reaches the review threshold are kept, each once |
| OneToOneMatching.MatchingEngine.TakeTied | backend/app/services/reconciliation_matching_engine.py:174-175 | the tied rows are those sharing the first total, in rank order |
| OneToOneMatching.MatchingEngine.AddTied | backend/app/services/reconciliation_matching_engine.py:177-190 | one row per tied candidate, in order |
| OneToOneMatching.MatchingEngine.MatchRows | backend/app/services/reconciliation_matching_engine.py:251-272 | the loop over bank rows is the fold that threads the claimed set |
| OneToOneMatching.MatchingEngine.RunMatchingForRun | backend/app/services/reconciliation_matching_engine.py:224-275 | rows and counters of a whole run are a function of the tables alone, although the candidate query is unordered |
| OneToOneMatching.RankedListStartsWithTop | backend/app/services/reconciliation_matching_engine.py:157-175 | sorting and keeping the rows with the first total finds exactly the candidates nobody outscores |
| OneToOneProperties.RankingForgetsQueryOrder | backend/app/services/reconciliation_candidate_generation.py:98-113 | two query orders of the same candidates rank alike and tie alike |
| OneToOneProperties.PassShape | backend/app/services/reconciliation_matching_engine.py:159-213 | after a pass each (run, bank row) has exactly one null row, one candidate, or two or more different candidates with one score, and they are the ones unclaimed at its turn |
| SuggestionEvidence.PassGivesTheUnbeaten | backend/app/services/reconciliation_matching_engine.py:104-275 | in the first pass of a run, for every bank row, by fields: in scope it is given exactly the ledger rows of its entity, account and currency that are posted, move money its way, are near in time and amount, reach forty points, are not held and that none outscores, each with its points, label and tier, and the null row exactly when there is none; out of scope nothing |
| OneToOneProperties.SecondPassAddsNothing | backend/app/services/reconciliation_matching_engine.py:80-124 | a pass over processed bank rows adds nothing and counts nothing, whatever ledger, configuration and claims now are |
| OneToOneProperties.CountersAgreeWithRows | backend/app/services/reconciliation_matching_engine.py:253-260 | suggestions counted equal rows added; unmatched and matched equal the rows of their tier; unmatched + ambiguous + sole equals the bank rows |
| OneToOneProperties.TiesClaimNothing | backend/app/services/reconciliation_matching_engine.py:262-272 | after a tie the claimed set is what it was |
| OneToOneProperties.LabelsMean | backend/app/services/reconciliation_matching_engine.py:193-210 | exact means amount, date and a reference agree; a high-value row is auto-tier only with some reference evidence |
| ReconciliationModel.ThresholdsInTermsOfEvidence | backend/app/services/reconciliation_scoring.py:69-204 | exactly which evidence reaches the review and the auto-match threshold |
| SoleSuggestions.SoleSuggestionsStayExclusive | backend/app/services/reconciliation_matching_engine.py:251-272 | over any runs and decisions, if a query sees the rows just added, each ledger row is in at most one live sole suggestion |
| SoleSuggestions.UnflushedRunIsExclusiveExactlyWhen | backend/app/services/reconciliation_matching_engine.py:262-272 | if it does not see them, a run keeps that exactly when no two bank rows have the same only candidate among the rows unclaimed before the run |
| UnflushedRuns.UnflushedTraceIsExclusiveExactlyWhen | backend/app/services/reconciliation_matching_engine.py:251-272 | over any trace of executions, each run once, and decisions, sole suggestions are exclusive after every prefix exactly when at every execution no two bank rows have the same only candidate among the rows unclaimed before it |
| SoleSuggestions.TwoReceiptsShareOneLedgerRow | backend/app/db/session.py:20-26 | with autoflush off, two equal receipts and one ledger row give two live sole suggestions of that row |
| SoleSuggestions.DecisionKeepsExclusive | backend/app/services/reconciliation_match_decision_service.py:243-246 | accepting or rejecting keeps sole suggestions exclusive |
| SoleSuggestions.RejectionReleases | backend/app/services/reconciliation_candidate_generation.py:36-71 | a rejection releases the ledger row exactly when no other live suggestion refers to it |
| GroupSearch.FindSummingGrouping | backend/app/services/reconciliation_advanced_matching.py:269-307 | the loop returns the answer of the bounded search |
| GroupSearch.SearchIsSound | backend/app/services/reconciliation_advanced_matching.py:269-307 | whatever is offered has two or more members, sums within tolerance and is the full list or the list less one |
| GroupSearch.SearchIsComplete | backend/app/services/reconciliation_advanced_matching.py:269-307 | nothing is offered exactly when neither the full list nor any list less one is within tolerance |
| GroupSearch.TiesAreNeverResolved | backend/app/services/reconciliation_advanced_matching.py:303-307 | two removals that work always end in competition, both among the rivals |
| GroupSearch.ZeroToleranceRivalsDropTheSurplus | backend/app/services/reconciliation_advanced_matching.py:288-301 | at zero tolerance a removal works exactly when it drops the surplus, so all rivals drop equal amounts |
| GroupKey.KeyDecidesMembership | backend/app/services/reconciliation_advanced_matching.py:87-99 | two keys are the same string exactly when relationship, bank multiset and ledger multiset agree |
| GroupEvidence.KeyTextDecidesSameKey | backend/app/services/reconciliation_advanced_matching.py:134-136 | the stored key compares like the model's members, however ids are written |
| AdvancedEngine.Engine.PersistGroup | backend/app/services/reconciliation_advanced_matching.py:122-156 | a group is stored unless the run has one with its key |
| AdvancedEngine.Engine.PersistRivals | backend/app/services/reconciliation_advanced_matching.py:377-391 | every rival is stored once; the flag says whether any was new |
| AdvancedEngine.Engine.ReferenceMatchedLedgerCandidates | backend/app/services/reconciliation_advanced_matching.py:224-266 | the first rows, by date and id, of the unclaimed ledger rows that fit and share a reference |
| AdvancedEngine.Engine.OneToManyRow | backend/app/services/reconciliation_advanced_matching.py:347-391 | one bank row: fewer than two candidates, a proposal that claims, stored rivals that claim nothing, or nothing |
| AdvancedEngine.Engine.DetectOneToManyGroups | backend/app/services/reconciliation_advanced_matching.py:310-393 | the phase is the fold over active unmatched bank rows by date and id |
| AdvancedEngine.Engine.CountReferences | backend/app/services/reconciliation_advanced_matching.py:435-438 | the counts are the numbers of rows that carry each non-empty reference |
| AdvancedEngine.CountedTwiceIsShared | backend/app/services/reconciliation_advanced_matching.py:439 | a reference counted twice is one that two different rows carry |
| AdvancedEngine.Engine.SelectGroupableLedgers | backend/app/services/reconciliation_advanced_matching.py:426-456 | the ledger rows tried are those sharing a reference that two in-scope bank rows share |
| AdvancedEngine.Engine.ReferenceMatchedBankCandidates | backend/app/services/reconciliation_advanced_matching.py:463-492 | the first rows, by date and id, of the ungrouped bank rows that fit and share a reference |
| AdvancedEngine.Engine.ManyToOneRow | backend/app/services/reconciliation_advanced_matching.py:458-535 | one ledger row against several bank rows, with the same four outcomes |
| AdvancedEngine.Engine.GroupAroundLedgers | backend/app/services/reconciliation_advanced_matching.py:458-537 | the loop over ledger rows threads the grouped bank rows |
| AdvancedEngine.Engine.DetectManyToOneGroups | backend/app/services/reconciliation_advanced_matching.py:396-537 | the phase, its claimed ledger set fixed |
| AdvancedEngine.Engine.FirstPartner | backend/app/services/reconciliation_advanced_matching.py:569-573 | any row sharing the transfer pair, or none when there is none |
| AdvancedEngine.Engine.DetectInternalTransfers | backend/app/services/reconciliation_advanced_matching.py:540-590 | for some order of the matched rows and some partners, exactly their transfer groups are stored |
| AdvancedEngine.Engine.FirstAgreeing | backend/app/services/reconciliation_advanced_matching.py:746-782 | some agreeing row of another currency, none only when none agrees |
| AdvancedEngine.Engine.FxRow | backend/app/services/reconciliation_advanced_matching.py:741-805 | at most one conversion per bank row, stored and claimed |
| AdvancedEngine.Engine.ConvertRows | backend/app/services/reconciliation_advanced_matching.py:741-807 | the loop threads its claims over the bank rows |
| AdvancedEngine.Engine.DetectFxMatches | backend/app/services/reconciliation_advanced_matching.py:707-807 | the phase, for some possible choice per bank row |
| AdvancedEngine.Engine.RunAdvancedMatchingForRun | backend/app/services/reconciliation_advanced_matching.py:810-873 | an execution is one of the possible ones: claims of stored groups, then four phases each excluding what the earlier ones claimed |
| GroupExclusivity.ProposeIsSafe | backend/app/services/reconciliation_advanced_matching.py:370-374 | a proposal over unclaimed rows keeps live groups disjoint and the claims covering them |
| GroupExclusivity.OneToManyTurnIsSafe | backend/app/services/reconciliation_advanced_matching.py:347-391 | a one-to-many turn keeps both |
| GroupExclusivity.ManyToOneTurnIsSafe | backend/app/services/reconciliation_advanced_matching.py:458-535 | a many-to-one turn keeps both |
| GroupExclusivity.FxTurnIsSafe | backend/app/services/reconciliation_advanced_matching.py:741-805 | a conversion turn keeps both |
| GroupExclusivity.StoredClaimsCover | backend/app/services/reconciliation_advanced_matching.py:159-192 | the claims read from stored groups cover every row a live group of the entity holds |
| GroupExclusivity.ExecutionKeepsExclusive | backend/app/services/reconciliation_advanced_matching.py:840-866 | a whole execution, whatever its unordered queries return, leaves live groups disjoint |
| ReconciliationRuns.LiveGroupsAreDisjoint | backend/app/services/reconciliation_advanced_matching.py:159-192 | in every state reachable by executions and decisions two live groups, transfers apart, share no bank and no ledger row, and no run has two groups with one key |
| ReconciliationRuns.DecisionSettlesAGroup | backend/app/services/reconciliation_match_decision_service.py:240-297 | a decision settles one pending group for good: accepted it holds its rows as before, rejected it releases them, and nothing else changes |
| ReconciliationRuns.DecisionSettlesASuggestion | backend/app/services/reconciliation_match_decision_service.py:95-105 | a decision settles one pending suggestion whose bank row has no other live one, and changes nothing else |
| ReconciliationRuns.GroupDecisionsAreFinal | backend/app/services/reconciliation_match_decision_service.py:229-233 | a decided group never changes again over any executions and decisions |
| GroupFigures.NewGroupsRestOnTheirRows | backend/app/services/reconciliation_advanced_matching.py:224-866 | every group an execution adds, by fields: the run, the statuses, whose rows they are, when, which way and in what currency they move money, the shared reference, that the run left the bank row alone, that no live suggestion names the ledger row, distinct members up to the candidate limit, and totals with 100 x difference within pct x target (for conversions the converted amount) |
| GroupFigures.OneBankRowTurn | backend/app/services/reconciliation_advanced_matching.py:347-391 | when the ledger rows on offer around a bank row, two or more, agree with it within the percentage, its turn ends with exactly their group stored; one or none stores nothing |
| GroupFigures.OneLedgerRowTurn | backend/app/services/reconciliation_advanced_matching.py:458-535 | the same around a ledger row |
| GroupEvidence.BothLegsGiveOneGroup | backend/app/services/reconciliation_advanced_matching.py:568-588 | a transfer found from one leg or both is stored once |
| SuggestionOverlap.OnlyManyToOneTakesMatchedRows | backend/app/services/reconciliation_advanced_matching.py:840-866 | in any execution a new group that is no transfer takes no ledger row a live suggestion names, and only a many-to-one group takes a bank row the run matched |
| SuggestionOverlap.ManyToOneTakesSuggestedExactlyWhen | backend/app/services/reconciliation_advanced_matching.py:463-535 | a many-to-one proposal takes a bank row with a live suggestion exactly when its candidates hold one other than the single member the search has to drop |
| OverlapScene.SuggestionsAndGroupsOverlap | backend/app/services/reconciliation_matching_engine.py:251-272 | a reachable state in which one bank row and one ledger row are each in a live sole suggestion and in a pending many-to-one group |
| SuggestionOverlap.PassAvoidsGroupsExactlyWhen | backend/app/services/reconciliation_matching_engine.py:251-272 | the pass of a new run suggests a ledger row that a live group holds exactly when some bank row in scope has such a row as its only candidate among the rows no live suggestion names |
| GroupDirections.DirectionsDisagreeExactlyWhen | backend/app/services/reconciliation_advanced_matching.py:465-475 | in any execution a bank row and a ledger row of one new group move money in different directions exactly when the ledger row is a transfer or NON_CASH, and then the group is many-to-one |
| GroupDirections.NonCashRowIsGrouped | backend/app/services/reconciliation_advanced_matching.py:465-475 | a reachable state in which a NON_CASH row is in a pending group with two bank debits |
| OverlappingExecutions.ApartExecutionsStayExclusive | backend/app/services/reconciliation_service.py:194-217 | from any reachable state two executions that the lock does not order can commit side by side and keep live groups disjoint, when their periods lie apart: by the tolerances for ledger rows, by twice the tolerances for bank rows |
| BankClashes.GroupsClashExactlyWhen | backend/app/services/reconciliation_service.py:194-217 | for any two scopes and tolerances: two executions side by side can put one row into two live groups exactly when the scopes differ, so that the lock does not order them, and their periods, widened once (ledger rows) or twice (bank rows) by the tolerances, have a day in common |
| OverlappingExecutions.ApartPassesStayExclusive | backend/app/services/reconciliation_service.py:194-217 | from any state two first passes whose periods lie apart by the tolerances, each leaving sole suggestions exclusive alone, leave them exclusive together |
| ExecutionClashes.SuggestionsClashExactlyWhen | backend/app/services/reconciliation_service.py:194-217 | two passes side by side, each exclusive alone, can leave one ledger row in two live sole suggestions exactly when the scopes differ and their periods, widened by the tolerances, have a day in common |
| GroupCounters.ExecutionIsTallied | backend/app/services/reconciliation_advanced_matching.py:868-870 | an execution only adds groups; matches counted are the pending ones added, ambiguities the bank and ledger rows around which a new rival was added |
| Acceptance.DecisionService.DecideProposal | backend/app/services/reconciliation_match_decision_service.py:204-310 | done exactly when allowed, with one status, one decision and the claim rows as the only change; every other answer changes nothing; a repeated decision is recognised |
| Acceptance.DecisionService.CheckMembers | backend/app/services/reconciliation_match_decision_service.py:144-155 | every bank row active and every ledger row posted, in the scope of the run |
| Acceptance.DecisionService.FindNoConflict | backend/app/services/reconciliation_match_decision_service.py:172-195 | no claim of the proposal is held already |
| Acceptance.DecisionService.InsertClaims | backend/app/services/reconciliation_match_decision_service.py:274-284 | all rows or none: inserted exactly when the claims are new and distinct |
| AcceptanceRaces.StepKeepsInv | backend/app/services/reconciliation_match_decision_service.py:262-296 | every step of every interleaving keeps claims unique and status, decision and rows in agreement |
| AcceptedTransactions.RowsAreAcceptedOnce | backend/app/services/reconciliation_match_decision_service.py:113-123 | in every state of every interleaving no bank row and no ledger row is named by two accepted transfers, or by two accepted proposals that are no transfers, or twice by one |
| AcceptedTransactions.AcceptedOnlyWhenPassed | backend/app/services/reconciliation_match_decision_service.py:262-268 | over any interleaving from no open requests, whatever is accepted was checked before in this run by a request to accept it: rows there, live, in scope, currencies fitting, none in an accepted proposal of its kind |
| AcceptedTransactions.DecidedExactlyWhen | backend/app/services/reconciliation_match_decision_service.py:125-260 | a decision is made exactly when, by fields: pending, its run completed, a suggestion paired, auto-tier and alone, the reason long enough; and to accept: its rows there, live and in scope, one currency or the pair of a conversion, and every row still accepted once afterwards |
| AcceptedTransactions.ClaimableExactlyWhen | backend/app/services/reconciliation_match_decision_service.py:172-195 | no conflict is found exactly when the proposal names no row twice and shares none with an accepted proposal of its kind |
| AcceptanceRaces.AcceptanceTellsOneStory | backend/app/services/reconciliation_match_decision_service.py:255-297 | accepted exactly with an accepting decision and claim rows equal to what the proposal claims; otherwise no rows |
| AcceptanceRaces.OnlyCommitsChangeTables | backend/app/services/reconciliation_match_decision_service.py:274-292 | refused, failed, waiting and abandoned requests leave the tables alone |
| AcceptanceRaces.DecisionsAreFinal | backend/app/services/reconciliation_match_decision_service.py:229-233 | a decision never changes afterwards |
| AcceptanceRaces.DecisionsTouchOneProposal | backend/app/services/reconciliation_match_decision_service.py:296-297 | a decision changes no other proposal |
| LosingRaces.BothPassAndOneLoses | backend/app/services/reconciliation_match_decision_service.py:262-292 | any two acceptances the service would allow alone, over proposals with a common claim, have an interleaving in which both pass the pre-check, one commits and the other is thrown out with the tables as the first left them |
| LosingRaces.TwoSuggestionsRace | backend/app/services/reconciliation_match_decision_service.py:270-292 | such a race between two suggestions of one ledger row, from a start in the invariant |
| LosingRaces.LosersNeverAccept | backend/app/services/reconciliation_match_decision_service.py:113-123 | once a claim of a proposal is committed for another, in whatever interleaving follows it is never accepted, holds no rows, and no session, past its checks or not, can commit its acceptance |
| SerialAcceptance.AloneItIsTheService | backend/app/services/reconciliation_match_decision_service.py:204-310 | the protocol run by one request alone is the decision service |
| ClaimsMigration.Migration.ClaimsQuery | backend/alembic/versions/d5e508d02a28_stage5e_accepted_claims_prevent_.py:20-37 | the query gives each accepted proposal its claims and no others; its rows are unique exactly when no acceptances overlap |
| ClaimsMigration.Migration.HasConflicts | backend/alembic/versions/d5e508d02a28_stage5e_accepted_claims_prevent_.py:48-53 | a conflict is found exactly when a claim occurs twice |
| ClaimsMigration.Migration.Upgrade | backend/alembic/versions/d5e508d02a28_stage5e_accepted_claims_prevent_.py:40-93 | completes exactly when no row is named twice by an acceptance or by two of one kind, and then starts inside the running invariant; otherwise changes nothing |
| Money.RoundingIsNearest | backend/app/services/facility_engine.py:16-17 | half-up rounding is the nearest cent, ties away from zero |
| RepaymentSchedule.GenerateRepaymentSchedule | backend/app/services/facility_engine.py:107-170 | a schedule for every method, empty for the unscheduled ones; a division by zero exactly when the level amount has none |
| RepaymentSchedule.EqualPrincipalRows | backend/app/services/facility_engine.py:121-132 | the loop builds the schedule row by row |
| RepaymentSchedule.EqualInstallmentRows | backend/app/services/facility_engine.py:143-156 | the loop builds the schedule row by row |
| RepaymentSchedule.InterestOnlyRows | backend/app/services/facility_engine.py:158-168 | the loop builds the schedule row by row |
| RepaymentSchedule.ScheduleConservesPrincipal | backend/app/services/facility_engine.py:118-170 | each closing is the next opening, totals are principal plus interest, repayments sum to the principal, the last closing is zero |
| RepaymentSchedule.EqualPrincipalNonNegativeExactlyWhen | backend/app/services/facility_engine.py:121-132 | nothing is negative exactly when the principal is not and the rounded shares before the last fit into it |
| RepaymentSchedule.EnoughPrincipalIsNeverNegative | backend/app/services/facility_engine.py:121-132 | n(n-1)/2 cents always suffice |
| RepaymentSchedule.TooLittlePrincipalGoesNegative | backend/app/services/facility_engine.py:121-132 | two cents over four periods do not |
| RepaymentSchedule.LastShareIsClose | backend/app/services/facility_engine.py:127 | the last repayment is within n/2 cents of the level share |
| RepaymentSchedule.SharesAreLevel | backend/app/services/facility_engine.py:122-127 | every repayment before the last is the rounded share |
| RepaymentSchedule.InterestOnlyRepaysAtTheEnd | backend/app/services/facility_engine.py:158-168 | interest on the whole principal every period, all principal at the end |
| RepaymentSchedule.DueDatesAreEquallySpaced | backend/app/services/facility_engine.py:124 | installment i falls due i periods after the start |
| InterestFigures.ScheduleChargesItsPeriods | backend/app/services/facility_engine.py:70-97 | the interest of every row in figures: within half a cent of opening x percent x days over 36500 (ACT/365) or 36000 (ACT/360, 30/360), the days of a period being the period length under actual counts |
| InterestFigures.MonthsHaveTheirLengths | backend/app/services/investment_engine.py:35-40 | day numbers follow the Gregorian calendar: months of 28 to 31 days with its leap years |
| LevelInstallments.LastInstallmentIsClose | backend/app/services/facility_engine.py:134-156 | the last total is within ((1+r)^n - 1)/r cents of the level installment, for any principal, n and rate above -100 % a period |
| LevelInstallments.LastInstallmentIsCloseAtZero | backend/app/services/facility_engine.py:138-139 | within n/2 cents at rate zero |
| LevelInstallments.ErrorsCompound | backend/app/services/facility_engine.py:143-156 | the distance between rounded and exact balance is at most 1 + q + ... + q^(i-1) cents |
| LevelInstallments.AnnuityPaysOff | backend/app/services/facility_engine.py:141-142 | the unrounded annuity leaves nothing |
| LevelInstallments.GrowthIsNotOne | backend/app/services/facility_engine.py:141-142 | the annuity formula never divides by zero above -100 % a period |
| LevelInstallments.DividesExactlyWhen | backend/app/services/facility_engine.py:118-142 | above that rate a schedule divides by zero exactly when it has a level amount and no periods |
| Calendar.OrdinalsAreUnique | backend/app/services/investment_engine.py:40 | date to day number and back is the identity |
| Calendar.EarlierMeansSmallerOrdinal | backend/app/services/investment_engine.py:216 | comparing dates is comparing day numbers |
| Calendar.MonthStepIsLater | backend/app/services/investment_engine.py:172-179 | a month step lands that many months on, keeps the day or the month's last, and is later |
| Calendar.ActualDaysAddUp | backend/app/services/investment_engine.py:35-40 | actual day counts add up over consecutive periods |
| Calendar.ThirtyDaysAddUpExactlyWhen | backend/app/services/investment_engine.py:35-39 | 30/360 counts of two consecutive periods exceed that of the whole by an amount that depends only on which of the three days are 31sts; they add up exactly when these cancel |
| Calendar.ThirtyDaysDoNotAddUp | backend/app/services/investment_engine.py:35-39 | a split at 31 January gains a day |
| PeriodicInterest.GeneratePeriodicInterestSchedule | backend/app/services/investment_engine.py:190-226 | the loop terminates and its periods tile the term: consecutive, not empty, each a month step cut off at maturity, with its own interest |
| PeriodicInterest.PeriodsEarnTheWholeTerm | backend/app/services/investment_engine.py:208-226 | the n rounded interests sum to within (n+1)/2 cents of the whole term's |
| InterestFigures.PeriodsChargeTheirDays | backend/app/services/investment_engine.py:43-57 | the interest of every period in figures, as for repayment rows |
| InterestFigures.PeriodsHaveTheirLength | backend/app/services/investment_engine.py:164-226 | periods are one, three, six or twelve months long, the last ends at maturity, and no other frequency has a schedule |
| InterestFigures.ScheduledExactlyWhen | backend/app/services/investment_engine.py:202-205 | there is a schedule exactly for a known frequency and a term that is not empty |
| PeriodicInterest.EndsOnTheReachedDay | backend/app/services/investment_engine.py:217-223 | every period but the last ends whole steps of months after the start, on the least of the start day and the lengths of the months reached so far |
| PeriodicInterest.EndsOnTheStartDayExactlyWhen | backend/app/services/investment_engine.py:217-223 | it ends where one step of that many months from the start would, exactly when no month reached before is shorter than the day due |
| PeriodicInterest.JanuaryLosesItsDay | backend/app/services/investment_engine.py:217-223 | monthly from 31 January: the second period ends on 28 March, not on the 31st |
| EarlyTermination.CalculateEarlyTermination | backend/app/services/investment_engine.py:68-116 | principal, interest, penalty and net proceeds under each kind of penalty |
| InterestFigures.TerminationInFigures | backend/app/services/investment_engine.py:68-116 | the same in figures: interest to the nearest cent, a flat penalty within half a cent of its share, a reduced rate not below zero, and the net of each kind |
| EarlyTermination.RateReductionChargesTwice | backend/app/services/investment_engine.py:97-111 | under a rate reduction the net is full interest less twice the penalty |
| EarlyTermination.SplittingChangesOnlyCents | backend/app/services/investment_engine.py:90-111 | k same-day terminations return the principal of one of the total, and net within k+1 cents (flat), (k+1)/2 (none), 0 (forfeit) or 3(k+1)/2 (rate reduction) |
| EarlyTermination.WithoutOriginalPrincipalPenaltiesMultiply | backend/app/services/investment_engine.py:90-96 | given an original principal of zero, the engine charges k same-day parts k times the flat penalty of the whole |
| SplitTerminations.SplittingLeavesTheSameInvestment | backend/app/services/investment_service.py:257-311 | after any run, splitting a termination into same-day parts leaves the same investment and, within the bound, the same cash |
| InvestmentService.Service.CreateCashTransaction | backend/app/services/investment_service.py:85-108 | exactly one row is added to the ledger |
| InvestmentService.Service.CreateInvestment | backend/app/api/v1/investments.py:99-112 | a positive principal and ordered dates, or nothing |
| InvestmentService.Service.UpdateDraft | backend/app/api/v1/investments.py:169-176 | rate and maturity of a draft only |
| InvestmentService.Service.ApplyUpdate | backend/app/services/investment_service.py:124-150 | the given terms are set and the projection recomputed |
| InvestmentService.Service.TransitionStatus | backend/app/services/investment_service.py:153-184 | only a transition of the table, or none |
| InvestmentService.Service.PlaceInvestment | backend/app/services/investment_service.py:187-242 | placed exactly when valid and not placed before: one outflow, one placement, active |
| InvestmentService.Service.TerminateInvestment | backend/app/services/investment_service.py:245-326 | terminated exactly within the guards: one inflow of the net proceeds, principal reduced, projection recomputed |
| InvestmentService.Service.SettleMaturity | backend/app/services/investment_service.py:329-388 | settled once, on or after maturity: one inflow of principal and interest |
| InvestmentService.Service.RolloverInvestment | backend/app/services/investment_service.py:391-490 | one NON_CASH row, a successor with the amount and its own projection, the original reduced by it |
| InvestmentService.Service.RebookInvestment | backend/app/services/investment_service.py:493-569 | new terms, a top-up paid out, the event recorded; a retry changes nothing |
| InvestmentConservation.StepShiftsTheBalance | backend/app/services/investment_service.py:187-569 | each step moves (outflow - outstanding - returned) by exactly the principal it moves on an investment that was not placed |
| InvestmentConservation.PrincipalIsConserved | backend/app/services/investment_service.py:187-569 | over any run in which no request activates an unplaced investment, total outflow equals the outstanding principal of placed investments plus all principal returned |
| InvestmentConservation.ImbalanceIsTheShifts | backend/app/services/investment_service.py:187-569 | over any run whatever the books are off by the sum of what its steps moved on unplaced investments |
| InvestmentConservation.BooksBalanceExactlyWhen | backend/app/services/investment_service.py:187-569 | over any run whatever the books balance after every prefix exactly when no step moves principal of an investment that was not placed |
| InvestmentConservation.RolloverMovesNoCash | backend/app/services/investment_service.py:401-411 | a rollover pays out and returns nothing, and original plus successor hold what the original held |
| InvestmentCash.LedgerReconciles | backend/app/services/investment_service.py:85-569 | over any run, for every investment: outstanding plus returned plus rolled principal is the original; inflows are the settlement and termination transactions, outflows the placement and top-ups, NON_CASH rows the rollovers |
| InvestmentCash.InflowsAreAccountedFor | backend/app/services/investment_service.py:245-388 | over any run, for every investment: inflows are returned principal plus received interest plus what its terminations paid beyond their principal |
| InvestmentCash.SettlementPaysPrincipalAndInterest | backend/app/services/investment_service.py:350-388 | a settlement brings in outstanding principal plus the actual interest, or the stored projection, and its transaction, received interest and balances say the same |
| InvestmentCash.TerminationPaysNet | backend/app/services/investment_service.py:257-311 | a termination brings in its net, takes its amount off the principal and records a penalty beside it |
| InvestmentCash.PlacementPaysPrincipal | backend/app/services/investment_service.py:209-228 | a placement pays out the principal and nothing else |
| InvestmentCash.RolloverCarriesOver | backend/app/services/investment_service.py:423-470 | a rollover leaves the rest with the original and its amount with a running successor under its terms, recorded by one NON_CASH row and two transactions |
| InvestmentCash.RebookingTopsUp | backend/app/services/investment_service.py:534-568 | a rebooking changes the given terms, adds the top-up to outstanding and original principal and pays it out, and leaves everything else |
| InvestmentCash.OthersAreUntouched | backend/app/services/investment_service.py:187-569 | a request about one investment leaves rows, transactions and balances of every other alone |
| InvestmentInvariants.RunsKeepLineage | backend/app/services/investment_service.py:446-462 | predecessors are older and rollover links point both ways, after any run |
| InvestmentInvariants.Origin | backend/app/services/investment_service.py:446 | following predecessors back ends at an investment that was not rolled into |
| InvestmentConservation.ActivationWithoutPlacementBreaksTheBooks | backend/app/models/investment.py:63 | the status request can activate an unplaced investment; terminating it puts the books off by its principal |
| InvestmentConservation.PendingUnplacedIsReachable | backend/app/api/v1/investments.py:187-210 | four status requests after creation lead there |
| InvestmentInvariants.ProjectionsStayCurrent | backend/app/api/v1/investments.py:429 | after any run every stored projection is the one the current terms give, successors included, except on a settled investment |
| InvestmentCash.ProjectionsInFigures | backend/app/services/investment_service.py:69-83 | after any run the stored projection of an unsettled investment is the interest on its outstanding principal to the nearest cent |
| InvestmentLife.RequestsAreCarriedOutExactlyWhen | backend/app/models/investment.py:52-76 | exactly when each request is carried out, by status, amounts, funds, dates and what was recorded before |
| InvestmentLife.EndsAreFinal | backend/app/models/investment.py:52-76 | a terminated, rolled over, rebooked, cancelled or rejected investment is never changed again by any run |
| InvestmentLife.PlacedAndSettledOnce | backend/app/services/investment_service.py:187-356 | over any run no investment is placed twice and none settled twice |
| InvestmentInvariants.RunsStayWithinOriginals | backend/app/services/investment_service.py:493-569 | after any run, negative top-ups included, an investment has no more outstanding than its original principal unless it is matured, terminated or rolled over with nothing left |
| InvestmentInvariants.NoneNegativeExactlyWhen | backend/app/services/investment_service.py:493-569 | over any run no outstanding principal is ever negative exactly when no rebooking carried out takes more than is outstanding |
| InvestmentInvariants.TopUpBelowZeroIsAccepted | backend/app/schemas/investment.py:138 | every running investment with no negative principal accepts a negative top-up that leaves its principal one cent below zero |
| Rebookings.RetriesChangeNothing | backend/app/services/investment_service.py:524-568 | any run ends like the run without its retried rebookings, rate-only and maturity-only ones included |
| Rebookings.EveryKeyIsUsedOnce | backend/app/services/investment_service.py:524-532 | no idempotency key is used twice for one investment |
| FacilityService.Service.ValidateDrawdown | backend/app/services/drawdown_validation_service.py:14-64 | no reason is given exactly when the drawdown is valid |
| FacilityService.Service.ChangeStatus | backend/app/services/facility_service.py:133-164 | only a transition of the table, or none |
| FacilityService.Service.UpdateFacility | backend/app/services/facility_service.py:101-130 | the given limit and maturity are set, unchecked |
| FacilityService.Service.CreateSubLimit | backend/app/api/v1/facilities.py:262-268 | a sub-limit up to the committed limit |
| FacilityService.Service.CreateDrawdown | backend/app/api/v1/facilities.py:323-341 | a valid request is recorded |
| FacilityService.Service.ApproveDrawdown | backend/app/api/v1/facilities.py:387-395 | only a submitted drawdown |
| FacilityService.Service.ExecuteDrawdown | backend/app/services/facility_service.py:167-188 | executed exactly when approved and valid again under the lock; facility and sub-limit gain the amount |
| FacilityService.Service.CreateRepayment | backend/app/api/v1/facilities.py:478-482 | only the foreign key is checked |
| FacilityService.Service.RecordRepaymentPayment | backend/app/services/facility_service.py:191-244 | overpayment and closed repayments refused; a principal payment frees facility and sub-limit, not below zero |
| FacilityLimits.StepKeepsLimitsExactlyWhen | backend/app/services/facility_service.py:101-229 | for every kind of step, exactly which amounts keep drawn, sub-limit and paid balances inside their limits |
| FacilityLimits.LimitsHoldExactlyWhen | backend/app/services/facility_service.py:101-229 | over any run whatever the limits hold after every prefix exactly when every step carried out met that test |
| FacilityLimits.PositiveAmountsHold | backend/app/services/facility_service.py:167-229 | positive amounts and no cut of the limit are enough |
| FacilityLimits.NegativeDrawdownIsAccepted | backend/app/schemas/facility.py:163-172 | a negative drawdown passes every check and makes the drawn balance negative |
| FacilityLimits.NegativePaymentExceedsTheLimit | backend/app/schemas/facility.py:204-206 | a negative payment passes every check and draws past the committed limit |
| FacilityLimits.OtherInputsThatLeaveTheLimits | backend/app/schemas/facility.py:71-79 | a cut below the drawn balance, a negative sub-limit and a negative repayment are accepted and leave the limits |
| FacilityBalances.DrawnIsDrawsLessPayments | backend/app/services/facility_service.py:174-218 | over any run drawn equals executed draws less principal paid exactly as long as the zero clamp has not fired, and is never below |
| FacilityBalances.SubDrawnIsDrawsLessPayments | backend/app/services/facility_service.py:176-229 | the same over any run for every sub-limit, also one opened during the run |
| FacilityFigures.DrawdownsAreAcceptedExactlyWhen | backend/app/services/drawdown_validation_service.py:14-70 | exactly when a drawdown is accepted, at request and at execution: drawn plus restricted (committed facilities) plus the amount within the limit, or nothing positive asked; sub-limit, currency, status and days of availability |
| FacilityFigures.ExecutionLeaves | backend/app/services/facility_service.py:167-188 | an executed drawdown adds its amount to facility and sub-limit, and a positive one leaves both inside their limits, restricted amount included |
| FacilityFigures.PaymentsAreAcceptedExactlyWhen | backend/app/services/facility_service.py:191-210 | exactly up to what is open on a repayment that is not closed |
| FacilityFigures.PaymentLeaves | backend/app/services/facility_service.py:211-229 | principal frees the facility and the sub-limit of its drawdown down to zero; other payments free nothing |
| FacilityFigures.ClosedIsFinal | backend/app/models/facility.py:50-63 | a closed or withdrawn facility stays so over any run and nothing more is drawn |
| OperationalCash.LatestBalances | backend/app/services/cash_position_service.py:40-83 | the rows of the latest date not after the given day |
| OperationalCash.CalculateOperationalAvailableCash | backend/app/services/cash_position_service.py:187-256 | a latest reported balance plus what was posted after it, or all postings when nothing was reported |
| OperationalCash.FigureIsThePlainSum | backend/app/services/cash_position_service.py:212-248 | with reports consistent with a first one, the figure is the first balance plus everything posted since, whichever report anchors it |
| OperationalCash.AnchorsAgreeExactlyWhenConsistent | backend/app/services/cash_position_service.py:200-211 | moving the anchor changes nothing exactly when the later report is consistent with the earlier |
| OperationalCash.PostingMovesTheFigureOnce | backend/app/services/cash_position_service.py:233-242 | a posting after the anchor counts once, one on or before it not at all |
| OperationalCash.SameDayReportsCanDisagree | backend/app/services/cash_position_service.py:224 | two sources for one day make the figure depend on the row returned first |
| RecurringFlows.GenerateWeekBounds | backend/app/services/forecast_dates.py:14-23 | consecutive weeks of seven days, numbered from 1 |
| RecurringFlows.WeekForDate | backend/app/services/forecast_engine.py:64-68 | the linear search is the division formula |
| RecurringFlows.InExactlyOneWeek | backend/app/services/forecast_engine.py:64-68 | a date of the horizon is in exactly one week, any other in none |
| RecurringFlows.ExpandRecurringOccurrences | backend/app/services/forecast_engine.py:177-207 | terminates for every frequency with all dates reached by stepping from the first day of the window, the later of flow start and horizon start, and no others; fails exactly for a negative interval on a window that is not empty |
| RecurringFlows.ExpandByDays | backend/app/services/forecast_engine.py:191-195 | the day-step loop |
| RecurringFlows.ExpandByMonths | backend/app/services/forecast_engine.py:197-207 | the month-step loop |
| RecurringFlows.OccurrencesIncrease | backend/app/services/forecast_engine.py:192-207 | occurrences strictly increase inside the window |
| RecurringFlows.OccurrencesInHorizon | backend/app/services/forecast_engine.py:181-182 | every occurrence, also a single one, is a day of the horizon |
| RecurringSchedule.DatesAreThisFarApart | backend/app/services/forecast_engine.py:181-207 | the window runs from the later start to the earlier end, and its dates are 1, 7 or 14 days, the custom interval or 30 days, or one or three months apart |
| RecurringFlows.OccurrencesAreDetermined | backend/app/services/forecast_engine.py:192-207 | stepping through the window and leaving nothing out fixes the occurrences |
| RecurringFlows.GatherRecurringFlow | backend/app/services/forecast_engine.py:226-237 | one line per week with an occurrence: amount times its count |
| RecurringSchedule.AnchoredExactlyWhenInPhase | backend/app/services/forecast_engine.py:191-207 | a day is one of the flow's own dates, counted from its start date, exactly when whole steps lead there: days by remainder, months by remainder and day of the month |
| RecurringSchedule.OnScheduleExactlyWhen | backend/app/services/forecast_engine.py:181-207 | the forecast of a flow is exactly its own dates in the window if and only if the window is empty, the flow does not begin before the horizon, or the horizon begins in phase with it |
| RecurringSchedule.DayStepsMoveAllOrNone | backend/app/services/forecast_engine.py:191-195 | with day steps and a start before the horizon, each forecast date is one of the flow's own exactly when the horizon begins in phase |
| RecurringSchedule.MonthStepsMoveTheFirst | backend/app/services/forecast_engine.py:197-207 | with month steps and a start before the horizon, each forecast date but the first is one of the flow's own exactly when the horizon begins whole steps of months after the start |
| RecurringSchedule.WeeklyFlowIsMoved | backend/app/services/forecast_engine.py:181 | a weekly flow from a Monday in a horizon from the Wednesday after is forecast on Wednesdays only |
| RecurringSchedule.GatherRecurringFlows | backend/app/services/forecast_engine.py:210-237 | one flow, expanded from the first day of its window and assigned to weeks: each line the amount times the forecast dates of its week, all lines together the amount times all of them; when the forecast is on schedule each line is the amount times the flow's own dates of the week |

## Left out

- SoleSuggestions.SoleSuggestionsStayExclusive: assumes that a query sees the rows the session has just added and that executions are taken one after the other. `UnflushedTraceIsExclusiveExactlyWhen` is exact without the first, `SuggestionsClashExactlyWhen` without the second.
- UnflushedRuns.UnflushedTraceIsExclusiveExactlyWhen: executions are taken one after the other, each run once.
- ReconciliationRuns.LiveGroupsAreDisjoint: executions of one entity are taken one after the other, which the lock ensures only for equal account and period; `GroupsClashExactlyWhen` says exactly which others can break it. A bank row's entity and a run's scope never change.
- BankClashes.GroupsClashExactlyWhen: tolerances are not negative and a period does not end before it starts; both executions read one committed state and the same tables. A collision of the lock's 64-bit hash, which would order two different scopes, is left out.
- InvestmentConservation.PrincipalIsConserved: runs in which a request activates an unplaced investment are excluded; `BooksBalanceExactlyWhen` is exact over all runs.
- FacilityLimits.PositiveAmountsHold: a sufficient condition; `LimitsHoldExactlyWhen` is the exact one.
- LevelInstallments.LastInstallmentIsClose: actual day counts only, because 30/360 charges different rates in different periods; rates at or below -100 % a period are not covered.
- PeriodicInterest.PeriodsEarnTheWholeTerm: actual day counts only; `ThirtyDaysAddUpExactlyWhen` says by how much 30/360 is off.
- EarlyTermination.SplittingChangesOnlyCents: a flat penalty needs an original principal that is not zero; `SplittingLeavesTheSameInvestment` needs no such thing, because every investment that can be terminated has one.
- OneToOneMatching.MatchingEngine.RunMatchingForRun: the candidate counter, the reason text and the confidence display are not kept.
- RepaymentSchedule.GenerateRepaymentSchedule: the number of periods is not negative; the principal is whole cents.
- SerialAcceptance.AloneItIsTheService: only for a proposal that exists; a request for a missing one is refused at once.
- Decimal's 28-digit context: arithmetic is exact.
- Dates after year 9999, where the date library fails.
- Text normalisation of references and narration, and its SQL mirror: references and tokens are given normalised. Ids are integers standing for UUIDs.
- The rate table behind currency matching: the converted amount is an arbitrary function of bank row and ledger row, absent when there is no authoritative rate.
- Which suggestions are auto-tier is a given property of each suggestion; deriving open items after a rejection does not touch proposals, decisions or claims and is not modelled.
- A repayment tied to another facility's drawdown, and sub-limits of several facilities at once: one facility is modelled.
- Inactive bank accounts, whose reports the balance query skips.
- Excel imports of investments: the import of a rollover calls the same service and writes its NON_CASH row, but leaves the successor's projection unset; the other imports write no cash row.
- Rollover comparison, funding cost, covenants, utilisation percentages, position totals by currency: single-formula results.
- HTTP endpoints, authentication, roles, audit and event text, forecasts beyond recurring flows, the other migrations, the frontend.
