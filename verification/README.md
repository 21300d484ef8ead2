# Verified model of the election platform

A Dafny model of the election back end: how an election is opened and closed, how voters are checked in, how
ballots are issued and cast, how they are counted, published and read back, and the smaller algorithms around
that (rate limiting, template preview, duplicate detection, roll import, group messages, slugs, refresh tokens,
paging). `dafny verify dfyconfig.toml` checks all of it.

## What is modelled

**The voting protocol** (`Types`, `Lifecycle`, `Protocol`, `Steps`, `Safety`, `Sequential`, `SessionUse`, `Finality`,
`Drain`, `LateBallots`, `Secrecy`, `Linkage`, `Bounds`, `Turnout`, `Checkins`).
Every request is a process with a program counter; a step reads or writes the committed tables once. A cast reads
its session, waits for the voter's row lock, tests the guard, checks its selections one at a time, stages its rows
and commits; a check-in, a ballot issue, a lifecycle transition and a publication commit on what they read earlier
without a lock. An exception, also one that no step raises itself (`Crash`), ends the process and leaves the tables
as they were. Clock ticks, new voters and elections, edits of voters, of positions and of slates, and tallies may come
between any two steps. Runs are finite sequences of such actions, and the theorems quantify over all of them. Ballots carry
no voter, so the state has a history map from ballot to request that no step reads.

`VotingEngine` has the same three services as an object whose methods change the tables. Each method says on the columns
of the tables whom it accepts, why it refuses and what it writes; its decision is also proved to be that of the
uninterrupted run of the process, and so are those of transitions and publications.

**The tally** (`Counting`, `Rounding`, `Sorting`, `Tally`, `TallyFacts`, `ResultService`). The object's methods carry
the loops of the service; what they compute is compared with plain counting, with ranks, with exact percentages
(hundredths of a per cent, half to even) and with what reading the table back shows. `Pipeline` joins the two halves: what a tally of a ballot
box shows that an arbitrary interleaving has filled. `Overlap`, `TallyRuns` and `TallyTables` take the tally apart into
its SELECTs, its DELETE and its commit, as a process beside the voting requests and beside other tallies; undisturbed, it
gives what the object's method gives.

**The other algorithms.** `RateLimit` and `RateLimitRedis`, `Template` and `TemplateExact`, `Duplicates`, `Text`,
`Import`, `Broadcast`, `Slug`, `RefreshTokens`, `Pagination`. The objects there take one request at a time.
`DuplicateRaces`, `ImportRaces`, `SendRaces`, `SlugRaces` and the second half of `RefreshTokens` take the same operations
apart into the step that reads and the step that writes, and say for all interleavings exactly when the promise of the
object still holds; undisturbed, the steps do what the object's method does. `Cardinality` and `Sequences` hold shared
facts; `Sequences.Picks` says that a sequence is what is left of another at given indices, which is how a query over a
table is stated without its recursion.

## Assumptions

- The HMAC and SHA-256 hashes are injective; session tokens, refresh tokens and primary keys drawn by a request are new. A
  repeated ballot nonce is not assumed away: the unique constraint refuses it.
- PostgreSQL at read committed, reduced to row locks, unique constraints, commit and rollback. The row lock that an
  UPDATE takes by itself is not modelled, which only allows more interleavings.
- No voter, position, candidate or election is deleted during a run. A voter's roll status and constituency may be edited
  at any moment.
- `Duplicates.Registry`, `Import.BulkImport`, `Broadcast.Group`, `Slug.Organizations` and `RefreshTokens.AuthService` are
  called one request at a time; what their theorems call every reachable state is reached that way. For overlapping
  requests see the modules named above.
- Percentages and page counts are computed exactly, not in floating point.
- Text is ASCII where it is stripped, folded or split.

## What turned out not to hold

Each of these has a lemma with an input or a run that shows it, and where possible an exact condition.

- A check-in that read the voter before a cast committed overwrites VOTED with CHECKED_IN. The guard still holds,
  because it also tests `has_voted` (`LateCheckinOverwritesVoted`, `BallotIsFinal`). VOTED is final exactly when no
  such check-in is in flight (`VotedIsFinalIff`).
- One session can back two ballots of two voters, since the session row is not locked (`SharedSessionBacksTwoBallots`).
  USED sessions are as many as ballots exactly when every commit finds its session still ACTIVE, a test that the code
  makes only at the start (`CountsAgreeIffCommitsOnActive`).
- A transition or an issue that read the election before it closed can commit afterwards: a closed election can be
  LIVE again. An election drains for good exactly when no such request is in flight (`PauseReopensClosedElection`,
  `DrainsForGoodIffSettled`). That counts every issue that has read the election as LIVE, whatever number it asks for: a
  barred voter can be verified meanwhile, and a number that is not on the roll can be imported.
- A drained election still gets ballots: from casts that had found their session in time, and from requests that name
  it but present another election's session (`LateCommitsAreEarlyOrForeign`, `LateBallotIff`; `EarlyCastCommitsLate` and
  `ForeignSessionServes` are runs of either kind).
- The ballot names no voter, but `cast_timestamp` and the voter's `voted_at` are one reading of the clock. The two
  columns name a ballot's voter exactly when no other ballot was cast at that instant (`VoterKnownIffAlone`).
- CLOSED does not mean that the election was ever LIVE (`ClosedWithoutEverLive`); the one way around LIVE is a pause of
  an election that is UPCOMING (`ClosedAroundLivePausesEarly`).
- The selection limit is tested per selection, so a request that names a position twice exceeds it; naming it at most
  once is exactly what the limit needs (`LimitHoldsIffNamedOnce`). A ballot cast for another election than the
  voter's can raise turnout above 100 (`ForeignBallotRaisesTurnout`), which stays below exactly when no more voters
  send ballots than are on the roll (`TurnoutHoldsIffSendersFit`).
- A tally that overlaps with casts counts ballots and votes at different moments. The limits then hold with one ballot
  more for each cast that committed in between, and in all runs only without any (`OverlappedTallyWithinLimits`,
  `LimitSurvivesIffNoneBetween`).
- Two tallies of one election that overlap can leave the rows of both (`OverlappingTalliesDoubleRows`): after a tally has
  committed, its rows are the only ones exactly when none of that election committed between its DELETE and its commit
  (`OnlyOwnRowsIffNoneBetween`). The unique summary row refuses a tally that looked for a summary before the first one was
  committed, and no other (`RefusedIff`, `SecondSummaryIsRefused`).
- Reading results back shows the total of the tally exactly when every vote names a listed candidate
  (`ReadBackIsTally`).
- Rounded percentages need not sum to 100 (`ThirdsLoseOneHundredth`); the error is at most 0.005 per candidate.
- The Redis path admits calls that the in-memory path refuses. For every limit the two agree exactly if no call finds
  its key expired while a stamp is still in the window, and none repeats a stamp that is (`RedisAgreesWithMemoryIff`,
  `LagLosesAMember`, `EqualStampsCollapse`).
- A preview depends on the order of a Python set if a value contains a placeholder, and stray braces can leave one
  in a preview that is called valid (`BracesInValuesExposeTheOrder`, `StrayBracesLeaveAPlaceholder`). A value, or a text
  between placeholders, is harmless in every template and every order exactly if it is inert: no placeholder starts in it,
  whole or cut off at its end (`ValueIsHarmlessIff`, `TextIsHarmlessIff`).
- Submissions with one voter card can belong to different originals, because a mobile match is tried first
  (`SubmitCardTwice`). A card has one original exactly if no mobile number of a later submission with it leads to another
  one (`OneCardOneOriginalIff`); a mobile number always has one (`SameMobileSameOriginal`).
- Two copies of a form sent at once both stay unflagged (`TwoCopiesUnflagged`). Every submission that matches an earlier
  one is linked exactly if each scan that had found nothing would still find nothing at its commit (`LinkedIfMatchedIff`),
  and all that holds of submissions one at a time holds exactly if each scan would end with the same signal (`SoundIff`).
- An empty name cell of a spreadsheet is imported as the name "nan" (`EmptyNamesArriveAsNan`). Two previews of one
  file, both confirmed, bring every id in twice (`TwoPreviewsClash`). One job comes in twice if two confirmations of it
  overlap: at most once exactly if each writes while the job is still PREVIEW_READY (`ImportedOnceIffNoRace`).
- Members of a group get a second message if an earlier send raised after it had begun: each gets exactly one if and
  only if no earlier text rendered for the first member (`ExactlyOnceIff`). Two sends at once call every member twice
  (`TwoSendsCallTwice`), and so do two one after the other if a stale draft is saved in between (`LateDraftSendsAgain`);
  in every interleaving each is called exactly once if and only if each commit is the first and each send that breaks
  off has called nobody (`CalledOnceIff`).
- An onboarding that had found its slug free can be refused by the unique index: exactly if another organization took the
  slug in between (`InsertRefusedIff`, `SecondOnboardingIsRefused`).
- Two refreshes that race with one token both succeed. A sign-in keeps at most one unrevoked session exactly if each
  refresh writes while the row that it read is still unrevoked (`OneSessionIffNoRace`). A logout is undone by a refresh
  in flight, and final exactly if there is none (`LogOutIsFinalIff`).
- The repository's README speaks of a Redis token bucket; the code is a sliding window, which is what is modelled.

## Model

| member | source | states |
|---|---|---|
| Safety.NoDoubleVote | app/services/voting_service.py:147-228 | in every interleaving no two committed ballots come from one voter, and a voter has `has_voted` exactly if a ballot of theirs was committed |
| Safety.BallotIsFinal | app/services/checkin_service.py:38-77 | once a voter has voted, no continuation reverts `has_voted` or adds a second ballot, late check-ins included |
| Safety.CommittedBallotsEqualVoters | app/services/voting_service.py:217-228 | in every interleaving ballots equal voters with `has_voted` and are at least as many as USED sessions; the two are equal exactly if no two ballots share a session |
| SessionUse.CountsAgreeIffCommitsOnActive | app/services/voting_service.py:157-163 | USED sessions are as many as ballots if and only if every commit of the run finds its session still ACTIVE |
| Finality.VotedIsFinalIff | app/services/checkin_service.py:38-77 | a voter keeps reading VOTED in every continuation if and only if no check-in of theirs is past its guards with a status to write |
| Finality.RunKeepsVoted | app/services/checkin_service.py:38-77 | without such a check-in, no run of any requests takes VOTED away |
| Safety.RunKeepsInv | app/services/voting_service.py:166-182 | the inductive invariant behind these: the row lock keeps the loaded row and the passed guard true until the commit |
| Safety.RunGrows | app/repositories/voting_repo.py:27-34 | ballots and votes are only ever added, and neither `has_voted` nor USED reverts |
| Protocol.FailureLeavesNoTrace | app/core/database.py:62-71 | a refused or crashed request changes no table and frees its row lock |
| Steps.OutsideWrites | app/services/voter_service.py:240-249 | an edit sets the roll status and the constituency that it names and nothing else; a new election is a DRAFT |
| Sequential.SequentialCountsAgree | app/services/voting_service.py:219-228 | with one request at a time, ballots, voters with `has_voted` and USED sessions are equally many |
| Sequential.LateCheckinOverwritesVoted | app/services/checkin_service.py:74-77 | an interleaving reaches a voter who has voted and reads CHECKED_IN |
| Sequential.SharedSessionBacksTwoBallots | app/services/voting_service.py:157-163 | an interleaving commits two ballots on one session |
| Lifecycle.DrainedIsAbsorbing | app/services/election_service.py:23-34 | no chain of allowed transitions leaves CLOSED, COUNTING, RESULT_PUBLISHED, ARCHIVED |
| Lifecycle.DrainedIffNoWayToLive | app/services/election_service.py:23-34 | those four are exactly the statuses from which LIVE cannot be reached |
| Lifecycle.EnteredFromIsAllowed | app/services/election_service.py:23-34 | the transition table read backwards: from which statuses each one can be entered, LIVE from SCHEDULED, UPCOMING and PAUSED only |
| Lifecycle.ClosedWithoutEverLive | app/services/election_service.py:23-34 | a chain leads from DRAFT to CLOSED that never passes LIVE |
| Lifecycle.ClosedAroundLivePausesEarly | app/services/election_service.py:23-34 | every chain from DRAFT to CLOSED around LIVE goes from UPCOMING straight to PAUSED |
| Lifecycle.ElectionService.TransitionLifecycle | app/services/election_service.py:182-237 | moves exactly along the table, to LIVE only with an active position and an approved candidate; each refusal has its reason and changes nothing; drained elections stay drained |
| Lifecycle.ElectionService.UpdateElection | app/services/election_service.py:135-180 | refused exactly in the locked statuses; otherwise each given column is set, the title trimmed, and the others stay |
| Drain.DrainsForGoodIffSettled | app/services/voting_service.py:52-66 | a drained election stays drained and gets no session in any continuation, edits and new voters included, if and only if no request in flight acts on an older reading of it, an issue for any number among them |
| Drain.DrainBound | app/services/voting_service.py:52-95 | more than 15 minutes after an election is drained and settled, a cast that presents any session of it is refused, whatever ran in between |
| Drain.SettledStaysDrained | app/services/voter_service.py:240-249 | under every action, publication and edits of a voter included, a settled drained election stays drained, issues no session and extends none |
| Drain.PauseReopensClosedElection | app/services/election_service.py:190-224 | a reachable CLOSED election that a PAUSE in flight brings back to LIVE |
| LateBallots.LateBallotIff | app/services/voting_service.py:157-210 | a cast that starts more than 15 minutes after an election drained and runs undisturbed adds a ballot to it if and only if it is accepted, names the election, and presents a session of another one |
| LateBallots.LateCommitsAreEarlyOrForeign | app/services/voting_service.py:157-163 | in any interleaving, every later commit is by a cast that had found its session in time, or holds another election's session |
| LateBallots.EarlyCastCommitsLate | app/services/voting_service.py:157-163 | a run in which a cast that had found its session in time adds a ballot to the long drained election |
| LateBallots.ForeignSessionServes | app/services/voting_service.py:200-210 | a run in which a session of another election, issued after the drain, adds one |
| LateBallots.BoxGrowsByItsRequests | app/services/voting_service.py:200-217 | an election's ballots grow by the commits of requests that name it and by nothing else |
| Secrecy.BallotSecrecy | app/services/voting_service.py:198-217 | if each two casts that correspond lock voters of one constituency, two runs that differ only in who cast what leave identical ballots and votes |
| Secrecy.OnlyConstituencyShows | app/services/voting_service.py:203-217 | whoever casts what, the votes are the same and so is every column of the ballots but the constituency |
| Secrecy.RunsMatch | app/repositories/voting_repo.py:27-34 | the relation between the two runs that every pair of alike actions keeps, whatever is edited |
| Linkage.RunKeepsStamped | app/services/voting_service.py:201-222 | in every reachable state each ballot carries the time in its voter's row, and a voter who has not voted carries none |
| Linkage.TimesLinkBallots | app/services/voting_service.py:201-222 | the voters with a time are exactly the senders of the ballots with that time |
| Linkage.VoterKnownIffAlone | app/services/voting_service.py:201-222 | the two time columns name a ballot's voter and nobody else if and only if no other ballot has its instant |
| Bounds.VotesAreTheChoices | app/services/voting_service.py:212-217 | after any interleaving each ballot's rows are its request's choices in order, and there are no other rows |
| Bounds.VotesBoundedByBallots | app/services/voting_service.py:185-196 | if the committed requests name a position at most once and its limit never exceeds m, it gets at most m votes per valid ballot |
| Bounds.LimitHoldsIffNamedOnce | app/services/voting_service.py:185-196 | all requests that pass the checks of a cast and name a position n times stay within its limit if and only if n is at most 1 |
| Bounds.OwnBallotsBoundedByRoll | app/services/voting_service.py:166-182 | in every interleaving the voters of an election account for at most one of its ballots each |
| Bounds.TurnoutAtMostHundred | app/services/result_service.py:37-46 | if the requests for an election come from its own voters, its ballots are at most as many as its voters |
| Bounds.ForeignBallotRaisesTurnout | app/services/voting_service.py:200-210 | without that, an election can have more ballots than voters |
| Turnout.BallotsBoundedBySenders | app/services/voting_service.py:166-182 | an election's ballots are at most as many as the voters who sent them |
| Turnout.TurnoutHoldsIffSendersFit | app/services/result_service.py:37-46 | in all runs with n senders and a roll of r voters turnout is at most 100 per cent if and only if n is at most r |
| VotingEngine.Engine.AuthenticateAndGenerateBallot | app/services/voting_service.py:42-95 | issues a session of 900 seconds exactly if the election is LIVE and the row found for the number belongs to it, has not voted and is not BLOCKED, SUSPENDED or INELIGIBLE; every refusal's reason |
| VotingEngine.Engine.FindVoter | app/repositories/voter_repo.py:14-23 | finds a voter of the election with that number, if and only if there is one |
| VotingEngine.Engine.CastBallot | app/services/voting_service.py:147-228 | accepts exactly if the session is ACTIVE and in time, the voter exists and has neither `has_voted` nor VOTED, each selection's position exists and its limit holds, and the serial is new; writes ballot, votes, voter and session together, or nothing, with the first reason in the order of the checks |
| VotingEngine.Engine.RecordAnonymousBallot | app/repositories/voting_repo.py:27-34 | adds the ballot and, in order, each choice with the ballot's id |
| VotingEngine.Engine.CheckSelections | app/services/voting_service.py:184-196 | finds the first selection whose position is missing or whose limit is exceeded, and which of the two it is |
| VotingEngine.Engine.CollectVotes | app/services/voting_service.py:212-215 | the nested loops give one choice per selected candidate, in order |
| VotingEngine.Engine.CheckinVoter | app/services/checkin_service.py:25-77 | checks in exactly the voters of the election who have not voted, are not BLOCKED, SUSPENDED or INELIGIBLE and are not yet checked in; sets the two status columns, keeps the others; every refusal's reason |
| VotingEngine.StampedPairsAreRows | app/repositories/voting_repo.py:27-34 | choices built first and given their ballot later are the ballot's rows |
| VotingEngine.CastRefinesProtocol | app/services/voting_service.py:147-228 | from any state with the voter's row free, the uninterrupted cast process ends exactly as `CastBallot` does |
| VotingEngine.IssueRefinesProtocol | app/services/voting_service.py:42-95 | the same for the issue of a ballot, whichever row the lookup by election and number finds |
| VotingEngine.CheckinRefinesProtocol | app/services/checkin_service.py:25-77 | the same for the check-in, whose UPDATE names only the changed columns |
| VotingEngine.MoveRefinesProtocol | app/services/election_service.py:182-237 | the same for a transition, on the status column |
| VotingEngine.PublishRefinesProtocol | app/services/result_service.py:164-199 | the same for a publication |
| VotingEngine.Attend | app/services/voting_service.py:42-228 | an admissible voter can be checked in, then issued a session, then cast within 900 seconds: all three succeed and leave the ballot, its votes and the used session |
| VotingEngine.VoteRowAt | app/services/voting_service.py:212-217 | the rows of a ballot are as many as its choices, and each choice stands at its place in the nested loops |
| Tally.GroupsAreCounts | app/services/result_service.py:69-75 | the grouped counts are the votes for each candidate on valid ballots of the election, counted one by one |
| Tally.GroupsSumToAll | app/services/result_service.py:77 | the sum of the grouped counts is the number of qualifying votes |
| TallyFacts.StoredCountsAreVotes | app/services/result_service.py:80-106 | every stored line is a listed candidate with the number of its votes, the rounded share of the total and its place as rank |
| TallyFacts.CountsOnTheTable | app/services/result_service.py:69-106 | total and counts are numbers of rows of the vote table on valid ballots of the election, and each percentage is the share to the nearest hundredth |
| TallyFacts.PositionsPicked | app/services/result_service.py:53-57 | the positions are all those of the election, in table order |
| TallyFacts.ListedPicked | app/services/result_service.py:62-67 | the candidates are all those of the position, in table order |
| TallyFacts.OthersKept | app/services/result_service.py:48-51 | the DELETE spares all rows of other elections, in their order |
| TallyFacts.RowsPicked | app/services/result_service.py:228-233 | reading a position takes all its rows |
| TallyFacts.RanksOrderCounts | app/services/result_service.py:91-106 | ranks 1..n run through the listed candidates once each, by falling count and falling percentage |
| TallyFacts.TiesKeepTableOrder | app/services/result_service.py:92 | candidates with equal counts are ranked in table order |
| TallyFacts.CountsAddUp | app/services/result_service.py:77-89 | listed counts plus votes for anybody else are the position's total |
| TallyFacts.PercentagesAddUp | app/services/result_service.py:80-89 | if all votes name listed candidates, n percentages sum to 100 within 0.005 n |
| TallyFacts.RetallyReplaces | app/services/result_service.py:48-51 | a second tally after the first leaves only its own rows for the election, so unchanged ballots give the same rows once each |
| TallyFacts.ReadBackIsTally | app/services/result_service.py:227-254 | whatever order the table keeps rows in, reading back after a tally gives the same lines in the same order, and the same total if and only if every vote names a listed candidate |
| TallyFacts.TallyKeepsSound | app/services/result_service.py:93-106 | a tally keeps the table in the form that the round trip needs |
| Sorting.SortRestores | app/services/result_service.py:232 | ordering any arrangement of strictly ranked rows restores them |
| Sorting.SortIsStable | app/services/result_service.py:92 | the sort keeps the order of equal keys |
| Sorting.StableOrderIsUnique | app/services/result_service.py:92 | there is only one ordered arrangement that does so, hence the model's insertion sort gives what any stable sort gives |
| Rounding.RoundIsNearest | app/services/result_service.py:88 | the rounded value is a nearest integer, the even one if there are two |
| Rounding.NearestIsUnique | app/services/result_service.py:88 | which determines it |
| Rounding.RoundIsMonotone | app/services/result_service.py:88-94 | rounding keeps order, so a better rank never has a smaller percentage |
| Rounding.PercentagesSumToHundred | app/services/result_service.py:82-88 | n rounded shares of a total sum to 100 within 0.005 n |
| Rounding.ThirdsLoseOneHundredth | app/services/result_service.py:82-88 | three equal counts show 99.99 in sum |
| ResultService.Service.TallyOne | app/services/result_service.py:62-115 | the body of the loop over positions returns the position's result and stores its rows |
| ResultService.Service.TallyPositions | app/services/result_service.py:48-115 | deletes the election's rows and stores those of every position of it in order |
| ResultService.Service.SumValues | app/services/result_service.py:77 | adds the values of the map up, in whatever order |
| ResultService.Service.TallyResults | app/services/result_service.py:31-162 | the whole tally: voters, check-ins and valid ballots of the election counted on the tables, turnout to the nearest hundredth, stored rows in status COUNTING with this time, and the summary updated or created with its publication time kept |
| ResultService.Service.PublishResults | app/services/result_service.py:164-207 | publishes exactly if a summary and the election exist, from any status; sets the status of the election's rows and no others; every position reads as before; otherwise nothing changes |
| ResultService.Service.GetResults | app/services/result_service.py:209-262 | shows the stored summary, or zeros without one, and every position of the election, each from its rows |
| ResultService.TallyThenRead | app/services/result_service.py:31-262 | the round trip of the two operations: reading after a tally shows the same figures and all its positions with the same titles and lines, and the same total if and only if every vote for the position names one of its candidates |
| ResultService.PublishingKeepsReading | app/services/result_service.py:187-194 | the update of the rows' status changes nothing that is read |
| Pipeline.TallyWithinLimits | app/services/result_service.py:37-77 | the limits on votes and turnout for the figures of a tally of one state that any interleaving has reached |
| Overlap.SameMomentIff | app/services/result_service.py:45-75 | ballots counted by one statement and votes by a later one are of one moment if and only if no cast for the election commits in between |
| Overlap.VotesBoundedByFigure | app/services/result_service.py:45-77 | the limit on a position's votes, with one ballot more for each cast that commits in between |
| Overlap.LimitSurvivesIffNoneBetween | app/services/result_service.py:45-77 | the limit holds in all runs with n casts between the two statements if and only if n is 0 |
| TallyRuns.EventsKeepSound | app/services/result_service.py:31-115 | in every run of requests, tallies and edits, each figure of a tally is that of the state at the moment of its statement |
| TallyRuns.OverlappedTallyWithinLimits | app/services/result_service.py:45-77 | in every such run a tally shows at most m votes per ballot shown and per cast that committed between the two statements |
| TallyRuns.FiguresOfOneMomentIff | app/services/result_service.py:45-75 | the ballots shown are those behind a position's votes if and only if no such cast committed |
| TallyRuns.CheckinsOfOneMomentIff | app/services/result_service.py:41-45 | the check-ins shown are those of the moment of the ballots if and only if no check-in for the election committed in between |
| Checkins.CheckinsGrowByCommits | app/services/checkin_service.py:61-77 | in every run the voters checked in for an election grow by exactly its own check-ins that commit |
| TallyRuns.OverlappedTurnout | app/services/result_service.py:37-46 | the ballots shown exceed the voters shown at most by the voters registered between the two statements |
| TallyRuns.AloneIsSnapshot | app/services/result_service.py:31-115 | an undisturbed tally process has the figures of the one state, which are those of `TallyResults` |
| TallyRuns.UnknownElectionEnds | app/services/result_service.py:32-34 | a tally of an unknown election ends at its first statement and stores nothing |
| TallyRuns.VotesComeBetween | app/services/result_service.py:31-115 | between any two statements of a tally any run of voting requests can commit |
| TallyTables.RowsAreUnsuperseded | app/services/result_service.py:48-106 | in every run of requests and tallies the results of an election are the rows of the committed tallies that no later one's DELETE saw, and before the first commit the rows that were there |
| TallyTables.OnlyOwnRowsIff | app/services/result_service.py:48-106 | in every run the last tally's rows are the only ones of its election if and only if every other one with rows was seen by a later DELETE |
| TallyTables.OnlyOwnRowsIffNoneBetween | app/services/result_service.py:48-106 | where tallies store rows at all: if and only if no tally of the election committed between its DELETE and its commit |
| TallyTables.RefusedIff | app/services/result_service.py:117-139 | in every run the unique summary refuses a tally if and only if there was no summary when it looked and another tally of the election has committed since |
| TallyTables.OverlappingTalliesDoubleRows | app/services/result_service.py:48-139 | from any fresh state a run of two overlapping tallies that both commit and leave every row twice |
| TallyTables.SecondSummaryIsRefused | app/models/result.py:42 | a run in which both look for the summary before either commits: the second is refused |
| Pipeline.TallyIsSecret | app/services/result_service.py:69-75 | runs that differ only in who cast what are tallied alike, whatever the constituencies |
| RateLimit.Limiter.Check | app/core/rate_limit.py:34-69 | under a clock that never runs back a call is admitted if and only if its key was called at most `limit` times in the last 60 seconds, itself included, or at most the limiter's own limit times if none is given; each call is logged, admitted or not |
| RateLimit.StoredIsWindow | app/core/rate_limit.py:63-66 | under a clock that never runs back a key's list is its whole call history, rejected calls included, cut to its last window |
| RateLimit.AdmittedIffWithinLimit | app/core/rate_limit.py:62-69 | a call is admitted if and only if its key was called at most `limit` times in the last 60 seconds, itself included |
| RateLimit.AtMostLimitPerWindow | app/core/rate_limit.py:62-69 | at most `limit` calls under a key are admitted in any window (a, a+60] |
| RateLimit.AdmissionIgnoresOtherKeys | app/core/rate_limit.py:35-38 | a call is admitted if and only if it would be had only its own key been called |
| RateLimitRedis.RedisLimiter.Execute | app/core/rate_limit.py:46-52 | the pipeline's four commands at the instant they run: the key's unexpired members of the last 60 seconds and this one, expiring 60 seconds later; other keys stay |
| RateLimitRedis.RedisLimiter.Check | app/core/rate_limit.py:35-56 | admits a call by that count against the given limit, or the limiter's own if none is given |
| RateLimitRedis.RedisAgreesWithMemoryIff | app/core/rate_limit.py:44-69 | whatever the limit, both paths admit exactly the same calls if and only if no call finds its key expired with a stamp still in the window, and none repeats a stamp that is |
| RateLimitRedis.CountsAgreeIffUndisturbed | app/core/rate_limit.py:46-69 | under the same condition, and only under it, both paths keep equally many entries at every call |
| RateLimitRedis.PromptIsUndisturbed | app/core/rate_limit.py:41-51 | it holds if every pipeline runs in the second of its stamp and no two nanoseconds are equal |
| RateLimitRedis.ExpiryLosesNothing | app/core/rate_limit.py:47-50 | for such prompt calls the expiry never discards a member that the prune would have kept |
| RateLimitRedis.StoresTrack | app/core/rate_limit.py:46-50 | up to the first disturbed call the sorted set is the set of stamps that the prunes have left, and expires 60 seconds after the last call |
| RateLimitRedis.LagLosesAMember | app/core/rate_limit.py:41-51 | a pipeline that runs late after its stamp finds its key gone while the window still covers a call |
| RateLimitRedis.EqualStampsCollapse | app/core/rate_limit.py:48 | two calls with one nanosecond are counted once |
| Template.PreviewTemplate | app/services/template_service.py:123-135 | for any content: the variables replaced one after another in some order of the set, exactly those without a value listed as missing, once each, and valid exactly if none is |
| Template.PreviewIsSimultaneous | app/services/template_service.py:123-135 | for inert texts and values, in any order the preview is the simultaneous substitution, and valid exactly if no placeholder is left in it |
| Template.BraceFreePreview | app/services/template_service.py:123-135 | so it is for templates with braces only in placeholders and values without any |
| Template.AnyOrderIsSimultaneous | app/services/template_service.py:128-130 | replacing in any order, repetitions included, is substituting at once |
| Template.OrderDoesNotMatter | app/services/template_service.py:128-130 | two orders of the variables give the same text |
| Template.FindAllFindsSlots | app/services/template_service.py:125 | the regular expression finds exactly the placeholders of a template, in order |
| Template.WordCodes | app/services/template_service.py:125 | the characters of a name are the ASCII letters, digits and the underscore |
| Template.PlaceholderSyntax | app/services/template_service.py:125-130 | a name in double braces is found, and its value takes the place of all of it |
| Template.ReplaceFillsSlots | app/services/template_service.py:130 | one replacement fills exactly the slots of its variable |
| Template.BracesInValuesExposeTheOrder | app/services/template_service.py:128-130 | a value that is a placeholder makes the two orders differ |
| Template.StrayBracesLeaveAPlaceholder | app/services/template_service.py:128-135 | braces around a placeholder leave one in the result although none is missing |
| TemplateExact.ParseReads | app/services/template_service.py:125 | every content is a sequence of placeholders and texts without any, and the regular expression finds just those placeholders |
| TemplateExact.InertContentPreview | app/services/template_service.py:123-135 | so for any content whose texts are inert, and inert values, the preview is the simultaneous substitution and valid means filled |
| TemplateExact.ValueIsHarmlessIff | app/services/template_service.py:128-135 | a value leaves every template and every order with the simultaneous substitution if and only if it is inert, and with a truthful is_valid if and only if it is inert |
| TemplateExact.TextIsHarmlessIff | app/services/template_service.py:128-135 | the same for a text between placeholders |
| Duplicates.Registry.Scan | app/services/duplicate_detection_service.py:38-92 | finds a match exactly if some stored submission matches, by the first of the four signals that does |
| Duplicates.SignalOnColumns | app/services/duplicate_detection_service.py:47-92 | that signal on the columns: mobile, then card, then email, then name and booth, each only if the submission has it and within its organization |
| Duplicates.ActionOnColumns | app/services/duplicate_detection_service.py:159-180 | what each resolution sets in the two submissions, and that it sets nothing else |
| Duplicates.Registry.Submit | app/services/data_collection_service.py:50-116 | normalises and stores the submission, and exactly if an earlier one matches flags it and links it; keeps the invariant |
| Duplicates.Registry.Review | app/services/data_collection_service.py:194-247 | changes one status only; keeps the invariant |
| Duplicates.Registry.BulkReview | app/services/data_collection_service.py:258-308 | changes exactly the chosen submissions of the organization and counts them; keeps the invariant |
| Duplicates.Registry.Resolve | app/services/duplicate_detection_service.py:139-182 | the statuses and flags that each action sets; keeps the invariant |
| Duplicates.LinkedIffMatchedEarlier | app/services/duplicate_detection_service.py:92-106 | in every state that requests one at a time reach, a submission has a link if and only if an earlier one of its organization matches it |
| Duplicates.OnlyEarliestUnflagged | app/services/duplicate_detection_service.py:174-177 | likewise, of submissions with one mobile or voter card in an organization only the earliest is unflagged, unless kept separate |
| Duplicates.ChainsEnd | app/services/duplicate_detection_service.py:92-106 | links form a forest: every chain ends at an earlier unlinked submission of the same organization |
| Duplicates.SameMobileSameOriginal | app/services/duplicate_detection_service.py:47-106 | likewise, submissions of one organization with one mobile number all lead back to the same original, whatever other signals they match |
| Duplicates.SubmitCardTwice | app/services/duplicate_detection_service.py:47-68 | three submissions after which two with one card have different originals |
| Duplicates.SameCardSameOriginal | app/services/duplicate_detection_service.py:61-68 | submissions with one voter card lead back to one original if none of them but the earliest has a mobile number submitted before |
| Duplicates.NextCardSharesIff | app/services/duplicate_detection_service.py:47-68 | if the earlier submissions with a card share an original, the next one shares it if and only if all earlier ones with its mobile number do |
| Duplicates.OneCardOneOriginalIff | app/services/duplicate_detection_service.py:47-68 | all submissions with a card lead back to where the first does if and only if the mobile number of each leads there |
| Duplicates.ActionKeepsSound | app/services/duplicate_detection_service.py:159-180 | the invariant's step for each action: only keeping separate clears a flag, and only of a DUPLICATE |
| Duplicates.SubmitKeepsSound | app/services/duplicate_detection_service.py:92-108 | the invariant's step for a submission: DUPLICATE implies flagged and linked, each is linked at most once, always to an earlier one and by the first signal that any earlier one matches |
| DuplicateRaces.LinkedWasMatched | app/services/duplicate_detection_service.py:92-106 | in every interleaving of scans, commits, reviews and resolutions a linked submission matches one that committed earlier |
| DuplicateRaces.SubmitAlone | app/services/duplicate_detection_service.py:38-108 | undisturbed, the four queries and the commit store, flag and link what `Submit` does |
| DuplicateRaces.LinkedIfMatchedIff | app/services/data_collection_service.py:82-105 | a submission is linked exactly if it matches an earlier one, throughout a run, if and only if each scan that had found nothing would still find nothing at its commit |
| DuplicateRaces.SoundIff | app/services/data_collection_service.py:82-105 | the whole invariant of one request at a time holds after a run if and only if each scan would end with the same signal at its commit |
| DuplicateRaces.TwoCopiesUnflagged | app/services/duplicate_detection_service.py:54-92 | two submissions of one form at once, both unflagged and unlinked |
| Import.ChosenIds | app/services/import_service.py:119-205 | the valid ids are distinct, not in the election, and exactly the good ids that the election lacks, in whatever order the rows come |
| Import.EveryRowOnce | app/services/import_service.py:131-178 | every row is either valid or reported, once and in order |
| Import.VerdictOnTheRow | app/services/import_service.py:143-178 | which rows are reported and why, on the columns: an empty or NAN id, an empty or NAN first name, an id that the election or an earlier good row has |
| Import.HeldAreUnreported | app/services/import_service.py:123-193 | the rows held are all those without a report, in their order |
| Import.ReimportAddsNothing | app/services/import_service.py:119-181 | importing the same file again brings in nothing |
| Import.SplitNameKeepsWords | app/services/import_service.py:134-141 | without a last name, splitting a full name loses no word; with one, both are kept |
| Text.StripCuts | app/services/import_service.py:133-141 | stripping takes all the blanks at both ends and nothing else |
| Text.WordsKeepInk | app/services/import_service.py:134-141 | splitting keeps every character that is not a blank, in order |
| Text.CaseCodes | app/services/import_service.py:133 | upper- and lower-casing moves the ASCII letters by 32 and leaves everything else |
| Import.EmptyNamesArriveAsNan | app/services/import_service.py:133-155 | the tests for "NAN" catch an empty id but not an empty name |
| Import.BulkImport.Check | app/services/import_service.py:123-193 | the loop computes filter-then-keep-first-occurrence, the reports and both counters |
| Import.BulkImport.Preview | app/services/import_service.py:107-205 | holds the valid records in a new job whose counters are the numbers of rows held, reported as duplicates and reported otherwise |
| Import.BulkImport.Confirm | app/services/import_service.py:283-324 | works exactly once per job, imports exactly its held records, imported = valid |
| Import.BulkImport.Cancel | app/services/import_service.py:346-356 | removes exactly an unconfirmed job of the caller's organization and no voter |
| Import.ConfirmKeepsUniqueIff | app/services/import_service.py:296-324 | after a confirmation ids are unique in the election if and only if no held id came in since the preview |
| Import.UndisturbedImportKeepsUnique | app/services/import_service.py:296-324 | hence they are if the election's ids are those of the preview |
| Import.TwoPreviewsClash | app/services/import_service.py:293-324 | two jobs of one file bring every id in twice |
| ImportRaces.ImportedOnceIffNoRace | app/services/import_service.py:289-324 | in every interleaving each job is imported at most once if and only if every confirmation writes while its job is still PREVIEW_READY |
| ImportRaces.ConfirmAlone | app/services/import_service.py:289-324 | undisturbed, the two steps of a confirmation add every held record once and complete the job |
| ImportRaces.ConfirmBesideOthers | app/services/import_service.py:289-324 | a job deleted under its confirmation brings in nothing; a voter added meanwhile stays, and the held records come after it |
| Broadcast.CreateGroup | app/services/broadcast_service.py:163-206 | made exactly if every id asked for is a voter of the organization and one of them is reachable; included + excluded = selected |
| Broadcast.CountTestIsMembership | app/services/broadcast_service.py:165-169 | comparing the two counts finds out exactly whether all ids belong to the organization |
| Broadcast.MembersAreReachable | app/services/broadcast_service.py:171-179 | the members are the reachable voters among the selected |
| Broadcast.MemberOnColumns | app/services/broadcast_service.py:171-179 | the phone number counts before the mobile one, both trimmed, and WhatsApp is used only if the channel asks for it |
| Broadcast.ResultsOnTheLogs | app/services/broadcast_service.py:257-263 | the counts are numbers of log rows by outcome and channel |
| Broadcast.Group.SaveDraft | app/services/broadcast_service.py:214-224 | sets the text exactly if it is not blank and the group not sent |
| Broadcast.Group.Send | app/services/broadcast_service.py:226-252 | a sent group is only read; otherwise it is sent with one log per member exactly if all members render and the commit goes through; each try calls the members before the first that does not render |
| Broadcast.Group.CallMembers | app/services/broadcast_service.py:233-248 | the loop calls exactly the members before the first that the text does not render for, and logs each answer |
| Broadcast.Group.ReadResults | app/services/broadcast_service.py:254-264 | total = members = whatsapp + sms + failed once sent, for any provider answers; success exactly if none failed |
| Broadcast.ResultsAddUp | app/services/broadcast_service.py:257-263 | every log is in exactly one of the three counts |
| Broadcast.ExactlyOnceIff | app/services/broadcast_service.py:226-251 | of a sent group every member got exactly one call if and only if no earlier text rendered for the first member |
| SendRaces.CalledOnceIff | app/services/broadcast_service.py:226-251 | in every interleaving of sends, once all have ended and one has committed, each member was called exactly once if and only if each commit was the first and each send that broke off had called nobody |
| SendRaces.SendAlone | app/services/broadcast_service.py:226-252 | undisturbed, a send calls every member once and logs each |
| SendRaces.TotalIsMembersIff | app/services/broadcast_service.py:250-264 | the results count each member once if and only if each commit was the first |
| SendRaces.TwoSendsCallTwice | app/services/broadcast_service.py:226-252 | two sends that both pass the status test call every member twice and leave two logs for each |
| SendRaces.LateDraftSendsAgain | app/services/broadcast_service.py:214-224 | a draft written after the send that it had not seen makes the group READY again, and the next send calls every member a second time |
| SendRaces.BrokenSendCallsAgain | app/services/broadcast_service.py:226-252 | a send that breaks off after its first call leaves no log and the group READY, and the next send calls that member a second time |
| Slug.SlugifyFixesWellFormed | app/services/auth_service.py:104 | the names that slugify to themselves are exactly the well-formed slugs |
| Slug.SlugifyJoinsRuns | app/services/auth_service.py:104 | every name becomes its stretches of letters and digits joined by single dashes, and "workspace" if it has none |
| Slug.DecimalIsValue | app/services/auth_service.py:106-109 | the suffix is the number in decimal, without leading zeros |
| Slug.CandidatesInOrder | app/services/auth_service.py:105-109 | the candidates are the base, then the base with -2, -3 and so on |
| Slug.PlainCodes | app/services/auth_service.py:104 | what a slug keeps of a lower-cased name: ASCII letters and digits |
| Slug.CandidateIsWellFormed | app/services/auth_service.py:104-109 | a suffix keeps a slug well-formed |
| Slug.CandidatesDiffer | app/services/auth_service.py:105-109 | base, base-2, base-3, ... are pairwise different |
| Slug.Pigeonhole | app/services/auth_service.py:107-109 | the first k candidates are taken only if k slugs are |
| Slug.FirstFreeIsUnique | app/services/auth_service.py:107-109 | there is one first free candidate |
| Slug.Organizations.FindSlug | app/services/auth_service.py:291-296 | ends after at most one probe more than there are organizations, with the first candidate that none of them has |
| Slug.Organizations.Onboard | app/services/auth_service.py:291-306 | adds a well-formed slug that is new, whatever slugs are stored; uniqueness is kept in every run |
| Slug.Organizations.CreateOrganization | app/services/org_service.py:21-40 | an administrator's slug is stored trimmed and lower-cased exactly if it is new |
| SlugRaces.InsertRefusedIff | app/models/organization.py:19 | in every interleaving slugs stay unique, and an onboarding is refused at its insert if and only if its slug was taken after it had been found free; otherwise it gets the first free candidate of that moment |
| SlugRaces.OnboardingAlone | app/services/auth_service.py:105-118 | undisturbed, an onboarding inserts its first free candidate, whatever slugs there are; if that one is taken before its insert it is refused and adds none |
| SlugRaces.SecondOnboardingIsRefused | app/services/auth_service.py:105-118 | two onboardings of one name at once: the second is refused |
| RefreshTokens.AuthService.SignIn | app/services/auth_service.py:470-483 | adds one unrevoked session that descends from none |
| RefreshTokens.AuthService.Refresh | app/services/auth_service.py:639-690 | trades exactly a token that is unrevoked, not past its expiry and of an active user: revokes its row and adds one of the same user; a refusal changes nothing |
| RefreshTokens.AuthService.Revoke | app/services/auth_service.py:734-739 | revokes the row of the token, if there is one, and nothing else |
| RefreshTokens.OneLiveSessionPerSignIn | app/services/auth_service.py:655-690 | however often tokens are traded, a sign-in has at most one unrevoked session |
| RefreshTokens.OneLine | app/services/auth_service.py:655-690 | the sessions of a sign-in form one line |
| RefreshTokens.OneSessionIffNoRace | app/services/auth_service.py:641-690 | in every interleaving of sign-ins and refreshes, a sign-in has at most one unrevoked session if and only if every refresh writes while the row it read is still unrevoked |
| RefreshTokens.RefreshAlone | app/services/auth_service.py:639-690 | undisturbed, the three steps of a refresh trade the row or leave the table as it was |
| RefreshTokens.SignInAndOut | app/services/auth_service.py:734-739 | a sign-in adds an unrevoked session and a logout with its token revokes just that one |
| RefreshTokens.ForkLeavesTwo | app/services/auth_service.py:655-690 | two trades of one token leave two unrevoked sessions of one sign-in, however often they are traded on |
| RefreshTokens.LogOutIsFinalIff | app/services/auth_service.py:734-739 | a sign-in whose sessions are all revoked stays so in every continuation if and only if no refresh in flight has read one of them |
| Pagination.CeilingsAgree | app/repositories/base.py:91 | the ceiling of the quotient is the integer formula of the data endpoints, and at least 1 |
| Pagination.PagesCoverList | app/repositories/base.py:86-90 | the pages one after another are the list |
| Pagination.PageShows | app/repositories/base.py:86-100 | page, size, total and has_prev, and which item stands at each place of a page |
| Pagination.HasNextIffItemBeyond | app/repositories/base.py:93-100 | has_next holds exactly if an item lies beyond the page, exactly if the next page is not empty, and only on full pages |

## Left out

- Password hashing, OTP, JWT, TOTP and lockout counters: only the refresh-token rows are modelled.
- Tenant checks, permission tables, CRUD services, dashboards, analytics sums and the expense ceiling: single-branch facts.
- Audit and security log rows: written by every operation, read by none of those modelled.
- Deletion of voters, positions, candidates, elections and groups.
- Floating point: percentages, turnout and page counts are exact, so the last digit of a double may differ.
- The lock that PostgreSQL takes at the check-in's own UPDATE, and isolation below row locks, constraints and commit.
- Drain.DrainBound: gives the bound from the first settled moment; before it `DrainsForGoodIffSettled` shows that nothing can be promised.
- Linkage.VoterKnownIffAlone: speaks of the two time columns; elections and constituencies may narrow a shared instant down further.
- TallyRuns.OverlappedTallyWithinLimits: a position's candidates and its votes are read in one step, and a second DELETE or summary row does not wait for the first, which only allows more runs.
- TallyTables.OverlappingTalliesDoubleRows: the summary's figures are those of the last commit and are not modelled there.
- RefreshTokens.OneSessionIffNoRace: for runs without logouts, which can hide a fork by revoking one branch of it; `LogOutIsFinalIff` covers those.
- Secrecy.BallotSecrecy: speaks of the ballot and vote tables; `Linkage` adds the voter's `voted_at`, while times and client addresses in session and audit rows are not modelled.
- TemplateExact.ValueIsHarmlessIff: speaks of all templates with that value; in a single template a value that is not inert may do no harm.
- RateLimit.StoredIsWindow: assumes a clock that never runs back.
- RateLimitRedis.RedisAgreesWithMemoryIff: one store for the whole run; switching from Redis to memory in between is not modelled, as they share no history.
- Duplicates.Registry.Submit: one request at a time, `DuplicateRaces` has the interleavings; quality scores, volunteer profile counters and activity rows are left out, as are the columns that no signal reads; SQL ILIKE is a parameter, so its pattern characters are not interpreted. A user without an organization is `None`.
- Duplicates.Registry.Query: takes any match, as `first()` without an order does.
- Import.BulkImport.Check: CSV and Excel rows only, for PDF rows the error branches fail on `row.to_dict()`; the columns besides id and names are copied and left out, and numbers are read as the text they print as.
- Import.BulkImport.Confirm: one request at a time; `ImportRaces` has the interleavings.
- Broadcast.Group.Send: one request at a time, `SendRaces` has the interleavings; the members are taken to be listed in one order each time, as `group.members` has no ORDER BY; providers are an arbitrary answer per call, and Jinja an arbitrary predicate of text and member.
- The one-off `send_broadcast`, which keeps no state that a later call reads.
- VotingEngine.Engine.AuthenticateAndGenerateBallot: the list of positions and candidates that it returns besides the session. For a barred voter the source's message reads `.value` of a plain string, so it fails with another exception; the model answers `VoterIneligible`, and either way nothing is written.
- VotingEngine.Engine.CheckinVoter: the same holds of its message for a barred voter.
- VotingEngine.Engine.FindVoter: a number arrives trimmed and upper-cased; if several rows have it, any may be found.
- SendRaces.CalledOnceIff: the text is left out; a draft saved late only sets the status back to READY.
- Slug.Organizations.Onboard: the name is lower-cased before it arrives; users, roles and the first election are left out; one request at a time, `SlugRaces` has the interleavings.
- Pagination.PagesCoverList: the order of the list is fixed; rows with equal creation times may move between two page requests.
- Routing, schemas, migrations, middleware, storage, PDF and spreadsheet parsing, poster rendering and the messaging adapters.
