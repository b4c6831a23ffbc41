# Verified model of the Meridian lending services

A Dafny model of the decision-making core of the lending repository, with proofs about it:

- the Regulation Z figures of a loan: level payment, finance charge, amount financed, the annual percentage rate found by
  bisection, the cent-rounded payment schedule and the five-figure box (12 CFR Part 1026, Appendix J and section 1026.18);
- idempotent credit decisioning: advisory lock, replay lookup, bureau pull, atomic append, unique-index race fallback, with
  worker crashes and lost lock connections;
- the scorecard, its policy bands, the adverse-action reasons and the record validator;
- the retrieval evaluation: Markdown chunking, TF-IDF vectors and their cosine, the exact top-k index, the embedding cache,
  threshold calibration and the reported error pair;
- the single-flight readiness probe and the per-downstream circuit breaker;
- the disclosure pipeline with its one bounded retry cycle;
- continuation tokens: key list, versioned digests, officer/owner/token authorization, and the gateway's custody of tokens;
- the canonical fingerprint encoding (JSON as in sections 4 to 7 of RFC 8259) and the Luhn checksum (Annex B of
  ISO/IEC 7812-1) with the card-number masker.

Code that computes is modelled as functions, loops as methods proved against a specification function, and objects whose
methods update fields as classes. The concurrent parts (decisioning, the probe) are state machines whose steps are single
reads, writes, clock readings, lock actions or outside calls, interleaved in any order by any number of threads; main results
quantify over every run. Money, rates and scores are exact reals, quantized money is whole cents, and Decimal's and Python's
rounding rules are written out.

One file holds one module. `Rounding`, `Annuity`, `Sorting`, `Strings`, `Texts` and `Wrappers` are shared; the others follow
the source files cited below. `dafny verify dfyconfig.toml` checks everything.

## What the proofs turned up

Where the code does not meet what its documentation or tests promise, the code is modelled as it is; a lemma gives a
failing input or says exactly when the promise holds, and the promise is proved under that condition:

- Payments of a schedule need not be positive: 30 cents over 60 months at 0% is 59 payments of one cent and then one of minus
  29 cents (`Schedule.TinyLoanEndsNegative`), and 20 cents is 59 payments of nothing and then one of 20 cents
  (`Schedule.TinierLoanPaysAtTheEnd`). `Schedule.PaymentsArePositiveExactly` says for which loans they are.
- Nor need interest be non-negative: the last row of 80 cents at 12% over 12 months charges minus one cent
  (`Schedule.SmallLoanEndsWithNegativeInterest`). `Schedule.InterestIsNonNegativeExactly` gives the condition on the note under
  which no row charges less than nothing, and `Drift.InterestIsNonNegative` and
  `Drift.ZeroRateChargesNothing` show it met by loans whose last month's interest covers the rounding, and by whole-cent ones at 0%.
- Row principals and row splits add up to the cent exactly when the principal is a whole number of cents
  (`Schedule.PrincipalsSumToLoan`, `Schedule.RowsSplitExactly`).
- The rate search runs from 0 to 100% a month; for a rate outside, negative ones included, it answers the end of the range
  (`Bisection.BisectionConvergesExactly`, `Bisection.NoteRateIsFoundExactly`). The loans the offer endpoint admits stay inside it
  (`Bisection.OfferedLoansAreInRange`).
- The score is monotone for positive amounts and terms of at least one month, which are all that the decision endpoint admits
  (services/decision-service/app/schemas.py:13-17). A direct call of the model with a zero amount can break it
  (`Scorecard.ZeroAmountIsAnException`), and so can one with a term between 0 and 1, which truncates to zero months: half a
  month is approved where a whole one is referred (`Scorecard.HalfMonthIsAnException`, `Scorecard.ZeroTermIsReachedExactly`). A
  term of 0 itself is read as 36 (`Scorecard.ZeroTermReadsAsThreeYears`). `Scorecard.FromZeroAmount` and
  `Scorecard.FromZeroTerm` say what leaving zero does to the score.
- The replay guard means to skip what it cannot compare, not to refuse a legitimate replay
  (services/decision-service/app/decision.py:193-201), yet once the SSN-fingerprint pepper is rotated it refuses a request
  repeated word for word (`DecisionRecord.RotatedPepperIsAnException`, `Decisioning.RotationRefusesARetry`): exactly when the
  request carries an SSN and two different peppers were set (`DecisionRecord.UnchangedConflictsExactly`).
- Two bureau pulls for one key can overlap once a lock holder's connection drops (`Decisioning.LostLockLetsPullsOverlap`);
  the event log keeps one event per key even then.
- With fewer than two distinct scores the calibrated threshold is a sentinel, a minimum-error cutoff only when the class it
  sacrifices is not the larger one (`Calibration.SentinelIsOptimalExactly`); and the reported error pair leaves out cases that
  retrieved nothing, which calibration counts (`Calibration.ReportedPairAgainstMinimum`).
- A recovery call that ends without reporting leaves a breaker refusing for ever (`Breaker.OneRecoveryAtATime`).
- A self-service submit that origination committed but whose answer is lost, or is not the accepting one (a commit that was not
  acknowledged, a failure after it), strands the application, without cookie or compensation (`Custody.Submit`).
- The canonical text cannot tell a high and a low surrogate written side by side from the astral character they form
  (`Fingerprint.SurrogatePairsCollide`); lone surrogates it can (`Fingerprint.UnitsReadBack`). Nor can the cache key tell a
  signature that holds a NUL from the part before it (`Cache.NulInSignatureCollides`).
- An embedding call that raises leaves its key used but without a vector, so a later save raises until that text is embedded
  (`Cache.SaveKeepsExactlyTheUsed`).
- A `# ` line with no text does not count as the title, so a later one is still taken as title and dropped (`Chunker.NothingIsLost`).

## Model

| member | source | states |
|---|---|---|
| Rounding.HalfUpIsNearest | services/disclosure-service/app/apr.py:23-25 | Rounding half up gives the one integer within half a unit, ties going away from zero; both directions. |
| Annuity.PresentValueIsDiscountedStream | services/disclosure-service/app/apr.py:113-117 | The closed form used by the solver is the sum of the payments discounted back from periods 1 to n, rate zero included. |
| Annuity.PresentValueStrictlyDecreasing | services/disclosure-service/app/apr.py:141-141 | A dearer rate makes the same payments worth strictly less, for every rate above -100% a month. |
| Apr.MonthlyPayment | services/disclosure-service/app/apr.py:61-71 | Fails exactly for a non-positive principal or term; otherwise positive, and its stream at the note rate is worth exactly the principal. |
| Apr.SomethingIsFinanced | services/disclosure-service/app/apr.py:74-85 | With any fee the loader accepts, at least half the principal is financed, so the solver's third refusal never fires; less than all of it exactly when the fee reaches half a cent. |
| Bisection.SolveMonthlyRate | services/disclosure-service/app/apr.py:141-149 | The loop ends with a bracket inside [0, 1], exactly 2^-200 wide, whose ends lie on either side of the target unless they are the ends of the search range. |
| Bisection.BisectionConvergesExactly | services/disclosure-service/app/apr.py:120-150 | The midpoint is within 2^-201 of the actuarial rate, whatever its sign, if and only if the amount financed lies between the stream's values at the two ends of the search range. |
| Bisection.NoteRateIsFoundExactly | services/disclosure-service/app/apr.py:37-40 | Without a fee the solver finds the note rate again if and only if it is 0 to 1200% a year. |
| Bisection.BracketStraddlesExactly | services/disclosure-service/app/apr.py:141-148 | The final bracket straddles the amount financed if and only if the two ends of the search range do. |
| Bisection.ActuarialRateIsUnique | services/disclosure-service/app/apr.py:123-124 | At most one rate discounts the payments to the amount financed. |
| Bisection.FeeRaisesTheRate | services/disclosure-service/app/apr.py:126-128 | The actuarial rate is at least the note rate, and above it exactly when the fee rounds to at least a cent. |
| Bisection.OfferedLoansAreInRange | services/disclosure-service/app/schemas.py:17-21 | Every loan of at least 12 months at 0 to 35%, with any principal and fee, has its amount financed between the stream's values at the two ends of the search range. |
| Bisection.ComputeApr | services/disclosure-service/app/apr.py:120-150 | Refuses exactly non-positive principals and terms, each with its own error; otherwise the disclosed rate is the rounded annualised midpoint of a finished bracket. |
| Bisection.DisclosedAprBracketsTheLoan | services/disclosure-service/app/apr.py:120-150 | For every admitted loan, 0.0006 percentage points under the disclosed APR the payments are worth more than the amount financed, and 0.0006 above it less. |
| Bisection.DisclosedAprIsActuarial | services/disclosure-service/app/apr.py:123-128 | So any actuarial rate of an admitted loan is within 0.0006 percentage points of the disclosed APR. |
| Bisection.AprNeverPrintsBelowNoteRate | services/disclosure-service/app/apr.py:9-11 | A note rate quoted to three decimals is never above the printed APR, for rates up to the search range. |
| Schedule.DueDatesAreRegular | services/disclosure-service/app/schedule.py:73-78 | Every due date exists, lies exactly the stated months after the start, and keeps the day when it is at most 28. |
| Schedule.Amortization | services/disclosure-service/app/schedule.py:17-70 | One row per month for every valid loan, each the row the note prescribes; fails exactly where the payment does. |
| Schedule.Rows | services/disclosure-service/app/schedule.py:37-70 | The loop, including the final row's squaring, builds exactly the prescribed rows. |
| Schedule.PaymentsSumToTotal | services/disclosure-service/app/schedule.py:28-35 | The row payments add up to the disclosed total of payments, for every loan. |
| Schedule.PrincipalsSumToLoan | services/disclosure-service/app/schedule.py:45-54 | The row principals add up to the loan if and only if it is a whole number of cents, and never miss by more than half a cent. |
| Schedule.RowsSplitExactly | services/disclosure-service/app/schedule.py:45-54 | Every row pays its principal plus its interest if and only if the loan is whole cents; only the last row can fail. |
| Schedule.BalancesRunDown | services/disclosure-service/app/schedule.py:43-67 | For whole-cent loans each printed balance is the loan less the principals printed so far, never below zero. |
| Schedule.FinalPaymentNearLevel | services/disclosure-service/app/schedule.py:32-35 | The final payment differs from the level payment by at most (n+1)/2 cents. |
| Schedule.PaymentsArePositiveExactly | services/disclosure-service/tests/test_schedule.py:25-27 | Every row's payment is positive if and only if a level payment, where there is one, reaches half a cent and what the earlier rows overpay by rounding leaves half a cent of the exact payment. |
| Schedule.FinalPaymentIsPositiveExactly | services/disclosure-service/app/schedule.py:32-35 | The final payment is positive if and only if what the earlier rows overpay leaves half a cent of the exact payment. |
| Schedule.FinalPaymentIsPositive | services/disclosure-service/app/schedule.py:32-35 | A level payment above the rounding allowance makes the final payment positive. |
| Schedule.TinyLoanEndsNegative | services/disclosure-service/tests/test_schedule.py:25-27 | A loan of 30 cents over 60 months at 0% ends with a payment of minus 29 cents. |
| Schedule.TinierLoanPaysAtTheEnd | services/disclosure-service/tests/test_schedule.py:25-27 | A loan of 20 cents over 60 months at 0% is 59 payments of nothing and one of 20 cents. |
| Schedule.LastInterestIsTheRest | services/disclosure-service/app/schedule.py:45-54 | The last row charges whatever of the total of payments is neither principal nor charged already. |
| Schedule.InterestSumsToCharge | services/disclosure-service/app/schedule.py:28-33 | The rows' interest adds up exactly to the total of payments less the loan, for every loan. |
| Schedule.InterestIsNonNegativeExactly | services/disclosure-service/tests/test_schedule.py:25-28 | No row charges negative interest if and only if no balance before the last row is overpaid to half a cent of monthly interest and the final payment covers the balance that the level payments leave: a condition on the note alone. |
| Schedule.SmallLoanEndsWithNegativeInterest | services/disclosure-service/tests/test_schedule.py:25-28 | The last row of 80 cents at 12% over 12 months charges minus one cent. |
| Drift.InterestIsNonNegative | services/disclosure-service/tests/test_schedule.py:25-28 | For loans at 0 to 1200% whose last month's exact interest covers rounding and drift, no row at all charges negative interest. |
| Drift.ZeroRateChargesNothing | services/disclosure-service/app/schedule.py:37-54 | At 0%, no row of a whole-cent loan charges anything. |
| Drift.LastInterestIsNonNegative | services/disclosure-service/app/schedule.py:44-54 | The last row's share of that, at any rate above -1200%, negative ones included. |
| Drift.ExactRunsFromPrincipalToZero | services/disclosure-service/app/schedule.py:24-26 | The exact balance, the value of the payments still to come, starts at the principal and ends at zero. |
| Drift.DriftIsBounded | services/disclosure-service/app/schedule.py:37-43 | After k rows the cent-rounded balance is within one compounded cent a month of the exact balance. |
| Drift.GrowthClosedForm | services/disclosure-service/app/schedule.py:37-43 | That bound is ((1+r)^k - 1)/r cents, or k cents at 0%. |
| Drift.ResidueIsBounded | services/disclosure-service/app/schedule.py:44-54 | The residue folded into the last row obeys the same bound. |
| Offer.BuildOffer | services/disclosure-service/app/offer.py:24-35 | The five figures are those of one note and one fee, and the APR one of a finished bracket. |
| Offer.AmountsReconcile | services/disclosure-service/app/offer.py:24-35 | For any note whose interest is not negative, the stated amounts add up to the cent when it is whole cents, and within a cent always. |
| Offer.FiguresReconcile | services/disclosure-service/app/offer.py:9-10 | Amount financed plus finance charge is the total of payments to the cent for whole-cent loans, and within a cent for all. |
| Offer.ScheduleAgreesWithBox | services/disclosure-service/app/schedule.py:28-33 | The schedule's payments add up to the box's amount financed plus finance charge, and its principals to the loan. |
| Scorecard.AttributionsAreRanked | services/decision-service/app/model_vendor.py:55-74 | The rounded attributions are the four features rearranged, most negative first: rounding keeps the ranking. |
| Scorecard.DenyHasNegativeAttribution | services/decision-service/app/model_vendor.py:55-82 | A score under the deny cutoff forces an attribution that is still negative after rounding to two decimals. |
| Scorecard.ScoreIsMonotone | services/decision-service/app/model_vendor.py:26-82 | For real requests, more score, income, tenure or term and less debt or amount never lower the score or the band, caps and the zero-income branch included. |
| Scorecard.BandIsMonotone | services/decision-service/app/model_vendor.py:30-35 | The same on raw fields, through defaults and truncation, for terms read as at least one month. |
| Scorecard.FromZeroAmount | services/decision-service/app/model_vendor.py:45-45 | Leaving a zero amount does not raise the unrounded score if and only if the lost payment burden covers the gained income ratio, and the score follows. |
| Scorecard.ZeroAmountIsAnException | services/decision-service/app/model_vendor.py:45-45 | From a zero amount, asking for one dollar more lifts a concrete applicant from refer to approve. |
| Scorecard.FromZeroTerm | services/decision-service/app/model_vendor.py:38-38 | Leaving a zero term never raises score or band. |
| Scorecard.HalfMonthIsAnException | services/decision-service/app/model_vendor.py:30-45 | On raw fields, a concrete applicant is approved for a term of half a month and referred for a term of one. |
| Scorecard.ZeroTermIsReachedExactly | services/decision-service/app/model_vendor.py:33-33 | The model computes with a zero term if and only if the raw one is less than a month either way and not zero. |
| Scorecard.ZeroTermIsAnException | services/decision-service/app/model_vendor.py:38-38 | The same applicant after truncation: approve at a zero term, refer at one month. |
| Scorecard.ZeroTermReadsAsThreeYears | services/decision-service/app/model_vendor.py:33-33 | On raw fields a zero or missing term is 36 months. |
| Reasons.ChosenAreMostNegative | services/decision-service/app/reasons.py:52-77 | For any attributions: the chosen ones are negative and ranked, and a negative one left out is outranked by four chosen. |
| Reasons.ModelReasonsAreRanked | services/decision-service/app/reasons.py:67-69 | The mapper accepts every output of the model and its re-sort changes nothing. |
| Reasons.ModelReasonsAreComplete | services/decision-service/app/reasons.py:52-77 | Every negative feature of the model is stated, and none are stated exactly when none is negative. |
| Reasons.ModelProvenanceIsHonest | services/decision-service/app/reasons.py:80-108 | Accepts exactly the known sources; the credit feature reads bureau-verified exactly when the bureau supplied the score, the others are applicant-stated. |
| DecisionRecord.PullFailsClosed | services/decision-service/app/decision.py:64-111 | Without the synthetic opt-in a score exists only if the bureau returned it, and every recorded origin is a known one. |
| DecisionRecord.ConflictMeansChanged | services/decision-service/app/decision.py:152-210 | With recording and replay each under its own configuration, the replay guard fires if and only if a financial figure differs, or both SSNs are known, both peppers set, and SSN or pepper differs. |
| DecisionRecord.UnchangedConflictsExactly | services/decision-service/app/decision.py:193-201 | An unchanged request is refused if and only if it carries an SSN and the pepper was rotated from one set value to another. |
| DecisionRecord.RotatedPepperIsAnException | services/decision-service/app/decision.py:193-201 | A concrete request, repeated after the pepper changed from "old" to "new", is refused. |
| DecisionRecord.OwnRecordIsNeverRefused | services/decision-service/app/decision.py:349-403 | Once a score was pulled, every application ends in a lawful record of its own key and inputs: the validator never refuses it. |
| DecisionRecord.ReplayMatchesFreshDecision | services/decision-service/app/decision.py:213-222 | When the guard does not fire, deciding the second application afresh on the recorded score gives the recorded response, whatever the configurations of the two. |
| Decisioning.EveryStateIsSound | services/decision-service/app/decision.py:236-346 | In every state of every run: at most one event per key, the pointer equals the last appended outcome, all events lawful, and every reply a failed pull or write, a true conflict, or the recorded event's response. |
| Decisioning.AnswersForOneKeyAgree | services/decision-service/app/decision.py:300-346 | Any two answers ever returned for one key, at any two moments, are the same. |
| Decisioning.ConflictsAreReal | services/decision-service/app/decision.py:188-210 | In any run, configurations changing freely, a request is refused as conflicting only if some other request for its key differs from it in a figure, in a known SSN, or in a set pepper. |
| Decisioning.RotationRefusesARetry | services/decision-service/app/decision.py:193-201 | For every keyed application with an SSN, a run in which it is answered and, after a rotation of the pepper, refused when repeated unchanged. |
| Decisioning.LogOnlyGrows | services/decision-service/app/decision.py:246-276 | The event log is append-only over every run. |
| Decisioning.PullsNeverOverlap | services/decision-service/app/decision.py:312-318 | Two pulls of one key are in flight together only if one of the two requests lost its lock connection. |
| Decisioning.NoPullOnceRecorded | services/decision-service/app/decision.py:325-346 | A keyed pull starts or is in flight after its key has an event only if some request for the key lost its lock connection. |
| Decisioning.LostLockLetsPullsOverlap | services/decision-service/app/db.py:33-63 | A run in which a dropped lock connection lets two pulls of one key overlap. |
| Calibration.CalibrationIsOptimal | rag_eval/run.py:747-783 | With two distinct scores the returned threshold makes no more errors than any real cutoff whatever. |
| Calibration.CalibrationPrefersWideGaps | rag_eval/run.py:752-765 | If an interior region reaches the minimum, the threshold is a midpoint of adjacent scores at least as far apart. |
| Calibration.SentinelIsOptimalExactly | rag_eval/run.py:768-774 | With one distinct score the sentinel 0.0 is returned, a minimum-error cutoff if and only if the class it sacrifices is not the larger. |
| Calibration.FalseConfidentIsTheShortfall | rag_eval/run.py:1442-1456 | The reported false-confident count is the scorable unanswerable cases less those scored correct, for every threshold. |
| Calibration.ReportedPairAgainstMinimum | rag_eval/run.py:1295-1307 | The calibrated error count and the reported pair differ exactly by the cases that retrieved nothing. |
| Calibration.ReportedPairSumsToMinimum | rag_eval/run.py:1442-1456 | When every case retrieved something, the reported pair adds up to the global minimum. |
| Embedder.CosineIsSymmetric | rag_eval/embedder.py:73-75 | Swapping to iterate the smaller dictionary never changes the sum. |
| Embedder.CosineMeasures | rag_eval/embedder.py:62-75 | Normalised vectors score in [0, 1]: 0 exactly when they share no term, 1 exactly when they agree on every term. |
| Embedder.TfidfEmbedder.Fit | rag_eval/embedder.py:92-104 | The counting loops leave, for every corpus term, the weight of its document frequency, and a signature of exactly those weights. |
| Embedder.FittedWeightsAreAtLeastOne | rag_eval/embedder.py:98-98 | Document frequency never exceeds the corpus, so no weight is below 1. |
| Embedder.RarerTermsWeighMore | rag_eval/embedder.py:98-98 | A term found in fewer texts never weighs less. |
| Embedder.TfidfEmbedder.Embed | rag_eval/embedder.py:106-117 | Refuses before a fit; otherwise counts and normalises to the embedding of the text. |
| Embedder.EmbeddingIsTfIdf | rag_eval/embedder.py:109-117 | The embedding holds exactly the text's corpus terms, each weighing occurrences times weight over the norm, and has length 1 unless empty. |
| Embedder.WordOrderIsIrrelevant | rag_eval/embedder.py:109-117 | Texts with the same terms get vectors that agree. |
| Embedder.FittedScores | rag_eval/embedder.py:62-117 | After any fit, any two texts score in [0, 1], 0 exactly when no corpus term occurs in both, and a rearranged text scores 1. |
| Index.InMemoryIndex.Add | rag_eval/index.py:23-24 | Appends the entry and keeps the others. |
| Index.InMemoryIndex.SearchTop | rag_eval/index.py:29-32 | Returns the searched slice and changes nothing. |
| Index.SearchIsExact | rag_eval/index.py:29-32 | A list is the result if and only if it is the k best hits in order: everything left out ranks no better. Negative k as Python slices. |
| Index.InsertionOrderIsIrrelevant | rag_eval/index.py:4-7 | The order chunks were added in never shows, even with repeated ids. |
| Index.StoredTextScoresOne | rag_eval/index.py:29-32 | Looking up a stored text gives a best score of exactly 1. |
| Cache.JoinedIsInjective | rag_eval/cache.py:38-40 | For signatures without NUL the joined key text determines signature and text. |
| Cache.NulInSignatureCollides | rag_eval/cache.py:38-40 | Every signature with a NUL shares each of its key texts with a different, NUL-free one, so the condition is exact. |
| Cache.EmbeddingCache.GetOrEmbed | rag_eval/cache.py:42-51 | The lookup's value and its whole new state, in the hit, miss and raising cases. |
| Cache.EmbeddingCache.Save | rag_eval/cache.py:53-58 | Raises exactly when a used key has no vector, leaving all as it was; otherwise prunes to the used keys and writes those. |
| Cache.CacheAgreesWithEmbedding | rag_eval/cache.py:42-51 | Over any runs, saves and reloads, a lookup gives what its signature's embedder computes, or raises because a call it had to make failed. |
| Cache.LookupsAreCounted | rag_eval/cache.py:42-51 | Hits plus misses are the lookups, the used keys are the keys looked up, and those without a vector are the ones whose latest lookup raised. |
| Cache.SaveKeepsExactlyTheUsed | rag_eval/cache.py:53-58 | A save writes exactly this process's keys, and raises if and only if some key's latest lookup raised. |
| Cache.ReplayHasNoMisses | rag_eval/cache.py:3-5 | Reopening a saved file and looking up only its texts never calls the embedder. |
| Chunker.ChunkMarkdown | rag_eval/chunker.py:28-89 | The loop's result, including the failing one, is that of flushing the scanned sections. |
| Chunker.Flush | rag_eval/chunker.py:49-67 | One flush extends the chunks by the section, or finds the clash, whatever was flushed before. |
| Chunker.NothingIsLost | rag_eval/chunker.py:69-83 | Each line is a title, a heading outside code, or content, by its position alone; without the titles the sections laid out in order are the document. |
| Chunker.FlushedExactly | rag_eval/chunker.py:49-67 | The call fails if and only if two sections with text share an id; otherwise the chunks are the sections with text, in order. |
| Chunker.ChunkingIsExact | rag_eval/chunker.py:83-89 | What the caller receives: ids never repeat, and only the text gains title and section. |
| Chunker.OnlySpaceIsDropped | rag_eval/chunker.py:50-51 | A chunk's text is its lines less outer white space, and a section is dropped exactly when it holds nothing else. |
| Chunker.SlugKeepsLetters | rag_eval/chunker.py:23-25 | A slug keeps every letter and digit of its heading, lower-cased and in order, without outer dashes; a heading collapses to the introduction's slug if and only if it has none. |
| Chunker.ChunkIdsAreNameable | rag_eval/run.py:282-282 | Whatever the heading, the id of a well-named document fits the pattern gold queries are held to. |
| Probe.EveryStateIsSound | services/gateway/app/config.py:89-119 | Invariant of every interleaving: the cache is the latest stored probe, the lock has one holder, probes keep their distance. |
| Probe.OneProbeAtATime | services/gateway/app/config.py:78-80 | No two probes are ever in flight together. |
| Probe.ProbesAreSpaced | services/gateway/app/config.py:108-119 | Completed probes are disjoint and each starts at least the TTL after the time recorded for any earlier one. |
| Probe.FloodIsCollapsed | services/gateway/app/config.py:69-75 | n completed probes take at least n - 1 TTLs, however many threads ask. |
| Probe.ResultsAreGenuine | services/gateway/app/config.py:184-200 | Every result is that of a stored probe, and one from the cache was recorded less than the TTL before its check. |
| Breaker.Table.BeforeCall | services/origination-service/app/clients.py:47-64 | Who is admitted and the table's whole new state; other URLs untouched. |
| Breaker.Table.AfterCall | services/origination-service/app/clients.py:67-93 | The table's whole new state after a completion; other URLs untouched. |
| Breaker.TableRefinesHistory | services/origination-service/app/clients.py:41-93 | For every history, late completions included: closed exactly when fewer than five failures trail, half open exactly when a recovery call is out, reopened at the latest failure. |
| Breaker.AdmissionExactly | services/origination-service/app/clients.py:47-64 | A call is admitted if and only if fewer than five failures trail, or the cooldown has passed and no recovery call is out. |
| Breaker.OneRecoveryAtATime | services/origination-service/app/clients.py:48-52 | After a recovery admission nobody is admitted until some completion is reported. |
| Breaker.UrlsAreIndependent | services/origination-service/app/clients.py:8-10 | A circuit is what its own URL's events alone would make it. |
| Breaker.Guarded | services/origination-service/app/clients.py:96-115 | The table after one guarded call, for every way the request can end. |
| Breaker.Replay | services/origination-service/app/clients.py:33-44 | Any history driven through the table's methods ends in the table of that history. |
| Pipeline.Run | services/origination-service/app/disclosure_coordinator.py:671-749 | The cyclic graph terminates and its result and calls are those of a loop-free decision table. |
| Pipeline.RunIsSafe | services/origination-service/app/disclosure_coordinator.py:452-668 | At most two assemble calls and one persist; a persist only after approval, with a non-null event (the offer's own when it has one) and a document whose five figures equal the computed ones; never a bare mismatch as reason. |
| Pipeline.GivingUpExactly | services/origination-service/app/disclosure_coordinator.py:723-728 | Exhausted retries are reported if and only if the maker was reached and both renderings mismatched. |
| Pipeline.WrongNumberNeverLoops | services/origination-service/app/disclosure_coordinator.py:655-660 | With a figure missing the maker is never called and nothing is persisted. |
| TokenKeys.ContinuationTokenKeys | services/origination-service/app/config.py:537-559 | The parsing loop gives the pairs of the list, in order, skipping malformed and reserved ones. |
| TokenKeys.KeyListRoundTrip | services/origination-service/app/config.py:537-559 | Well-formed keys written down and read back are the same keys in the same order. |
| TokenKeys.OnlyWellFormedKeys | services/origination-service/app/config.py:552-558 | Whatever the variable holds, only well-formed keys come out, none claiming the reserved version. |
| TokenKeys.VerifyToken | services/origination-service/app/authz.py:93-115 | The candidate loops accept exactly when some accepted key of the stored version digests the token to the stored value. |
| TokenKeys.VerifiesExactly | services/origination-service/app/authz.py:65-115 | A stored digest verifies if and only if the token is the one hashed and the issuing version and secret are still accepted, whatever the rotation. |
| Authz.RequireOfficerOrOwner | services/origination-service/app/authz.py:173-232 | Lets through exactly officers, owners and holders of a verifying, unexpired token. |
| Authz.EveryWorldIsSound | services/origination-service/app/authz.py:173-232 | Invariant of every run of submit, rotate, expire, fund and abandon: each row's digest is its own grant's. |
| Authz.TokenIsTheOnlyCapability | services/origination-service/app/authz.py:182-186 | In every run a caller who is neither officer nor owner is let onto an application if and only if it presents that application's own live token. |
| Authz.TokenIsScoped | services/origination-service/app/authz.py:213-216 | A token issued for one application opens no other. |
| Authz.FundedTokenOnlyRecovers | services/origination-service/app/authz.py:118-147 | After funding the token drives nothing, and recovers the boarded loan if and only if it is the application's own under an accepted key. |
| Custody.PathNamesApplicationExactly | services/gateway/app/main.py:202-208 | A path names an application if and only if, outer slashes aside, it is the collection, digits, and then nothing or a further segment. |
| Custody.SessionDrivesItsOwnApplication | services/gateway/app/main.py:312-351 | End to end, a session opened by one submit lets a caller who is neither officer nor owner onto that application only, and is not sent on another's path. |
| Custody.CreateWithRetry | services/gateway/app/main.py:211-228 | A session is reported created exactly when one of three attempts returned. |
| Custody.Submit | services/gateway/app/main.py:279-394 | With the store down nothing is created; otherwise the ending is a session, no application, or an admitted failed compensation, if and only if no submit was committed without being answered as accepted. |
| Json.ParseInvertsEncode | services/disclosure-service/app/fingerprint.py:62-62 | An inverse parser recovers every value from its compact ASCII encoding, consuming all of it. |
| Json.EncodingIsInjective | services/disclosure-service/app/fingerprint.py:62-62 | Equal encodings mean equal values. |
| Fingerprint.RaisesExactlyOnFloats | services/disclosure-service/app/fingerprint.py:25-38 | Canonicalisation raises if and only if a float sits at some depth. |
| Fingerprint.CanonicalKeepsPlaces | services/disclosure-service/app/fingerprint.py:25-38 | Place by place, at every depth, the canonical payload spells what stood there, keys in their order. |
| Fingerprint.SortedExactlyWhenSame | services/disclosure-service/app/fingerprint.py:62-62 | Sorted payloads are equal if and only if the payloads agree up to key order, at every depth. |
| Fingerprint.UnitsReadBack | services/disclosure-service/app/fingerprint.py:62-62 | A text is recovered from its 16-bit units if and only if no high surrogate stands directly before a low one. |
| Fingerprint.SurrogatePairsCollide | services/disclosure-service/app/fingerprint.py:62-62 | Every text that does hold such a pair has the canonical text of a different one. |
| Fingerprint.SurrogatesCollide | services/disclosure-service/app/fingerprint.py:62-62 | The pair U+D800 U+DC00 has the canonical text of U+10000. |
| Fingerprint.DumpsExactlyWhenSame | services/disclosure-service/app/fingerprint.py:62-62 | Canonical texts of payloads without such pairs are equal if and only if the payloads are, key order aside. |
| Fingerprint.FingerprintsAgreeExactly | services/disclosure-service/app/fingerprint.py:41-63 | Fingerprints are equal if and only if inputs, outputs and both versions are, under a digest that does not collide. |
| Luhn.LuhnValid | services/decision-service/app/redactor.py:59-69 | The loop accepts exactly the digit strings whose weighted total is a multiple of ten. |
| Luhn.SubstitutionIsDetected | rag_eval/hygiene.py:186-195 | In a valid number of any length, changing a digit keeps it valid only if the digit stays the same. |
| Luhn.SwapIsDetected | rag_eval/hygiene.py:186-195 | Swapping two neighbours keeps a valid number valid if and only if they are equal or are 0 and 9. |
| Luhn.OneNumberIsMaskedExactly | services/decision-service/app/redactor.py:102-142 | A value whose only digits are 13 to 19, with short separator runs, is masked to its last four digits if and only if they pass the checksum; the text around is kept. |

## Left out

- HTTP, SQL, Redis, the bureau, the language model and the graph framework: each call is a step or a parameter that succeeds
  or fails; the decision insert is one atomic statement.
- The 28-digit Decimal context and IEEE floats: exact reals instead, and `nextafter` is any value above the highest score.
- Rates at or below -1200% a year, where a month's discount factor is not positive.
- Bisection.BisectionConvergesExactly: takes the actuarial rate as given, because the reals of the logic do not supply the
  intermediate value; Bisection.DisclosedAprBracketsTheLoan and Bisection.BracketStraddlesExactly state the crossing without it.
- HMAC, SHA-256 and the lock-name hash are function parameters, assumed free of collisions only where a lemma says so; two
  decision keys may share a lock slot.
- Decisioning.PullsNeverOverlap: promises nothing for a request whose own lock connection dropped, because the code cannot;
  Decisioning.LostLockLetsPullsOverlap shows such a run.
- Unicode digits, white space and case: `isdigit`, `\d`, `strip` and `lower` are modelled on ASCII.
- The other redaction passes and the hygiene scanners, whose pattern lists are configuration.
- Resetting the probe cache or changing its URL while it runs.
- Custody.Submit: takes it that only a committed submit is answered with 200, a token and an id.
- Resume-session expiry, the officer exemption and the session lookup failing on a read, in the gateway's proxy handler.
- Human decisions that override a band; the routers for accept, board and payments.
- The narration guard's number patterns: whether a brief is grounded is an input of the pipeline; the detail text of a block.
- The dense embedder and its cosine, the tokenizer's pattern and stopwords, and the signature's digest of the weights.
- The evaluation run's deletion of the cache file when an embedding run fails, and the file's JSON form, taken as the
  dictionary it encodes.
- Splitting a document into lines: the chunker model starts from the list of lines.
- Hit rates, reciprocal ranks, support verdicts and report building.
- The frontend, logging, retention handlers, ORM models and schema checks, which would only add easy members.
