# Staging and reconciliation, verified

A Dafny 4.11 model of the programs that compute a plan against stored tables,
apply it in one transaction, and promise to be repeatable, to refuse rather than
clobber, and never to lose something a person decided. Run
`dafny verify dfyconfig.toml` to check all of it.

Each program is given twice: as a specification function from tables to tables,
defined from the end of a row list backwards, and as a method with the program's
own loops and commit, proved equal to that function. The promises are theorems
about the functions; and so that a function is not its own measure, what it leaves
is stated again in plain terms of its inputs, column by column and count by count
(`*Columns`, `SlugWords`, `GrantsMergeRows` and beside the proofs of the others).

## What is modelled

**Opportunity staging** (`Identity`, `Staging*`). One database object with three
steps over the handoff-record, market-track, cycle and rule tables:
`stage_engine_handoffs` (write once, refuse a changed payload),
`stage_curated_cycles` (insert only, refuse a difference) and
`stage_verified_cycles` (upsert cycles, replace rules, never delete a cycle), each
in preflight or applied. A write that breaks a primary key, or the unique key on kind,
record, section and deadline, rolls the whole run back.
UUID version 5 (section 4.3 of RFC 4122) and SHA-256 are parameters assumed
injective; that the text fed to them can be read back is proved.

**Programme questions** (`Slugs`, `Programme*`). The bounded identifier, the planner
with its growing `taken` set, and the plan/apply pair reaching a fixpoint.
`resolve_jurisdiction` and the input labels are parameters.

**Commercial catalogue** (`Sync`, `Commercial*`). The importer over a frozen payload
and a changing ledger, whole sequences of its runs, and the reader that parses the
tables it writes.

**Grants tables** (`GrantsDedup*`, `GrantsRoundTrip`, `GrantsMerge`). Two dedup
revisions upward and downward and the duplicate merge, with SQL NULL as written.

**Production signals** (`Formats`, `SignalCleanup`, `SignalProofs`). Latest-wins
dedupe, vocabulary normalisation and the unique index, dry run against apply.

**Kernels** (`Money*`, `Coercion`, `Dates`, `MonthArithmetic`). The money printer and
three readers, and month arithmetic over the Gregorian calendar.

## Where the code and its documentation part ways

The model follows the code; each line names the lemma that shows the difference.

- `stage_verified_cycles` says rules are rewritten to match the claim. A rule whose
  id is already stored is not rewritten, and the id leaves out operator, expected
  value, source and date: `RuleContentExact` says exactly when the stored rule is
  the described one, `CorrectedRuleKeepsOldContent` and
  `ReverifiedRuleKeepsOldDate` give the failing family and a concrete case.
- Nor when two usable claims describe one stored cycle: it takes the columns of the
  last one that says something new and the rules of the last one of all
  (`RepeatedClaims`; `NewsWithoutItsRules` is the family where they part).
- The curated and verified paths are meant to agree on a cycle's identity, and they
  do; on its content they block or undo each other (`VerifiedBlocksCurated`,
  `CuratedRuleComesAndGoes`, concretely `GateComesAndGoes`).
- `enable_programme_questions` says it never overwrites a value already set. It looks
  at the country alone and writes the subdivision with it: `SetValuesKept` says
  exactly when the subdivision survives, `SubdivisionIsLost` shows one that does not.
- Its slugs are bounded so that slug:key fits the id column of 64 characters; keys
  stored beforehand may be 96 long and are not checked, so an apply can fail.
  `ApplyGoesThroughIff` is the exact condition, `LongStoredKeyIsRefused` a key.
- The commercial importer promises a catalogue the reader does not choke on. No
  relationship dangles (`NoDanglingEnd`); but it never asks whether a company's own
  source is secure, takes "https://" alone for a title's source and never looks at a
  relationship's type, and any one of these makes the reader refuse everything.
  `ReadableExactly` is the exact condition on payload, ledgers and stored rows;
  `InsecureCompanyRefused`, `BareSchemeRefused` and `UntypedPairRefused` are payloads.
- The semantic-dedup revision says its downgrade restores every row.
  `TableRestoredIff` is the exact condition and `EligibilityIsLost` and
  `DowngradeLosesEligibility` the failure: eligibility, pointers and reasons that
  were set are cleared.
- `canonical_format` is described as one canonical vocabulary, and one pass does not
  settle it: "tv-movie" becomes "tv_movie", which is itself an alias of "tv_series"
  (`FormatSettlesIff`); `SecondRun` counts the rows a second clean-up changes.
- `_money` is described as giving an amount or nothing; on a figure of commas alone it
  raises (`RaisesOnlyOnCommas`), and so do `_embedded_money` and
  `_qualifying_spend_cap` (`CapRaisesOnlyOnCommas`, `FourCommasRaise`). `_embedded_money` finds any figure of a thousand or
  more; a shorter one is invisible to it (`EmbeddedRoundTrip`, `ParsersAgree`).

## Model

| member | source | states |
|---|---|---|
| Identity.CycleNameInjective | scripts/stage_verified_cycles.py:78-85 | kind:record:section:deadline determines all four parts when kind and record hold no colon, whatever the section holds |
| Identity.RuleNameInjective | scripts/stage_verified_cycles.py:88-89 | cycle:index:field:condition determines all four parts when cycle and field hold no colon, whatever the condition holds |
| Identity.CycleIdentity | scripts/stage_verified_cycles.py:78-85 | two cycles share an id if and only if they are one section of one record with one deadline |
| Identity.ColonInRecordIdIsAmbiguous | scripts/stage_verified_cycles.py:85 | the colon-free premise is needed: a colon in a record id makes two cycles one |
| Identity.NameTexts | scripts/stage_verified_cycles.py:85-89 | the hashed texts in full: kind, record, section and ISO date or None; cycle, place, field and condition |
| Dates.IsoTextReads | scripts/stage_verified_cycles.py:85 | the date in that text reads back: four, two and two digits between dashes are the year, month and day |
| Identity.IdealHashExists | scripts/stage_verified_cycles.py:85-89 | the assumption made of UUID version 5, injective with colon-free text, can be met |
| StagingDatabase.Database.StageHandoffs | scripts/stage_engine_handoffs.py:107-176 | tables, refusal and counters of a handoff run, preflight or applied, are those of `HandoffRun` on the old tables |
| StagingDatabase.Database.StageCurated | scripts/stage_curated_cycles.py:80-134 | tables, refusal and counters of a curated run are those of `CuratedRun` on the old tables |
| StagingDatabase.Database.StageVerified | scripts/stage_verified_cycles.py:164-229 | tables, refusal and counters of a verified run are those of `VerifiedRun` on the old tables |
| StagingDatabase.BuildRecords | scripts/stage_engine_handoffs.py:65-84 | the nested loops list festivals, then markets, each with its version, routing and payload hash |
| StagingDatabase.CompareCycles | scripts/stage_curated_cycles.py:69-77 | the cycles to insert in order, or the first stored cycle that differs on a column the file carries |
| StagingDatabase.PlanCycles | scripts/stage_verified_cycles.py:188-197 | one pass gives the wanted rules by cycle, a later item of the same id replacing an earlier one, the inserts and the updates |
| StagingFacts.UsableOrUnstaged | scripts/stage_verified_cycles.py:180-185 | every parsed cycle is usable or its record is reported unstaged, and the two lists together are as long as the parsed one |
| StagingTheorems.HandoffAccepted | scripts/stage_engine_handoffs.py:142-166 | an applied handoff run goes through if and only if every record staged before carries the very payload that comes in and no missing row comes twice |
| StagingTheorems.CuratedAccepted | scripts/stage_curated_cycles.py:113-126 | on any tables an applied curated run goes through if and only if every record is staged, every stored cycle and rule it names is as reviewed, no missing row comes twice, and no stored cycle under another id has a missing one's kind, record, section and deadline |
| StagingTheorems.VerifiedAccepted | scripts/stage_verified_cycles.py:174-228 | from tables the scripts wrote, an applied verified run goes through if and only if some record is staged and no missing usable cycle is described twice |
| StagingInvariant.HandoffEffect | scripts/stage_engine_handoffs.py:65-104 | after an applied handoff run the records and market tracks are the old ones, unchanged, and one for each missing snapshot row, every column spelled out; each table grows by the count reported |
| StagingInvariant.CuratedEffect | scripts/stage_curated_cycles.py:116-126 | after an applied curated run every reviewed cycle and rule is stored as reviewed and everything stored before is as it was |
| StagingColumns.HandoffRefusal | scripts/stage_engine_handoffs.py:142-145 | a handoff run is refused for a changed record if and only if one is, naming the first in snapshot order; refused or previewed it writes nothing |
| StagingColumns.HandoffReport | scripts/stage_engine_handoffs.py:154-176 | preflight and applied report the same; the lengths are the snapshots', and every live festival is matched by a snapshot row or counted unmatched |
| StagingColumns.CuratedColumns | scripts/stage_curated_cycles.py:35-66 | after an applied curated run every reviewed entry and gate is stored, each column spelled out, with the column defaults for a new cycle; nothing else appears or changes |
| StagingColumns.CuratedGoesThrough | scripts/stage_curated_cycles.py:69-126 | it goes through if and only if every record is staged, every stored cycle and rule says in each column what its entry says, no new id comes twice, and no other stored cycle holds a new one's section and deadline |
| StagingColumns.CuratedRefusal | scripts/stage_curated_cycles.py:69-122 | a refusal names the first unstaged record, else the first differing cycle, else the first differing gate in file order; it writes nothing |
| StagingColumns.CuratedReport | scripts/stage_curated_cycles.py:121-134 | preflight and applied report the same: the file's entries and gates checked, and the rows the tables gain |
| StagingColumns.VerifiedRefusal | scripts/stage_verified_cycles.py:174-228 | a verified run is refused as unstaged if and only if no record is staged, and otherwise only when a key is taken; a new cycle whose section and deadline another stored cycle holds is refused; refused or previewed it writes nothing |
| StagingColumns.VerifiedReport | scripts/stage_verified_cycles.py:158-185 | the items parsed, the records reported unstaged and whether it was applied |
| StagingColumns.UnstagedInOrder | scripts/stage_verified_cycles.py:180-184 | the records reported unstaged are those of the items set aside, in order |
| StagingVerified.VerifiedStages | scripts/stage_verified_cycles.py:92-228 | after an applied run every claim of a staged record is stored column by column, its missing rules likewise; the rule ids of touched cycles are exactly the wanted ids, and every other cycle and rule is untouched |
| StagingRuns.VerifiedIdempotent | scripts/stage_verified_cycles.py:187-228 | repeating an applied run changes nothing and reports four zero counters |
| StagingRuns.CuratedIdempotent | scripts/stage_curated_cycles.py:69-126 | an accepted curated run is accepted again and inserts nothing |
| StagingRuns.PreflightIsApply | scripts/stage_verified_cycles.py:199-228 | preflight writes nothing and foretells apply: cycles grow by new_cycles, rules change by new_rules less removed_rules, orphans are the stored cycles no usable item describes |
| StagingRuns.OrphansStay | scripts/stage_verified_cycles.py:69-71 | an orphaned cycle and its rules are left exactly as they were |
| StagingRuns.UpdatedCyclesExact | scripts/stage_verified_cycles.py:193-200 | updated_cycles counts exactly the stored cycles whose row changes |
| StagingRuns.RuleCountsExact | scripts/stage_verified_cycles.py:211-215 | new_rules counts exactly the rules that were not stored before, removed_rules those that no longer are |
| StagingRuns.RuleContentExact | scripts/stage_verified_cycles.py:209-228 | a described rule ends up exactly as described if and only if it was not stored, or stored just so |
| StagingRuns.RulesExactWhenIdDecides | scripts/stage_verified_cycles.py:209-228 | when content is a function of the id, every described rule is stored exactly |
| StagingRepeats.RepeatedClaims | scripts/stage_verified_cycles.py:188-228 | a stored cycle described more than once ends up as the last description that differs from what was stored, and with the rules of the last description of all |
| StagingRepeats.NewsWithoutItsRules | scripts/stage_verified_cycles.py:192-197 | so of two claims for one cycle, the first with news and the second as stored, the cycle takes the first one's columns and the second one's rules |
| StagingInterleaving.EveryInterleaving | scripts/stage_verified_cycles.py:180-228 | over any sequence of the three scripts, applied, previewed or refused: rules have cycles, cycles have staged records, ids match contents, records are write-once and no cycle disappears |
| StagingInterleaving.EveryRunFromEmpty | scripts/stage_verified_cycles.py:180-228 | so whatever any sequence of the three scripts leaves of an empty database is sound |
| StagingInterleaving.DeclaredConstraintsHold | scripts/stage_curated_cycles.py:100-126 | the rule foreign key and one row per kind, record, section and deadline hold of such tables |
| StagingInterleaving.UndescribedCycleStays | scripts/stage_verified_cycles.py:201-228 | whatever runs, a cycle and its rules do not change until an applied verified run describes that cycle |
| StagingInterleaving.VerifiedBlocksCurated | scripts/stage_curated_cycles.py:69-77 | after a verified run the curated file goes through if and only if it says the same of every described cycle (no opening date, verified, rules incomplete, same observation, source and check date) and agrees with what is stored of everything else |
| StagingInterleaving.CuratedRuleComesAndGoes | scripts/stage_verified_cycles.py:211-228 | a reviewed rule the claims do not name is removed by every verified run and put back by every curated one |
| StagingInterleaving.GateComesAndGoes | scripts/stage_verified_cycles.py:211-228 | a concrete claim and reviewed gate for one cycle: removed, put back, removed again, every run going through |
| StagingInterleaving.CorrectedRuleKeepsOldContent | scripts/stage_verified_cycles.py:212-228 | a claim corrected in value, operator, source or date updates its cycle and leaves the old rule |
| StagingInterleaving.ReverifiedRuleKeepsOldDate | scripts/stage_verified_cycles.py:88-130 | two concrete applied runs, both going through, the second two days later: the cycle takes the new date and its rule keeps the old one |
| Slugs.SlugFixpoint | scripts/enable_programme_questions.py:118-119 | every slug is capitals, digits and single inner underscores, and those texts are exactly the fixed points |
| Slugs.SlugIdempotent | scripts/enable_programme_questions.py:118-119 | slugging a slug changes nothing |
| SlugWords.SlugOfWords | scripts/enable_programme_questions.py:118-119 | whatever separates them, the slug of a text is its runs of letters and digits, capitalised, in order, with one underscore between neighbours |
| SlugWords.EveryTextIsWoven | scripts/enable_programme_questions.py:118-119 | every text is such runs with something else between any two |
| SlugWords.CapitalOf | scripts/enable_programme_questions.py:119 | the capital of a letter, and no other character changed |
| SlugWords.KeyOfWords | scripts/enable_programme_questions.py:131-142 | a key is all the words of place and name when they fit 31 characters; else the words that are not filler, in order, or all when there are no others, cut at 31 and not ending in an underscore |
| SlugWords.FillerIs | scripts/enable_programme_questions.py:92-99 | the twenty-six filler words |
| SlugWords.ItalianKey | scripts/enable_programme_questions.py:134-141 | a long Italian name keeps its telling words: IT_ITALIAN_FOREIGN |
| Slugs.CandidateIsSlug | scripts/enable_programme_questions.py:131-142 | after filler-dropping, cutting and stripping a key is a slug of at most 31 characters, missing exactly when place and name are both empty |
| Slugs.ShortNameKept | scripts/enable_programme_questions.py:90-91 | a name that fits keeps all its words |
| Slugs.QuestionIdFits | scripts/enable_programme_questions.py:84-88 | for a key the planner builds, slug:key fits 64 characters for every input key of at most 32 |
| ProgrammeSlugs.AllocatedSlugs | scripts/enable_programme_questions.py:173-201 | the keys handed out are the candidates of slugless rows less those taken and the empty one, each once, and allocated plus collided equals slugless |
| ProgrammeSlugs.AllocationIgnoresOrder | scripts/enable_programme_questions.py:173-201 | the set of keys handed out does not depend on the order of the rows |
| ProgrammeSlugs.NewSlugsAreSound | scripts/enable_programme_questions.py:122-142 | every new key is a slug of at most 31 characters no programme had |
| ProgrammeColumns.FirstRowGetsKey | scripts/enable_programme_questions.py:193-201 | of the rows that could have one key the first gets it, if nobody had it at the start, and the others get none |
| Programmes.Database.Planning | scripts/enable_programme_questions.py:173-221 | the planner's loop computes `PlanAll` of the two tables |
| Programmes.Database.Apply | scripts/enable_programme_questions.py:224-268 | an apply places, names and asks in one transaction, or leaves both tables alone when a question's id is too long for its column or already there |
| ProgrammePlan.EveryRowPlanned | scripts/enable_programme_questions.py:175-219 | every slugless row is named or reported, and every spend-based row with a key has each required input declared or asked |
| ProgrammePlan.EveryEntryAccounted | scripts/enable_programme_questions.py:175-219 | every report entry, question and key in the plan is there for a row that calls for it, and the reports list exactly those rows |
| ProgrammeColumns.ReportsNameRows | scripts/enable_programme_questions.py:175-208 | the three reports list, by title or id and territory, exactly the active rows of unknown territory, those left without a key, and the bucket programmes nobody declared an input of |
| ProgrammeColumns.AnswerableCounted | scripts/enable_programme_questions.py:210-217 | already_answerable counts exactly the programmes with a spend base, a key and every input their engine needs |
| ProgrammeSettled.PlanFixpoint | scripts/enable_programme_questions.py:173-268 | planning after applying, in any row order, finds no jurisdiction, key or question, and the same rows unresolved, colliding or left to a person |
| ProgrammeSettled.EveryInputDeclared | scripts/enable_programme_questions.py:203-219 | after an apply every active, placed, spend-based programme with a key has every input its engine needs |
| ProgrammeColumns.ProgrammesApplied | scripts/enable_programme_questions.py:173-250 | after an apply each row, in its place, has its old columns but country and subdivision where the country was unset and the key where there was none; the key starts with the subdivision where there is one, and is missing only when there is nothing to build it from or another row has it |
| ProgrammeColumns.InputsApplied | scripts/enable_programme_questions.py:203-267 | the inputs added are exactly those an engine needs by statute and nobody had declared, under slug:key with the label's wording |
| ProgrammeSettled.SetValuesKept | scripts/enable_programme_questions.py:189-192 | no key, country or declared input that was set is overwritten; the subdivision is kept if and only if the row is out of scope, has a country, or has the resolved subdivision already |
| ProgrammeSettled.SubdivisionIsLost | scripts/enable_programme_questions.py:231-243 | a row with a subdivision and no country, whose territory resolves to the country alone, loses its subdivision |
| ProgrammeSettled.BucketsUntouched | scripts/enable_programme_questions.py:205-208 | no question is ever put under the key of a MULTI_BUCKET programme |
| ProgrammeSettled.ApplyGoesThroughIff | scripts/enable_programme_questions.py:251-268 | on an orderly catalogue whose inputs are stored under slug:key the apply goes through if and only if every stored key that still needs an input is short enough for the id of its question |
| ProgrammeSettled.FitsIffStoredKeysFit | scripts/enable_programme_questions.py:84-88 | every planned question fits its column if and only if those of keys stored beforehand do |
| ProgrammeSettled.LongStoredKeyIsRefused | scripts/enable_programme_questions.py:84-88 | a stored key of 44 characters that still needs its eligible local spend makes the apply fail |
| Sync.SyncSucceeds | scripts/stage_commercial_catalogue.py:455-487 | a sync goes through if and only if no id that is not stored comes twice |
| Sync.SyncEffect | scripts/stage_commercial_catalogue.py:455-487 | a sync keeps every stored id, adds exactly the batch's, leaves other rows alone and every batch id with one of its rows |
| Sync.SyncExact | scripts/stage_commercial_catalogue.py:455-487 | with distinct ids the batch is stored exactly |
| Sync.SyncLasts | scripts/stage_commercial_catalogue.py:455-487 | an id repeated in a batch ends up with the last of its rows that differs from the stored one, or with any when none differs |
| CommercialDatabase.Database.Stage | scripts/stage_commercial_catalogue.py:506-533 | tables and report of an importer run are those of `CommercialRun` on the old tables |
| CommercialDatabase.BuildCompanies | scripts/stage_commercial_catalogue.py:224-299 | the company rows in payload order and the tally of held-back reasons |
| CommercialDatabase.BuildTitles | scripts/stage_commercial_catalogue.py:362-434 | the comparables dictionary in insertion order and the relationship rows |
| CommercialDatabase.SyncTable | scripts/stage_commercial_catalogue.py:455-487 | inserts, updates and their counts, or nothing when an insert clashes |
| CommercialColumns.CompaniesStored | scripts/stage_commercial_catalogue.py:224-330 | after an applied run every company of the payload is stored column by column, approved if and only if it is eligible, verified, current, has a role and, from a directory, a CONFIRMED claim, reviewed on its last verification or else its verification date; its claims field by field |
| CommercialColumns.ComparablesStored | scripts/stage_commercial_catalogue.py:333-403 | every title a row counts for is stored from its first such row and the title ledger, column by column |
| CommercialColumns.RelationshipsStored | scripts/stage_commercial_catalogue.py:404-426 | every relationship a row counts for is stored as one of its rows says, approved if and only if the row is signed off, its company may be approved and its title's first row is signed off |
| CommercialColumns.PartsOf | scripts/stage_commercial_catalogue.py:217-221 | splitting a recorded list takes back exactly what was put between semicolons |
| CommercialColumns.CommercialReport | scripts/stage_commercial_catalogue.py:236-280 | companies seen and approved, and each of the others tallied under the first test it failed |
| CommercialColumns.TitleReport | scripts/stage_commercial_catalogue.py:371-434 | titles counted once, approved by their first row; relationships approved row by row |
| CommercialColumns.CountsAreEffects | scripts/stage_commercial_catalogue.py:480-487 | inserted is what each table gained, updated the stored companies and comparables whose row changed |
| CommercialColumns.CommercialPreflight | scripts/stage_commercial_catalogue.py:480-533 | a preflight writes nothing and reports what applying would; a clash writes nothing |
| CommercialColumns.TakenPairRefused | scripts/stage_commercial_catalogue.py:480-485 | a new relationship whose ends and type another stored one has refuses the run |
| CommercialApproval.TwoPasses | scripts/stage_commercial_catalogue.py:371-434 | the single pass agrees with two: comparables are the first rows of their titles, relationships the kept rows in order, each judged against the finished comparables |
| CommercialApproval.ComparableApproved | scripts/stage_commercial_catalogue.py:383-403 | a comparable is approved if and only if the first kept row of its title is sourced |
| CommercialApproval.RelationshipApproved | scripts/stage_commercial_catalogue.py:404-426 | a relationship id is approved if and only if a kept row of that id is sourced, its company approved and its title's first row sourced |
| CommercialApproval.OrderFreeIffUniform | scripts/stage_commercial_catalogue.py:380-412 | which ids are approved is independent of the row order if and only if no title has both a sourced and an unsourced row |
| CommercialApproval.HandoffApproval | scripts/prepare_commercial_handoff_snapshot.py:45-55 | on a payload that passed read_handoff every comparable is approved, each relationship exactly when its company is, and no title is mixed |
| CommercialApproval.ApprovalMonotone | scripts/stage_commercial_catalogue.py:302-330 | growing the ledger never withdraws an approval: companies and relationships only gain, comparables do not move |
| CommercialApproval.EveryCompanyTallied | scripts/stage_commercial_catalogue.py:274-278 | companies seen equals companies approved plus the held-back tally |
| CommercialSafety.SafeIffStaleRowsAre | scripts/stage_commercial_catalogue.py:404-412 | after an applied run no approved relationship has an unapproved end if and only if that holds of the stored relationships the payload no longer mentions |
| CommercialSafety.EveryRunSafe | scripts/stage_commercial_catalogue.py:522-533 | for one payload and any sequence of runs against changing ledgers, once safe or once applied the tables stay safe |
| CommercialSafety.WithdrawnExactly | scripts/stage_commercial_catalogue.py:472-478 | approval_withdrawn lists exactly the companies that were approved and no longer are |
| CommercialSafety.GrowthWithdrawsNothing | scripts/stage_commercial_catalogue.py:472-478 | while the ledger only grows the next sync withdraws nothing |
| CommercialSafety.AppliedRunAccepted | scripts/stage_commercial_catalogue.py:480-487 | where stored relationships are known by their ends and type, an applied run goes through if and only if no company and no relationship that is not stored comes twice |
| CommercialSafety.RunKeepsPairs | scripts/stage_commercial_catalogue.py:413-426 | every run leaves stored relationships known by their ends and type |
| CommercialSafety.RunSettles | scripts/stage_commercial_catalogue.py:445-487 | an applied run with distinct ids, repeated, writes nothing and counts no insert, update or withdrawal |
| CommercialReader.Parse | app/modules/reports/commercial_catalogue.py:98-165 | the reader returns a catalogue if and only if every approved row is good evidence and every approved relationship has approved ends; it keeps the approved rows and groups relationships by comparable |
| CommercialReader.ReadableIff | app/modules/reports/commercial_catalogue.py:98-165 | the reader accepts stored tables if and only if every approved row stands on its own and the tables are safe |
| CommercialReader.NoDanglingEnd | scripts/stage_commercial_catalogue.py:400-412 | after an applied run the reader never raises for a dangling end: what it accepts is decided by the evidence of single stored rows |
| CommercialEvidence.ApprovedCompanyReadable | app/modules/reports/commercial_catalogue.py:105-111 | an approved company row is readable if and only if its source, dates, roles, scopes and used ledger claims are usable |
| CommercialEvidence.UnusableSourceSilencesReader | app/modules/reports/commercial_catalogue.py:107-111 | one approved company without that evidence makes the reader refuse the whole catalogue, even where relationship ids repeat |
| CommercialReadable.ApprovedTitleReadable | app/modules/reports/commercial_catalogue.py:126-141 | an approved comparable row is readable if and only if the title row's source and date and the ledger claims used for it are usable |
| CommercialReadable.PairReadable | app/modules/reports/commercial_catalogue.py:145-158 | a derived relationship row is readable if and only if it names a type and its source and date are usable |
| CommercialReadable.ReadableExactly | app/modules/reports/commercial_catalogue.py:98-165 | the reader accepts what an applied run leaves if and only if every company, first title row and relationship the payload gets approved has usable evidence (of a relationship that comes twice, the row it ends up with) and the stored rows the payload does not mention stand on their own |
| CommercialReadable.InsecureCompanyRefused | scripts/stage_commercial_catalogue.py:224-299 | a payload of one company read off an insecure page is applied and then refused by the reader |
| CommercialReadable.UntypedPairRefused | scripts/stage_commercial_catalogue.py:413-426 | a payload whose one relationship has no type is applied and then refused |
| CommercialReadable.BareSchemeRefused | scripts/stage_commercial_catalogue.py:380 | a payload whose one relationship has the source "https://" is applied and then refused |
| GrantsDedup.GrantTable.UpgradeA | alembic/versions/a3b4c5d6e7f8_grants_v2_semantic_dedup.py:97-158 | repairs, corrections and guarded retirements in order, the retired count, and rollback when the closing assertion fires |
| GrantsDedup.GrantTable.UpgradeB | alembic/versions/b4c5d6e7f8a9_grants_v2_dedup_plural_variant.py:39-67 | one more guarded retirement and its count |
| GrantsDedup.GrantTable.DowngradeA | alembic/versions/a3b4c5d6e7f8_grants_v2_semantic_dedup.py:161-176 | rows with the reason text restored, then territories put back |
| GrantsDedup.GrantTable.DowngradeB | alembic/versions/b4c5d6e7f8a9_grants_v2_dedup_plural_variant.py:70-79 | rows carrying the second reason text become live with eligibility, successor and reason cleared; every other row is the same |
| GrantsDedupProofs.RetireAllRows | alembic/versions/a3b4c5d6e7f8_grants_v2_semantic_dedup.py:120-142 | guarded steps one after another retire exactly what one look at the first table says, each row by the first step that applies |
| GrantsDedupProofs.NoOrphansIff | alembic/versions/a3b4c5d6e7f8_grants_v2_semantic_dedup.py:145-153 | after the steps no held row is orphaned if and only if before them every held row's target is live and not about to be retired |
| GrantsDedupProofs.StepsKeepNoOrphans | alembic/versions/a3b4c5d6e7f8_grants_v2_semantic_dedup.py:120-153 | any sequence of guarded steps keeps the no-orphan invariant if it drops no kept title and no held row's target |
| GrantsDedupProofs.NothingLost | alembic/versions/a3b4c5d6e7f8_grants_v2_semantic_dedup.py:122-123 | a live row stays, or is held and points at a title that is live |
| GrantsDedupProofs.LiveCountFalls | alembic/versions/a3b4c5d6e7f8_grants_v2_semantic_dedup.py:120-158 | the live count falls by exactly the number reported as retired |
| GrantsDedupProofs.UpgradeSucceedsIff | alembic/versions/a3b4c5d6e7f8_grants_v2_semantic_dedup.py:102-153 | the upgrade goes through if and only if every held row, its pointer repaired, names a live title the revision does not retire |
| GrantsDedupProofs.RealStepsApart | alembic/versions/a3b4c5d6e7f8_grants_v2_semantic_dedup.py:69-82 | none of the eight pairs of the two revisions drops a title another keeps |
| GrantsDedupProofs.UpgradeColumns | alembic/versions/a3b4c5d6e7f8_grants_v2_semantic_dedup.py:97-142 | row by row: a live row whose first applicable step has a live survivor becomes held, not eligible, with that survivor and reason; every other keeps all of that and is only pointed; territories move only by correction |
| GrantsDedupProofs.SecondUpgradeColumns | alembic/versions/b4c5d6e7f8a9_grants_v2_dedup_plural_variant.py:39-60 | the second revision retires the live rows of its one title when the survivor is live, and changes nothing else |
| GrantsRoundTrip.LifecycleRestoredIff | alembic/versions/a3b4c5d6e7f8_grants_v2_semantic_dedup.py:161-170 | up through both revisions and back restores every lifecycle if and only if each row that already carried a reason text was live |
| GrantsRoundTrip.TerritoryRestoredIff | alembic/versions/a3b4c5d6e7f8_grants_v2_semantic_dedup.py:171-176 | it restores every territory if and only if no row of a corrected title had the corrected territory before |
| GrantsRoundTrip.TableRestoredIff | alembic/versions/a3b4c5d6e7f8_grants_v2_semantic_dedup.py:42-46 | it restores the whole table if and only if nothing the downgrades clear was set and no pointer was really repaired |
| GrantsRoundTrip.DowngradeColumns | alembic/versions/a3b4c5d6e7f8_grants_v2_semantic_dedup.py:161-176 | the downgrade row by row: a row with the reason text becomes live with three columns cleared, others keep them; a corrected territory goes back |
| GrantsRoundTrip.EligibilityIsLost | alembic/versions/a3b4c5d6e7f8_grants_v2_semantic_dedup.py:165-168 | a retired row that said whether it is eligible for paid matching does not come back whole |
| GrantsRoundTrip.DowngradeLosesEligibility | alembic/versions/b4c5d6e7f8a9_grants_v2_dedup_plural_variant.py:30-79 | the two Netherlands rows, both live and eligible: the revisions go through on them and the downgrades do not bring the table back |
| GrantsRoundTrip.RealRoundTrip | alembic/versions/b4c5d6e7f8a9_grants_v2_dedup_plural_variant.py:39-79 | the lifecycle and territory conditions for the two revisions as written |
| GrantsRoundTrip.RealTableRestored | alembic/versions/a3b4c5d6e7f8_grants_v2_semantic_dedup.py:42-46 | the whole-table condition for the two revisions as written |
| GrantsMerge.OpportunityTable.Upgrade | alembic/versions/b1c2d3e4f5a7_grants_reconciliation_cleanup.py:104-153 | the merge loop over the listed titles computes `MergeAll` of the old rows |
| GrantsMerge.Survey | alembic/versions/b1c2d3e4f5a7_grants_reconciliation_cleanup.py:105-132 | the row count, the first row of the kept type and the first loser's source |
| GrantsMergeRows.MergeExactly | alembic/versions/b1c2d3e4f5a7_grants_reconciliation_cleanup.py:105-149 | a merge changes nothing unless the title has several rows and one of the kept type; then the rows not dropped stay in order and unchanged, but that the first row of the kept type, if it has no source, takes that of the first row of another type or none that has one |
| GrantsMergeRows.OwnSourceStays | alembic/versions/b1c2d3e4f5a7_grants_reconciliation_cleanup.py:131-149 | over the whole list a row that has a source and is not dropped comes out exactly as it went in |
| GrantsMergeRows.RowsComeFrom | alembic/versions/b1c2d3e4f5a7_grants_reconciliation_cleanup.py:104-149 | over the whole list every row left is an old one, unchanged or with a source it lacked and another row of its title had |
| GrantsMerge.SourceKept | alembic/versions/b1c2d3e4f5a7_grants_reconciliation_cleanup.py:128-141 | a title that had a source before its merge has one after it |
| GrantsMerge.MergeSettles | alembic/versions/b1c2d3e4f5a7_grants_reconciliation_cleanup.py:116-149 | when a row of the kept type exists, no row of the title with another non-null type remains |
| GrantsMerge.KeptRowsStay | alembic/versions/b1c2d3e4f5a7_grants_reconciliation_cleanup.py:143-149 | no row of the kept type, and none without a type, is deleted |
| GrantsMerge.OneRowLeftIff | alembic/versions/b1c2d3e4f5a7_grants_reconciliation_cleanup.py:112-149 | a merge of several rows leaves those of the kept type and those without one: a single row if and only if one row had the kept type and none lacked a type |
| GrantsMerge.OtherTitlesUntouched | alembic/versions/b1c2d3e4f5a7_grants_reconciliation_cleanup.py:134-149 | rows of other titles are unchanged and keep their order |
| GrantsMerge.NoSourceLost | alembic/versions/b1c2d3e4f5a7_grants_reconciliation_cleanup.py:104-153 | over the whole list no title loses its source |
| GrantsMerge.EveryTitleSettled | alembic/versions/b1c2d3e4f5a7_grants_reconciliation_cleanup.py:104-153 | over the whole list every listed title ends up settled |
| GrantsMerge.UnlistedUntouched | alembic/versions/b1c2d3e4f5a7_grants_reconciliation_cleanup.py:104-153 | a row of a title the list does not name comes out as it went in |
| Formats.FormatSettlesIff | app/core/formats.py:57-68 | a canonical format is its own canonical form if and only if the value typed was not "tv-movie" in any case |
| Formats.FormatSettlesTwice | app/core/formats.py:57-68 | canonicalised twice, every format is settled |
| Formats.FormatByLabel | app/core/formats.py:19-68 | the token of each label class, and of any other label itself in lower case with underscores for spaces and hyphens |
| Formats.GenresInOrder | app/modules/b2b/signal_normalise.py:54-66 | genres lose only blanks, case and outer white space, and keep their order |
| Formats.GenresSettle | app/modules/b2b/signal_normalise.py:54-66 | canonical genres are their own canonical form |
| SignalCleanup.SignalTable.Clean | scripts/b2b_signal_v2_cleanup.py:48-116 | table and report of a run, dry or applied, are those of `CleanRun` on the old rows |
| SignalCleanup.DedupeEach | scripts/b2b_signal_v2_cleanup.py:60-77 | the deleting loop, counting on the table as it shrinks, leaves and counts what one look at the first table says |
| SignalProofs.OneRowPerScript | scripts/b2b_signal_v2_cleanup.py:61-76 | after the dedupe each script has exactly one row, a maximal one, and rows without a script are all there, so the index can be created |
| SignalProofs.LatestIsNewest | scripts/b2b_signal_v2_cleanup.py:62-69 | the survivor is the most recently updated, then created; a known time beats an unknown one |
| SignalProofs.CleanedRows | scripts/b2b_signal_v2_cleanup.py:60-101 | column by column: of each script its newest row, every row without one, format and genres settled and nothing else changed |
| SignalProofs.DuplicatesReported | scripts/b2b_signal_v2_cleanup.py:48-60 | the duplicates counted are exactly the scripts with more than one row |
| SignalProofs.ChangesCounted | scripts/b2b_signal_v2_cleanup.py:79-102 | the normalisation count is exactly the number of rows it changes |
| SignalProofs.DryRunForetellsApply | scripts/b2b_signal_v2_cleanup.py:60-102 | apply always goes through, rows drop by doomed_total, and the dry run's normalisation count exceeds apply's by exactly the doomed rows that needed it |
| SignalProofs.SecondRun | scripts/b2b_signal_v2_cleanup.py:79-102 | a second run finds no duplicate and changes exactly the rows whose format was typed "tv-movie" |
| SignalProofs.ThirdRunFindsNothing | scripts/b2b_signal_v2_cleanup.py:48-102 | after two applied runs nothing is left to do |
| Money.FindMoney | alembic/versions/ab2c3d4e5f61_incentives_v4_refresh.py:199 | the place returned is the leftmost where a word boundary and the pattern with four or more figure characters stand, and None means there is no such place |
| MoneyProofs.EmbeddedIsLeftmost | alembic/versions/ab2c3d4e5f61_incentives_v4_refresh.py:186-202 | on any text _embedded_money reads the figure at the leftmost place where one stands, and gives nothing if and only if there is none |
| MoneyProofs.MoneyRoundTrip | alembic/versions/ab2c3d4e5f61_incentives_v4_refresh.py:176-183 | for every natural amount and three-letter capital currency, _money reads back what money prints if and only if the currency has no symbol |
| MoneyProofs.EmbeddedRoundTrip | alembic/versions/ab2c3d4e5f61_incentives_v4_refresh.py:186-202 | _embedded_money reads it back exactly from a thousand on |
| MoneyProofs.ParsersAgree | alembic/versions/ab2c3d4e5f61_incentives_v4_refresh.py:176-202 | on any text _money accepts, _embedded_money gives the same when the figure has four or more characters and nothing otherwise |
| MoneyProofs.FirstFigureWins | alembic/versions/ab2c3d4e5f61_incentives_v4_refresh.py:189-195 | after any text that holds no figure of its own and does not run into the code, the leading figure is the one read, whatever follows |
| MoneyProofs.BothHalvesOfACap | alembic/versions/ab2c3d4e5f61_incentives_v4_refresh.py:205-229 | a cap that states a percentage, whole or with decimals, and then a figure gives both, whatever stands before, between and after |
| MoneyProofs.PercentIsFirst | alembic/versions/ab2c3d4e5f61_incentives_v4_refresh.py:222-225 | the percentage kept is the first one, wherever it stands |
| MoneyProofs.PercentAlone | alembic/versions/ab2c3d4e5f61_incentives_v4_refresh.py:205-229 | a cap that states a percentage and no figure gives the percentage alone |
| MoneyProofs.AmountAlone | alembic/versions/ab2c3d4e5f61_incentives_v4_refresh.py:205-229 | a cap without a percent sign gives its figure alone or raises as it does; none strings and text with neither give nothing |
| MoneyProofs.RaisesOnlyOnCommas | alembic/versions/ab2c3d4e5f61_incentives_v4_refresh.py:176-183 | on any text, whole or by its front, _money raises if and only if the pattern matches and the figure is all commas |
| MoneyProofs.EmbeddedRaisesOnlyOnCommas | alembic/versions/ab2c3d4e5f61_incentives_v4_refresh.py:186-202 | _embedded_money raises if and only if the figure at the leftmost place is all commas |
| MoneyProofs.CapRaisesOnlyOnCommas | alembic/versions/ab2c3d4e5f61_incentives_v4_refresh.py:205-229 | reading a cap raises on exactly the same texts |
| MoneyProofs.FourCommasRaise | alembic/versions/ab2c3d4e5f61_incentives_v4_refresh.py:176-229 | "EUR ,,,," makes all three raise |
| MoneyProofs.GroupedReads | scripts/generate_incentive_reference.py:194 | stripping the commas of a grouped amount gives the amount |
| MoneyProofs.GroupedCommas | scripts/generate_incentive_reference.py:194 | counted from the right every fourth character of a grouped amount is a comma and no other is |
| MoneyProofs.PrintedWithSign | scripts/generate_incentive_reference.py:189-194 | pounds, euros and dollars, in any case, and pounds when no currency is named, are printed as that sign and the grouped amount, which reads back |
| MoneyProofs.PrintedByName | scripts/generate_incentive_reference.py:189-194 | any other currency is printed as named, a space and the grouped amount; no amount prints as words that read as no amount |
| MoneyProofs.ReadsFront | alembic/versions/ab2c3d4e5f61_incentives_v4_refresh.py:176-183 | _money reads a code, white space and a figure at the front of the text; as a whole only when nothing follows |
| MoneyProofs.ReadsOnlyFronts | alembic/versions/ab2c3d4e5f61_incentives_v4_refresh.py:176-183 | and reads nothing else |
| MoneyProofs.NoneTexts | alembic/versions/ab2c3d4e5f61_incentives_v4_refresh.py:58-148 | the five texts that stand for no amount, in any case and spacing |
| MoneyProofs.NumberIs | alembic/versions/ab2c3d4e5f61_incentives_v4_refresh.py:222-225 | a number in a percentage is digits, or digits with one point between |
| Coercion.CoerceRow | scripts/generate_incentive_reference.py:172-186 | each numeric and flag column is coerced in whatever order the columns come, and the others are left alone |
| Coercion.CoercedCells | scripts/generate_incentive_reference.py:172-186 | a numeric column holds the number its text says without commas, or nothing; a flag column is false for eight texts, in any case and spacing, and true for any other |
| Coercion.CommasOut | scripts/generate_incentive_reference.py:179 | removing commas keeps every other character, in order |
| Coercion.PrintedAmountReadsBack | scripts/generate_incentive_reference.py:172-194 | a comma-grouped amount in a numeric column is read back as that amount |
| Coercion.CoercionSettles | scripts/generate_incentive_reference.py:172-186 | coercing a coerced row changes nothing |
| MonthArithmetic.MonthStarts | scripts/seed_b2b_demo.py:57-76 | exactly `count` month starts with consecutive month numbers ending `offset` months back; raises exactly when they leave the calendar |
| MonthArithmetic.StartsAreConsecutive | scripts/seed_b2b_demo.py:57-76 | such neighbours are a month apart: the second is the day after the first month's last day |
| MonthArithmetic.MonthEndIsLastDay | scripts/seed_b2b_demo.py:294-296 | day 28 plus four days, set to day 1, less one day is the last day of the month, for every month but December 9999 |
| Dates.MonthLengths | scripts/seed_b2b_demo.py:294-296 | the lengths of the twelve months |
| MonthArithmetic.MonthEndByDayNumber | scripts/seed_b2b_demo.py:294-296 | in day numbers: four days on from the 28th, then back by the day of the month reached |
| MonthArithmetic.AddDaysIsExact | scripts/seed_b2b_demo.py:295 | adding n days adds n to the day number |
| MonthArithmetic.NextDayIsOneDay | scripts/seed_b2b_demo.py:294-296 | the calendar step adds one to the day number across months, years and leap years, and stepping back undoes it |

## Left out

- Ledger parsing (`build_cycles`), the curated parser, the verification store and ledger, `resolve_jurisdiction` and `commercial_freeze` are inputs or parameters: any result they could give is allowed.
- A phrase `commercial_freeze` has not reviewed makes the commercial run raise before it touches a table; the payload here is one whose rows were all read.
- The content-hash pins and row counts of the snapshot files, table and column presence checks, and the column-name filter of `_sync`.
- JSON values are kept as text or as the decoded list; `expected` compares as text, and a JSON genres value that is neither a list of text nor undecodable is not covered.
- Lists the importer sorts and dedupes before writing are sets.
- A market track's prose columns are one map; its date is given parsed.
- claims_read, rules_parsed, problems, the change log and the ledger-claim tallies: counters and text for printing.
- StagingRuns.PreflightIsApply: is about a run whose apply goes through; a preview does not report a clash of new keys.
- CommercialSafety.EveryRunSafe: assumes the payload's company ids are distinct, as read_handoff requires, and that stored relationships come from that payload; SafeIffStaleRowsAre says what happens otherwise.
- CommercialReadable.ReadableExactly: assumes the payload's company ids are distinct, as read_handoff requires.
- CommercialColumns.RelationshipsStored: of an id that comes more than once it says that one of its rows is stored; Sync.SyncLasts says which.
- The constant columns of a new input (type, exactness, missing behaviour, schema version).
- CommercialSafety.RunSettles: assumes distinct relationship ids, since two differing rows of one id overwrite each other for ever.
- SignalCleanup.SignalTable.Clean: rows that tie on both times keep table order, where the database may choose; the index is checked on every applied run although an existing one is only reported.
- GrantsMerge.Survey: rows come in table order, where the database may choose; the theorems about it hold for every order.
- GrantsDedup.GrantTable.UpgradeA: a failed assertion rolls the revision back, as a transactional migration does.
- Deletion of dangling legacy mappings and of rejected split children in the merge revision: single guarded deletes.
- Unicode casing, white space, digits and word characters beyond ASCII; rounding and amounts above 2^53; negative and fractional amounts in the money printer.
- Coercion.CoerceRow: `float` is a parameter; the coercion of one cell is taken from the column's value alone.
- Column widths other than that of a question's id, and the unique key on declared inputs, whose NULL rule version never clashes.
- Report layout, argument parsing, printing, account seeding, delivery and payment code.
