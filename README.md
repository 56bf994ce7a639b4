# Job application assistant: a Dafny model of its core

The job application assistant parses résumés into profiles, fetches job
postings, scores each profile against each job, and tracks the applications
it sends. This project models the deterministic core of that program in
Dafny and proves properties of the model:

- **Skill taxonomy** (`Taxonomy`, with the table itself in `SkillTable`):
  - skill normalisation;
  - the built-in synonym table, whose groups are proved disjoint and already normalised;
  - synonym lookup, skill equivalence;
  - the deliberately loose substring matching of profile skills against job requirements.
- **Match scorer** (`Scorer`):
  - the basic score, with its advanced-skill bonus and missing-requirement list;
  - the rule that decides when the external analyser is consulted and how its answer is merged;
  - the bounded summaries sent to the analyser;
  - the extraction of a fenced JSON block from its reply.
- **Job normaliser** (`Normalizer`): the raw job-search record turned into a job, and the job's text summary.
- **Display helpers**:
  - the formatters of the web interface (`Formatters`);
  - the job filter and page arithmetic of the job list (`JobCard`);
  - the search-query generator of the job fetcher (`SkillQueries`);
  - the application-form builder (`ApplyForm`).
- **The SQLite database, as a class** (`Schema`):
  - `Database`: six tables, each held as a sequence of rows in rowid order with an AUTOINCREMENT counter;
  - `Tables.Valid`: the schema's NOT NULL, CHECK, UNIQUE and FOREIGN KEY constraints, kept as an invariant;
  - the operations on it: store/update/upsert/delete of profiles, jobs and matches (`Queries`), and the application tracker (`Tracker`);
  - the JSON text of the list columns (`JsonList`).
- **Shared modules**:
  - `Wrappers` (Option, Result);
  - `PyText`, Python's `str` operations on ASCII text: `lower`, `strip`, `in`, `find`, slicing with negative indices, `split`, `title` and `{:,}`;
  - `Records`, the dictionaries passed between the files. A key that may be absent, `None` or present is a `Slot`, so `.get(key, default)` keeps Python's meaning;
  - `Seqs`, generic sequence facts: subsequences, deduplication, filtering, a stable descending sort.

Every method is proved against a specification function, and the properties
the program relies on are lemmas about those functions.

## Model

| member | source | states |
|---|---|---|
| SkillTable.SkillSynonymsWellFormed | jobappasst/src/matching/taxonomy.py:7-35 | every canonical skill and synonym of the table is lower case and trimmed, no key lists itself, and no name belongs to two groups |
| SkillTable.EntriesApartPairwise | jobappasst/src/matching/taxonomy.py:7-35 | any two entries of the table have distinct keys, neither key is listed by the other entry, and their synonym lists are disjoint |
| SkillTable.EntriesNormal | jobappasst/src/matching/taxonomy.py:7-35 | every entry's key and synonyms are in normal form and the key is not among its own synonyms |
| SkillTable.EntryOfTable | jobappasst/src/matching/taxonomy.py:7-35 | entry `i` of the table is the `i`-th entry in source order |
| Taxonomy.NormalizeIsNormal | jobappasst/src/matching/taxonomy.py:38-48 | the normalised skill has no upper-case letter, no surrounding whitespace, and is no longer than the input |
| Taxonomy.NormalizeIdempotent | jobappasst/src/matching/taxonomy.py:38-48 | normalising twice is normalising once |
| Taxonomy.NormalizeOfNormal | jobappasst/src/matching/taxonomy.py:38-48 | a lower-case trimmed text is its own normal form |
| Taxonomy.NormalizeOfUnpadded | jobappasst/src/matching/taxonomy.py:38-48 | a trimmed text normalises to its lower-case form |
| Taxonomy.NormalizedOccurs | jobappasst/src/matching/taxonomy.py:38-48 | a word occurring in a trimmed text occurs, lower-cased, at the same place of its normal form |
| Taxonomy.NormalizedLacks | jobappasst/src/matching/taxonomy.py:38-48 | a letter absent from a text in both cases is absent from its normal form |
| Taxonomy.GroupOf | jobappasst/src/matching/taxonomy.py:65-66 | the group of an entry is exactly its key and its listed synonyms |
| Taxonomy.KeyIndexFrom | jobappasst/src/matching/taxonomy.py:64 | finds an entry whose key is the name, or reports that no entry from that index on has it |
| Taxonomy.ListedIndexFrom | jobappasst/src/matching/taxonomy.py:70-71 | finds the first entry, from that index on, that lists the name or has it as key, or reports that none does |
| Taxonomy.SynonymsIn | jobappasst/src/matching/taxonomy.py:61-77 | the normalised skill is always among its synonyms |
| Taxonomy.FindSynonymsIn | jobappasst/src/matching/taxonomy.py:51-77 | the key check, then the scan of the table building the set with `update`, gives the synonym set of the specification |
| Taxonomy.FindSkillSynonyms | jobappasst/src/matching/taxonomy.py:51-77 | `find_skill_synonyms` over the built-in table returns the synonym set of the skill |
| Taxonomy.NormalizedIsSynonym | jobappasst/src/matching/taxonomy.py:61-77 | the normalised skill belongs to its synonym set, so the set is never empty |
| Taxonomy.SynonymsOfKeyIn | jobappasst/src/matching/taxonomy.py:63-67 | for a canonical key in a well-formed table, the synonyms are the key and its listed synonyms |
| Taxonomy.SynonymsOfKey | jobappasst/src/matching/taxonomy.py:63-67 | for a key of the built-in table, `find_skill_synonyms(k)` is `{k}` together with the listed synonyms of `k` |
| Taxonomy.SynonymsOfMemberIn | jobappasst/src/matching/taxonomy.py:63-74 | a skill whose normal form is in an entry's group gets exactly that group, in any well-formed table |
| Taxonomy.SynonymsOfListed | jobappasst/src/matching/taxonomy.py:69-74 | a listed synonym of key `k` yields the same set as `k` itself |
| Taxonomy.SynonymsOfListedIn | jobappasst/src/matching/taxonomy.py:69-74 | in a well-formed table a listed synonym and its key have the same synonym set |
| Taxonomy.SynonymsOfGroupMember | jobappasst/src/matching/taxonomy.py:63-74 | any skill normalising into a group of the built-in table gets that group |
| Taxonomy.SynonymsOfUnknown | jobappasst/src/matching/taxonomy.py:76-77 | a skill whose normal form is in no group yields exactly the singleton of its normal form |
| Taxonomy.SynonymsShapeIn | jobappasst/src/matching/taxonomy.py:61-77 | the synonym set is always either one entry's whole group or the singleton of the normalised skill |
| Taxonomy.EntriesOfWellFormed | jobappasst/src/matching/taxonomy.py:7-35 | in a well-formed table two different entries share neither keys nor synonyms |
| Taxonomy.OnlyGroup | jobappasst/src/matching/taxonomy.py:70-71 | a name of one group is listed by, or is the key of, that entry only |
| Taxonomy.ListedIsNoKey | jobappasst/src/matching/taxonomy.py:63-66 | a listed synonym is never itself a key, so the key check fails for it |
| Taxonomy.SkillsMatchSymmetric | jobappasst/src/matching/taxonomy.py:80-95 | `skills_match(a, b)` iff `skills_match(b, a)` |
| Taxonomy.SkillsMatchReflexive | jobappasst/src/matching/taxonomy.py:80-95 | every skill matches itself |
| Taxonomy.MatchImpliesSameGroup | jobappasst/src/matching/taxonomy.py:80-95 | two matching skills have the same synonym group or the same normal form |
| Taxonomy.SameGroupImpliesMatch | jobappasst/src/matching/taxonomy.py:80-95 | two skills of one group, or of one normal form, match |
| Taxonomy.SkillsMatchIff | jobappasst/src/matching/taxonomy.py:80-95 | two skills match iff they fall in the same group or normalise alike |
| Taxonomy.SynonymsViaLower | jobappasst/src/matching/taxonomy.py:61-74 | a skill whose lower-case form is a trimmed member of a group gets that group |
| Taxonomy.MatchBySharedGroup | jobappasst/src/matching/taxonomy.py:91-95 | two skills with the same synonym group match |
| Taxonomy.SqlMatchesPostgres | jobappasst/src/matching/taxonomy.py:130 | 'SQL' matches 'PostgreSQL' |
| Taxonomy.PowerBiMatchesMicrosoftPowerBi | jobappasst/src/matching/taxonomy.py:131 | 'Power BI' matches 'Microsoft Power BI' |
| Taxonomy.MatchedSnoc | jobappasst/src/matching/taxonomy.py:111-122 | one more profile skill is appended to the result iff it hits some requirement and is not already there |
| Taxonomy.NoSynonymNoHit | jobappasst/src/matching/taxonomy.py:114-117 | a requirement containing none of the skill's synonyms is not hit |
| Taxonomy.NoHitStep | jobappasst/src/matching/taxonomy.py:114-120 | the inner loop's invariant "no requirement hit so far" extends over one more requirement that is not hit |
| Taxonomy.HitBySynonym | jobappasst/src/matching/taxonomy.py:114-117 | a requirement whose normal form contains one of the skill's synonyms is hit |
| Taxonomy.ExtractMatchedSkillsIn | jobappasst/src/matching/taxonomy.py:98-122 | the nested loops with the early `break` compute the matched-skill list of the specification, for any table |
| Taxonomy.ExtractMatchedSkills | jobappasst/src/matching/taxonomy.py:98-122 | `extract_matched_skills` over the built-in table returns the matched-skill list |
| Taxonomy.MatchedIsDistinctSubsequence | jobappasst/src/matching/taxonomy.py:109-122 | the result has no duplicate and is a subsequence of the profile skills, keeping their original spelling and order |
| Taxonomy.MatchedIff | jobappasst/src/matching/taxonomy.py:111-120 | a profile skill is in the result iff some synonym of it is a substring of some normalised requirement |
| Taxonomy.MatchedWithoutRequirements | jobappasst/src/matching/taxonomy.py:111-122 | no requirements give no matched skill |
| Taxonomy.MatchedMonotonic | jobappasst/src/matching/taxonomy.py:111-122 | appending a profile skill keeps the old result as a prefix of the new one |
| Taxonomy.PythonHitsHappy | jobappasst/src/matching/taxonomy.py:117 | the substring test is loose: 'Python' hits the requirement 'happy' through its synonym 'py' |
| Scorer.Min | jobappasst/src/matching/scorer.py:36 | `min(a, b)` is one of the two and no greater than either |
| Scorer.BaseScore | jobappasst/src/matching/scorer.py:31-36 | 50 without requirements; otherwise within [0, 100], exactly 100 when there are at least as many matched skills as requirements, below 100 otherwise |
| Scorer.BaseScoreIsShare | jobappasst/src/matching/scorer.py:34-36 | with requirements, the base is `min(100 * matched / requirements, 100)` |
| Scorer.AdvancedCount | jobappasst/src/matching/scorer.py:39-40 | the number of profile entries that earn the bonus is at most the number of entries |
| Scorer.BoostedClosedForm | jobappasst/src/matching/scorer.py:38-41 | the loop of capped `+5` steps equals one capped addition of 5 per advanced matched entry |
| Scorer.UncoveredSubsequence | jobappasst/src/matching/scorer.py:43-55 | the requirements kept as missing are a subsequence of the requirements |
| Scorer.UncoveredIff | jobappasst/src/matching/scorer.py:43-55 | a requirement is kept iff it is longer than 3 characters and contains no matched skill's normal form |
| Scorer.NoCoverStep | jobappasst/src/matching/scorer.py:49-52 | the `is_matched` loop's invariant extends over one further matched skill that is not contained |
| Scorer.NoCoverAll | jobappasst/src/matching/scorer.py:49-54 | when the loop runs to the end without `break`, no matched skill's normal form is in the requirement |
| Scorer.CalculateBasicMatchScore | jobappasst/src/matching/scorer.py:9-57 | the method returns the specified matched skills, score and capped missing list; the description is ignored |
| Scorer.ScoreInRange | jobappasst/src/matching/scorer.py:31-41 | the basic score always lies in [0, 100] |
| Scorer.ScoreFormula | jobappasst/src/matching/scorer.py:31-41 | the basic score is `min(base + 5 * advancedMatched, 100)` |
| Scorer.AdvancedCountOfNone | jobappasst/src/matching/scorer.py:39-41 | with no matched skill, no entry earns the bonus |
| Scorer.WithoutRequirements | jobappasst/src/matching/scorer.py:29-57 | without requirements the result is exactly `(50.0, [], [])`, whatever the profile skills |
| Scorer.MissingShape | jobappasst/src/matching/scorer.py:44-57 | the missing list is a subsequence of the requirements of at most 10 entries, each longer than 3 characters and containing no matched skill's normal form |
| Scorer.MissingComplete | jobappasst/src/matching/scorer.py:44-57 | when at most 10 requirements qualify, the missing list is all of them |
| Scorer.SynonymMatchStillMissing | jobappasst/src/matching/scorer.py:49-55 | only names are checked: 'postgresql' matches the requirements through the synonym 'sql', yet 'sql server' is still listed as missing |
| Scorer.ShareCanReachCap | jobappasst/src/matching/scorer.py:34-36 | two skills can match one requirement, so the base reaches the cap of 100 with a single requirement |
| Scorer.WorkedExample | jobappasst/src/matching/scorer.py:246-266 | the module's own example: Python (advanced), SQL (advanced) and Tableau against four requirements give score 60, matched `["Python", "SQL"]`, and the visualisation and cloud requirements as missing |
| Scorer.MatchProfileToJob | jobappasst/src/matching/scorer.py:60-110 | the basic result when the analyser is not consulted (`use_claude` false, or base at most 30 and no match) or returns nothing; with an analysis, its score (unclamped, possibly absent) and its notes plus the `Claude Analysis` section, the matched and missing lists staying the basic ones; an escaping exception only appends the `unavailable` line; absent notes make `+=` fail, an error |
| Scorer.SummarizeProfile | jobappasst/src/matching/scorer.py:143-163 | the profile summary keeps the first 15 skills and the first 5 experiences, element by element, plus the name and summary |
| Scorer.SummarizeJob | jobappasst/src/matching/scorer.py:165-173 | the job summary keeps the first 10 requirements and exactly the first `min(len, 1000)` characters of the description (a prefix of that length); a `None` description cannot be sliced, an error |
| Scorer.FenceOfJsonFence | jobappasst/src/matching/scorer.py:215-220 | a reply containing "```json" contains "```" |
| Scorer.ParseReply | jobappasst/src/matching/scorer.py:211-243 | a reply that decodes to an object is that object; one that decodes to a non-object gives no analysis (`.get` raises and the handler returns `None`); only a decoding error falls back to the fenced body (after the first "```json", else the first "```"), which must itself decode to an object; with no fence there is no analysis |
| Scorer.ObjectOf | jobappasst/src/matching/scorer.py:228-243 | a decoded value gives an analysis exactly when it is an object, and then that object |
| Scorer.JsonFenceBody | jobappasst/src/matching/scorer.py:215-218 | for a reply with one closed "```json" fence, the extracted text is the trimmed body between the fences |
| Scorer.FencedBodyOfJson | jobappasst/src/matching/scorer.py:215-218 | the extracted text is the trimmed slice from just after the first "```json" up to the next "```", as `find` and slicing give it |
| Scorer.UnclosedFinds | jobappasst/src/matching/scorer.py:216-217 | with no closing fence, the search for it returns -1 |
| Scorer.UnclosedJsonFence | jobappasst/src/matching/scorer.py:215-218 | with no closing fence, the slice up to -1 drops the last character of the body |
| Scorer.FormatAnalysis | jobappasst/src/matching/scorer.py:228-239 | the score defaults to 50; the notes are the analysis text; the long text is the analysis followed by the Strengths and Concerns sections, present only when their lists are non-empty; a `None` analysis with a section to add fails on `+=`, no result |
| Scorer.AnalysisExtendsNotes | jobappasst/src/matching/scorer.py:228-239 | the returned analysis text starts with the returned notes |
| Scorer.ReplyNotesPresent | jobappasst/src/matching/scorer.py:228-239 | a parsed reply whose analysis is not `None` yields a result with notes |
| Normalizer.Present | jobappasst/src/jobs/normalizer.py:35-40 | a location part is kept iff it is truthy, and then as given |
| Normalizer.LocationParts | jobappasst/src/jobs/normalizer.py:34-40 | at most three parts, none empty |
| Normalizer.LocationOfAll | jobappasst/src/jobs/normalizer.py:34-42 | with city, state and country all truthy, the location is their ", "-join in that order |
| Normalizer.LocationOfOne | jobappasst/src/jobs/normalizer.py:42 | a single truthy part is the whole location |
| Normalizer.LocationFallback | jobappasst/src/jobs/normalizer.py:42 | with no truthy part, the location is `job_location`: "N/A" when the key is absent, `None` when it is null |
| Normalizer.LocationStartsWithFirstPart | jobappasst/src/jobs/normalizer.py:42 | with some truthy part the location is non-empty and starts with the first part |
| Normalizer.QualificationItems | jobappasst/src/jobs/normalizer.py:52-55 | qualifications contribute only when the highlights and their list are present |
| Normalizer.Requirements | jobappasst/src/jobs/normalizer.py:44-61 | the requirements are the required skills, then the qualifications, then the optional experience line, in that order and nothing else |
| Normalizer.QualificationsNotAList | jobappasst/src/jobs/normalizer.py:52-55 | qualifications that are not a list, truthy or not, contribute nothing |
| Normalizer.RequirementsFromSources | jobappasst/src/jobs/normalizer.py:44-61 | every requirement comes from the required skills, the qualifications or the experience line |
| Normalizer.PostedDate | jobappasst/src/jobs/normalizer.py:67-75 | no date without a truthy timestamp; the parsed date when the parse succeeds; otherwise the prefix of the timestamp of length `min(len, 10)`, i.e. its first ten characters |
| Normalizer.ApplyUrl | jobappasst/src/jobs/normalizer.py:88 | `job_apply_link` when truthy, else `job_google_link` |
| Normalizer.NormalizeDefaults | jobappasst/src/jobs/normalizer.py:78-92 | absent keys default to "Untitled", "Unknown", "" and "JSearch", a null title stays `None`, `remote` defaults to false, a missing job id gives no external id |
| Normalizer.NormalizePassThrough | jobappasst/src/jobs/normalizer.py:64-92 | present values pass through: external id, title, company, description, remote flag, and both salaries unchanged |
| Normalizer.NormalizeJobListElementwise | jobappasst/src/jobs/normalizer.py:97-107 | same length and order, each job normalised element-wise |
| Normalizer.SalaryRange | jobappasst/src/jobs/normalizer.py:129-134 | at most two amounts, none iff neither salary is non-zero; the minimum first and the maximum last, each as `${:,}` |
| Normalizer.SummaryLines | jobappasst/src/jobs/normalizer.py:120-143 | three to seven lines: Title, Company and Location first, and the requirement count last when there are requirements |
| Normalizer.OptionalLines | jobappasst/src/jobs/normalizer.py:126-141 | after the first three lines come the Remote, Salary, Posted and Requirements lines in that order, each only when its field is truthy |
| Normalizer.RemoteLineIff | jobappasst/src/jobs/normalizer.py:126-127 | "Remote: Yes" is among the optional lines iff the job is remote |
| Normalizer.SalaryLineIff | jobappasst/src/jobs/normalizer.py:129-135 | a Salary line is present iff the minimum or the maximum salary is non-zero |
| Normalizer.SalaryLineBoth | jobappasst/src/jobs/normalizer.py:129-135 | with both salaries truthy, the salary line list is exactly one "Salary: $min - $max" line |
| Normalizer.SalaryLineOfBoth | jobappasst/src/jobs/normalizer.py:129-135 | with both salaries, the line is "Salary: $min - $max" |
| Formatters.FormatSalary | jobappasst/streamlit_app/utils/formatters.py:9-20 | "Not specified" iff neither amount is non-zero; otherwise exactly `Dollars(a) + " - " + Dollars(b)` for both, `Dollars(a) + "+"` for the minimum alone and `"Up to " + Dollars(b)` for the maximum alone, `Dollars` being the `{:,}` text after `$` |
| Formatters.FormatSalaryZeroIsMissing | jobappasst/streamlit_app/utils/formatters.py:12-20 | a zero amount is formatted as an absent one |
| Formatters.FormatLocation | jobappasst/streamlit_app/utils/formatters.py:46-56 | remote with a location gives "loc (Remote)", remote alone "Remote", a location alone itself, neither "Not specified" |
| Formatters.ScoreBand | jobappasst/streamlit_app/utils/formatters.py:59-67 | green iff the score is at least 80, yellow iff in [60, 80), red iff below 60 |
| Formatters.ScoreBandMonotonic | jobappasst/streamlit_app/utils/formatters.py:62-67 | a higher score never gets a worse band |
| Formatters.FormatMatchScore | jobappasst/streamlit_app/utils/formatters.py:59-67 | the band's circle, a space, the formatted score and "%" |
| Formatters.FormatMatchScoreSameCircle | jobappasst/streamlit_app/utils/formatters.py:59-67 | two scores get the same circle iff they fall in the same band |
| Formatters.FormatApplicationStatus | jobappasst/streamlit_app/utils/formatters.py:70-81 | a known status, in any case, gets its fixed label; any other status gets the clipboard sign and its title-cased text |
| Formatters.FormatApplicationStatusIgnoresCase | jobappasst/streamlit_app/utils/formatters.py:81 | statuses equal up to case are formatted alike |
| Formatters.FormatKnownStatuses | jobappasst/streamlit_app/utils/formatters.py:73-81 | the five labels of draft, applied, interviewing, rejected and offer |
| Formatters.FormatOtherStatus | jobappasst/streamlit_app/utils/formatters.py:81 | an unknown status is written after the clipboard sign, keeping its length |
| Formatters.FormatSkillLevel | jobappasst/streamlit_app/utils/formatters.py:84-96 | "" iff the level is empty or absent; a known level, in any case, gets its stars; any other level is title-cased |
| Formatters.FormatSkillLevelIgnoresCase | jobappasst/streamlit_app/utils/formatters.py:96 | levels equal up to case are formatted alike |
| Formatters.FormatSkillsList | jobappasst/streamlit_app/utils/formatters.py:99-106 | "No skills listed" for an empty list; otherwise the names of the entries with a truthy name, in list order, cut to the first ten and joined by ", " |
| Records.SkillNames | jobappasst/streamlit_app/utils/formatters.py:105 | the names kept are exactly the non-empty names of the entries, and there are no more of them than entries |
| Records.SkillNamesInOrder | jobappasst/streamlit_app/utils/formatters.py:105 | the list of names is the entries with a truthy name, kept in their order, each replaced by its name |
| Formatters.SkillsListShowsFirstTen | jobappasst/streamlit_app/utils/formatters.py:105-106 | each of the first ten non-empty names appears in the list |
| Formatters.SkillsListWithoutNames | jobappasst/streamlit_app/utils/formatters.py:105-106 | a non-empty list whose skills all lack a name gives "" |
| Formatters.FormatExperienceDuration | jobappasst/streamlit_app/utils/formatters.py:109-116 | "Duration unknown" without a truthy start; otherwise exactly `start + " - " + end`, the end being "Present" when not truthy |
| Formatters.TruncateText | jobappasst/streamlit_app/utils/formatters.py:119-128 | "" for empty text, the text itself when it fits, otherwise a prefix of the text followed by the suffix |
| Formatters.TruncateTextFits | jobappasst/streamlit_app/utils/formatters.py:125-128 | when the maximum is at least the suffix length, the result fits in the maximum |
| Formatters.TruncateTextCutsAtSpace | jobappasst/streamlit_app/utils/formatters.py:128 | when the part with room holds a space, the kept text stops at a space and no later character of that part is a space, so the cut is at the last space as `rsplit(' ', 1)[0]` makes it |
| Formatters.TruncateTextWithoutSpace | jobappasst/streamlit_app/utils/formatters.py:128 | when the part with room holds no space, all of `text[:max_length - len(suffix)]` is kept before the suffix |
| Formatters.Bullet | jobappasst/streamlit_app/utils/formatters.py:140-142 | a formatted requirement starts with the bullet or with "-" |
| Formatters.MoreLineIsNoBullet | jobappasst/streamlit_app/utils/formatters.py:141-146 | the "... and K more" line differs from every formatted requirement |
| Formatters.FormatRequirementsList | jobappasst/streamlit_app/utils/formatters.py:131-148 | `[]` for no requirements; otherwise the first `max_items` requirements stripped and bulleted in order, plus one "... and K more" line iff there are more |
| Formatters.FormattedShape | jobappasst/streamlit_app/utils/formatters.py:131-148 | every line is bulleted except possibly the last, which is the "more" line; at most `max_items` bulleted lines |
| Formatters.StatsToMetrics | jobappasst/streamlit_app/utils/formatters.py:183-204 | exactly six metrics, in the order total, draft, applied, interviewing, rejected, offer, each with its label and its count, 0 when the key is missing |
| Formatters.MetricKeysDistinct | jobappasst/streamlit_app/utils/formatters.py:188-195 | the six metric keys are distinct |
| Formatters.CountCategory | jobappasst/streamlit_app/utils/formatters.py:178-179 | a category count is at most the number of skills |
| Formatters.CountCategoryIsFilter | jobappasst/streamlit_app/utils/formatters.py:178-179 | the count is the length of the list of entries whose category equals the given one, kept in order |
| Formatters.CountTwoCategories | jobappasst/streamlit_app/utils/formatters.py:178-179 | technical and soft skill counts together are at most the number of skills |
| Formatters.CountCategoryExtremes | jobappasst/streamlit_app/utils/formatters.py:178-179 | the count is 0 when no skill has the category and the number of skills when all have it |
| Formatters.ProfileToSummary | jobappasst/streamlit_app/utils/formatters.py:165-180 | the counts of skills and experience; the technical and soft counts are the lengths of the in-order lists of the entries of that category, and together at most the skill count; the preview is `format_skills_list` of the skills; name, email and location are the given value, `None` for null, and "Unknown"/"N/A" only when the key is absent |
| JobCard.FilterJobsNoCriteria | jobappasst/streamlit_app/components/job_card.py:151-162 | with no active criterion the jobs come back unchanged |
| JobCard.FilterJobsSubsequence | jobappasst/streamlit_app/components/job_card.py:148-162 | the result is an order-preserving subsequence of the input |
| JobCard.FilterJobsKeeps | jobappasst/streamlit_app/components/job_card.py:153-160 | a job is kept iff it is in the input and every active criterion holds: remote is truthy, the location contains the location text up to case, the company contains the company text up to case |
| JobCard.FilterJobsNullLocation | jobappasst/streamlit_app/components/job_card.py:156-157 | a job that reaches the location stage with a `None` location makes `.lower()` fail |
| JobCard.FilterJobsErrorCause | jobappasst/streamlit_app/components/job_card.py:156-160 | a failure comes only from an active text criterion and some job whose field is `None` |
| JobCard.FilterJobsWithoutNullIn | jobappasst/streamlit_app/components/job_card.py:156-160 | without a `None` in a field, the filter never fails on that field |
| JobCard.PageOf | jobappasst/streamlit_app/components/job_card.py:129-141 | all jobs are shown when they fit on one page; otherwise a page holds at most `page_size` jobs |
| JobCard.PageStart | jobappasst/streamlit_app/components/job_card.py:133-138 | every selectable page starts inside the list |
| JobCard.PageOfSlice | jobappasst/streamlit_app/components/job_card.py:137-139 | the page shows the jobs from index `(page - 1) * page_size` up to `page * page_size` or the end |
| JobCard.LastPageEmptyIff | jobappasst/streamlit_app/components/job_card.py:133-139 | the highest selectable page, `len // page_size + 1`, is empty iff the count is a multiple of the page size |
| JobCard.PagesUpToPrefix | jobappasst/streamlit_app/components/job_card.py:137-139 | the first `k` pages together are a prefix of the list |
| JobCard.PagesCoverAll | jobappasst/streamlit_app/components/job_card.py:133-139 | all selectable pages together show every job exactly once, in order |
| JobCard.PagesReachEnd | jobappasst/streamlit_app/components/job_card.py:133 | the selectable pages reach past the last job |
| SkillQueries.GenerateSkillBasedQueries | jobappasst/scripts/fetch_jobs_by_profile.py:18-74 | a missing profile and a profile without skills raise their errors; unorderable `None` years raise the sort's error; otherwise the queries of the specification |
| SkillQueries.StoredSkillsNamed | jobappasst/src/db/models.py:30-33 | every skill read back from the `skills` rows has a name, the column being NOT NULL |
| SkillQueries.GetProfileNamed | jobappasst/src/db/queries.py:100-103 | the skills of a profile that `get_profile` returns all have a name, so such a profile meets the precondition of `GenerateSkillBasedQueries` |
| SkillQueries.BuildQueries | jobappasst/scripts/fetch_jobs_by_profile.py:52-64 | the query-building loops produce the raw queries: the top names one by one, then the two combinations |
| SkillQueries.DedupeQueries | jobappasst/scripts/fetch_jobs_by_profile.py:67-72 | the seen-set loop keeps each query's first occurrence, in order |
| SkillQueries.NamesOf | jobappasst/scripts/fetch_jobs_by_profile.py:52-53 | one name per skill |
| SkillQueries.Combinations | jobappasst/scripts/fetch_jobs_by_profile.py:55-64 | at most the two combinations, none with fewer than two candidates |
| SkillQueries.QueriesDistinct | jobappasst/scripts/fetch_jobs_by_profile.py:67-72 | no query is generated twice |
| SkillQueries.QueriesBound | jobappasst/scripts/fetch_jobs_by_profile.py:74 | at most `max_queries` queries |
| SkillQueries.QueriesFromRaw | jobappasst/scripts/fetch_jobs_by_profile.py:67-74 | the result is a prefix of the deduplicated raw queries, which keep first-occurrence order |
| SkillQueries.CandidatesAre | jobappasst/scripts/fetch_jobs_by_profile.py:40-48 | a skill is a candidate iff it is in the profile and is an intermediate or advanced technical skill or tool |
| SkillQueries.CandidatesSorted | jobappasst/scripts/fetch_jobs_by_profile.py:40-48 | candidates come in non-increasing years, an absent value counting as 0 |
| SkillQueries.FilterSortedDesc | jobappasst/scripts/fetch_jobs_by_profile.py:46-48 | filtering a list sorted by years keeps it sorted |
| SkillQueries.NoCandidatesNoQueries | jobappasst/scripts/fetch_jobs_by_profile.py:46-74 | without a candidate the result is `[]` |
| SkillQueries.CombinationsCutOff | jobappasst/scripts/fetch_jobs_by_profile.py:52-74 | with at least `max_queries` candidates of distinct names, the result is exactly the first names and the combinations are cut off |
| SkillQueries.TopTwoKept | jobappasst/scripts/fetch_jobs_by_profile.py:55-74 | with fewer candidates than `max_queries`, all of distinct names, the top-two combination survives when it is not itself a name |
| SkillQueries.NamesOfPrefix | jobappasst/scripts/fetch_jobs_by_profile.py:52-53 | the names of a prefix are the prefix of the names |
| ApplyForm.SplitName | jobappasst/scripts/apply_to_jobs.py:34-36 | the first name has no space; without a space the name is the first name and the last name is ""; with one, first + " " + last is the name |
| ApplyForm.CreateFormDataFromProfile | jobappasst/scripts/apply_to_jobs.py:22-59 | a missing name is a `KeyError` and a `None` name an `AttributeError`; otherwise the split name, email and phone defaulting to "", location and URLs passed through, the résumé path, and company and title from the first experience entry or `None` |
| ApplyForm.NameRoundTrip | jobappasst/scripts/apply_to_jobs.py:34-36 | for a given name, the first name has no space and the two parts rebuild the name |
| ApplyForm.OnlyLatestExperience | jobappasst/scripts/apply_to_jobs.py:43-46 | experience entries after the first do not change the form |
| Schema.Database.constructor | jobappasst/src/db/models.py:136-181 | a freshly created database has all six tables empty, every AUTOINCREMENT counter at 1, and satisfies the schema's constraints |
| Schema.RowIndex | jobappasst/src/db/queries.py:146-148 | the lookup by rowid finds the row with that id, and finds none exactly when no row has it |
| Schema.FirstWhere | jobappasst/src/db/queries.py:238-245 | `fetchone()` without `ORDER BY` yields the first matching row in rowid order, or nothing when no row matches |
| Schema.IdsBelowFresh | jobappasst/src/db/models.py:16 | an AUTOINCREMENT id at or above the counter is not yet used by any row |
| Queries.ProfileColsOf | jobappasst/src/db/models.py:14-27 | the profile row is rejected with a NOT NULL error exactly when the name is absent or `None`; otherwise it carries the name and the source file |
| Queries.SkillColsOf | jobappasst/src/db/models.py:29-40 | a skill row is accepted exactly when its name is given and its category and level pass the CHECK constraints; it then belongs to the profile |
| Queries.ExperienceColsOf | jobappasst/src/db/models.py:42-56 | an experience row is accepted exactly when its title and company are given |
| Queries.RowsOfOk | jobappasst/src/db/queries.py:41-74 | the row-by-row inserts succeed exactly when every item is accepted, and then insert one row per item, in order, with consecutive ids |
| Queries.RowsOfErrStays | jobappasst/src/db/queries.py:41-74 | once one insert of the loop fails, the later items do not change the outcome |
| Queries.InsertSkills | jobappasst/src/db/queries.py:41-54 | the skill loop appends exactly the rows of the given skills and advances the counter by their number, or reports the first failing row |
| Queries.InsertExperience | jobappasst/src/db/queries.py:56-74 | the experience loop appends exactly the rows of the given entries and advances the counter by their number, or reports the first failing row |
| Queries.GetProfile | jobappasst/src/db/queries.py:79-117 | a profile is read back exactly when its id exists, with its name given and no LinkedIn or portfolio URL (the table has no such columns) |
| Queries.SkillRoundTrip | jobappasst/src/db/queries.py:43-54 | a stored skill reads back with every given field, absent fields read as `None` |
| Queries.ExperienceRoundTrip | jobappasst/src/db/queries.py:56-74 | a stored experience entry reads back with every given field and the same lists |
| Queries.InsertedSkills | jobappasst/src/db/queries.py:41-54 | the skill rows inserted for a profile read back as the given skills, in order |
| Queries.InsertedExperience | jobappasst/src/db/queries.py:56-74 | the experience rows inserted for a profile read back as the given entries, in order |
| Queries.StoreProfileFails | jobappasst/src/db/queries.py:10-76 | `store_profile` fails exactly when the name is missing or some skill or experience entry violates its table's constraints |
| Queries.StoreProfileValid | jobappasst/src/db/queries.py:10-76 | a successful store keeps every constraint of the schema |
| Queries.StoredChildren | jobappasst/src/db/queries.py:40-74 | after a store, the new profile's skills and experience read back as the given lists, in order |
| Queries.StoreThenGetProfile | jobappasst/src/db/queries.py:10-117 | `get_profile` of the id that `store_profile` returned gives back the stored profile |
| Queries.StoreProfile | jobappasst/src/db/queries.py:10-76 | the method returns the new id and makes the specified change, or returns the error and changes nothing (the transaction rolls back) |
| Queries.UpdateProfileValid | jobappasst/src/db/queries.py:157-225 | a successful update keeps every constraint of the schema |
| Queries.UpdatedChildren | jobappasst/src/db/queries.py:190-223 | after an update, the profile's skills and experience are exactly the given lists: the old rows are deleted and the new ones inserted |
| Queries.UpdateThenGetProfile | jobappasst/src/db/queries.py:157-225 | after an update, `get_profile` gives back the new data |
| Queries.UpdateProfileKeepsOtherChildren | jobappasst/src/db/queries.py:190-223 | the skills and experience of every other profile are unchanged |
| Queries.UpdateProfileKeepsOthers | jobappasst/src/db/queries.py:157-225 | every other profile reads back as before |
| Queries.UpdateProfile | jobappasst/src/db/queries.py:157-225 | an unknown id returns `False` and changes nothing; otherwise `True` with the specified change, or the error with nothing changed |
| Queries.MatchPairsUniqueFilter | jobappasst/src/db/models.py:90 | deleting matches keeps the (profile, job) pairs unique |
| Queries.DeleteProfileValid | jobappasst/src/db/queries.py:136-154 | deleting a profile, with the cascade, keeps every constraint, the foreign keys included |
| Queries.DeleteProfileCascades | jobappasst/src/db/queries.py:136-154 | after the delete the profile is gone, every other profile stays, and exactly the skills, experience, matches and applications of that profile are removed |
| Queries.DeleteProfile | jobappasst/src/db/queries.py:136-154 | returns `True` exactly when the profile existed; then it makes the cascading delete, otherwise it changes nothing |
| Queries.FindProfileBySource | jobappasst/src/db/queries.py:228-245 | the profile found has that source file, and none is found exactly when no profile has it |
| Queries.UpsertProfileValid | jobappasst/src/db/queries.py:248-276 | a successful upsert keeps every constraint |
| Queries.UpsertThenGetProfile | jobappasst/src/db/queries.py:248-276 | the id that `upsert_profile` returns reads back as the given profile |
| Queries.UpsertProfileKeyed | jobappasst/src/db/queries.py:248-276 | a second upsert with the same source file finds the same id and reports it as an update |
| Queries.UpsertProfile | jobappasst/src/db/queries.py:248-276 | returns `(existing id, True)` after an update or `(new id, False)` after an insert, and makes the specified change, or returns the error and changes nothing |
| Queries.JobColsOf | jobappasst/src/db/models.py:58-76 | a job row is rejected exactly when the title or the company is missing, with the NOT NULL error of the first missing one; otherwise it keeps the external id and the requirements |
| Queries.FindJobByExternalId | jobappasst/src/db/queries.py:321-339 | the job found has that external id, and none is found exactly when no job has it |
| Queries.StoreJobFails | jobappasst/src/db/queries.py:283-318 | `store_job` fails exactly when the title or company is missing or the external id is already used (UNIQUE) |
| Queries.StoreJobValid | jobappasst/src/db/queries.py:283-318 | a successful store keeps every constraint |
| Queries.GetJob | jobappasst/src/db/queries.py:440-462 | a job is read back exactly when its id exists |
| Queries.StoreThenGetJob | jobappasst/src/db/queries.py:283-462 | `get_job` of the id that `store_job` returned gives back the stored job, its requirement list included |
| Queries.StoreJob | jobappasst/src/db/queries.py:283-318 | returns the new id and makes the specified change, or the error with nothing changed |
| Queries.UpsertJobValid | jobappasst/src/db/queries.py:342-395 | a successful upsert keeps every constraint |
| Queries.UpsertThenGetJob | jobappasst/src/db/queries.py:342-395 | the id that `upsert_job` returns reads back as the given job |
| Queries.UpsertJobKeyed | jobappasst/src/db/queries.py:353-391 | with a non-empty external id, a second upsert finds the same id and reports an update, and the table grows by at most one row |
| Queries.UpsertJobWithoutExternalId | jobappasst/src/db/queries.py:353-395 | without an external id the job is always inserted, with a new id and `False` |
| Queries.UpsertBlankExternalIdTwice | jobappasst/src/db/queries.py:353-395 | an empty external id is falsy, so the job is inserted again and the UNIQUE constraint rejects the second insert |
| Queries.UpsertJob | jobappasst/src/db/queries.py:342-395 | returns `(existing id, True)` after an update or `(new id, False)` after an insert, and makes the specified change, or the error with nothing changed |
| Queries.StoreJobMatchFails | jobappasst/src/db/queries.py:469-508 | `store_job_match` fails exactly when the score is outside 0..100, the pair already has a match, or the profile or job does not exist |
| Queries.StoreJobMatchValid | jobappasst/src/db/queries.py:469-508 | a successful store keeps every constraint |
| Queries.StoreJobMatch | jobappasst/src/db/queries.py:469-508 | returns the new id and makes the specified change, or the error with nothing changed |
| Queries.UpsertJobMatchValid | jobappasst/src/db/queries.py:511-563 | a successful upsert keeps every constraint |
| Queries.UpsertJobMatchStores | jobappasst/src/db/queries.py:511-563 | after the upsert, the pair's only match is the row with the returned id and the given columns |
| Queries.UpsertJobMatch | jobappasst/src/db/queries.py:511-563 | returns `(existing id, True)` after an update or `(new id, False)` after an insert, and makes the specified change, or the error with nothing changed |
| Queries.Limit | jobappasst/src/db/queries.py:604 | `LIMIT n` keeps a prefix of at most `n` rows, all of them when there are fewer; a negative limit keeps everything |
| Queries.MatchesForProfileOnly | jobappasst/src/db/queries.py:566-615 | only that profile's matches with score at least `min_score` are returned, in non-increasing score order, at most `limit` of them |
| Queries.LimitKeepsBest | jobappasst/src/db/queries.py:603-604 | a row a limit cuts off a sorted list scores no higher than every row kept |
| Queries.MatchesForProfileAll | jobappasst/src/db/queries.py:566-615 | every qualifying match whose job exists is returned unless the limit is full of matches scoring at least as high |
| Queries.GetTopMatches | jobappasst/src/db/queries.py:618-629 | only that profile's matches scoring at least 50, at most `limit` of them |
| Queries.DeleteMatchesValid | jobappasst/src/db/queries.py:632-646 | the delete keeps every constraint and removes exactly the profile's matches |
| Queries.DeleteMatchesForProfile | jobappasst/src/db/queries.py:632-646 | removes all and only the profile's matches and returns how many were removed |
| Tracker.Value | jobappasst/src/automation/tracker.py:8-14 | every status value passes the table's CHECK constraint |
| Tracker.StatusOf | jobappasst/src/automation/tracker.py:8-14 | a text is a status exactly when the CHECK constraint allows it, and then it is that status's value |
| Tracker.StatusValuesRoundTrip | jobappasst/src/automation/tracker.py:8-14 | the five values are distinct and each reads back as its status |
| Tracker.GetApplication | jobappasst/src/automation/tracker.py:70-90 | the application found belongs to that (profile, job) pair, and none is found exactly when no row has the pair |
| Tracker.TrackApplicationFails | jobappasst/src/automation/tracker.py:39-67 | tracking fails exactly when the pair has no application yet and the profile or the job does not exist (foreign keys) |
| Tracker.InsertApplicationValid | jobappasst/src/automation/tracker.py:58-65 | inserting an application for a new pair keeps every constraint and keeps one application per pair |
| Tracker.TrackApplicationValid | jobappasst/src/automation/tracker.py:39-67 | tracking keeps every constraint and never creates a second row for a pair |
| Tracker.TrackApplicationStores | jobappasst/src/automation/tracker.py:39-67 | afterwards the pair's application is the returned id with the given status and notes (even `None`), tracking it again returns the same id, and at most one row was added |
| Tracker.TrackExistingStores | jobappasst/src/automation/tracker.py:48-57 | on an existing pair, the update overwrites that row's status and notes in place and adds no row |
| Tracker.TrackApplication | jobappasst/src/automation/tracker.py:17-67 | returns the application's id and makes the specified change, or the error with nothing changed |
| Tracker.UpdateApplicationRows | jobappasst/src/automation/tracker.py:152-169 | an `UPDATE ... WHERE id = ?` changes exactly the row with that id, and no other row or table |
| Tracker.UpdateApplicationValid | jobappasst/src/automation/tracker.py:152-169 | an update that keeps the profile and job keeps every constraint and one application per pair |
| Tracker.UpdateApplicationStatus | jobappasst/src/automation/tracker.py:134-169 | returns `True`, even for an unknown id, and makes the status update |
| Tracker.UpdateStatusSets | jobappasst/src/automation/tracker.py:152-167 | the row gets the new status; its notes change only when the given notes are truthy; its dates and interview notes are kept |
| Tracker.ScheduleInterview | jobappasst/src/automation/tracker.py:200-228 | returns `True` and makes the interview update |
| Tracker.ScheduleInterviewSets | jobappasst/src/automation/tracker.py:218-226 | the row gets the interview date and notes, its status becomes `interviewing`, and its notes are kept |
| Tracker.AppendedNotes | jobappasst/src/automation/tracker.py:254 | `COALESCE(notes \|\| '\n' \|\| ?, ?)` gives the new notes when the old ones are NULL, and otherwise the old notes, a newline and the new notes, so the old notes are a prefix |
| Tracker.SetFollowUp | jobappasst/src/automation/tracker.py:231-266 | returns `True` and makes the follow-up update |
| Tracker.FollowUpKeepsNotes | jobappasst/src/automation/tracker.py:249-264 | the row gets the follow-up date and keeps its status; without truthy notes its notes are untouched, with them the old notes are kept as a prefix |
| Tracker.StatusesOf | jobappasst/src/automation/tracker.py:185-190 | the profile's statuses are no more than the applications |
| Tracker.CountOf | jobappasst/src/automation/tracker.py:186-189 | `COUNT(*)` of a status is at most the number of rows, and 0 exactly when the status does not occur |
| Tracker.CountOfAppend | jobappasst/src/automation/tracker.py:186-189 | counts add up over concatenation |
| Tracker.StatusGroups | jobappasst/src/automation/tracker.py:185-190 | `GROUP BY status` yields one group per status that occurs, each once, with its count |
| Tracker.StatusesCount | jobappasst/src/automation/tracker.py:185-190 | the count of a status is the number of the profile's applications with it, and the statuses are as many as the profile's applications |
| Tracker.StatusesAllowed | jobappasst/src/db/models.py:99 | every status read from the table passes the CHECK constraint |
| Tracker.CountsAddUp | jobappasst/src/db/models.py:99 | because of the CHECK constraint, the five per-status counts add up to the number of rows |
| Tracker.SumOverSnoc | jobappasst/src/automation/tracker.py:196 | the sum over the statuses extends one status at a time |
| Tracker.SumOverAll | jobappasst/src/automation/tracker.py:196 | the sum over all statuses is the sum of the five entries |
| Tracker.StatsComplete | jobappasst/src/automation/tracker.py:192-197 | the finished statistics have exactly the five status keys and `total`, each status counting the profile's applications with it and `total` counting all of them |
| Tracker.StatsTotal | jobappasst/src/automation/tracker.py:196 | the sum of the per-status counts is the number of the profile's applications |
| Tracker.WriteGroups | jobappasst/src/automation/tracker.py:192-194 | writing the groups into the zero-filled map keeps its keys, stores each group's count, and leaves every other status at its default |
| Tracker.SumStatuses | jobappasst/src/automation/tracker.py:196 | the loop computes the sum of the five status entries |
| Tracker.StatsFromGroups | jobappasst/src/automation/tracker.py:185-194 | after the groups are written, every status entry is that status's count, 0 when it does not occur |
| Tracker.GetApplicationStats | jobappasst/src/automation/tracker.py:172-197 | every status key is present, counting only that profile's applications with that status (0 by default), and `total` is the number of the profile's applications |
| Tracker.PendingFollowUpsAre | jobappasst/src/automation/tracker.py:310-321 | an application is a pending follow-up exactly when it is the profile's, its job exists, its follow-up date is set and due, and its status is neither `rejected` nor `offer` |
| Tracker.RejectedNotPending | jobappasst/src/automation/tracker.py:311-319 | once an application is marked rejected, it is never a pending follow-up |
| JsonList.Hex4RoundTrip | jobappasst/src/db/queries.py:71-73 | the four hex digits of a `\uXXXX` escape read back as the code unit |
| JsonList.EscapeChar | jobappasst/src/db/queries.py:71-73 | every character is written as a non-empty text |
| JsonList.HighSurrogate | jobappasst/src/db/queries.py:71-73 | a character outside the basic plane gets a high surrogate in D800..DBFF |
| JsonList.LowSurrogate | jobappasst/src/db/queries.py:71-73 | and a low surrogate in DC00..DFFF |
| JsonList.ReadList | jobappasst/src/db/queries.py:111-113 | a NULL or empty column reads as the empty list |
| JsonList.ScanEscaped | jobappasst/src/db/queries.py:111-113 | the decoder reads an escaped string back as the original text, up to its closing quote |
| JsonList.ScanItemsOf | jobappasst/src/db/queries.py:111-113 | the decoder reads the items of a written list back as the same strings |
| JsonList.LoadsDumps | jobappasst/src/db/queries.py:303-316 | `json.loads(json.dumps(xs))` gives back `xs` for every list of strings |
| JsonList.ReadListDumps | jobappasst/src/db/queries.py:459 | a list column written by `json.dumps` reads back as the same list |
| JsonList.EscapeAscii | jobappasst/src/db/queries.py:71-73 | with the default `ensure_ascii`, the written text is printable ASCII |
| PyText.LowerIdempotent | jobappasst/src/matching/taxonomy.py:38-48 | `str.lower` applied twice is `str.lower` applied once |
| PyText.Strip | jobappasst/src/matching/taxonomy.py:38-48 | `str.strip` leaves no leading or trailing whitespace and never lengthens the text |
| PyText.StripIdempotent | jobappasst/src/matching/taxonomy.py:38-48 | `str.strip` applied twice is `str.strip` applied once |
| PyText.Find | jobappasst/src/matching/scorer.py:216-222 | `str.find` returns the first occurrence at or after the start, and -1 exactly when there is none |
| PyText.SplitOnce | jobappasst/scripts/apply_to_jobs.py:34-36 | `split(' ', 1)` gives one part, the whole text, exactly when there is no space; otherwise two parts, the first without a space, that rebuild the text around one space |
| PyText.FormatThousands | jobappasst/streamlit_app/utils/formatters.py:16-20 | the `{:,}` text is non-empty and starts with `-` exactly for a negative number |
| PyText.NatToStringValue | jobappasst/streamlit_app/utils/formatters.py:16-20 | the decimal digits of a natural number spell that number, with no leading zero unless the number is zero |
| PyText.IntToStringValue | jobappasst/streamlit_app/utils/formatters.py:16-20 | `int(str(i)) == i` for every integer |
| PyText.NatToStringSplit | jobappasst/streamlit_app/utils/formatters.py:16-20 | the digits of a number of 1000 or more are the digits of its thousands followed by its last three digits, zero-padded |
| PyText.GroupThousandsDigits | jobappasst/streamlit_app/utils/formatters.py:16-20 | removing the commas from the grouped digits of `n` gives `str(n)` |
| PyText.GroupThousandsGrouped | jobappasst/streamlit_app/utils/formatters.py:16-20 | the grouped digits have a comma at every fourth place from the right end and digits elsewhere, so the first group has one to three digits and every comma is followed by exactly three digits |
| PyText.FormatThousandsSpec | jobappasst/streamlit_app/utils/formatters.py:16-20 | `f"{i:,}"` without its commas is `str(i)`, so it spells `i`, and after any minus sign it is grouped by thousands |
| PyText.DollarsSpec | jobappasst/streamlit_app/utils/formatters.py:16-20 | `f"${n:,}"` is a dollar sign followed by the `{:,}` text of `n`, which spells `n` once its commas are removed |
| Seqs.DedupeMembers | jobappasst/scripts/fetch_jobs_by_profile.py:67-72 | deduplication keeps exactly the elements of the input |
| Seqs.DedupeDistinct | jobappasst/scripts/fetch_jobs_by_profile.py:67-72 | the deduplicated list has no repeated element |
| Seqs.DedupeSubsequence | jobappasst/scripts/fetch_jobs_by_profile.py:67-72 | the deduplicated list keeps first-occurrence order |
| Seqs.SortDescCorrect | jobappasst/scripts/fetch_jobs_by_profile.py:40-44 | the stable descending sort orders by non-increasing key and keeps, for every key, the elements with that key in their original order |

## Left out

- The language-model calls (`Anthropic(...)`, `client.messages.create`) are not modelled: the analyser's outcome is a parameter of `Scorer` (an analysis, `None`, or an exception), and `json.loads` of its reply is the parameter `parse`, which says whether the text failed to decode, decoded to something other than an object, or decoded to an object; only the fence slicing around it is concrete.
- Scorer.ParsedAnalysis: a decoded object is taken to hold a number or null for "score", a string or null for "analysis" and lists of strings for "strengths" and "concerns"; an object whose values have other JSON types (a string score, a list of numbers) is not modelled.
- Schema.MatchCols: `match_score` is nullable in the schema (jobappasst/src/db/models.py:83), but the model holds it as a number; both writers, `store_job_match` and `upsert_job_match`, always bind a score, so a NULL score arises only from writes outside these operations.
- Schema.ApplicationCols: `applications.status` has a DEFAULT and a CHECK but no NOT NULL (jobappasst/src/db/models.py:99), yet the model holds it as a string; every writer (`track_application`, `update_application_status`, `schedule_interview`) binds an enum value or a literal, so a NULL status arises only from writes outside these operations.
- Résumé parsing (PDF and DOCX extraction and the profile extractor), the HTTP job search client and the browser automation are I/O against external systems and are not modelled.
- The Streamlit pages and the `display_*` functions of the job card render to a browser; only the filter and the page arithmetic of the job list are modelled.
- The Dagster pipeline calls functions that the program never defines, so there is no behaviour to model; the command-line scripts' argument loops, printing and exits are left out too.
- SQLite connections, commit and rollback are not modelled as such: each operation is one transaction that either makes its whole change or, on a constraint error, none.
- Timestamp columns (`created_at`, `updated_at`, `fetched_at`, `scored_at`, `applied_date`) and the `raw_json` columns are not part of the rows, because their values come from the clock or are never read back by the modelled code.
- `list_profiles` and `list_jobs` order by the `created_at` and `fetched_at` timestamps and are not modelled. `list_applications` is not modelled because it cannot succeed: both of its queries order by `a.applied_at` (jobappasst/src/automation/tracker.py:118 and :127), but the `applications` table declares the column as `applied_date` (jobappasst/src/db/models.py:100), so SQLite rejects every call with "no such column". `get_upcoming_interviews` depends on `DATE('now')` and a date window and is not modelled.
- Tracker.PendingFollowUpsAre: `DATE(follow_up_date) <= DATE('now')` is the parameter `due`, and the result is in rowid order rather than by follow-up date.
- Queries.MatchesForProfileOnly: rows with equal scores come in rowid order, one of the orders SQL allows; the job columns of the `JOIN` are not returned, only the match rows of jobs that exist.
- Tracker.StatusGroups: the groups of `GROUP BY status` come in first-occurrence order, a choice that does not change the statistics.
- Queries.UpsertJob: the `UPDATE ... WHERE external_id = ?` is modelled on the single row that the UNIQUE constraint allows.
- Queries.GetProfile: the profile dictionary is read back without its id, timestamps and `raw_json`; `linkedin_url` and `portfolio_url` read as absent because the table has no such columns.
- The list columns hold decoded lists; `JsonList` models the text `json.dumps` writes and proves that `json.loads` reads it back (`JsonList.ReadListDumps`). JSON values other than an array of strings, and lone surrogate escapes, decode to `None` instead of a Python value or an exception.
- A JSON `null` as a list value in a dictionary (a `TypeError` when iterated) is not modelled: a missing list and an empty list are the same.
- `format_date` parses with `datetime.strptime`/`fromisoformat` and is not modelled; `job_to_display_dict` is `format_location` and `format_salary` (both modelled) plus `format_date` and dictionary defaults, so it is not modelled itself.
- Rendering with `:.1f` is the parameter `formatScore` (and `formatYears` in the normaliser); scores are reals and floating-point rounding is not modelled.
- Text is ASCII: case mapping, `title` and whitespace follow the ASCII rules, not Python's Unicode rules.
- match_display.py's colour bands (75/50) are cosmetic and are not modelled; the formatters' bands (80/60) are.
