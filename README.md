# eIDSR → Zebra synchroniser, modelled in Dafny

The synchroniser copies tracked entities (case records) and their enrollments
from an origin tracker server (eIDSR) to a destination one (Zebra). It does
three things, and this project models each of them.

1. **Record translation** (`translation.dfy`, module `Translation`).
   - `get_mapped_ou` looks up an origin organisation unit and returns the last
     `/` segment of its mapped path, or None. Python's `str.split` is modelled
     by `Split`, together with its inverse `Join`.
   - `map_attributes` turns a list of `{attribute, value}` pairs into a new list.
     It drops ids outside a non-empty allowed set, renames ids through
     `trackedEntityAttributesToTEI`, silently drops unmapped ids, and rewrites
     values through the `code_lookup` table. That table maps each option's
     `code` to its `mappedCode`.
2. **Sync-queue accumulation** (`sync_queue.dfy`, module `Sync`). The
   `run_sync` loop goes through the programs `PROG_EBS` and then `PROG_IBS`.
   For each enrollment instance of a program:
   - the tracked entity is skipped if it is already queued, but only while
     `PROG_EBS` is being processed;
   - a fetch-and-translate step runs;
   - the target OU is checked on the destination;
   - the entity is stored under its id.
   The queue is a Python dict: `Queue` holds its entries and its keys in
   insertion order.
3. **Submission** (`submission.dfy`, module `Submission`).
   - `post_data_to_zebra` posts the whole payload as one batch.
   - If the batch is rejected, `post_individual_teis` posts each tracked
     entity once.
   - The analytics job is requested iff something was persisted.
   - Every request is recorded, in order, as a `Request`.

`run.dfy` (module `Run`) puts these together as `run_sync`. It chooses the
start date, builds the queue, and submits its values when the queue is not empty.

Every answer from the servers is an input, not behaviour:
- `Origin`: the instance list per (program, start date), the full tracked
  entity per id, and the attribute ids declared on each program;
- `Destination`: OU existence, and the existing destination enrollment id;
- the batch outcome, as a boolean;
- the outcome of the i-th single post, as a function of i.

The clock enters only as the two formatted dates, in `Clock`.

A few points where the code could be read another way; the model follows the code as written:
- **Program priority.** A "first program to queue an entity wins" reading
  does not match the code. The skip guard applies only while processing
  `PROG_EBS`, so a `PROG_IBS` instance overwrites an entry stored by
  `PROG_EBS` (`eidsr-zebra-sync.py:204-205`, `:247`). `Sync.FinalQueue` states
  the outcome: `PROG_IBS` wins when it admits the entity; otherwise the
  `PROG_EBS` entry stays.
- **OU fallback.** An "unmapped OU passes through unchanged into the record"
  reading does not match the code either: the source OU is used only for the existence check.
  The stored `orgUnit` (of the entity and of each enrollment) is `mapped_ou`
  itself, which may be None (`Sync.UnmappedOuStoredWithoutOrgUnit`).
- **Empty mapped segment.** The fallback test is `mapped_ou if mapped_ou else
  source_ou`, which uses Python truthiness. So an empty last segment (a mapped
  path ending in `/`) also falls back to the source OU for the check
  (`Sync.TargetOu`, stated by `Sync.CheckedOu`).
- **Scope.** None of the following are in this code, so none are modelled:
  pagination, earliest-creation-time deduplication, OU memoisation, a `custom`
  period and exit codes.

## Model

| member | source | states |
|---|---|---|
| Translation.Split | eidsr-zebra-sync.py:143 | `str.split('/')` always yields at least one part, so taking the last part `[-1]` is always defined |
| Translation.SplitJoin | eidsr-zebra-sync.py:143 | `str.split('/')` loses nothing: joining its parts with the separator gives the string back, and no part contains the separator |
| Translation.LastPartIsFinalSegment | eidsr-zebra-sync.py:143 | `split(sep)[-1]` is the longest suffix without `sep`: a suffix with no `sep`, equal to the whole string when there is no `sep`, and otherwise preceded by a `sep` |
| Translation.MappedOuIsLastSegment | eidsr-zebra-sync.py:137-144 | `get_mapped_ou` is None exactly when the source OU is not a key of `organisationUnits`; otherwise it is the final `/` segment of `mappedId`: a suffix with no `/`, and equal to `mappedId` when that has no `/` |
| Translation.CodeLookupLastWins | eidsr-zebra-sync.py:152-153 | a code is in `code_lookup` iff some option has both `code` and `mappedCode` with that code; its entry is the `mappedCode` of the last such option |
| Translation.ValueRewriteByOptions | eidsr-zebra-sync.py:152-164 | a value equal to a usable option's `code` becomes the `mappedCode` of the last such option; any other value passes through unchanged |
| Translation.MapAll | eidsr-zebra-sync.py:155-169 | the rewritten list is never longer than the input list |
| Translation.OriginsSelectInOrder | eidsr-zebra-sync.py:155-169 | the output is the translation of a strictly increasing selection of input positions, so input order is kept; every input that translates is selected |
| Translation.MapAllConcat | eidsr-zebra-sync.py:155-169 | rewriting a concatenation is the concatenation of the rewrites (the loop appends in input order) |
| Translation.OutputsComeFromMappedInputs | eidsr-zebra-sync.py:159-165 | every output pair comes from an input whose id is a key of `trackedEntityAttributesToTEI` (and is allowed, when filtering): the output id is that key's `mappedId`, and the value is the input value after the option rewrite |
| Translation.NoFilterWhenAllowedEmpty | eidsr-zebra-sync.py:159-160 | with `allowed_ids` None or empty nothing is filtered: the result equals the unfiltered one |
| Translation.FilterDropsDisallowed | eidsr-zebra-sync.py:159-160 | with a non-empty `allowed_ids` the result equals rewriting only the inputs whose id is allowed; inputs outside the set contribute nothing |
| Translation.MapAttributes | eidsr-zebra-sync.py:147-169 | the loop's list is `MappedAttributes` of its inputs; `log_warnings` does not affect the result |
| Sync.Queue.Put | eidsr-zebra-sync.py:247 | dict assignment keeps a dict's keys distinct and equal to its entries; a new key goes last, an existing key keeps its place and gets the new value |
| Sync.CheckedOu | eidsr-zebra-sync.py:211-217 | covers `Sync.TargetOu` (`mapped_ou if mapped_ou else source_ou`): the probed OU is `source_ou` exactly when the OU is unmapped or its mapped path is empty or ends in `/`; otherwise it is the non-empty last segment of the mapped path |
| Sync.Visit | eidsr-zebra-sync.py:202-254 | one instance: a queued entity is left alone while processing `PROG_EBS`. An entity whose target OU fails the existence check changes nothing. Otherwise the new entry replaces any old one. No other key changes |
| Sync.VisitAllEffect | eidsr-zebra-sync.py:202-254 | after one program pass, an entity among the instances that passes the existence check and is not protected by the `PROG_EBS` skip holds this program's entry; every other key is as before |
| Sync.VisitAllWellFormed | eidsr-zebra-sync.py:212-254 | a program pass keeps the queue well formed: each entry's `trackedEntity` is its key, its `orgUnit` is `mapped_ou`, and it passed the existence check on `mapped_ou` or, failing that, `source_ou` |
| Sync.QueueAfterWellFormed | eidsr-zebra-sync.py:194-254 | every queue the program loop builds is well formed in that sense |
| Sync.UnmappedProgramFails | eidsr-zebra-sync.py:194-200 | the run stops on an unmapped program exactly when some program is unmapped, and it stops on the first such program |
| Sync.UnmappedProgramSticks | eidsr-zebra-sync.py:200 | the failure on an unmapped program ends the loop: later programs change nothing |
| Sync.FinalQueue | eidsr-zebra-sync.py:181-254 | after `[PROG_EBS, PROG_IBS]`, an admitted entity among the `PROG_IBS` instances holds its `PROG_IBS` entry. Otherwise an admitted entity among the `PROG_EBS` instances holds its `PROG_EBS` entry. Nothing else is queued |
| Sync.UnmappedOuStoredWithoutOrgUnit | eidsr-zebra-sync.py:211-251 | an entity whose OU is unmapped but exists on the destination is admitted, and is stored with `orgUnit` None, on the entity and on each enrollment |
| Sync.OfProgram | eidsr-zebra-sync.py:225-226 | every selected enrollment belongs to the current program |
| Sync.OfProgramConcat | eidsr-zebra-sync.py:225-226 | selecting from a concatenation concatenates the selections (source order is kept) |
| Sync.OfProgramCount | eidsr-zebra-sync.py:225-226 | the selection has exactly as many elements as the source has enrollments of the program |
| Sync.PayloadIsProgramEnrollments | eidsr-zebra-sync.py:224-245 | the payload enrollments correspond one to one, in order, to the source enrollments of the current program. Each has `program = target_prog_id`, `status = "ACTIVE"`, `orgUnit = mapped_ou`, the destination enrollment id, the source `enrolledAt` and the rewritten attributes |
| Sync.PayloadOncePerEntity | eidsr-zebra-sync.py:247-257 | `list(sync_queue.values())` lists each queued entity exactly once |
| Sync.BuildEnrollments | eidsr-zebra-sync.py:224-245 | the enrollment loop builds exactly `PayloadEnrollments` |
| Sync.ProcessInstances | eidsr-zebra-sync.py:202-254 | the instance loop leaves the queue `VisitAll` describes |
| Sync.BuildSyncQueue | eidsr-zebra-sync.py:194-254 | the program loop yields the queue `QueueAfter` describes, or the unmapped-program failure |
| Submission.SuccessesPositive | eidsr-zebra-sync.py:51-69 | the success count is at most the number of posts, and it is positive iff some single post was accepted |
| Submission.SinglePosts | eidsr-zebra-sync.py:52-56 | one single post per tracked entity: the fallback sends exactly as many `{'trackedEntities': [tei]}` payloads as there are entities |
| Submission.PostIndividualTeis | eidsr-zebra-sync.py:48-69 | each tracked entity is posted alone, exactly once, in list order; the result is true iff some post was accepted |
| Submission.PostDataToZebra | eidsr-zebra-sync.py:72-112 | the flag read by `finally` is true iff the batch was accepted or, after a rejected non-empty batch, some single post was; the requests are the batch, then the fallback posts, then analytics when the flag is set |
| Submission.BatchFirst | eidsr-zebra-sync.py:76-91 | the first request is always the batch, carrying the whole list |
| Submission.AnalyticsIffPersisted | eidsr-zebra-sync.py:103-112 | analytics is requested iff the batch or some single post was accepted, and then only once, as the last request |
| Submission.FallbackPostsEachOnceInOrder | eidsr-zebra-sync.py:93-107 | if the batch is accepted, only analytics follows it. A rejected empty batch sends nothing more. A rejected non-empty batch is followed by every entity posted once, in order |
| Run.RunSync | eidsr-zebra-sync.py:176-263 | the run's outcome is the unmapped-program failure, nothing sent for an empty queue, or the submission of the queue's values |
| Run.SubmittedRun | eidsr-zebra-sync.py:256-261 | a submitted payload is non-empty, lists each tracked entity once, and holds only entities that passed the existence check; analytics is requested iff something was persisted |
| Run.NothingSentWithoutQueue | eidsr-zebra-sync.py:256-263 | something is submitted iff every program is mapped and the queue is non-empty |

## Left out

- HTTP calls through `dhis2.Api` are inputs, not behaviour. This covers `get_program_attributes`, `check_ou_exists_in_zebra`, the enrollment and tracked-entity fetches, the destination enrollment query, the tracker posts and the analytics post. A fetch that raises (and would end the run) is not modelled: each oracle always answers.
- Each oracle is a function, so it answers the same question the same way within a run; repeated identical HTTP calls could differ in reality.
- JSON parsing of a rejected call's `description`, and the response bodies (`rj`, the stats), only affect log lines and the ignored return value of `post_data_to_zebra`.
- A successful batch post whose response body is not JSON would raise after the post. This is not modelled: an accepted batch counts as persisted.
- The analytics call's `RequestException` is caught in the source and does not change the outcome; the model records only that the request is sent.
- An analytics answer that is not JSON would make `response.json()` raise `ValueError` inside the `finally` block; that error is not caught and would end `run_sync`. This is not modelled: a requested analytics job always ends the submission normally.
- File I/O is not modelled: `load_mappings`, writing `zebra_payload.json` (its content is the payload passed to the submission), and the auth files.
- Run.StartDate: the start date is an opaque choice between the clock's two formatted dates and "1900-01-01"; its contract is only the three-way case split on the period, and nothing proves that the dates are the day before or the week's Monday.
- The clock is not modelled: `datetime.utcnow()` and `strftime` enter only as the two formatted dates in `Run.Clock`.
- All `print` logging is left out, including the unmapped-attribute warning.
- Missing dictionary keys that would raise `KeyError` are not modelled: `mappedId` in an OU or attribute entry, `orgUnit` of a fetched entity, `program` or `enrolledAt` of an enrollment. Only a missing `trackerPrograms` entry is modelled; it ends the run before anything is sent.
- Attribute ids and values that are absent (Python None from `.get`) are not modelled: attributes carry strings.
