# TM_Screening_Pipeline harvesting core, in Dafny

This project models the harvesting logic of the TM_Screening_Pipeline
scripts. That logic sits between the calls to remote services and the
files the scripts write. It has four parts:

- **`mp.py`** harvests ferromagnetic candidates from the Materials
  Project.
  - `chunk_list` greedily splits the exclude list into chunks that fit a
    55-character budget.
  - `safe_api_call` retries a failing call with a fixed delay.
  - The casing-tolerant extractors read ICSD ids and DOIs from documents.
  - The client-side filter keeps ferromagnets whose formation energy is
    negative.
  - `ids_to_download.txt` is built from the ICSD column of the kept rows.
- **`icsd_from_mpids.py`** turns material ids into ICSD ids.
  - `read_mpids` reads the ids.
  - `looks_like_icsd` and `extract_icsd_from_dbids` recognise and extract
    ICSD ids.
  - `detect_dbids_field` probes which field casing the service accepts.
  - Two retry loops follow: the batched Summary harvest, which re-raises
    on its last attempt, and the per-id Provenance harvest, which skips
    an id on its last attempt.
  - The ICSD-like ids are written sorted, one per line.
- **`nemad.py`** queries the NEMAD service.
  - `canonical_formula` and `elements_from_formula` cover both the
    pymatgen path and its regex fallback.
  - `request_json` retries with linear backoff.
  - `fetch_by_formula` and `fetch_by_elements` tag every record with its
    query.
  - `main` validates the database types, orders the columns in
    `flatten_records` and chooses the merge key.
- **`COD_downloader.py`**, through `first_scan`:
  - extracts the CIF tags of every listed file;
  - turns the formula into element tokens by deleting digits;
  - filters the tokens with the allow and ban lists;
  - counts the files that lack a formula;
  - writes the sanitised CSV rows.

Modules, one file each:

- `Text` (`text.dfy`): Python's string operations on `seq<char>`.
  - `strip`, `split` and `join`.
  - Whitespace `split()`, `replace` and `translate`.
  - `sorted` of a set of strings, with string order as Python defines it.
- `PyValues` (`pyvalues.dfy`): the dynamic Python value `Py` and the
  operations the scripts apply to it.
  - A record is `map<string, Py>`.
  - Truthiness, `or`, `getattr` and `dict.get`.
  - Iteration and `str()`.
- `Batching` (`batching.dfy`): fixed-size slicing and the greedy
  chunking of `chunk_list`.
- `Attempts` (`attempts.dfy`): the trace of remote calls and sleeps that
  a retry loop leaves behind.
- `MaterialsProject`, `IcsdFromMpids`, `Nemad` and `CodDownloader`: one
  module per script.

Remote services are function parameters, called "worlds" below. A world
gives the outcome of every attempt, so a retry loop's result and trace
are determined by its world. Sleeps and pauses become trace events:
`Sleep(k)` means the base delay times `k`, and `Throttle(ms)` is the
NEMAD pause. The base delays are 5 s, 1.5 s and 0.8 s.

Each loop of the source is a method. It is proved equal to a function,
and the lemmas state the source's promises about that function. The
module-level `all_rows` of `mp.py` is the field of the class
`MaterialsProject.Harvest`. The append-mode CSV file of `first_scan` is
the field of `CodDownloader.Datalist`.

## Model

| member | source | states |
|---|---|---|
| Batching.ChunkList | TM_Screening_Pipeline/mp.py:32-45 | The chunks form a greedy chunking of the list. They concatenate to the list in order. Every chunk is non-empty except a possible leading empty one. A chunk of two or more items fits the budget. No chunk could also have taken the first item of the next chunk. An empty list gives no chunks. The loop keeps `current_length` equal to the joined width of the open chunk. |
| Batching.ChunkExtend | TM_Screening_Pipeline/mp.py:40-42 | Appending an item to the open chunk when it fits keeps the chunking greedy. |
| Batching.ChunkBreak | TM_Screening_Pipeline/mp.py:36-39 | Closing the open chunk and starting a new one with an item that does not fit keeps the chunking greedy. |
| Batching.WidthSnoc | TM_Screening_Pipeline/mp.py:35 | Appending an item widens the joined chunk by the item's length, plus one separator unless the chunk was empty. |
| Batching.GreedyUnique | TM_Screening_Pipeline/mp.py:32-45 | Two greedy chunkings of the same list are equal, so the greedy property alone fixes chunk_list's output. |
| Batching.FirstChunkMaximal | TM_Screening_Pipeline/mp.py:36-42 | A greedy chunking never closes its first chunk earlier than another greedy chunking of the same list. |
| Batching.ChunksWithinBudget | TM_Screening_Pipeline/mp.py:35-42 | When every item is at most `max_chars` long, every chunk is non-empty and its comma-joined width is at most `max_chars`. |
| Batching.LeadingEmptyChunk | TM_Screening_Pipeline/mp.py:36-38 | For a non-empty list, the first chunk is empty exactly when the first item alone exceeds the budget. |
| Batching.SlicesPartition | TM_Screening_Pipeline/mp.py:139-141 | `Slices` models the id batches. The id batches cover the list exactly and in order. Each holds 1 to `size` ids, and every batch but the last holds exactly `size`. |
| Attempts.BackoffShape | TM_Screening_Pipeline/mp.py:48-55 | `k` failed attempts, each followed by a sleep, make `k` calls and `k` sleeps. The i-th sleep has multiplier i under linear backoff and 1 under a fixed delay. |
| Attempts.StoppedAtShape | TM_Screening_Pipeline/icsd_from_mpids.py:72-79 | A loop that stops at attempt `n` without sleeping after it made `n` calls and `n - 1` sleeps, with multipliers 1 to `n - 1` in order. |
| MaterialsProject.BannedWidths | TM_Screening_Pipeline/mp.py:100-104 | The banned symbols through "U" join to exactly 55 characters. Adding "Pu" makes 58, and the remaining seven join to 20. |
| MaterialsProject.BannedChunks | TM_Screening_Pipeline/mp.py:100-104 | Every greedy chunking of the banned list under 55 characters, chunk_list's included, is the first nineteen symbols and then the other seven. |
| MaterialsProject.SafeApiCall | TM_Screening_Pipeline/mp.py:47-55 | The first successful attempt's result is returned after exactly that many calls, with a sleep after each earlier failure. If all `max(0, retries)` attempts fail, the result is None, every attempt failed and each was followed by a sleep, the last included. |
| MaterialsProject.SafeApiCallBudget | TM_Screening_Pipeline/mp.py:48-53 | At most `retries` calls, one fixed-delay sleep per failed call, and no sleep after a success. |
| MaterialsProject.DbIdsPrecedence | TM_Screening_Pipeline/mp.py:57-65 | `ExtractDbIds` models `_extract_dbids`. The result is `database_IDs` when that is a dict, else `database_Ids` when that is a dict, else `{}`. |
| MaterialsProject.CasingTolerance | TM_Screening_Pipeline/mp.py:57-65 | The same ids come out whichever of the two casings carries them. |
| MaterialsProject.IcsdEntry | TM_Screening_Pipeline/mp.py:69 | A falsy `icsd` entry is replaced by `[]`. |
| MaterialsProject.IcsdIdsAbsent | TM_Screening_Pipeline/mp.py:67-73 | `ExtractIcsdIds` models `_extract_icsd_ids`. The column is `""` when the `icsd` entry is absent or falsy, or when it cannot be iterated. |
| MaterialsProject.IcsdIdsRoundTrip | TM_Screening_Pipeline/mp.py:67-71 | Splitting the column on `;` gives `str` of each item of the `icsd` entry in order. This holds for any entry that can be iterated (list, tuple, string or dict) when it has an item and no rendered item contains `;`. |
| MaterialsProject.RefDoi | TM_Screening_Pipeline/mp.py:87-90 | A reference contributes a DOI only when it is a non-blank string, and then stripped. A truthy non-string DOI contributes nothing. |
| MaterialsProject.ExtractDois | TM_Screening_Pipeline/mp.py:75-93 | The nested loops produce the `;`-join of the sorted set of DOIs over origins[].references[]. |
| MaterialsProject.AddReferenceDois | TM_Screening_Pipeline/mp.py:84-90 | The inner loop adds the DOI of every reference to the set. |
| MaterialsProject.OriginDoisStep | TM_Screening_Pipeline/mp.py:81-92 | An origin whose references cannot be iterated ends the scan with what was gathered before it. Otherwise its DOIs are added and the scan goes on. |
| MaterialsProject.DoiSetClean | TM_Screening_Pipeline/mp.py:89-90 | `DoiSet` is the DOI set the loops of `_extract_dois_from_origins` gather. Every gathered DOI is non-empty and stripped. |
| MaterialsProject.DoiColumnRoundTrip | TM_Screening_Pipeline/mp.py:93 | The DOI column is strictly increasing and duplicate-free, and splitting it on `;` gives back the sorted DOI set. |
| MaterialsProject.ByMaterialIdKeys | TM_Screening_Pipeline/mp.py:176-177 | The id dictionary has exactly the documents' ids as keys. |
| MaterialsProject.ByMaterialIdLast | TM_Screening_Pipeline/mp.py:176-177 | Each id maps to the last document that carries it. |
| MaterialsProject.Lookup | TM_Screening_Pipeline/mp.py:181-182 | `dict.get` gives the entry for a present key and None for a missing one. |
| MaterialsProject.AdmitMeaning | TM_Screening_Pipeline/mp.py:185-188 | `Admit` models the client-side filter. A material passes exactly when its magnetism document exists with ordering "FM" and its thermo document has a numeric formation energy below zero. A present non-numeric energy raises TypeError, and that is the only error. |
| MaterialsProject.BuildRow | TM_Screening_Pipeline/mp.py:190-215 | The row of a kept document is RowOf: the material id, the `;`-join of `str` of its elements, the `;`-join of its magnetism document's magmoms, its ICSD column and its DOI column. Building it returns the TypeError the two joins raise. |
| MaterialsProject.RowOfMeaning | TM_Screening_Pipeline/mp.py:190-215 | `RowOf` fails exactly when the document's `elements` cannot be iterated, or when its magnetism document has `magmoms` and they cannot be iterated, and the failure is TypeError. Otherwise the row carries the material id, both joins, the ICSD column and the sorted DOI column, and the magmoms column is `""` when the attribute is absent. |
| MaterialsProject.JoinedStrsRoundTrip | TM_Screening_Pipeline/mp.py:201 | `JoinedStrs` models the elements and magmoms joins. Splitting a joined column on `;` gives `str` of each item in order, when there is an item and no rendered item holds `;`. |
| MaterialsProject.KeptAdmitted | TM_Screening_Pipeline/mp.py:179-188 | `Kept` models the loop over one batch. Every kept document belongs to the batch and passes the filter. |
| MaterialsProject.KeptComplete | TM_Screening_Pipeline/mp.py:179-217 | When the batch ends without error, the filter gave a verdict on every document. Every document that passes it is kept, and its row was built. |
| MaterialsProject.KeptRows | TM_Screening_Pipeline/mp.py:179-217 | There is one row per kept document, in order, and each row is that document's `RowOf` with its magnetism document looked up by id. |
| MaterialsProject.KeptAfterError | TM_Screening_Pipeline/mp.py:185-188 | Once the filter or a row build has raised, later documents change nothing. |
| MaterialsProject.StrippedPieces | TM_Screening_Pipeline/mp.py:230 | Every piece kept is the non-empty strip of an input piece, and every piece that strips to something non-empty is kept. |
| MaterialsProject.RowIcsd | TM_Screening_Pipeline/mp.py:229-230 | The ids a row contributes are non-empty and free of `;`. |
| MaterialsProject.IcsdIdSet | TM_Screening_Pipeline/mp.py:227-231 | Every collected ICSD id is non-empty and free of `;`. |
| MaterialsProject.IdsFileRoundTrip | TM_Screening_Pipeline/mp.py:231-233 | The id file lists each id once in strictly increasing order, one per line with a final newline. Reading it back line by line gives the ids. |
| MaterialsProject.MaterialIds | TM_Screening_Pipeline/mp.py:126 | The distinct ids are exactly the ids of the search results. |
| MaterialsProject.BatchesCover | TM_Screening_Pipeline/mp.py:126-141 | Whatever order the distinct ids are listed in, the 500-id batches cover them in order and every material lands in some batch. |
| MaterialsProject.Harvest.constructor | TM_Screening_Pipeline/mp.py:21 | `all_rows` starts empty. |
| MaterialsProject.Harvest.ProcessBatch | TM_Screening_Pipeline/mp.py:172-217 | A batch without summary data adds no row. Otherwise the rows of the documents the filter keeps are appended in summary order, with thermo and magnetism documents looked up by id. The first TypeError, from the filter or from building a row, is returned and ends the run. |
| MaterialsProject.Harvest.AppendKept | TM_Screening_Pipeline/mp.py:179-217 | The loop appends exactly the rows of `Kept`, in order, and returns the error that stopped it: the filter's or a row build's TypeError. |
| MaterialsProject.Harvest.IdsFileText | TM_Screening_Pipeline/mp.py:227-233 | The id file is the sorted, distinct, stripped, non-blank `;`-pieces of every non-empty ICSD column, one per line. |
| MaterialsProject.IdsFileStep | TM_Screening_Pipeline/mp.py:228-230 | One row of the scan adds exactly that row's ICSD ids to the list, as a set. |
| MaterialsProject.EmptyColumnNoIds | TM_Screening_Pipeline/mp.py:229 | An empty ICSD column contributes no id. |
| IcsdFromMpids.IdSetMembers | TM_Screening_Pipeline/icsd_from_mpids.py:37-40 | The id set holds exactly the non-blank stripped texts of the present cells. |
| IcsdFromMpids.ReadMpidsMeaning | TM_Screening_Pipeline/icsd_from_mpids.py:33-40 | `ReadMpids` models `read_mpids`. A missing `ID` column raises its ValueError, and so does a column without ids. Otherwise the ids are strictly increasing and are exactly the non-blank stripped cell texts. A column holding some id always succeeds. |
| IcsdFromMpids.ReadMpidsTrimmed | TM_Screening_Pipeline/icsd_from_mpids.py:37-40 | Every id read is non-empty and stripped. |
| IcsdFromMpids.LooksLikeIcsdMeaning | TM_Screening_Pipeline/icsd_from_mpids.py:43-44 | `LooksLikeIcsd` models `looks_like_icsd`. A text looks like an ICSD id exactly when it holds a digit and nothing but digits and dots. |
| IcsdFromMpids.LooksLikeIcsdClean | TM_Screening_Pipeline/icsd_from_mpids.py:43-44 | An ICSD-like text is non-empty and has no whitespace or newline, so it is its own strip. |
| IcsdFromMpids.NonBlankAll | TM_Screening_Pipeline/icsd_from_mpids.py:51 | When no item is blank, every `str(x)` is kept, in order. |
| IcsdFromMpids.ExtractIcsdMeaning | TM_Screening_Pipeline/icsd_from_mpids.py:47-52 | `ExtractIcsdFromDbIds` models `extract_icsd_from_dbids`. The result is the non-blank `str` of each item of a list or tuple `icsd` entry of a dict, in order. A non-dict, a dict without `icsd`, or an entry of another kind gives `[]`. |
| IcsdFromMpids.ProbeIds | TM_Screening_Pipeline/icsd_from_mpids.py:58 | A probe sends the first three ids, or all of them when there are fewer. |
| IcsdFromMpids.DetectDbIdsFieldMeaning | TM_Screening_Pipeline/icsd_from_mpids.py:55-64 | `DetectDbIdsField` models `detect_dbids_field`. The field is `database_IDs` exactly when the first probe succeeds. It is `database_Ids` exactly when the first probe raises MPRestError and the second succeeds. Any other exception propagates. Only the first three ids matter. |
| IcsdFromMpids.SummarySettleMeaning | TM_Screening_Pipeline/icsd_from_mpids.py:72-78 | Every attempt before the stopping one raised MPRestError. The stopping one did not, or it was the last. |
| IcsdFromMpids.SummaryAttempts | TM_Screening_Pipeline/icsd_from_mpids.py:72-79 | A chunk's outcome is that of its stopping attempt. Its trace is linear backoff between attempts, and there is no sleep after the last attempt because it re-raises. |
| IcsdFromMpids.DocsUnionMembers | TM_Screening_Pipeline/icsd_from_mpids.py:81-83 | An id is gathered exactly when some document yields it. |
| IcsdFromMpids.AddDocs | TM_Screening_Pipeline/icsd_from_mpids.py:81-83 | `icsd.update` over the documents adds the union of their ids. |
| IcsdFromMpids.FetchFromSummary | TM_Screening_Pipeline/icsd_from_mpids.py:67-87 | `SummaryWith` is the Summary specification. The result and trace are those of the Summary specification: the batches in order, then the union of their ids or the first exception. |
| IcsdFromMpids.SummaryBatches | TM_Screening_Pipeline/icsd_from_mpids.py:67-87 | A zero batch raises range's ValueError. A negative batch or an empty list makes no request. `retries <= 0` with ids leaves `docs` unbound. |
| IcsdFromMpids.BatchLoop | TM_Screening_Pipeline/icsd_from_mpids.py:69-83 | The loop over `range(0, len(mpids), batch)` equals the batch specification, pass by pass. |
| IcsdFromMpids.NextBatch | TM_Screening_Pipeline/icsd_from_mpids.py:70-83 | One pass either adds its chunk's ids and shortens what is left, or ends with the exception of the chunk's stopping attempt. |
| IcsdFromMpids.BatchesOverSlices | TM_Screening_Pipeline/icsd_from_mpids.py:69-83 | The harvest succeeds exactly when every contiguous slice succeeds. Its ids are then exactly those of some document of some slice. |
| IcsdFromMpids.BatchesCalls | TM_Screening_Pipeline/icsd_from_mpids.py:69-79 | The harvest makes at most `retries` calls per slice. |
| IcsdFromMpids.ProvenanceSettleMeaning | TM_Screening_Pipeline/icsd_from_mpids.py:93-105 | Every attempt before the stopping one failed. The stopping one succeeded, or it was the last. |
| IcsdFromMpids.ProvenanceAgreesWithHarvest | TM_Screening_Pipeline/icsd_from_mpids.py:96-99 | The provenance path reads the same ICSD ids as the casing-tolerant `_extract_dbids` of mp.py. |
| IcsdFromMpids.IdIcsdMeaning | TM_Screening_Pipeline/icsd_from_mpids.py:93-105 | An id whose every attempt fails adds nothing and raises nothing. Otherwise it adds the ids of its first successful attempt. |
| IcsdFromMpids.ProvenanceAttempts | TM_Screening_Pipeline/icsd_from_mpids.py:93-105 | The attempt loop for one id gives that id's ids and its trace of calls and linear sleeps. |
| IcsdFromMpids.FetchFromProvenance | TM_Screening_Pipeline/icsd_from_mpids.py:90-108 | The result is the union of what each id adds, and the trace is each id's attempts in order. |
| IcsdFromMpids.ProvenanceMembers | TM_Screening_Pipeline/icsd_from_mpids.py:91-99 | An id is in the output exactly when some material id adds it. |
| IcsdFromMpids.ProvenanceCalls | TM_Screening_Pipeline/icsd_from_mpids.py:93-105 | At most `retries` calls per material id, and none when `retries <= 0`. |
| IcsdFromMpids.OutputIdsMeaning | TM_Screening_Pipeline/icsd_from_mpids.py:153 | The listed ids are strictly increasing. They are exactly the strips of the harvested ids that look like ICSD ids. |
| IcsdFromMpids.OutputTextRoundTrip | TM_Screening_Pipeline/icsd_from_mpids.py:154 | `OutputText` models the text written to the output file. An empty list writes `""`. Otherwise splitting the text on newlines gives the ids and an empty tail. |
| IcsdFromMpids.OutputMonotone | TM_Screening_Pipeline/icsd_from_mpids.py:146-153 | Adding the provenance ids never drops an id the summary alone would list. |
| IcsdFromMpids.RunScript | TM_Screening_Pipeline/icsd_from_mpids.py:128-154 | main reads the ids, detects the casing once, harvests the Summary endpoint, optionally adds the Provenance ids, and writes the ICSD-like ones. The first exception ends it. |
| IcsdFromMpids.RunOutputShape | TM_Screening_Pipeline/icsd_from_mpids.py:128-154 | Whatever main writes is empty or strictly increasing ICSD-like ids, one per line, newline-terminated. |
| Nemad.ReadMpCsvMeaning | TM_Screening_Pipeline/nemad.py:54-64 | `ReadMpCsv` models `read_mp_csv`. Without `ID`, or without both composition columns, the matching ValueError is raised. Otherwise `compound` is preferred over `pretty_formula` and renamed to `_mp_formula`, and every other column keeps its place. |
| Nemad.CanonicalFormulaMeaning | TM_Screening_Pipeline/nemad.py:67-76 | `CanonicalFormula` models `canonical_formula`. Non-strings and blank strings give `""`. Without pymatgen, or when pymatgen cannot parse the formula, the result is the strip. Otherwise it is pymatgen's reduced formula. Without pymatgen the function is idempotent. |
| Nemad.CapitalTokens | TM_Screening_Pipeline/nemad.py:83 | Every regex match is one upper-case letter, optionally followed by one lower-case letter. |
| Nemad.CapitalTokensMembers | TM_Screening_Pipeline/nemad.py:83 | The matches are exactly the symbols that start at the upper-case letters of the text. |
| Nemad.TokenSound | TM_Screening_Pipeline/nemad.py:83 | Every match is the symbol at some upper-case letter. |
| Nemad.TokenComplete | TM_Screening_Pipeline/nemad.py:83 | The symbol at every upper-case letter is matched. |
| Nemad.ElementsFromFormula | TM_Screening_Pipeline/nemad.py:79-88 | The element list is strictly increasing, so it is sorted and duplicate-free. |
| Nemad.ElementsFallback | TM_Screening_Pipeline/nemad.py:80-83 | Without pymatgen the elements are the distinct symbols at the upper-case letters, ascending. The list is empty exactly when the formula has no upper-case letter. |
| Nemad.ElementsInstalled | TM_Screening_Pipeline/nemad.py:84-88 | With pymatgen the elements are its symbols, and a formula it cannot parse gives `[]`. |
| Nemad.RequestSettleMeaning | TM_Screening_Pipeline/nemad.py:94-103 | Every attempt before the stopping one got a non-200 response. The stopping one got 200 or raised, or it was the last. |
| Nemad.RequestJson | TM_Screening_Pipeline/nemad.py:91-106 | `RequestResult` models `request_json`. The result is the JSON of the first 200 response, or None when that body is not JSON. It is None after `retries` other responses. A raising `requests.get` propagates. `retries <= 0` raises UnboundLocalError at the final warning. |
| Nemad.RequestFirstOk | TM_Screening_Pipeline/nemad.py:94-100 | If attempt `a` is the first 200 response, the result is its JSON after exactly `a` calls. |
| Nemad.RequestTraceShape | TM_Screening_Pipeline/nemad.py:94-106 | At most `retries` calls. Sleeps fall only between calls, the k-th being 0.8 s times k. A positive budget makes at least one call. |
| Nemad.FormulaPlanMeaning | TM_Screening_Pipeline/nemad.py:111-124 | `PlanFor` is the part of the loop body before the request. Exactly the non-empty formulas are queried, at `/api/<type>/formula` with the formula and the limit. Their records are tagged with `_query_formula` and `_db_type`. |
| Nemad.ElementsPlanMeaning | TM_Screening_Pipeline/nemad.py:133-149 | Exactly the formulas with elements are queried, at `/api/<type>/search`. The elements are sent comma-joined and split back into the element list, and `exact_match` is sent as `true`/`false`. Records get the three tags. |
| Nemad.ElementsNoComma | TM_Screening_Pipeline/nemad.py:134-138 | No element symbol holds a comma. |
| Nemad.ResultsMeaning | TM_Screening_Pipeline/nemad.py:120-122 | `Results` models the `results` test. A missing, falsy or `results`-less body is skipped. A dict's `results` list is iterated as it is. |
| Nemad.TaggedMeaning | TM_Screening_Pipeline/nemad.py:122-125 | `Tagged` models the tagging of every item. Tagging succeeds exactly when every item is a dict. Each record then carries every tag and keeps its other fields. |
| Nemad.TagAll | TM_Screening_Pipeline/nemad.py:122-125 | The in-place tagging loop yields the tagged records of the response, in order. |
| Nemad.FetchOne | TM_Screening_Pipeline/nemad.py:111-125 | One formula: no request without a plan. Otherwise the request, then the `max(0, sleep_ms)` pause, then the tagged records. |
| Nemad.FetchAll | TM_Screening_Pipeline/nemad.py:109-126 | The loop appends each formula's records in formula order. The first exception ends it. |
| Nemad.FetchByFormula | TM_Screening_Pipeline/nemad.py:109-126 | fetch_by_formula is the shared loop with the formula endpoint. |
| Nemad.FetchByElements | TM_Screening_Pipeline/nemad.py:129-151 | fetch_by_elements is the shared loop with the element search. |
| Nemad.PlanStepMeaning | TM_Screening_Pipeline/nemad.py:114-125 | A formula's records carry its tags. It makes at most 3 calls, and a completed step makes at least one call and exactly one pause. |
| Nemad.FetchedMeaning | TM_Screening_Pipeline/nemad.py:109-126 | Every record carries the tags of a queried formula. The loop makes at most 3 calls per queried formula and none for skipped ones. A completed loop pauses `max(0, sleep_ms)` exactly once per queried formula. |
| Nemad.NormalizedAllIndex | TM_Screening_Pipeline/nemad.py:194 | Each type argument is stripped and lower-cased. |
| Nemad.ValidateTypes | TM_Screening_Pipeline/nemad.py:192-197 | The validation loop gives the normalised types, or the SystemExit of the first unknown one. |
| Nemad.CheckAllMeaning | TM_Screening_Pipeline/nemad.py:193-197 | Checking keeps every item, in order, exactly when all are valid. Otherwise it exits naming the first invalid one. |
| Nemad.TypesResultMeaning | TM_Screening_Pipeline/nemad.py:192-197 | Validation succeeds exactly when every argument normalises to a type in `VALID_TYPES`, and then gives them in order. Otherwise the SystemExit names the first that does not. |
| Nemad.ChainMembers | TM_Screening_Pipeline/nemad.py:215-227 | A completed type loop completed every pass, and each record comes from some pass. |
| Nemad.FetchType | TM_Screening_Pipeline/nemad.py:216-226 | A type is fetched by formula with `--by-formula`, and by elements otherwise. |
| Nemad.HarvestAll | TM_Screening_Pipeline/nemad.py:214-227 | The records of all types are gathered type after type. The first exception ends it. |
| Nemad.PlanTagsType | TM_Screening_Pipeline/nemad.py:122-125 | Every query tags its records with its database type. |
| Nemad.HarvestTyped | TM_Screening_Pipeline/nemad.py:214-227 | Every harvested record's `_db_type` is one of the requested types. |
| Nemad.MpFormulas | TM_Screening_Pipeline/nemad.py:210-211 | The queried formulas are strictly increasing and are exactly the canonical formulas of the MP cells, a missing cell read as `nan`. |
| Nemad.MpFormulasStripped | TM_Screening_Pipeline/nemad.py:210-211 | Without pymatgen every queried formula is stripped and canonicalises to itself. |
| Nemad.Present | TM_Screening_Pipeline/nemad.py:170 | `front` holds exactly the preferred columns that are present. |
| Nemad.Others | TM_Screening_Pipeline/nemad.py:171 | `rest` holds exactly the columns not in `front`. |
| Nemad.PresentSingle | TM_Screening_Pipeline/nemad.py:170 | One preferred column is kept exactly when it is present. |
| Nemad.PresentAppend | TM_Screening_Pipeline/nemad.py:170 | The `front` filter distributes over concatenation. With PresentSingle this fixes `front` as the present preferred columns in their listed order. |
| Nemad.OthersSingle | TM_Screening_Pipeline/nemad.py:171 | One column is kept in `rest` exactly when it is not in `front`. |
| Nemad.OthersAppend | TM_Screening_Pipeline/nemad.py:171 | The `rest` filter distributes over concatenation. With OthersSingle this fixes `rest` as the remaining columns in their original order. |
| Nemad.FlattenColumnsMeaning | TM_Screening_Pipeline/nemad.py:154-172 | `FlattenColumns` models the column order of `flatten_records`. No records give no columns. Otherwise the order is a permutation of the distinct columns: first the present preferred columns, then exactly `Others(cols, front)`, the remaining columns in their order in `cols`. |
| Nemad.MergeKeyMeaning | TM_Screening_Pipeline/nemad.py:247-254 | `MergeKey` models the choice of the merge column. No merge for an empty result. Otherwise `Material_Name` if present, else `_query_formula` if present, else `_query_formula_hint`. |
| Nemad.HarvestQueryTagged | TM_Screening_Pipeline/nemad.py:111-151 | Every harvested record carries its query tag as a string: `_query_formula` by formula, `_query_formula_hint` by elements. |
| Nemad.MergeKeyIsColumn | TM_Screening_Pipeline/nemad.py:247-254 | Take records that all carry a query tag, in a frame where every non-dict field is a column. Then a merge key exists and is one of the columns. |
| Nemad.HarvestMergeKey | TM_Screening_Pipeline/nemad.py:214-254 | After a harvest that found records, the merge column main picks exists in the frame, so indexing it cannot miss. |
| CodDownloader.DigitsAreDigits | TM_Screening_Pipeline/COD_downloader.py:57 | The deleted characters are exactly the decimal digits. |
| CodDownloader.TagLineMeaning | TM_Screening_Pipeline/COD_downloader.py:51 | The tag line raises (None) exactly when the tag is absent. Otherwise it is the newline-free text after the tag's first occurrence. It ends at the next newline, the next occurrence of the tag, or the end. |
| CodDownloader.FieldMeaning | TM_Screening_Pipeline/COD_downloader.py:74-97 | `Field` models the extraction of one tag field. A field is `na` when its tag is absent. Otherwise it is drawn from its tag line, holds no newline, and neither starts nor ends with a quote. |
| CodDownloader.PrettyFormulaMeaning | TM_Screening_Pipeline/COD_downloader.py:50-53 | `PrettyFormula` models the formula field. The formula is absent exactly when `_chemical_formula_sum` is, and it has no whitespace at either end. |
| CodDownloader.Elements | TM_Screening_Pipeline/COD_downloader.py:57 | Every token is non-empty, with no digit and no whitespace. |
| CodDownloader.ElementsKeep | TM_Screening_Pipeline/COD_downloader.py:57 | Every character of the formula that is neither a digit nor whitespace survives in some token. |
| CodDownloader.FractionalToken | TM_Screening_Pipeline/COD_downloader.py:57 | A symbol followed by `0.5` gives the single token symbol+`.` (e.g. `Fe.`), which is not the symbol. |
| CodDownloader.Matches | TM_Screening_Pipeline/COD_downloader.py:68 | The matches are exactly the list entries that are tokens. |
| CodDownloader.AcceptedMeaning | TM_Screening_Pipeline/COD_downloader.py:62-72 | `Accepted` models the allow/ban filter. A file is kept exactly when some allow-list entry is a token and no ban-list entry is. Fe together with O is refused. |
| CodDownloader.SpacedYttriumNeverMatches | TM_Screening_Pipeline/COD_downloader.py:57-68 | The allow-list entry `" Y"` is never a token, so it never matches. |
| CodDownloader.Parse | TM_Screening_Pipeline/COD_downloader.py:50-101 | `Parse` builds the record: each field with `Field`, the id with `CodId` and the comment with `Comment1`. The record's formula is absent exactly when `_chemical_formula_sum` is. |
| CodDownloader.RowFields | TM_Screening_Pipeline/COD_downloader.py:105-116 | `Row` models the CSV row. A row has eleven fields. |
| CodDownloader.RowSanitised | TM_Screening_Pipeline/COD_downloader.py:105-116 | The token list and the comment hold no comma, the DOI neither starts nor ends with one, and `mag_sites` is `0`. |
| CodDownloader.CsvLineRoundTrip | TM_Screening_Pipeline/COD_downloader.py:105-116 | When no field holds a comma, the row ends in a newline. Splitting the rest on commas gives the fields and the empty field after the trailing comma. |
| CodDownloader.MissingNotKept | TM_Screening_Pipeline/COD_downloader.py:50-72 | A file without a formula tokenises `na` and is never kept. |
| CodDownloader.RowsAndMissing | TM_Screening_Pipeline/COD_downloader.py:46-118 | No file is both counted as missing and written, so rows plus missing count are at most the number of paths. |
| CodDownloader.RowsKept | TM_Screening_Pipeline/COD_downloader.py:46-118 | Each written row is the row of a listed path whose file passed the filter. |
| CodDownloader.Datalist.constructor | TM_Screening_Pipeline/COD_downloader.py:39 | The datalist starts with the file's existing text. |
| CodDownloader.Datalist.Append | TM_Screening_Pipeline/COD_downloader.py:117-118 | Writing in append mode adds the text at the end. |
| CodDownloader.FirstScan | TM_Screening_Pipeline/COD_downloader.py:38-120 | The scan appends the header and then the row of every kept file, in path order. The count it returns is the number of files without `_chemical_formula_sum`. |

## Left out

- Remote calls, files and clocks are parameters or are left out:
  - `MPRester`, `requests.get` and the ICSD and COD files are world functions.
  - `sys.exit`, logging, tqdm, `print` and the real sleeps are left out.
- The Materials Project search loop over allowed elements and banned chunks is left out. The query itself is remote, so the model starts from its results.
- MaterialsProject.BuildRow: the row keeps five of the 21 columns: the material id, the elements, the magmoms, the ICSD ids and the DOIs.
  - The other sixteen are reads of requested attributes and conditionals on the same documents. None of them raises when the documents carry the requested fields.
  - The two joins can raise, and the model includes their TypeError.
  - datalist.csv is written row by row and is what icsd_from_mpids.py and nemad.py later read. Those scripts take its `ID`, `compound` and `pretty_formula` columns as their own inputs, so the model does not connect the writer to the readers.
- `download_structures`, the Excel copy, the JSON and Parquet dumps, and `ensure_directories` are left out (file I/O).
- pandas is modelled only where its result matters:
  - `read_csv` becomes the column list or the `ID` column.
  - `json_normalize` becomes the already-normalised column list.
  - The left merge on the canonical formula (nemad.py:256) is not modelled; only the choice of its key column is.
- pymatgen is a parameter. A reduced-formula function and an element-set function stand for `Composition`.
- Python `str()` of a float is exact only for integral values below 10^16 in magnitude. Other floats render as the placeholder `<float>`, and attribute objects as `<object>`. Lists, tuples and dicts render as their repr. Formation energies are `real`.
- Dict iteration order is sorted key order, since maps are unordered. It matters only when an `icsd` entry is itself a dict.
- `--retries` of nemad.py is parsed but never passed on, so every request uses the default of 3 (`DefaultRetries`). The model follows the code.
- `--debug` output, the `count_before` bookkeeping and the progress bars are left out (output only).
- `make_path_list` and `reorganize` in COD_downloader.py are left out (directory walking and file moves).
- An `open()` that fails for a listed COD path is not modelled: every path reads as some text.
- The COD scan counts lines with `readlines()` only for the progress bar, which is left out.
- `str()` of the tokens list is Python's list repr; the model renders it with the same quoting only for printable tokens.
- Dafny's `int` is unbounded, and Python's is too, so no width is modelled.
- IcsdFromMpids.LooksLikeIcsdMeaning: digits are the ASCII digits `0`-`9`. Python's `str.isdigit` also accepts other Unicode digits, such as `²` or `١`, so `looks_like_icsd` accepts texts made of those that the model rejects.
- Nemad.NormalizedAllIndex: lower-casing maps only the ASCII capitals `A`-`Z`. Python's `str.lower` also lowers other capitals, such as `É`, so an unknown type holding one is named in the SystemExit with that letter still upper-case.
