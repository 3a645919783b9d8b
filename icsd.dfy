/**
 * The ICSD id harvest from a list of Materials Project ids
 * (icsd_from_mpids.py): read the ids from the `ID` column of a CSV file,
 * probe which casing of the database-ids field the Summary endpoint
 * accepts, collect ICSD cross-references from the Summary endpoint in
 * batches with linear backoff, optionally add those the Provenance
 * endpoint reports one id at a time, and write the digit-like ids, sorted,
 * one per line.
 *
 * The remote endpoints are parameters. A probe world gives the exception,
 * if any, that a probe of a list of ids with a field name raises; a
 * summary world gives, for a chunk of ids and an attempt number, the
 * documents or the exception that attempt gets; a provenance world does
 * the same for one id.
 */
module IcsdFromMpids {
  import opened Text
  import opened PyValues
  import opened Batching
  import opened Attempts
  import MaterialsProject

  type ProbeWorld = (seq<string>, string) -> Option<Exception>
  type BatchWorld<D> = (seq<string>, nat) -> Result<seq<D>>
  type SummaryWorld = BatchWorld<Record>
  type ProvenanceWorld = (string, nat) -> Result<Record>

  // ---------------------------------------------------------------------
  // read_mpids
  // ---------------------------------------------------------------------

  /** The id a cell holds: its stripped text, unless the cell is missing or that text is empty. */
  function CellId(cell: Py): Option<string> {
    if cell.PyNone? then None
    else
      var id := Strip(Str(cell));
      if id == "" then None else Some(id)
  }

  /** `[str(x).strip() for x in column.dropna().astype(str) if str(x).strip()]` */
  function CellIds(cells: seq<Py>): seq<string> {
    FilterMap(CellId, cells)
  }

  /** `s` is the id some cell holds. */
  predicate IsCellId(s: string, cells: seq<Py>) {
    exists c <- cells :: CellId(c) == Some(s)
  }

  /**
   * read_mpids, given the `ID` column of the CSV file (None when the file
   * has no such column; a PyNone cell is a missing value, which `dropna`
   * removes). The ids are the stripped cell texts, blanks dropped, then
   * deduplicated and sorted.
   */
  function ReadMpids(csvPath: string, column: Option<seq<Py>>): Result<seq<string>> {
    if column.None? then Err(ValueError("'ID' column not found in " + csvPath))
    else
      var ids := CellIds(column.value);
      if ids == [] then Err(ValueError("No MP IDs found in datalist.csv"))
      else Ok(SortSet(IdSet(column.value)))
  }

  /** `set(ids)` */
  function IdSet(cells: seq<Py>): set<string> {
    set s | s in CellIds(cells)
  }

  lemma IdSetMembers(cells: seq<Py>)
    ensures forall s :: s in IdSet(cells) <==> IsCellId(s, cells)
  {
    FilterMapMembers(CellId, cells);
  }

  /**
   * A missing column and a column without ids are the two errors; otherwise
   * the ids are strictly increasing, stripped, and exactly the non-blank
   * stripped texts of the present cells.
   */
  lemma ReadMpidsMeaning(csvPath: string, column: Option<seq<Py>>)
    ensures column.None? ==> ReadMpids(csvPath, column) == Err(ValueError("'ID' column not found in " + csvPath))
    ensures column.Some? && (forall c <- column.value :: CellId(c).None?) ==>
      ReadMpids(csvPath, column) == Err(ValueError("No MP IDs found in datalist.csv"))
    ensures ReadMpids(csvPath, column).Ok? ==> column.Some? && StrictlySorted(ReadMpids(csvPath, column).value)
    ensures ReadMpids(csvPath, column).Ok? ==>
      forall s :: s in ReadMpids(csvPath, column).value <==> IsCellId(s, column.value)
    ensures column.Some? && (exists c <- column.value :: CellId(c).Some?) ==> ReadMpids(csvPath, column).Ok?
  {
    if column.Some? {
      FilterMapMembers(CellId, column.value);
      IdSetMembers(column.value);
      var ids := CellIds(column.value);
      if ids != [] {
        assert ids[0] in ids;
      }
      if exists c <- column.value :: CellId(c).Some? {
        var c :| c in column.value && CellId(c).Some?;
        assert CellId(c).value in ids;
      }
    }
  }

  /** Every id read is stripped: neither end is whitespace. */
  lemma ReadMpidsTrimmed(csvPath: string, column: Option<seq<Py>>)
    requires ReadMpids(csvPath, column).Ok?
    ensures forall s <- ReadMpids(csvPath, column).value :: s != "" && Trimmed(s)
  {
    ReadMpidsMeaning(csvPath, column);
  }

  // ---------------------------------------------------------------------
  // looks_like_icsd
  // ---------------------------------------------------------------------

  /** `t.isdigit()` for ASCII text: non-empty and all digits. */
  predicate IsDigits(t: string) {
    t != [] && forall c <- t :: IsDigit(c)
  }

  /** looks_like_icsd: with the dots removed, what is left is all digits. */
  predicate LooksLikeIcsd(s: string) {
    IsDigits(Delete(s, {'.'}))
  }

  /** An ICSD-like text holds at least one digit and nothing but digits and dots. */
  lemma LooksLikeIcsdMeaning(s: string)
    ensures LooksLikeIcsd(s) <==> (exists c <- s :: IsDigit(c)) && (forall c <- s :: IsDigit(c) || c == '.')
  {
    var t := Delete(s, {'.'});
    if LooksLikeIcsd(s) {
      assert t[0] in t;
    }
    if (exists c <- s :: IsDigit(c)) && (forall c <- s :: IsDigit(c) || c == '.') {
      var c :| c in s && IsDigit(c);
      assert c in t;
    }
  }

  /** An ICSD-like text has no whitespace (so it is its own strip) and no newline. */
  lemma LooksLikeIcsdClean(s: string)
    requires LooksLikeIcsd(s)
    ensures forall c <- s :: !IsSpace(c)
    ensures '\n' !in s && s != ""
    ensures Strip(s) == s
  {
    LooksLikeIcsdMeaning(s);
    StripNoSpace(s);
  }

  // ---------------------------------------------------------------------
  // extract_icsd_from_dbids
  // ---------------------------------------------------------------------

  /** `str(x)`, kept when it is not blank. */
  function NonBlankText(x: Py): Option<string> {
    if Strip(Str(x)) != "" then Some(Str(x)) else None
  }

  /** `[str(x) for x in items if str(x).strip()]` */
  function NonBlank(items: seq<Py>): seq<string> {
    FilterMap(NonBlankText, items)
  }

  /** When no item is blank, the filter keeps every `str(x)`, in order. */
  lemma {:induction false} NonBlankAll(items: seq<Py>)
    requires forall x <- items :: Strip(Str(x)) != ""
    ensures NonBlank(items) == StrAll(items)
  {
    if items != [] {
      assert forall x <- items[1..] :: x in items;
      assert items[0] in items;
      NonBlankAll(items[1..]);
    }
  }

  /** The items of the `icsd` entry of a dict when that entry is a non-empty list or tuple; none otherwise. */
  function IcsdItems(dbids: Py): seq<Py> {
    if dbids.PyDict? && "icsd" in dbids.entries then
      match dbids.entries["icsd"]
      case PyList(items) => items
      case PyTuple(elems) => elems
      case _ => []
    else []
  }

  /**
   * extract_icsd_from_dbids: for a dict, the non-blank `str` of each item of
   * its `icsd` entry when that (or `[]`, if it is absent or falsy) is a
   * list or tuple; nothing for anything else.
   */
  function ExtractIcsdFromDbIds(dbids: Py): seq<string> {
    if dbids.PyDict? then
      var icsd := Or(Get(dbids.entries, "icsd", PyNone), PyList([]));
      if icsd.PyList? then NonBlank(icsd.items)
      else if icsd.PyTuple? then NonBlank(icsd.elems)
      else []
    else []
  }

  /**
   * What comes out is the non-blank `str` of each item of a list or tuple
   * `icsd` entry of a dict, in order; nothing comes out of a value that is
   * not a dict, of a dict without that entry, or of an entry of any other
   * kind.
   */
  lemma ExtractIcsdMeaning(dbids: Py)
    ensures ExtractIcsdFromDbIds(dbids) == NonBlank(IcsdItems(dbids))
    ensures !dbids.PyDict? || "icsd" !in dbids.entries ==> ExtractIcsdFromDbIds(dbids) == []
    ensures forall s :: s in ExtractIcsdFromDbIds(dbids) <==> exists x <- IcsdItems(dbids) :: NonBlankText(x) == Some(s)
  {
    FilterMapMembers(NonBlankText, IcsdItems(dbids));
    if dbids.PyDict? {
      var entry := Get(dbids.entries, "icsd", PyNone);
      if !Truthy(entry) {
        assert IcsdItems(dbids) == [];
      }
    }
  }

  /** The ids as a set. */
  function IcsdSet(dbids: Py): set<string> {
    set s | s in ExtractIcsdFromDbIds(dbids)
  }

  // ---------------------------------------------------------------------
  // detect_dbids_field
  // ---------------------------------------------------------------------

  /** The ids a probe sends: `mpids[:3]`. */
  function ProbeIds(mpids: seq<string>): (r: seq<string>)
    ensures |r| == if |mpids| <= 3 then |mpids| else 3
    ensures r == mpids[..|r|]
  {
    if |mpids| <= 3 then mpids else mpids[..3]
  }

  /**
   * detect_dbids_field: `database_IDs` when the first probe succeeds; on an
   * MPRestError, `database_Ids` when the second probe succeeds; any other
   * exception of the first probe and every exception of the second one
   * propagate.
   */
  function DetectDbIdsField(probe: ProbeWorld, mpids: seq<string>): Result<string> {
    match probe(ProbeIds(mpids), "database_IDs")
    case None => Ok("database_IDs")
    case Some(e) =>
      if e != MPRestError then Err(e)
      else
        match probe(ProbeIds(mpids), "database_Ids")
        case None => Ok("database_Ids")
        case Some(e2) => Err(e2)
  }

  /**
   * The detected field is one of the two casings; the legacy one is chosen
   * exactly when the first probe fails with MPRestError and the second
   * succeeds; only the first three ids matter.
   */
  lemma DetectDbIdsFieldMeaning(probe: ProbeWorld, mpids: seq<string>, others: seq<string>)
    ensures DetectDbIdsField(probe, mpids).Ok? ==>
      DetectDbIdsField(probe, mpids).value == "database_IDs" || DetectDbIdsField(probe, mpids).value == "database_Ids"
    ensures DetectDbIdsField(probe, mpids) == Ok("database_IDs") <==> probe(ProbeIds(mpids), "database_IDs").None?
    ensures DetectDbIdsField(probe, mpids) == Ok("database_Ids") <==>
      probe(ProbeIds(mpids), "database_IDs") == Some(MPRestError) && probe(ProbeIds(mpids), "database_Ids").None?
    ensures probe(ProbeIds(mpids), "database_IDs").Some? && probe(ProbeIds(mpids), "database_IDs") != Some(MPRestError) ==>
      DetectDbIdsField(probe, mpids) == Err(probe(ProbeIds(mpids), "database_IDs").value)
    ensures ProbeIds(others) == ProbeIds(mpids) ==> DetectDbIdsField(probe, others) == DetectDbIdsField(probe, mpids)
  {
  }

  // ---------------------------------------------------------------------
  // fetch_from_summary
  // ---------------------------------------------------------------------

  /** An outcome the summary loop retries: an MPRestError. */
  predicate Retried<D>(outcome: Result<seq<D>>) {
    outcome.Err? && outcome.error == MPRestError
  }

  /**
   * The attempt at which the summary loop for `chunk` stops, searching from
   * attempt `n`: the first that succeeds, raises something other than
   * MPRestError, or is the last.
   */
  function SummarySettle<D>(world: BatchWorld<D>, chunk: seq<string>, retries: int, n: nat): (m: nat)
    requires 1 <= n <= retries
    ensures n <= m <= retries
    decreases retries - n
  {
    if !Retried(world(chunk, n)) || n == retries then n else SummarySettle(world, chunk, retries, n + 1)
  }

  /** Every attempt before the stopping one raised MPRestError; the stopping one did not, or was the last. */
  lemma {:induction false} SummarySettleMeaning<D>(world: BatchWorld<D>, chunk: seq<string>, retries: int, n: nat)
    requires 1 <= n <= retries
    ensures forall a | n <= a < SummarySettle(world, chunk, retries, n) :: Retried(world(chunk, a))
    ensures !Retried(world(chunk, SummarySettle(world, chunk, retries, n))) || SummarySettle(world, chunk, retries, n) == retries
    decreases retries - n
  {
    if Retried(world(chunk, n)) && n < retries {
      SummarySettleMeaning(world, chunk, retries, n + 1);
    }
  }

  /**
   * The attempt loop for one chunk: the outcome of the stopping attempt (its
   * documents, or the exception that leaves the loop), after a linear
   * backoff of 1.5 s times the attempt number between attempts.
   */
  method SummaryAttempts<D>(world: BatchWorld<D>, chunk: seq<string>, retries: int) returns (outcome: Result<seq<D>>, trace: seq<Event>)
    requires retries >= 1
    ensures outcome == world(chunk, SummarySettle(world, chunk, retries, 1))
    ensures trace == StoppedAt(SummarySettle(world, chunk, retries, 1), true)
  {
    var attempt := 1;
    outcome := world(chunk, attempt);
    trace := [Call(attempt)];
    while Retried(outcome) && attempt < retries
      invariant 1 <= attempt <= retries
      invariant outcome == world(chunk, attempt)
      invariant SummarySettle(world, chunk, retries, 1) == SummarySettle(world, chunk, retries, attempt)
      invariant trace == StoppedAt(attempt, true)
      decreases retries - attempt
    {
      trace := trace + [Sleep(attempt)];
      attempt := attempt + 1;
      outcome := world(chunk, attempt);
      trace := trace + [Call(attempt)];
    }
  }

  /** The ICSD ids of one document: those of its `field` attribute. */
  function DocIcsd(doc: Record, field: string): set<string> {
    IcsdSet(Get(doc, field, PyNone))
  }

  /** `DocIcsd` for a fixed field, as the per-document step of the batch loop. */
  function FieldIcsd(field: string): Record -> set<string> {
    doc => DocIcsd(doc, field)
  }

  /** The union of what `extract` yields for each document. */
  function DocsUnion<D>(extract: D -> set<string>, docs: seq<D>): set<string> {
    if docs == [] then {} else DocsUnion(extract, docs[..|docs| - 1]) + extract(docs[|docs| - 1])
  }

  lemma {:induction false} DocsUnionMembers<D>(extract: D -> set<string>, docs: seq<D>)
    ensures forall s :: s in DocsUnion(extract, docs) <==> exists d <- docs :: s in extract(d)
  {
    if docs != [] {
      var init := docs[..|docs| - 1];
      DocsUnionMembers(extract, init);
      assert docs == init + [docs[|docs| - 1]];
    }
  }

  /** The inner loop of a batch: `icsd.update(...)` for every document. */
  method AddDocs<D>(icsd: set<string>, docs: seq<D>, extract: D -> set<string>) returns (r: set<string>)
    ensures r == icsd + DocsUnion(extract, docs)
  {
    r := icsd;
    for j := 0 to |docs|
      invariant r == icsd + DocsUnion(extract, docs[..j])
    {
      assert docs[..j + 1][..j] == docs[..j];
      r := r + extract(docs[j]);
    }
    assert docs[..|docs|] == docs;
  }

  /** `acc` added to a successful result; an error passes through. */
  function Plus(acc: set<string>, r: Result<set<string>>): Result<set<string>> {
    match r
    case Ok(s) => Ok(acc + s)
    case Err(e) => Err(e)
  }

  /**
   * The batch loop over the ids still to go, `rest`, taken `batch` at a
   * time: the union of what `extract` yields for every document of every
   * batch, or the first exception; and the attempts made.
   */
  function Batches<D>(world: BatchWorld<D>, rest: seq<string>, batch: nat, retries: int, extract: D -> set<string>)
    : (Result<set<string>>, seq<Event>)
    requires batch >= 1 && retries >= 1
    decreases |rest|
  {
    if rest == [] then (Ok({}), [])
    else
      var n := if |rest| < batch then |rest| else batch;
      var m := SummarySettle(world, rest[..n], retries, 1);
      match world(rest[..n], m)
      case Err(e) => (Err(e), StoppedAt(m, true))
      case Ok(docs) =>
        var tail := Batches(world, rest[n..], batch, retries, extract);
        (Plus(DocsUnion(extract, docs), tail.0), StoppedAt(m, true) + tail.1)
  }

  /**
   * fetch_from_summary with the per-document step `extract`: a zero batch
   * is the ValueError of `range`; a negative batch or no ids make no
   * request; no attempts at all (`retries <= 0`) leave `docs` unbound.
   */
  function SummaryWith<D>(world: BatchWorld<D>, mpids: seq<string>, batch: int, retries: int, extract: D -> set<string>)
    : (Result<set<string>>, seq<Event>)
  {
    if batch == 0 then (Err(ValueError("range() arg 3 must not be zero")), [])
    else if batch < 0 || mpids == [] then (Ok({}), [])
    else if retries <= 0 then (Err(UnboundLocalError), [])
    else Batches(world, mpids, batch, retries, extract)
  }

  /** fetch_from_summary as a function. */
  function Summary(world: SummaryWorld, mpids: seq<string>, batch: int, retries: int, field: string): (Result<set<string>>, seq<Event>) {
    SummaryWith(world, mpids, batch, retries, FieldIcsd(field))
  }

  /** fetch_from_summary */
  method FetchFromSummary(world: SummaryWorld, mpids: seq<string>, batch: int, retries: int, field: string)
    returns (r: Result<set<string>>, trace: seq<Event>)
    ensures (r, trace) == Summary(world, mpids, batch, retries, field)
  {
    r, trace := SummaryBatches(world, mpids, batch, retries, FieldIcsd(field));
  }

  /** fetch_from_summary, `extract` being the per-document step. */
  method SummaryBatches<D>(world: BatchWorld<D>, mpids: seq<string>, batch: int, retries: int, extract: D -> set<string>)
    returns (r: Result<set<string>>, trace: seq<Event>)
    ensures (r, trace) == SummaryWith(world, mpids, batch, retries, extract)
  {
    if batch == 0 {
      return Err(ValueError("range() arg 3 must not be zero")), [];
    }
    if batch < 0 {
      // range(0, len(mpids), batch) is empty for a negative step
      return Ok({}), [];
    }
    r, trace := BatchLoop(world, mpids, batch, retries, extract);
  }

  /**
   * The loop over `range(0, len(mpids), batch)` for a positive batch: its
   * `i` is implicit, `rest` being `mpids[i:]`.
   */
  method BatchLoop<D>(world: BatchWorld<D>, mpids: seq<string>, batch: nat, retries: int, extract: D -> set<string>)
    returns (r: Result<set<string>>, trace: seq<Event>)
    requires batch >= 1
    ensures retries >= 1 ==> r == Batches(world, mpids, batch, retries, extract).0
    ensures retries >= 1 ==> trace == Batches(world, mpids, batch, retries, extract).1
    ensures retries <= 0 ==> r == (if mpids == [] then Ok({}) else Err(UnboundLocalError)) && trace == []
  {
    var icsd: set<string> := {};
    trace := [];
    var rest := mpids;
    ghost var whole := if retries >= 1 then Batches(world, rest, batch, retries, extract) else (Ok({}), []);
    if retries >= 1 {
      PlusEmpty(whole.0);
      assert trace + whole.1 == whole.1;
    }
    while rest != []
      invariant retries <= 0 ==> rest == mpids && trace == [] && icsd == {}
      invariant retries >= 1 ==> whole.0 == Plus(icsd, Batches(world, rest, batch, retries, extract).0)
      invariant retries >= 1 ==> whole.1 == trace + Batches(world, rest, batch, retries, extract).1
      decreases |rest|
    {
      if retries <= 0 {
        // the attempt loop never ran, so `docs` was never bound
        return Err(UnboundLocalError), trace;
      }
      var error;
      icsd, trace, rest, error := NextBatch(world, rest, batch, retries, extract, icsd, trace);
      if error.Some? {
        return Err(error.value), trace;
      }
    }
    assert icsd + {} == icsd && trace + [] == trace;
    r := Ok(icsd);
  }

  /**
   * One pass of the batch loop: the attempts for the chunk `rest[:batch]`,
   * then the union of its documents' ids into `icsd`; or the exception that
   * leaves the loop. What is still to be gathered is unchanged.
   */
  method NextBatch<D>(world: BatchWorld<D>, rest: seq<string>, batch: nat, retries: int, extract: D -> set<string>,
                      icsd: set<string>, trace: seq<Event>)
    returns (icsd': set<string>, trace': seq<Event>, rest': seq<string>, error: Option<Exception>)
    requires rest != [] && batch >= 1 && retries >= 1
    ensures error.None? ==> |rest'| < |rest|
    ensures error.None? ==> Plus(icsd, Batches(world, rest, batch, retries, extract).0) ==
                            Plus(icsd', Batches(world, rest', batch, retries, extract).0)
    ensures error.None? ==> trace + Batches(world, rest, batch, retries, extract).1 ==
                            trace' + Batches(world, rest', batch, retries, extract).1
    ensures error.Some? ==> Plus(icsd, Batches(world, rest, batch, retries, extract).0) == Err(error.value)
    ensures error.Some? ==> trace + Batches(world, rest, batch, retries, extract).1 == trace'
  {
    var n := if |rest| < batch then |rest| else batch;
    var outcome, t := SummaryAttempts(world, rest[..n], retries);
    if outcome.Err? {
      return icsd, trace + t, rest, Some(outcome.error);
    }
    rest' := rest[n..];
    var tail := Batches(world, rest', batch, retries, extract);
    PlusAssoc(icsd, DocsUnion(extract, outcome.value), tail.0);
    assert trace + (t + tail.1) == (trace + t) + tail.1;
    trace' := trace + t;
    icsd' := AddDocs(icsd, outcome.value, extract);
    error := None;
  }

  lemma PlusEmpty(r: Result<set<string>>)
    ensures Plus({}, r) == r
  {
    if r.Ok? {
      assert {} + r.value == r.value;
    }
  }

  lemma PlusAssoc(a: set<string>, b: set<string>, r: Result<set<string>>)
    ensures Plus(a, Plus(b, r)) == Plus(a + b, r)
  {
    if r.Ok? {
      assert a + (b + r.value) == (a + b) + r.value;
    }
  }

  /** The documents the stopping attempt for `chunk` returns, or its exception. */
  function ChunkOutcome<D>(world: BatchWorld<D>, chunk: seq<string>, retries: int): Result<seq<D>>
    requires retries >= 1
  {
    world(chunk, SummarySettle(world, chunk, retries, 1))
  }

  /**
   * The batch loop succeeds exactly when every batch of `Slices(rest, batch)`
   * (contiguous, in order, `batch` ids each but the last) succeeds, and
   * then its ids are those `extract` yields for some document of some batch.
   */
  lemma {:induction false} BatchesOverSlices<D>(world: BatchWorld<D>, rest: seq<string>, batch: nat, retries: int, extract: D -> set<string>)
    requires batch >= 1 && retries >= 1
    ensures Batches(world, rest, batch, retries, extract).0.Ok? <==>
      forall c <- Slices(rest, batch) :: ChunkOutcome(world, c, retries).Ok?
    ensures Batches(world, rest, batch, retries, extract).0.Ok? ==>
      forall s :: s in Batches(world, rest, batch, retries, extract).0.value <==>
        exists c <- Slices(rest, batch) :: s in DocsUnion(extract, ChunkOutcome(world, c, retries).value)
    decreases |rest|
  {
    if rest != [] {
      var n := if |rest| < batch then |rest| else batch;
      var slices := Slices(rest, batch);
      var later := Slices(rest[n..], batch);
      assert slices == [rest[..n]] + later;
      assert forall c :: c in slices <==> c == rest[..n] || c in later;
      BatchesOverSlices(world, rest[n..], batch, retries, extract);
      assert ChunkOutcome(world, rest[..n], retries) == world(rest[..n], SummarySettle(world, rest[..n], retries, 1));
    }
  }

  /** Each batch costs at most `retries` calls. */
  lemma {:induction false} BatchesCalls<D>(world: BatchWorld<D>, rest: seq<string>, batch: nat, retries: int, extract: D -> set<string>)
    requires batch >= 1 && retries >= 1
    ensures Calls(Batches(world, rest, batch, retries, extract).1) <= retries * |Slices(rest, batch)|
    decreases |rest|
  {
    if rest != [] {
      var n := if |rest| < batch then |rest| else batch;
      var m := SummarySettle(world, rest[..n], retries, 1);
      var k := |Slices(rest[n..], batch)|;
      assert |Slices(rest, batch)| == k + 1 by {
        assert Slices(rest, batch) == [rest[..n]] + Slices(rest[n..], batch);
      }
      StoppedAtCalls(m, true);
      MulSucc(retries, k);
      if world(rest[..n], m).Ok? {
        var tail := Batches(world, rest[n..], batch, retries, extract);
        BatchesCalls(world, rest[n..], batch, retries, extract);
        TraceAppend(StoppedAt(m, true), tail.1);
      }
    }
  }

  // ---------------------------------------------------------------------
  // fetch_from_provenance
  // ---------------------------------------------------------------------

  /** The attempt at which the provenance loop for `mid` stops, searching from `n`: the first success, or the last attempt. */
  function ProvenanceSettle(world: ProvenanceWorld, mid: string, retries: int, n: nat): (m: nat)
    requires 1 <= n <= retries
    ensures n <= m <= retries
    decreases retries - n
  {
    if world(mid, n).Ok? || n == retries then n else ProvenanceSettle(world, mid, retries, n + 1)
  }

  lemma {:induction false} ProvenanceSettleMeaning(world: ProvenanceWorld, mid: string, retries: int, n: nat)
    requires 1 <= n <= retries
    ensures forall a | n <= a < ProvenanceSettle(world, mid, retries, n) :: world(mid, a).Err?
    ensures world(mid, ProvenanceSettle(world, mid, retries, n)).Ok? || ProvenanceSettle(world, mid, retries, n) == retries
    decreases retries - n
  {
    if world(mid, n).Err? && n < retries {
      ProvenanceSettleMeaning(world, mid, retries, n + 1);
    }
  }

  /** The ids of a provenance record: `database_IDs` when it is a dict, else `database_Ids`. */
  function ProvenanceDbIds(prov: Record): Py {
    var dbids := Get(prov, "database_IDs", PyNone);
    if dbids.PyDict? then dbids else Get(prov, "database_Ids", PyNone)
  }

  /**
   * The provenance path reads the same ICSD ids as the casing-tolerant
   * extraction of the harvest script does for a summary document.
   */
  lemma ProvenanceAgreesWithHarvest(prov: Record)
    ensures ExtractIcsdFromDbIds(ProvenanceDbIds(prov)) ==
      ExtractIcsdFromDbIds(PyDict(MaterialsProject.ExtractDbIds(prov)))
  {
    MaterialsProject.DbIdsPrecedence(prov);
    var empty: map<string, Py> := map[];
    assert Get(empty, "icsd", PyNone) == PyNone;
    assert NonBlank([]) == [];
  }

  /**
   * The ICSD ids one id adds on the provenance path: those of the first
   * successful attempt; none when every attempt fails (the loop moves on
   * without raising) or when there are no attempts.
   */
  function IdIcsd(world: ProvenanceWorld, mid: string, retries: int): set<string> {
    if retries <= 0 then {}
    else
      match world(mid, ProvenanceSettle(world, mid, retries, 1))
      case Ok(prov) => IcsdSet(ProvenanceDbIds(prov))
      case Err(_) => {}
  }

  /** The attempts made for one id. */
  function IdTrace(world: ProvenanceWorld, mid: string, retries: int): seq<Event> {
    if retries <= 0 then [] else StoppedAt(ProvenanceSettle(world, mid, retries, 1), true)
  }

  /** An id whose every attempt fails adds nothing; otherwise it adds the ids of its first successful attempt. */
  lemma IdIcsdMeaning(world: ProvenanceWorld, mid: string, retries: int)
    ensures (forall a | 1 <= a <= retries :: world(mid, a).Err?) ==> IdIcsd(world, mid, retries) == {}
    ensures forall a | 1 <= a <= retries && world(mid, a).Ok? && (forall b | 1 <= b < a :: world(mid, b).Err?) ::
      IdIcsd(world, mid, retries) == IcsdSet(ProvenanceDbIds(world(mid, a).value))
  {
    if retries >= 1 {
      var m := ProvenanceSettle(world, mid, retries, 1);
      ProvenanceSettleMeaning(world, mid, retries, 1);
      forall a | 1 <= a <= retries && world(mid, a).Ok? && (forall b | 1 <= b < a :: world(mid, b).Err?)
        ensures IdIcsd(world, mid, retries) == IcsdSet(ProvenanceDbIds(world(mid, a).value))
      {
        assert m == a;
      }
    }
  }

  /** fetch_from_provenance, the ids: the union over the ids of what each adds. */
  function ProvenanceIds(world: ProvenanceWorld, mpids: seq<string>, retries: int): set<string> {
    if mpids == [] then {}
    else ProvenanceIds(world, mpids[..|mpids| - 1], retries) + IdIcsd(world, mpids[|mpids| - 1], retries)
  }

  /** fetch_from_provenance, the attempts: each id's attempts, in order. */
  function ProvenanceTrace(world: ProvenanceWorld, mpids: seq<string>, retries: int): seq<Event> {
    if mpids == [] then []
    else ProvenanceTrace(world, mpids[..|mpids| - 1], retries) + IdTrace(world, mpids[|mpids| - 1], retries)
  }

  /** The attempt loop for one id. */
  method ProvenanceAttempts(world: ProvenanceWorld, mid: string, retries: int) returns (ids: set<string>, trace: seq<Event>)
    ensures ids == IdIcsd(world, mid, retries)
    ensures trace == IdTrace(world, mid, retries)
  {
    ids := {};
    trace := [];
    if retries <= 0 {
      return;
    }
    var attempt := 1;
    var outcome := world(mid, attempt);
    trace := [Call(attempt)];
    while outcome.Err? && attempt < retries
      invariant 1 <= attempt <= retries
      invariant outcome == world(mid, attempt)
      invariant ProvenanceSettle(world, mid, retries, 1) == ProvenanceSettle(world, mid, retries, attempt)
      invariant trace == StoppedAt(attempt, true)
      decreases retries - attempt
    {
      trace := trace + [Sleep(attempt)];
      attempt := attempt + 1;
      outcome := world(mid, attempt);
      trace := trace + [Call(attempt)];
    }
    if outcome.Ok? {
      ids := IcsdSet(ProvenanceDbIds(outcome.value));
    }
  }

  /** fetch_from_provenance */
  method FetchFromProvenance(world: ProvenanceWorld, mpids: seq<string>, retries: int) returns (out: set<string>, trace: seq<Event>)
    ensures out == ProvenanceIds(world, mpids, retries)
    ensures trace == ProvenanceTrace(world, mpids, retries)
  {
    out := {};
    trace := [];
    for idx := 0 to |mpids|
      invariant out == ProvenanceIds(world, mpids[..idx], retries)
      invariant trace == ProvenanceTrace(world, mpids[..idx], retries)
    {
      var ids, t := ProvenanceAttempts(world, mpids[idx], retries);
      assert mpids[..idx + 1][..idx] == mpids[..idx];
      out := out + ids;
      trace := trace + t;
    }
    assert mpids[..|mpids|] == mpids;
  }

  /** The provenance ids are exactly those some id adds. */
  lemma {:induction false} ProvenanceMembers(world: ProvenanceWorld, mpids: seq<string>, retries: int)
    ensures forall s :: s in ProvenanceIds(world, mpids, retries) <==> exists mid <- mpids :: s in IdIcsd(world, mid, retries)
  {
    if mpids != [] {
      var init := mpids[..|mpids| - 1];
      ProvenanceMembers(world, init, retries);
      assert mpids == init + [mpids[|mpids| - 1]];
    }
  }

  /** Each id costs at most `retries` calls, and none when `retries <= 0`. */
  lemma {:induction false} ProvenanceCalls(world: ProvenanceWorld, mpids: seq<string>, retries: int)
    ensures Calls(ProvenanceTrace(world, mpids, retries)) <= Max0(retries) * |mpids|
  {
    if mpids != [] {
      var init := mpids[..|mpids| - 1];
      var mid := mpids[|mpids| - 1];
      ProvenanceCalls(world, init, retries);
      TraceAppend(ProvenanceTrace(world, init, retries), IdTrace(world, mid, retries));
      if retries >= 1 {
        StoppedAtCalls(ProvenanceSettle(world, mid, retries, 1), true);
      }
      assert Calls(IdTrace(world, mid, retries)) <= Max0(retries);
      MulSucc(Max0(retries), |init|);
    }
  }

  // ---------------------------------------------------------------------
  // The output file
  // ---------------------------------------------------------------------

  /** `sorted({s for s in (x.strip() for x in icsd) if s and looks_like_icsd(s)})` */
  function OutputIds(icsd: set<string>): seq<string> {
    SortSet(set x | x in icsd && Strip(x) != "" && LooksLikeIcsd(Strip(x)) :: Strip(x))
  }

  /** The text of `ids_to_download.txt`. */
  function OutputText(icsd: set<string>): string {
    LinesText(OutputIds(icsd))
  }

  /**
   * The listed ids are strictly increasing, and they are exactly the
   * stripped ids that look like ICSD numbers.
   */
  lemma OutputIdsMeaning(icsd: set<string>)
    ensures StrictlySorted(OutputIds(icsd))
    ensures forall s :: s in OutputIds(icsd) <==> LooksLikeIcsd(s) && exists x <- icsd :: Strip(x) == s
  {
    forall s | LooksLikeIcsd(s) && exists x <- icsd :: Strip(x) == s ensures s in OutputIds(icsd) {
      LooksLikeIcsdClean(s);
    }
  }

  /** Reading the file back line by line gives the listed ids (and the empty text after the last newline). */
  lemma OutputTextRoundTrip(icsd: set<string>)
    ensures OutputIds(icsd) == [] ==> OutputText(icsd) == ""
    ensures OutputIds(icsd) != [] ==> Split(OutputText(icsd), "\n") == OutputIds(icsd) + [""]
  {
    var ids := OutputIds(icsd);
    OutputIdsMeaning(icsd);
    forall s <- ids ensures '\n' !in s {
      LooksLikeIcsdClean(s);
    }
    if ids != [] {
      LinesTextRoundTrip(ids);
    }
  }

  /** Adding the provenance ids never drops an id the summary alone would list. */
  lemma OutputMonotone(icsd: set<string>, addl: set<string>)
    ensures forall s <- OutputIds(icsd) :: s in OutputIds(icsd + addl)
  {
    OutputIdsMeaning(icsd);
    OutputIdsMeaning(icsd + addl);
  }

  // ---------------------------------------------------------------------
  // main
  // ---------------------------------------------------------------------

  /**
   * main, from the `ID` column to the text written: read the ids, detect
   * the field casing once, harvest the Summary endpoint, optionally add the
   * Provenance ids, and list the digit-like ones.
   */
  function ScriptOutput(csvPath: string, column: Option<seq<Py>>, probe: ProbeWorld, summary: SummaryWorld,
               provenance: ProvenanceWorld, batch: int, retries: int, useProvenance: bool): Result<string> {
    match ReadMpids(csvPath, column)
    case Err(e) => Err(e)
    case Ok(mpids) =>
      match DetectDbIdsField(probe, mpids)
      case Err(e) => Err(e)
      case Ok(field) =>
        match Summary(summary, mpids, batch, retries, field).0
        case Err(e) => Err(e)
        case Ok(icsd) =>
          Ok(OutputText(if useProvenance then icsd + ProvenanceIds(provenance, mpids, retries) else icsd))
  }

  method RunScript(csvPath: string, column: Option<seq<Py>>, probe: ProbeWorld, summary: SummaryWorld,
              provenance: ProvenanceWorld, batch: int, retries: int, useProvenance: bool) returns (r: Result<string>)
    ensures r == ScriptOutput(csvPath, column, probe, summary, provenance, batch, retries, useProvenance)
  {
    var read := ReadMpids(csvPath, column);
    if read.Err? {
      return Err(read.error);
    }
    var mpids := read.value;
    var detected := DetectDbIdsField(probe, mpids);
    if detected.Err? {
      return Err(detected.error);
    }
    var harvested, _ := FetchFromSummary(summary, mpids, batch, retries, detected.value);
    if harvested.Err? {
      return Err(harvested.error);
    }
    var icsd := harvested.value;
    if useProvenance {
      var addl, _ := FetchFromProvenance(provenance, mpids, retries);
      icsd := icsd + addl;
    }
    r := Ok(OutputText(icsd));
  }

  /**
   * Whenever main writes a file, its lines are strictly increasing
   * ICSD-like ids, each the strip of a harvested id.
   */
  lemma RunOutputShape(csvPath: string, column: Option<seq<Py>>, probe: ProbeWorld, summary: SummaryWorld,
                       provenance: ProvenanceWorld, batch: int, retries: int, useProvenance: bool)
    requires ScriptOutput(csvPath, column, probe, summary, provenance, batch, retries, useProvenance).Ok?
    ensures var text := ScriptOutput(csvPath, column, probe, summary, provenance, batch, retries, useProvenance).value;
      text == "" || (exists ids :: ids != [] && StrictlySorted(ids) && (forall s <- ids :: LooksLikeIcsd(s)) &&
                                    Split(text, "\n") == ids + [""])
  {
    var mpids := ReadMpids(csvPath, column).value;
    var field := DetectDbIdsField(probe, mpids).value;
    var icsd := Summary(summary, mpids, batch, retries, field).0.value;
    var all := if useProvenance then icsd + ProvenanceIds(provenance, mpids, retries) else icsd;
    OutputIdsMeaning(all);
    OutputTextRoundTrip(all);
  }
}
