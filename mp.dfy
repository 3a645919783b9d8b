/**
 * The Materials Project harvest (mp.py): the exclude-list chunking of the
 * screening search, the fixed-delay retry wrapper around every API call,
 * the tolerant extraction of ICSD ids and DOIs from summary documents, the
 * client-side ferromagnetic / negative-formation-energy filter, the rows
 * collected in the module-level `all_rows` list, and the ICSD id-list file
 * written from them.
 */
module MaterialsProject {
  import opened Text
  import opened PyValues
  import opened Batching
  import opened Attempts

  // ---------------------------------------------------------------------
  // Screening search: element lists and the exclude-list chunks
  // ---------------------------------------------------------------------

  const AllowedElements: seq<string> := ["Mn", "Fe", "Co", "Ni", "Cr"]

  /** The exclude list, written as the two chunks it falls into. */
  const BannedElements: seq<string> := BannedHead + BannedTail

  /** The eighteen two-letter symbols that open the exclude list. */
  const BannedPairs: seq<string> := [
    "Re", "Os", "Ir", "Pt", "Au", "In", "Tc", "Be", "As", "Cd", "Ba", "Hg", "Tl", "Pb", "Ac",
    "Cs", "Po", "Np"
  ]

  /** The exclude list through "U". */
  const BannedHead: seq<string> := BannedPairs + ["U"]

  /** The exclude list after "U". */
  const BannedTail: seq<string> := ["Pu", "Th", "He", "Ne", "Ar", "Kr", "Xe"]

  /** chunk_list's default character budget. */
  const MaxChars: int := 55

  /** A chunk of two-letter symbols joined by commas is three characters per symbol, less one. */
  lemma {:induction false} WidthOfPairs(c: seq<string>)
    requires c != []
    requires forall i | 0 <= i < |c| :: |c[i]| == 2
    ensures Width(c) == 3 * |c| - 1
    decreases |c|
  {
    if |c| == 1 {
      assert Join(",", c) == c[0];
    } else {
      var init := c[..|c| - 1];
      assert c == init + [c[|c| - 1]];
      WidthOfPairs(init);
      WidthSnoc(init, c[|c| - 1]);
    }
  }

  /** The symbols through "U" join to exactly 55 characters; with the next one they overflow. */
  lemma BannedWidths()
    ensures Width(BannedHead) == 55
    ensures Width(BannedTail) == 20
    ensures Width(BannedHead + [BannedTail[0]]) == 58
  {
    PairsWidth(BannedPairs);
    WidthSnoc(BannedPairs, "U");
    WidthSnoc(BannedHead, "Pu");
    PairsWidth(BannedTail);
  }

  /** The joined width of a literal list of two-letter symbols. */
  lemma PairsWidth(c: seq<string>)
    requires c == BannedPairs || c == BannedTail
    ensures Width(c) == 3 * |c| - 1
  {
    assert forall i | 0 <= i < |c| :: |c[i]| == 2;
    WidthOfPairs(c);
  }

  /** Splitting the banned list after "U" is a greedy chunking of it. */
  lemma BannedGreedy()
    ensures Greedy(BannedElements, MaxChars, [BannedHead, BannedTail], true)
  {
    BannedWidths();
    assert Flatten([BannedHead, BannedTail]) == BannedHead + Flatten([BannedTail]);
    assert Flatten([BannedTail]) == BannedTail + Flatten([]);
  }

  /**
   * The banned list falls into two exclude chunks: the first nineteen
   * symbols (through "U", exactly 55 characters joined) and the remaining
   * seven. Any greedy chunking, in particular chunk_list's, is this one.
   */
  lemma BannedChunks(chunks: seq<seq<string>>)
    requires Greedy(BannedElements, MaxChars, chunks, true)
    ensures chunks == [BannedHead, BannedTail]
  {
    BannedGreedy();
    GreedyUnique(BannedElements, MaxChars, chunks, [BannedHead, BannedTail], true);
  }

  // ---------------------------------------------------------------------
  // safe_api_call
  // ---------------------------------------------------------------------

  /**
   * safe_api_call(func, retries=...): attempt `a` (numbered from 1) of the
   * call returns `world(a)`. Every failure is followed by one sleep of the
   * fixed delay, the last failure included; the first success is returned
   * at once; after `retries` failures the result is None. The ghost
   * `attempts` is the number of calls made.
   */
  method SafeApiCall<T>(world: nat -> Result<T>, retries: int) returns (r: Option<T>, trace: seq<Event>, ghost attempts: nat)
    ensures attempts <= Max0(retries)
    ensures forall a | 1 <= a < attempts :: world(a).Err?
    ensures r.Some? ==> 1 <= attempts && world(attempts) == Ok(r.value) && trace == StoppedAt(attempts, false)
    ensures r.None? ==> attempts == Max0(retries) && trace == Backoff(attempts, false)
    ensures r.None? ==> forall a | 1 <= a <= Max0(retries) :: world(a).Err?
  {
    trace := [];
    var attempt := 0;
    while attempt < retries
      invariant 0 <= attempt <= Max0(retries)
      invariant trace == Backoff(attempt, false)
      invariant forall a | 1 <= a <= attempt :: world(a).Err?
    {
      var outcome := world(attempt + 1);
      if outcome.Ok? {
        trace := trace + [Call(attempt + 1)];
        return Some(outcome.value), trace, attempt + 1;
      }
      trace := trace + [Call(attempt + 1), Sleep(Factor(attempt + 1, false))];
      attempt := attempt + 1;
    }
    return None, trace, attempt;
  }

  /** Whatever the outcomes, safe_api_call calls at most `retries` times and sleeps once per failed call. */
  lemma SafeApiCallBudget<T>(r: Option<T>, trace: seq<Event>, attempts: nat, retries: int)
    requires r.Some? ==> 1 <= attempts && trace == StoppedAt(attempts, false)
    requires r.None? ==> trace == Backoff(attempts, false)
    requires attempts <= Max0(retries)
    ensures Calls(trace) == attempts <= Max0(retries)
    ensures |Sleeps(trace)| == (if r.Some? then attempts - 1 else attempts)
    ensures forall f <- Sleeps(trace) :: f == 1
  {
    if r.Some? {
      StoppedAtShape(attempts, false);
    } else {
      BackoffShape(attempts, false);
    }
  }

  // ---------------------------------------------------------------------
  // _extract_dbids / _extract_icsd_ids
  // ---------------------------------------------------------------------

  /**
   * _extract_dbids: the `database_IDs` attribute when it is a dict, else the
   * legacy `database_Ids` attribute when that is a dict, else `{}`.
   */
  function ExtractDbIds(doc: Record): map<string, Py> {
    var dbids := Get(doc, "database_IDs", PyNone);
    var dbids' := if !dbids.PyDict? then Get(doc, "database_Ids", PyNone) else dbids;
    if dbids'.PyDict? then dbids'.entries else map[]
  }

  /**
   * The ids come from `database_IDs` when that is a dict, else from
   * `database_Ids` when that is a dict, else there are none.
   */
  lemma DbIdsPrecedence(doc: Record)
    ensures "database_IDs" in doc && doc["database_IDs"].PyDict? ==> ExtractDbIds(doc) == doc["database_IDs"].entries
    ensures !("database_IDs" in doc && doc["database_IDs"].PyDict?) && "database_Ids" in doc && doc["database_Ids"].PyDict? ==>
      ExtractDbIds(doc) == doc["database_Ids"].entries
    ensures !("database_IDs" in doc && doc["database_IDs"].PyDict?) && !("database_Ids" in doc && doc["database_Ids"].PyDict?) ==>
      ExtractDbIds(doc) == map[]
  {
  }

  /** The extraction does not depend on which of the two casings carries the ids. */
  lemma CasingTolerance(doc: Record, ids: map<string, Py>)
    ensures ExtractDbIds(doc - {"database_Ids"}
                             + map["database_IDs" := PyDict(ids)]) == ids
    ensures ExtractDbIds(doc - {"database_IDs"}
                             + map["database_Ids" := PyDict(ids)]) == ids
  {
  }

  /** The `icsd` entry of a document's ids, or `[]` when absent or falsy. */
  function IcsdEntry(doc: Record): (r: Py)
    ensures !Truthy(r) ==> r == PyList([])
  {
    Or(Get(ExtractDbIds(doc), "icsd", PyNone), PyList([]))
  }

  /**
   * _extract_icsd_ids: the `;`-join of `str` of each item of the `icsd`
   * entry; `""` when the entry is absent, empty or not iterable.
   */
  function ExtractIcsdIds(doc: Record): string {
    match Iterate(IcsdEntry(doc))
    case Ok(items) => Join(";", StrAll(items))
    case Err(_) => ""
  }

  /**
   * The column is empty when the ids hold no `icsd` entry, an empty or
   * falsy one, or one that cannot be iterated.
   */
  lemma IcsdIdsAbsent(doc: Record)
    ensures !Truthy(Get(ExtractDbIds(doc), "icsd", PyNone)) ==> ExtractIcsdIds(doc) == ""
    ensures Iterate(IcsdEntry(doc)).Err? ==> ExtractIcsdIds(doc) == ""
  {
    if !Truthy(Get(ExtractDbIds(doc), "icsd", PyNone)) {
      assert StrAll([]) == [];
    }
  }

  /**
   * Reading the column back: splitting it on `;` gives `str` of each item
   * of the ICSD entry (a list, tuple, string or dict), in order, when
   * there is an item and no rendered item contains `;`.
   */
  lemma IcsdIdsRoundTrip(doc: Record)
    requires Iterate(IcsdEntry(doc)).Ok? && Iterate(IcsdEntry(doc)).value != []
    requires forall x <- Iterate(IcsdEntry(doc)).value :: ';' !in Str(x)
    ensures Split(ExtractIcsdIds(doc), ";") == StrAll(Iterate(IcsdEntry(doc)).value)
  {
    var items := Iterate(IcsdEntry(doc)).value;
    var parts := StrAll(items);
    forall p <- parts ensures ';' !in p {
      var i :| 0 <= i < |parts| && parts[i] == p;
      StrAllIndex(items, i);
      assert items[i] in items;
    }
    SplitJoin(';', parts);
    assert ";" == [';'];
  }


  // ---------------------------------------------------------------------
  // _extract_dois_from_origins
  // ---------------------------------------------------------------------

  /** The fields of a reference: a dict's entries, an object's attributes (`__dict__`), else none. */
  function RefFields(ref: Py): map<string, Py> {
    if ref.PyDict? then ref.entries else if ref.PyObject? then ref.attrs else map[]
  }

  /**
   * The DOI a reference contributes: its `doi` field, else its `doi`
   * attribute, else `""`; kept, stripped, only when it is a string that is
   * not blank.
   */
  function RefDoi(ref: Py): (r: Option<string>)
    ensures r.Some? ==> r.value != "" && Trimmed(r.value)
    ensures (!Get(RefFields(ref), "doi", PyStr("")).PyStr? && Truthy(Get(RefFields(ref), "doi", PyStr("")))) ==> r.None?
  {
    var doi := Or(Get(RefFields(ref), "doi", PyStr("")), Or(Attr(ref, "doi", PyStr("")), PyStr("")));
    if doi.PyStr? && Strip(doi.s) != "" then
      Some(Strip(doi.s))
    else None
  }

  /** The references list of an origin: its `references` attribute, or `[]` when absent or falsy. */
  function RefsOf(org: Py): Py {
    Or(Attr(org, "references", PyNone), PyList([]))
  }

  /** The DOI a reference contributes, as a set of at most one element. */
  function DoiOf(ref: Py): (s: set<string>)
  {
    var d := RefDoi(ref);
    if d.Some? then {d.value} else {}
  }

  /** The DOIs of a list of references. */
  function RefDois(refs: seq<Py>): (s: set<string>)
  {
    if refs == [] then {} else RefDois(refs[..|refs| - 1]) + DoiOf(refs[|refs| - 1])
  }

  /**
   * The DOIs gathered from a list of origins. Iteration stops at the
   * first origin whose references are not iterable: the TypeError ends
   * the whole scan, keeping what was gathered before it.
   */
  function OriginDois(orgs: seq<Py>): (s: set<string>)
  {
    if orgs == [] then {}
    else
      match Iterate(RefsOf(orgs[0]))
      case Err(_) => {}
      case Ok(refs) => RefDois(refs) + OriginDois(orgs[1..])
  }

  /** The origins of a document: its `origins` attribute, or `[]` when absent or falsy. */
  function OriginsOf(doc: Record): Py {
    Or(Get(doc, "origins", PyNone), PyList([]))
  }

  /** All DOIs a document yields; none when its origins are not iterable. */
  function DoiSet(doc: Record): (s: set<string>)
  {
    match Iterate(OriginsOf(doc))
    case Err(_) => {}
    case Ok(orgs) => OriginDois(orgs)
  }

  /**
   * _extract_dois_from_origins: walks origins[].references[] adding each
   * reference's stripped DOI to a set, then joins the sorted set with `;`.
   */
  method ExtractDois(doc: Record) returns (r: string)
    ensures r == Join(";", SortSet(DoiSet(doc)))
  {
    var dois: set<string> := {};
    var origins := Iterate(OriginsOf(doc));
    if origins.Ok? {
      var orgs := origins.value;
      var i := 0;
      while i < |orgs|
        invariant 0 <= i <= |orgs|
        invariant dois + OriginDois(orgs[i..]) == OriginDois(orgs)
      {
        OriginDoisStep(orgs, i);
        var refsIter := Iterate(RefsOf(orgs[i]));
        if refsIter.Err? {
          // the TypeError ends the scan; the DOIs gathered so far are kept
          break;
        }
        dois := AddReferenceDois(dois, refsIter.value);
        i := i + 1;
      }
      assert i == |orgs| ==> orgs[i..] == [];
      assert dois == OriginDois(orgs);
    }
    r := Join(";", SortSet(dois));
  }

  /** The DOIs of one more reference. */
  lemma RefDoisStep(refs: seq<Py>, j: nat)
    requires j < |refs|
    ensures RefDois(refs[..j + 1]) == RefDois(refs[..j]) + DoiOf(refs[j])
  {
    assert refs[..j + 1][..j] == refs[..j];
  }

  /** The inner loop of _extract_dois_from_origins: adds the DOI of each reference in turn. */
  method AddReferenceDois(dois: set<string>, refs: seq<Py>) returns (r: set<string>)
    ensures r == dois + RefDois(refs)
  {
    r := dois;
    var j := 0;
    while j < |refs|
      invariant 0 <= j <= |refs|
      invariant r == dois + RefDois(refs[..j])
    {
      var d := DoiOf(refs[j]);
      RefDoisStep(refs, j);
      r := r + d;
      j := j + 1;
    }
    assert refs[..j] == refs;
  }

  /** One step of the scan over origins: the current origin's DOIs, then the rest, or nothing when its references are not iterable. */
  lemma OriginDoisStep(orgs: seq<Py>, i: nat)
    requires i < |orgs|
    ensures Iterate(RefsOf(orgs[i])).Err? ==> OriginDois(orgs[i..]) == {}
    ensures Iterate(RefsOf(orgs[i])).Ok? ==>
      OriginDois(orgs[i..]) == RefDois(Iterate(RefsOf(orgs[i])).value) + OriginDois(orgs[i + 1..])
  {
    assert orgs[i..][0] == orgs[i];
    assert orgs[i..][1..] == orgs[i + 1..];
  }

  /** Every DOI gathered from references is non-empty and stripped. */
  lemma {:induction false} RefDoisClean(refs: seq<Py>)
    ensures forall x <- RefDois(refs) :: x != "" && Trimmed(x)
    decreases |refs|
  {
    if refs != [] {
      RefDoisClean(refs[..|refs| - 1]);
    }
  }

  lemma {:induction false} OriginDoisClean(orgs: seq<Py>)
    ensures forall x <- OriginDois(orgs) :: x != "" && Trimmed(x)
    decreases |orgs|
  {
    if orgs != [] && Iterate(RefsOf(orgs[0])).Ok? {
      RefDoisClean(Iterate(RefsOf(orgs[0])).value);
      OriginDoisClean(orgs[1..]);
    }
  }

  /** Every DOI of a document is non-empty and stripped. */
  lemma DoiSetClean(doc: Record)
    ensures forall x <- DoiSet(doc) :: x != "" && Trimmed(x)
  {
    if Iterate(OriginsOf(doc)).Ok? {
      OriginDoisClean(Iterate(OriginsOf(doc)).value);
    }
  }

  /**
   * The DOI column lists distinct DOIs in strictly increasing order, each
   * stripped and non-empty: splitting it on `;` gives back exactly the
   * sorted DOI set when no DOI contains `;`.
   */
  lemma DoiColumnRoundTrip(doc: Record)
    requires DoiSet(doc) != {}
    requires forall x <- DoiSet(doc) :: ';' !in x
    ensures Split(Join(";", SortSet(DoiSet(doc))), ";") == SortSet(DoiSet(doc))
    ensures StrictlySorted(SortSet(DoiSet(doc)))
    ensures forall x <- SortSet(DoiSet(doc)) :: x != "" && Trimmed(x)
  {
    var listing := SortSet(DoiSet(doc));
    DoiSetClean(doc);
    assert listing != [] by {
      var x :| x in DoiSet(doc);
      assert x in listing;
    }
    SplitJoin(';', listing);
    assert ";" == [';'];
  }

  // ---------------------------------------------------------------------
  // Client-side filter and the rows of all_rows
  // ---------------------------------------------------------------------

  /** `d.material_id` */
  function IdOf(d: Record): Py {
    Get(d, "material_id", PyNone)
  }

  /** `{d.material_id: d for d in docs}`: one entry per id, the last document with that id winning. */
  function ByMaterialId(docs: seq<Record>): map<Py, Record>
    decreases |docs|
  {
    if docs == [] then map[] else ByMaterialId(docs[..|docs| - 1])[IdOf(docs[|docs| - 1]) := docs[|docs| - 1]]
  }

  /** The dict has exactly the ids of the documents as keys. */
  lemma {:induction false} ByMaterialIdKeys(docs: seq<Record>)
    ensures ByMaterialId(docs).Keys == set d <- docs :: IdOf(d)
    decreases |docs|
  {
    if docs != [] {
      var init := docs[..|docs| - 1];
      ByMaterialIdKeys(init);
      assert docs == init + [docs[|docs| - 1]];
      assert (set d <- docs :: IdOf(d)) == (set d <- init :: IdOf(d)) + {IdOf(docs[|docs| - 1])};
    }
  }

  /** No later document of `docs` has the id of `docs[i]`. */
  predicate LastWithId(docs: seq<Record>, i: nat)
    requires i < |docs|
  {
    forall j | i < j < |docs| :: IdOf(docs[j]) != IdOf(docs[i])
  }

  /** Each id maps to the last document carrying it. */
  lemma {:induction false} ByMaterialIdLast(docs: seq<Record>, i: nat)
    requires i < |docs| && LastWithId(docs, i)
    ensures IdOf(docs[i]) in ByMaterialId(docs) && ByMaterialId(docs)[IdOf(docs[i])] == docs[i]
    decreases |docs|
  {
    if i < |docs| - 1 {
      var init := docs[..|docs| - 1];
      assert LastWithId(init, i) by {
        forall j | i < j < |init| ensures IdOf(init[j]) != IdOf(init[i]) {
          assert init[j] == docs[j];
        }
      }
      ByMaterialIdLast(init, i);
      assert IdOf(docs[|docs| - 1]) != IdOf(docs[i]);
    }
  }

  /** `dict.get(key)` */
  function Lookup(m: map<Py, Record>, key: Py): (r: Option<Record>)
    ensures key in m ==> r == Some(m[key])
    ensures key !in m ==> r.None?
  {
    if key in m then Some(m[key]) else None
  }

  /** `thermo.formation_energy_per_atom`, None when there is no thermo document. */
  function FormationEnergy(thermo: Option<Record>): Py {
    if thermo.Some? then Get(thermo.value, "formation_energy_per_atom", PyNone) else PyNone
  }

  /** The magnetism document exists and its ordering is ferromagnetic. */
  predicate IsFerromagnetic(magnetism: Option<Record>) {
    magnetism.Some? && Get(magnetism.value, "ordering", PyNone) == PyStr("FM")
  }

  /**
   * The client-side filter: a material is kept only when its magnetism
   * document exists with ordering "FM" and its thermo document has a
   * formation energy per atom that is not None and is below zero. A
   * formation energy that is not a number cannot be compared with zero and
   * raises TypeError.
   */
  function Admit(magnetism: Option<Record>, thermo: Option<Record>): Result<bool> {
    if magnetism.None? || Get(magnetism.value, "ordering", PyNone) != PyStr("FM") then Ok(false)
    else if thermo.None? || FormationEnergy(thermo) == PyNone then Ok(false)
    else
      match Numeric(FormationEnergy(thermo))
      case None => Err(TypeError)
      case Some(e) => Ok(!(e >= 0.0))
  }

  /**
   * The filter keeps exactly the ferromagnetic materials with a numeric,
   * negative formation energy, and raises TypeError exactly when the
   * formation energy is present but not a number.
   */
  lemma AdmitMeaning(magnetism: Option<Record>, thermo: Option<Record>)
    ensures Admit(magnetism, thermo) == Ok(true) <==>
      IsFerromagnetic(magnetism) && thermo.Some? &&
      Numeric(FormationEnergy(thermo)).Some? && Numeric(FormationEnergy(thermo)).value < 0.0
    ensures Admit(magnetism, thermo).Err? <==>
      IsFerromagnetic(magnetism) && thermo.Some? &&
      FormationEnergy(thermo) != PyNone && Numeric(FormationEnergy(thermo)).None?
    ensures Admit(magnetism, thermo).Err? ==> Admit(magnetism, thermo).error == TypeError
  {
  }

  /**
   * The modelled columns of a row: the material id, the elements column,
   * the magmoms column, the ICSD ids column and the DOI column.
   */
  datatype Row = Row(materialId: Py, elements: string, magmoms: string, icsdIds: string, doi: string)

  /** `";".join(str(x) for x in v)`, which raises TypeError when `v` cannot be iterated. */
  function JoinedStrs(v: Py): Result<string> {
    match Iterate(v)
    case Ok(items) => Ok(Join(";", StrAll(items)))
    case Err(_) => Err(TypeError)
  }

  /**
   * A joined column read back: splitting it on `;` gives `str` of each
   * item, in order, when there is an item and no rendered item holds `;`.
   */
  lemma JoinedStrsRoundTrip(v: Py)
    requires Iterate(v).Ok? && Iterate(v).value != []
    requires forall x <- Iterate(v).value :: ';' !in Str(x)
    ensures JoinedStrs(v).Ok?
    ensures Split(JoinedStrs(v).value, ";") == StrAll(Iterate(v).value)
  {
    var items := Iterate(v).value;
    var parts := StrAll(items);
    forall p <- parts ensures ';' !in p {
      var i :| 0 <= i < |parts| && parts[i] == p;
      StrAllIndex(items, i);
      assert items[i] in items;
    }
    SplitJoin(';', parts);
    assert ";" == [';'];
  }

  /**
   * The magmoms column: the `;`-join of the magnetism document's `magmoms`
   * when it has that attribute, `""` when it has none (a missing document
   * has none).
   */
  function MagmomsColumn(magnetism: Option<Record>): Result<string> {
    if magnetism.Some? && "magmoms" in magnetism.value then JoinedStrs(magnetism.value["magmoms"]) else Ok("")
  }

  /**
   * The row of a document and its magnetism document. Building it raises
   * TypeError when the document's `elements` cannot be iterated (None, for
   * instance), or when the magnetism document's `magmoms` cannot.
   */
  function RowOf(doc: Record, magnetism: Option<Record>): Result<Row> {
    match JoinedStrs(Get(doc, "elements", PyNone))
    case Err(e) => Err(e)
    case Ok(elements) =>
      match MagmomsColumn(magnetism)
      case Err(e) => Err(e)
      case Ok(magmoms) => Ok(Row(IdOf(doc), elements, magmoms, ExtractIcsdIds(doc), Join(";", SortSet(DoiSet(doc)))))
  }

  /**
   * The row fails exactly when `elements`, or a present `magmoms`, cannot
   * be iterated, and then with TypeError. Otherwise it carries the
   * material id, both joins, the ICSD column and the sorted DOI column.
   */
  lemma RowOfMeaning(doc: Record, magnetism: Option<Record>)
    ensures RowOf(doc, magnetism).Err? <==>
      Iterate(Get(doc, "elements", PyNone)).Err? ||
      (magnetism.Some? && "magmoms" in magnetism.value && Iterate(magnetism.value["magmoms"]).Err?)
    ensures RowOf(doc, magnetism).Err? ==> RowOf(doc, magnetism).error == TypeError
    ensures RowOf(doc, magnetism).Ok? ==>
      var row := RowOf(doc, magnetism).value;
      row.materialId == IdOf(doc) && row.icsdIds == ExtractIcsdIds(doc) &&
      row.doi == Join(";", SortSet(DoiSet(doc))) &&
      row.elements == Join(";", StrAll(Iterate(Get(doc, "elements", PyNone)).value)) &&
      (magnetism.None? || "magmoms" !in magnetism.value ==> row.magmoms == "") &&
      (magnetism.Some? && "magmoms" in magnetism.value ==>
        row.magmoms == Join(";", StrAll(Iterate(magnetism.value["magmoms"]).value)))
  {
  }

  /** The row the loop builds for a kept document, or the TypeError building it raises. */
  method BuildRow(doc: Record, magnetism: Option<Record>) returns (row: Result<Row>)
    ensures row == RowOf(doc, magnetism)
  {
    var elements := JoinedStrs(Get(doc, "elements", PyNone));
    if elements.Err? {
      return Err(elements.error);
    }
    var magmoms := MagmomsColumn(magnetism);
    if magmoms.Err? {
      return Err(magmoms.error);
    }
    var doi := ExtractDois(doc);
    row := Ok(Row(IdOf(doc), elements.value, magmoms.value, ExtractIcsdIds(doc), doi));
  }

  /** Whether the filter keeps `doc`, given the batch's thermo and magnetism documents by id. */
  function AdmitDoc(doc: Record, thermo: map<Py, Record>, magnetism: map<Py, Record>): Result<bool> {
    Admit(Lookup(magnetism, IdOf(doc)), Lookup(thermo, IdOf(doc)))
  }

  /** The row of `doc`, with its magnetism document looked up by id. */
  function RowFor(doc: Record, magnetism: map<Py, Record>): Result<Row> {
    RowOf(doc, Lookup(magnetism, IdOf(doc)))
  }

  /**
   * What the loop over one batch leaves: the documents kept, their rows,
   * and the exception that ended the batch early, if any.
   */
  datatype Outcome = Outcome(kept: seq<Record>, rows: seq<Row>, error: Option<Exception>)

  /**
   * The loop over one batch, in document order: a document the filter
   * keeps contributes its row. A TypeError from the filter or from
   * building a row ends the batch; the rows before it stay, and no later
   * document is looked at.
   */
  function Kept(docs: seq<Record>, thermo: map<Py, Record>, magnetism: map<Py, Record>): (out: Outcome)
    ensures |out.kept| <= |docs|
    decreases |docs|
  {
    if docs == [] then Outcome([], [], None)
    else
      var before := Kept(docs[..|docs| - 1], thermo, magnetism);
      var last := docs[|docs| - 1];
      if before.error.Some? then before
      else KeptNext(before, last, thermo, magnetism)
  }

  /** One document more, after a batch prefix that raised nothing. */
  function KeptNext(before: Outcome, doc: Record, thermo: map<Py, Record>, magnetism: map<Py, Record>): (out: Outcome)
    ensures |out.kept| <= |before.kept| + 1
  {
    match AdmitDoc(doc, thermo, magnetism)
    case Err(e) => before.(error := Some(e))
    case Ok(keep) =>
      if !keep then before
      else
        match RowFor(doc, magnetism)
        case Err(e) => before.(error := Some(e))
        case Ok(row) => Outcome(before.kept + [doc], before.rows + [row], None)
  }

  /** Every kept document is a document of the batch that passes the filter. */
  lemma {:induction false} KeptAdmitted(docs: seq<Record>, thermo: map<Py, Record>, magnetism: map<Py, Record>)
    ensures forall d <- Kept(docs, thermo, magnetism).kept :: d in docs && AdmitDoc(d, thermo, magnetism) == Ok(true)
    decreases |docs|
  {
    if docs != [] {
      var init := docs[..|docs| - 1];
      KeptAdmitted(init, thermo, magnetism);
      assert forall d <- init :: d in docs;
    }
  }

  /** The rows are the rows of the kept documents, one each, in order. */
  lemma {:induction false} KeptRows(docs: seq<Record>, thermo: map<Py, Record>, magnetism: map<Py, Record>)
    ensures var out := Kept(docs, thermo, magnetism);
      |out.rows| == |out.kept| &&
      forall i | 0 <= i < |out.kept| :: RowFor(out.kept[i], magnetism) == Ok(out.rows[i])
    decreases |docs|
  {
    if docs != [] {
      var before := Kept(docs[..|docs| - 1], thermo, magnetism);
      KeptRows(docs[..|docs| - 1], thermo, magnetism);
      if before.error.None? {
        KeptNextRows(before, docs[|docs| - 1], thermo, magnetism);
      }
    }
  }

  lemma KeptNextRows(before: Outcome, doc: Record, thermo: map<Py, Record>, magnetism: map<Py, Record>)
    requires |before.rows| == |before.kept|
    requires forall i | 0 <= i < |before.kept| :: RowFor(before.kept[i], magnetism) == Ok(before.rows[i])
    ensures var out := KeptNext(before, doc, thermo, magnetism);
      |out.rows| == |out.kept| &&
      forall i | 0 <= i < |out.kept| :: RowFor(out.kept[i], magnetism) == Ok(out.rows[i])
  {
    var out := KeptNext(before, doc, thermo, magnetism);
    if out.kept != before.kept {
      var row := RowFor(doc, magnetism).value;
      assert out == Outcome(before.kept + [doc], before.rows + [row], None);
      OkAllSnoc(d => RowFor(d, magnetism), before.kept, before.rows, doc, row);
    }
  }

  /** Extending two lists that `f` maps one onto the other by an item and its image. */
  lemma OkAllSnoc<A, B>(f: A -> Result<B>, xs: seq<A>, ys: seq<B>, x: A, y: B)
    requires |xs| == |ys| && forall i | 0 <= i < |xs| :: f(xs[i]) == Ok(ys[i])
    requires f(x) == Ok(y)
    ensures forall i | 0 <= i < |xs| + 1 :: f((xs + [x])[i]) == Ok((ys + [y])[i])
  {
  }



  /**
   * When the batch completes without error, the filter gave a verdict on
   * every document, and every document that passes it is kept with its
   * row built.
   */
  lemma {:induction false} KeptComplete(docs: seq<Record>, thermo: map<Py, Record>, magnetism: map<Py, Record>)
    requires Kept(docs, thermo, magnetism).error.None?
    ensures forall d <- docs :: AdmitDoc(d, thermo, magnetism).Ok?
    ensures forall d <- docs :: AdmitDoc(d, thermo, magnetism) == Ok(true) ==>
      d in Kept(docs, thermo, magnetism).kept && RowFor(d, magnetism).Ok?
    decreases |docs|
  {
    if docs != [] {
      var init := docs[..|docs| - 1];
      KeptComplete(init, thermo, magnetism);
      assert docs == init + [docs[|docs| - 1]];
    }
  }

  /** Once the filter or a row has raised, the later documents change nothing. */
  lemma {:induction false} KeptAfterError(docs: seq<Record>, j: nat, thermo: map<Py, Record>, magnetism: map<Py, Record>)
    requires j <= |docs|
    requires Kept(docs[..j], thermo, magnetism).error.Some?
    ensures Kept(docs, thermo, magnetism) == Kept(docs[..j], thermo, magnetism)
    decreases |docs| - j
  {
    if j < |docs| {
      assert docs[..j + 1][..j] == docs[..j];
      KeptAfterError(docs, j + 1, thermo, magnetism);
    } else {
      assert docs[..j] == docs;
    }
  }

  /** One more document of a batch that has raised nothing so far. */
  lemma KeptStep(docs: seq<Record>, i: nat, thermo: map<Py, Record>, magnetism: map<Py, Record>)
    requires i < |docs|
    requires Kept(docs[..i], thermo, magnetism).error.None?
    ensures Kept(docs[..i + 1], thermo, magnetism) == KeptNext(Kept(docs[..i], thermo, magnetism), docs[i], thermo, magnetism)
  {
    assert docs[..i + 1][..i] == docs[..i];
  }

  /** `docs or []` for a result of safe_api_call. */
  function OrEmpty(docs: Option<seq<Record>>): seq<Record> {
    if docs.Some? then docs.value else []
  }

  // ---------------------------------------------------------------------
  // The ICSD id-list file
  // ---------------------------------------------------------------------

  /** `[x.strip() for x in pieces if x.strip()]` */
  function StrippedPieces(pieces: seq<string>): (r: seq<string>)
    ensures forall x <- r :: x != "" && exists p <- pieces :: x == Strip(p)
    ensures forall p <- pieces :: Strip(p) != "" ==> Strip(p) in r
  {
    if pieces == [] then []
    else (if Strip(pieces[0]) != "" then [Strip(pieces[0])] else []) + StrippedPieces(pieces[1..])
  }

  /** The ICSD ids a row contributes: the stripped, non-blank `;`-pieces of its ICSD column. */
  function RowIcsd(row: Row): (s: set<string>)
    ensures forall x <- s :: x != "" && ';' !in x
  {
    var pieces := Split(row.icsdIds, ";");
    SplitPiecesClean(row.icsdIds);
    set p <- pieces | Strip(p) != "" :: Strip(p)
  }

  /** No piece of a split on `;` contains `;`, nor does anything stripped out of it. */
  lemma SplitPiecesClean(s: string)
    ensures forall p <- Split(s, ";"), x :: x == Strip(p) ==> ';' !in x
  {
    SplitNoSep(s);
  }

  lemma {:induction false} SplitNoSep(s: string)
    ensures forall p <- Split(s, ";") :: ';' !in p
    decreases |s|
  {
    var f := Find(s, ";");
    if f.Some? {
      SplitNoSep(s[f.value + 1..]);
      assert ';' !in s[..f.value] by {
        forall j | 0 <= j < f.value ensures s[j] != ';' {
          assert !OccursAt(s, j, ";");
          assert s[j..j + 1] == [s[j]];
        }
      }
    } else {
      forall j | 0 <= j < |s| ensures s[j] != ';' {
        assert !OccursAt(s, j, ";");
        assert s[j..j + 1] == [s[j]];
      }
    }
  }

  /** All ICSD ids of a list of rows. */
  function IcsdIdSet(rows: seq<Row>): (s: set<string>)
    ensures forall x <- s :: x != "" && ';' !in x
  {
    if rows == [] then {} else IcsdIdSet(rows[..|rows| - 1]) + RowIcsd(rows[|rows| - 1])
  }

  /**
   * The id-list file lists each ICSD id once, in strictly increasing order,
   * one per line with a trailing newline; reading it back gives the ids.
   */
  lemma IdsFileRoundTrip(rows: seq<Row>)
    requires IcsdIdSet(rows) != {}
    requires forall x <- IcsdIdSet(rows) :: '\n' !in x
    ensures Split(LinesText(SortSet(IcsdIdSet(rows))), "\n") == SortSet(IcsdIdSet(rows)) + [""]
    ensures StrictlySorted(SortSet(IcsdIdSet(rows)))
  {
    var listing := SortSet(IcsdIdSet(rows));
    assert listing != [] by {
      var x :| x in IcsdIdSet(rows);
      assert x in listing;
    }
    LinesTextRoundTrip(listing);
  }

  // ---------------------------------------------------------------------
  // The harvest state (all_rows)
  // ---------------------------------------------------------------------

  /** Size of the id batches the per-material searches run on. */
  const BatchSize: nat := 500

  /** `{doc.material_id for doc in all_results}`: the distinct material ids of the search results. */
  function MaterialIds(results: seq<Record>): (ids: set<Py>)
    ensures forall d <- results :: IdOf(d) in ids
    ensures forall x <- ids :: exists d <- results :: IdOf(d) == x
  {
    set d <- results :: IdOf(d)
  }

  /**
   * The id batches: consecutive slices of at most 500 ids. Whatever order
   * the distinct ids are listed in, every material lands in some batch and
   * the batches hold nothing else.
   */
  lemma BatchesCover(results: seq<Record>, order: seq<Py>)
    requires forall x :: x in order <==> x in MaterialIds(results)
    ensures Flatten(Slices(order, BatchSize)) == order
    ensures forall b <- Slices(order, BatchSize) :: 0 < |b| <= BatchSize
    ensures forall d <- results :: exists b <- Slices(order, BatchSize) :: IdOf(d) in b
  {
    var batches := Slices(order, BatchSize);
    SlicesPartition(order, BatchSize);
    forall d <- results ensures exists b <- batches :: IdOf(d) in b {
      assert IdOf(d) in MaterialIds(results);
      assert IdOf(d) in order;
      var j :| 0 <= j < |order| && order[j] == IdOf(d);
      var k, i := InFlattenIndex(batches, j);
      assert batches[k][i] == IdOf(d);
      assert batches[k] in batches;
    }
  }

  /** Position `j` of a flattened list lies at some position of some chunk. */
  lemma {:induction false} InFlattenIndex<T>(chunks: seq<seq<T>>, j: nat) returns (k: nat, i: nat)
    requires j < |Flatten(chunks)|
    ensures k < |chunks| && i < |chunks[k]| && chunks[k][i] == Flatten(chunks)[j]
  {
    if j < |chunks[0]| {
      k, i := 0, j;
    } else {
      var k', i' := InFlattenIndex(chunks[1..], j - |chunks[0]|);
      k, i := k' + 1, i';
    }
  }

  /** The module-level `all_rows` list, extended batch by batch. */
  class Harvest {
    var rows: seq<Row>

    constructor ()
      ensures rows == []
    {
      rows := [];
    }

    /**
     * One batch of query_and_save_metadata: nothing when the summary call
     * returned nothing; otherwise, in summary order, a row for every
     * material that passes the filter, looking up its thermo and magnetism
     * documents by id. A TypeError from the filter or from building a row
     * ends the run.
     */
    method ProcessBatch(basic: Option<seq<Record>>, thermo: Option<seq<Record>>, magnetism: Option<seq<Record>>)
      returns (error: Option<Exception>)
      modifies this
      ensures basic.None? || basic.value == [] ==> rows == old(rows) && error.None?
      ensures basic.Some? && basic.value != [] ==>
        var out := Kept(basic.value, ByMaterialId(OrEmpty(thermo)), ByMaterialId(OrEmpty(magnetism)));
        rows == old(rows) + out.rows && error == out.error
    {
      error := None;
      if basic.None? || basic.value == [] {
        return;
      }
      var thermoById := ByMaterialId(OrEmpty(thermo));
      var magnetismById := ByMaterialId(OrEmpty(magnetism));
      error := AppendKept(basic.value, thermoById, magnetismById);
    }

    /**
     * The filter loop of one batch: in document order, appends the row of
     * every document the filter keeps; a TypeError from the filter or from
     * building a row stops the loop and is returned.
     */
    method AppendKept(docs: seq<Record>, thermoById: map<Py, Record>, magnetismById: map<Py, Record>)
      returns (error: Option<Exception>)
      modifies this
      ensures rows == old(rows) + Kept(docs, thermoById, magnetismById).rows
      ensures error == Kept(docs, thermoById, magnetismById).error
    {
      ghost var acc := Outcome([], [], None);
      var i := 0;
      while i < |docs|
        invariant 0 <= i <= |docs|
        invariant Kept(docs[..i], thermoById, magnetismById) == acc && acc.error.None?
        invariant rows == old(rows) + acc.rows
      {
        var doc := docs[i];
        KeptStep(docs, i, thermoById, magnetismById);
        var keep := AdmitDoc(doc, thermoById, magnetismById);
        if keep.Err? {
          KeptAfterError(docs, i + 1, thermoById, magnetismById);
          return Some(keep.error);
        }
        if keep.value {
          var row := BuildRow(doc, Lookup(magnetismById, IdOf(doc)));
          if row.Err? {
            KeptAfterError(docs, i + 1, thermoById, magnetismById);
            return Some(row.error);
          }
          rows := rows + [row.value];
          acc := Outcome(acc.kept + [doc], acc.rows + [row.value], None);
        }
        i := i + 1;
      }
      assert docs[..i] == docs;
      error := None;
    }

    /**
     * The text of ids_to_download.txt: every `;`-piece of every non-empty
     * ICSD column, stripped, blanks dropped, sorted without duplicates,
     * one per line.
     */
    method IdsFileText() returns (text: string)
      ensures text == LinesText(SortSet(IcsdIdSet(rows)))
    {
      var flat: seq<string> := [];
      var i := 0;
      while i < |rows|
        invariant 0 <= i <= |rows|
        invariant (set x <- flat) == IcsdIdSet(rows[..i])
      {
        var r := rows[i];
        ghost var before := flat;
        if r.icsdIds != "" {
          flat := flat + StrippedPieces(Split(r.icsdIds, ";"));
        }
        IdsFileStep(rows, i, before, flat);
        i := i + 1;
      }
      assert rows[..i] == rows;
      text := LinesText(SortSet(set x <- flat));
    }
  }

  /** One row of the id-list scan adds exactly that row's ICSD ids. */
  lemma IdsFileStep(rows: seq<Row>, i: nat, before: seq<string>, after: seq<string>)
    requires i < |rows|
    requires (set x <- before) == IcsdIdSet(rows[..i])
    requires rows[i].icsdIds == "" ==> after == before
    requires rows[i].icsdIds != "" ==> after == before + StrippedPieces(Split(rows[i].icsdIds, ";"))
    ensures (set x <- after) == IcsdIdSet(rows[..i + 1])
  {
    IcsdIdSetSnoc(rows, i);
    RowIdsAdded(rows[i], before, after);
  }

  lemma IcsdIdSetSnoc(rows: seq<Row>, i: nat)
    requires i < |rows|
    ensures IcsdIdSet(rows[..i + 1]) == IcsdIdSet(rows[..i]) + RowIcsd(rows[i])
  {
    assert rows[..i + 1][..i] == rows[..i];
  }

  lemma RowIdsAdded(row: Row, before: seq<string>, after: seq<string>)
    requires row.icsdIds == "" ==> after == before
    requires row.icsdIds != "" ==> after == before + StrippedPieces(Split(row.icsdIds, ";"))
    ensures (set x <- after) == (set x <- before) + RowIcsd(row)
  {
    if row.icsdIds == "" {
      EmptyColumnNoIds(row);
    } else {
      StrippedPiecesSet(Split(row.icsdIds, ";"));
      SeqSetAppend(before, StrippedPieces(Split(row.icsdIds, ";")));
    }
  }

  /** An empty ICSD column contributes no id. */
  lemma EmptyColumnNoIds(row: Row)
    requires row.icsdIds == ""
    ensures RowIcsd(row) == {}
  {
    assert Find("", ";").None?;
    assert Split("", ";") == [""];
    assert Strip("") == "";
  }

  /** The stripped pieces, as a set, are the ids of the row they came from. */
  lemma StrippedPiecesSet(pieces: seq<string>)
    ensures (set x <- StrippedPieces(pieces)) == set p <- pieces | Strip(p) != "" :: Strip(p)
  {
  }

  lemma SeqSetAppend(a: seq<string>, b: seq<string>)
    ensures (set x <- a + b) == (set x <- a) + (set x <- b)
  {
  }
}
