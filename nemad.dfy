/**
 * nemad.py: queries the NEMAD materials database for the formulas of a
 * Materials Project table, by exact formula or by element set, for one
 * or more database types; tags every returned record with the query
 * that produced it; orders the columns of the flattened result; and
 * picks the column used to join the results back onto the table.
 *
 * pymatgen's `Composition` is optional in the source: the model takes it
 * as a `Pymatgen` value, either missing or installed with its two
 * answers (reduced formula, element symbols) given as functions that
 * return None where the parse raises. HTTP is a `HttpWorld`: the outcome
 * of `requests.get` for a query on a given attempt.
 */
module Nemad {
  import opened Text
  import opened PyValues
  import opened Attempts

  const BaseUrl: string := "https://api.nemad.org"

  const ValidTypes: set<string> := {"magnetic", "magnetic_anisotropy", "thermoelectric", "superconductor"}

  // ---------------------------------------------------------------------
  // read_mp_csv
  // ---------------------------------------------------------------------

  /** The composition column of the table: `compound` if present, else `pretty_formula`; an `ID` column is required. */
  function FormulaColumn(columns: seq<string>): Result<string> {
    if "ID" !in columns then Err(ValueError("MP CSV must have an 'ID' column."))
    else if "compound" in columns then Ok("compound")
    else if "pretty_formula" in columns then Ok("pretty_formula")
    else Err(ValueError("MP CSV needs a 'compound' or 'pretty_formula' column."))
  }

  /** `df.rename(columns={from: to})` on the column names. */
  function Rename(columns: seq<string>, from: string, to: string): (r: seq<string>)
    ensures |r| == |columns|
  {
    seq(|columns|, i requires 0 <= i < |columns| => if columns[i] == from then to else columns[i])
  }

  /** The columns of the table `read_mp_csv` returns: the composition column renamed to `_mp_formula`. */
  function ReadMpCsv(columns: seq<string>): Result<seq<string>> {
    match FormulaColumn(columns)
    case Err(e) => Err(e)
    case Ok(comp) => Ok(Rename(columns, comp, "_mp_formula"))
  }

  /**
   * The table is refused without an `ID` column, or without both
   * composition columns; otherwise `compound` wins over `pretty_formula`,
   * it leaves under the name `_mp_formula`, and `ID` and every other
   * column keep their place.
   */
  lemma ReadMpCsvMeaning(columns: seq<string>)
    ensures "ID" !in columns ==> ReadMpCsv(columns) == Err(ValueError("MP CSV must have an 'ID' column."))
    ensures "ID" in columns && "compound" !in columns && "pretty_formula" !in columns ==>
              ReadMpCsv(columns) == Err(ValueError("MP CSV needs a 'compound' or 'pretty_formula' column."))
    ensures ReadMpCsv(columns).Ok? <==> "ID" in columns && ("compound" in columns || "pretty_formula" in columns)
    ensures FormulaColumn(columns) == Ok("pretty_formula") ==> "compound" !in columns
    ensures ReadMpCsv(columns).Ok? ==>
              var r := ReadMpCsv(columns).value;
              var comp := FormulaColumn(columns).value;
              && |r| == |columns|
              && "_mp_formula" in r && "ID" in r && comp !in r
              && forall i | 0 <= i < |columns| :: columns[i] != comp ==> r[i] == columns[i]
  {
    if ReadMpCsv(columns).Ok? {
      var r := ReadMpCsv(columns).value;
      var comp := FormulaColumn(columns).value;
      var i :| 0 <= i < |columns| && columns[i] == comp;
      assert r[i] == "_mp_formula";
      var j :| 0 <= j < |columns| && columns[j] == "ID";
      assert r[j] == "ID";
    }
  }

  // ---------------------------------------------------------------------
  // canonical_formula and elements_from_formula
  // ---------------------------------------------------------------------

  /**
   * pymatgen's `Composition`, when it could be imported: the reduced
   * formula and the element symbols of a formula, None where parsing
   * raises.
   */
  datatype Pymatgen =
    | Missing
    | Installed(reduced: string -> Option<string>, elements: string -> Option<set<string>>)

  /** `canonical_formula(v)` */
  function CanonicalFormula(v: Py, pmg: Pymatgen): string {
    if !v.PyStr? || Strip(v.s) == "" then ""
    else match pmg
      case Missing => Strip(v.s)
      case Installed(reduced, _) =>
        match reduced(v.s)
        case Some(f) => f
        case None => Strip(v.s)
  }

  /**
   * Non-strings and blank strings have the empty formula; without
   * pymatgen, or where pymatgen cannot parse it, a formula is its own
   * strip; otherwise it is pymatgen's reduced formula. Without pymatgen
   * canonicalising is idempotent.
   */
  lemma CanonicalFormulaMeaning(v: Py, pmg: Pymatgen)
    ensures !v.PyStr? ==> CanonicalFormula(v, pmg) == ""
    ensures v.PyStr? && Strip(v.s) == "" ==> CanonicalFormula(v, pmg) == ""
    ensures v.PyStr? && pmg.Missing? ==> CanonicalFormula(v, pmg) == Strip(v.s)
    ensures v.PyStr? && pmg.Installed? && Strip(v.s) != "" ==>
              CanonicalFormula(v, pmg) == (match pmg.reduced(v.s) case Some(f) => f case None => Strip(v.s))
    ensures pmg.Missing? ==> CanonicalFormula(PyStr(CanonicalFormula(v, pmg)), pmg) == CanonicalFormula(v, pmg)
  {
    if v.PyStr? {
      StripIdempotent(v.s);
    }
  }

  /** The symbol `re.findall(r"[A-Z][a-z]?", s)` takes at an upper-case letter `s[i]`. */
  function SymbolAt(s: string, i: nat): (t: string)
    requires i < |s|
  {
    if i + 1 < |s| && IsLower(s[i + 1]) then s[i..i + 2] else s[i..i + 1]
  }

  /** An upper-case letter, optionally followed by a lower-case one. */
  predicate IsSymbol(t: string) {
    (|t| == 1 || |t| == 2) && IsUpper(t[0]) && (|t| == 2 ==> IsLower(t[1]))
  }

  /** `re.findall(r"[A-Z][a-z]?", s)`: the scan left to right, matches do not overlap. */
  function CapitalTokens(s: string): (ts: seq<string>)
    ensures forall t <- ts :: IsSymbol(t)
    decreases |s|
  {
    if s == [] then []
    else if IsUpper(s[0]) then
      if |s| >= 2 && IsLower(s[1]) then [s[..2]] + CapitalTokens(s[2..])
      else [s[..1]] + CapitalTokens(s[1..])
    else CapitalTokens(s[1..])
  }

  /** The tokens are exactly the symbols at the upper-case letters of `s`. */
  lemma {:induction false} CapitalTokensMembers(s: string)
    ensures forall t :: t in CapitalTokens(s) <==> exists i | 0 <= i < |s| && IsUpper(s[i]) :: t == SymbolAt(s, i)
    decreases |s|
  {
    forall t | t in CapitalTokens(s)
      ensures exists i | 0 <= i < |s| && IsUpper(s[i]) :: t == SymbolAt(s, i)
    {
      TokenSound(s, t);
    }
    forall t | exists i | 0 <= i < |s| && IsUpper(s[i]) :: t == SymbolAt(s, i)
      ensures t in CapitalTokens(s)
    {
      var i :| 0 <= i < |s| && IsUpper(s[i]) && t == SymbolAt(s, i);
      TokenComplete(s, i);
    }
  }

  /** Every token is the symbol at some upper-case letter. */
  lemma {:induction false} TokenSound(s: string, t: string)
    requires t in CapitalTokens(s)
    ensures exists i | 0 <= i < |s| && IsUpper(s[i]) :: t == SymbolAt(s, i)
    decreases |s|
  {
    var k := TokensStep(s);
    if t in CapitalTokens(s[k..]) {
      TokenSound(s[k..], t);
      var j :| 0 <= j < |s[k..]| && IsUpper(s[k..][j]) && t == SymbolAt(s[k..], j);
      SymbolShift(s, k, j);
      assert IsUpper(s[k + j]) && t == SymbolAt(s, k + j);
    } else {
      assert IsUpper(s[0]) && t == SymbolAt(s, 0);
    }
  }

  /** The symbol at every upper-case letter is a token. */
  lemma {:induction false} TokenComplete(s: string, i: nat)
    requires i < |s| && IsUpper(s[i])
    ensures SymbolAt(s, i) in CapitalTokens(s)
    decreases |s|
  {
    var k := TokensStep(s);
    if i < k {
      assert i == 0;
    } else {
      TokenComplete(s[k..], i - k);
      SymbolShift(s, k, i - k);
    }
  }

  /** The scan's first step: the symbol at an upper-case first letter, then the scan of what follows it. */
  lemma TokensStep(s: string) returns (k: nat)
    requires s != []
    ensures 1 <= k <= 2 && k <= |s| && (k == 2 ==> IsUpper(s[0]) && IsLower(s[1]))
    ensures CapitalTokens(s) == (if IsUpper(s[0]) then [SymbolAt(s, 0)] else []) + CapitalTokens(s[k..])
  {
    k := if IsUpper(s[0]) && |s| >= 2 && IsLower(s[1]) then 2 else 1;
  }

  /** The symbol at a letter of a suffix is the symbol at that letter of the text. */
  lemma SymbolShift(s: string, k: nat, j: nat)
    requires k + j < |s|
    ensures s[k..][j] == s[k + j] && SymbolAt(s[k..], j) == SymbolAt(s, k + j)
  {
  }


  /** `elements_from_formula(s)` */
  function ElementsFromFormula(s: string, pmg: Pymatgen): (els: seq<string>)
    ensures StrictlySorted(els)
  {
    match pmg
    case Missing => SortSet(set t | t in CapitalTokens(s))
    case Installed(_, elements) =>
      match elements(s)
      case Some(symbols) => SortSet(symbols)
      case None => []
  }

  /**
   * Without pymatgen the elements are the distinct symbols at the
   * upper-case letters of the formula, in ascending order; each is one
   * upper-case letter with at most one lower-case letter after it.
   */
  lemma ElementsFallback(s: string)
    ensures StrictlySorted(ElementsFromFormula(s, Missing))
    ensures forall t <- ElementsFromFormula(s, Missing) :: IsSymbol(t)
    ensures forall t :: t in ElementsFromFormula(s, Missing) <==>
              exists i | 0 <= i < |s| && IsUpper(s[i]) :: t == SymbolAt(s, i)
    ensures ElementsFromFormula(s, Missing) == [] <==> forall c <- s :: !IsUpper(c)
  {
    CapitalTokensMembers(s);
    if forall c <- s :: !IsUpper(c) {
      assert forall t :: t !in CapitalTokens(s);
    } else {
      var i :| 0 <= i < |s| && IsUpper(s[i]);
      assert SymbolAt(s, i) in ElementsFromFormula(s, Missing);
    }
  }

  /** With pymatgen: its symbols in ascending order, and none where the parse raises. */
  lemma ElementsInstalled(s: string, pmg: Pymatgen)
    requires pmg.Installed?
    ensures pmg.elements(s).None? ==> ElementsFromFormula(s, pmg) == []
    ensures pmg.elements(s).Some? ==>
              forall t :: t in ElementsFromFormula(s, pmg) <==> t in pmg.elements(s).value
  {
  }

  // ---------------------------------------------------------------------
  // request_json
  // ---------------------------------------------------------------------

  /** An HTTP response: its status and its body decoded as JSON (None when it is not JSON). */
  datatype Response<B> = Response(status: int, body: Option<B>)

  /** `requests.get` of query `q` on attempt `a`: the response, or the exception it raises. */
  type HttpWorld<!Q, B> = (Q, nat) -> Result<Response<B>>

  /** `request_json`'s default number of attempts, the one both fetch functions use. */
  const DefaultRetries: int := 3

  /** An attempt that ends the loop: `requests.get` raised, or the status is 200. */
  predicate Settles<B>(o: Result<Response<B>>) {
    o.Err? || o.value.status == 200
  }

  /** The attempt at which the loop from attempt `n` stops. */
  function RequestSettle<Q, B>(world: HttpWorld<Q, B>, q: Q, retries: int, n: nat): (m: nat)
    requires 1 <= n <= retries
    ensures n <= m <= retries
    decreases retries - n
  {
    if Settles(world(q, n)) || n == retries then n else RequestSettle(world, q, retries, n + 1)
  }

  /** Every attempt before the stopping one got a non-200 response; the stopping one settled, or was the last. */
  lemma {:induction false} RequestSettleMeaning<Q, B>(world: HttpWorld<Q, B>, q: Q, retries: int, n: nat)
    requires 1 <= n <= retries
    ensures forall a | n <= a < RequestSettle(world, q, retries, n) :: !Settles(world(q, a))
    ensures Settles(world(q, RequestSettle(world, q, retries, n))) || RequestSettle(world, q, retries, n) == retries
    decreases retries - n
  {
    if !Settles(world(q, n)) && n < retries {
      RequestSettleMeaning(world, q, retries, n + 1);
    }
  }

  /**
   * What `request_json` returns: the JSON of the first 200 response (None
   * if it is not JSON); None after `retries` non-200 responses; the
   * exception of a failing `requests.get`; and UnboundLocalError from the
   * final warning when `retries <= 0`, since no response was ever bound.
   */
  function RequestResult<Q, B>(world: HttpWorld<Q, B>, q: Q, retries: int): Result<Option<B>> {
    if retries <= 0 then Err(UnboundLocalError)
    else
      match world(q, RequestSettle(world, q, retries, 1))
      case Err(e) => Err(e)
      case Ok(resp) => if resp.status == 200 then Ok(resp.body) else Ok(None)
  }

  /** The calls and the `0.8 * attempt` second sleeps between them. */
  function RequestTrace<Q, B>(world: HttpWorld<Q, B>, q: Q, retries: int): seq<Event> {
    if retries <= 0 then [] else StoppedAt(RequestSettle(world, q, retries, 1), true)
  }

  /** `request_json(url, headers, params, retries)`; the fixed headers are not modelled. */
  method RequestJson<Q, B>(world: HttpWorld<Q, B>, q: Q, retries: int) returns (r: Result<Option<B>>, trace: seq<Event>)
    ensures r == RequestResult(world, q, retries)
    ensures trace == RequestTrace(world, q, retries)
  {
    if retries <= 0 {
      return Err(UnboundLocalError), [];
    }
    var attempt := 1;
    var outcome := world(q, attempt);
    trace := [Call(attempt)];
    while !Settles(outcome) && attempt < retries
      invariant 1 <= attempt <= retries
      invariant outcome == world(q, attempt)
      invariant RequestSettle(world, q, retries, 1) == RequestSettle(world, q, retries, attempt)
      invariant trace == StoppedAt(attempt, true)
      decreases retries - attempt
    {
      trace := trace + [Sleep(attempt)];
      attempt := attempt + 1;
      outcome := world(q, attempt);
      trace := trace + [Call(attempt)];
    }
    match outcome
    case Err(e) =>
      r := Err(e);
    case Ok(resp) =>
      r := if resp.status == 200 then Ok(resp.body) else Ok(None);
  }

  /**
   * The first 200 response decides: if attempts before `a` all got other
   * statuses and attempt `a` (within the budget) gets 200, the result is
   * its JSON after exactly `a` calls.
   */
  lemma RequestFirstOk<Q, B>(world: HttpWorld<Q, B>, q: Q, retries: int, a: nat)
    requires 1 <= a <= retries
    requires forall b | 1 <= b < a :: world(q, b).Ok? && world(q, b).value.status != 200
    requires world(q, a).Ok? && world(q, a).value.status == 200
    ensures RequestResult(world, q, retries) == Ok(world(q, a).value.body)
    ensures Calls(RequestTrace(world, q, retries)) == a
  {
    RequestSettleMeaning(world, q, retries, 1);
    assert RequestSettle(world, q, retries, 1) == a;
    StoppedAtCalls(a, true);
  }

  /**
   * Every trace holds at most `retries` calls and no throttle; the sleeps
   * fall between calls (the last event, if any, is a call), the k-th of
   * them `0.8 * k` seconds.
   */
  lemma RequestTraceShape<Q, B>(world: HttpWorld<Q, B>, q: Q, retries: int)
    ensures Calls(RequestTrace(world, q, retries)) <= Max0(retries)
    ensures Throttles(RequestTrace(world, q, retries)) == []
    ensures var t := RequestTrace(world, q, retries); t != [] ==> t[|t| - 1].Call?
    ensures var s := Sleeps(RequestTrace(world, q, retries)); forall k | 0 <= k < |s| :: s[k] == k + 1
    ensures retries <= 0 <==> RequestTrace(world, q, retries) == []
    ensures retries > 0 ==> Calls(RequestTrace(world, q, retries)) >= 1
  {
    if retries > 0 {
      var m := RequestSettle(world, q, retries, 1);
      StoppedAtShape(m, true);
      BackoffShape(m - 1, true);
      TraceAppend(Backoff(m - 1, true), [Call(m)]);
      assert [Call(m)][1..] == [];
    }
  }

  // ---------------------------------------------------------------------
  // fetch_by_formula and fetch_by_elements
  // ---------------------------------------------------------------------

  /** A GET request: the endpoint and its query parameters. */
  datatype Query = Query(url: string, params: map<string, Py>)

  /** NEMAD over HTTP: JSON bodies are Python values. */
  type NemadWorld = HttpWorld<Query, Py>

  /** The request one formula makes, and the fields written into each record it returns. */
  datatype Plan = Plan(query: Query, tags: Record)

  /** The two query modes: the formula endpoint, or the element search with its exact-match flag. */
  datatype Search =
    | ByFormula(dbType: string, limit: int)
    | ByElements(dbType: string, exactMatch: bool, limit: int, pmg: Pymatgen)

  /** `str(bool(b)).lower()` */
  function BoolText(b: bool): string {
    if b then "true" else "false"
  }

  /**
   * What the loop body does with formula `f` before the request: nothing
   * for an empty formula (by formula) or an empty element list (by
   * elements), else the request and the tags.
   */
  function PlanFor(search: Search, f: string): Option<Plan> {
    match search
    case ByFormula(dbType, limit) =>
      if f == "" then None
      else
        Some(Plan(Query(BaseUrl + "/api/" + dbType + "/formula", map["formula" := PyStr(f), "limit" := PyInt(limit)]),
                  map["_query_formula" := PyStr(f), "_db_type" := PyStr(dbType)]))
    case ByElements(dbType, exactMatch, limit, pmg) =>
      var els := ElementsFromFormula(f, pmg);
      if els == [] then None
      else
        var joined := Join(",", els);
        Some(Plan(Query(BaseUrl + "/api/" + dbType + "/search",
                        map["elements" := PyStr(joined), "exact_match" := PyStr(BoolText(exactMatch)), "limit" := PyInt(limit)]),
                  map["_query_elements" := PyStr(joined), "_query_formula_hint" := PyStr(f), "_db_type" := PyStr(dbType)]))
  }

  /**
   * The formula endpoint is asked about every non-empty formula, with the
   * formula and the limit; its records are tagged with the formula and
   * the database type.
   */
  lemma FormulaPlanMeaning(dbType: string, limit: int, f: string)
    ensures PlanFor(ByFormula(dbType, limit), f).None? <==> f == ""
    ensures f != "" ==>
              var p := PlanFor(ByFormula(dbType, limit), f).value;
              && p.query.url == BaseUrl + "/api/" + dbType + "/formula"
              && p.query.params.Keys == {"formula", "limit"}
              && p.query.params["formula"] == PyStr(f) && p.query.params["limit"] == PyInt(limit)
              && p.tags.Keys == {"_query_formula", "_db_type"}
              && p.tags["_query_formula"] == PyStr(f) && p.tags["_db_type"] == PyStr(dbType)
  {
  }

  /**
   * The element search is asked about every formula with at least one
   * element; the element list travels comma-joined and splits back into
   * the sorted element list, and the exact-match flag as `true`/`false`.
   */
  lemma ElementsPlanMeaning(dbType: string, exactMatch: bool, limit: int, pmg: Pymatgen, f: string)
    requires pmg.Missing? || forall e <- ElementsFromFormula(f, pmg) :: ',' !in e
    ensures PlanFor(ByElements(dbType, exactMatch, limit, pmg), f).None? <==> ElementsFromFormula(f, pmg) == []
    ensures ElementsFromFormula(f, pmg) != [] ==>
              var p := PlanFor(ByElements(dbType, exactMatch, limit, pmg), f).value;
              && p.query.url == BaseUrl + "/api/" + dbType + "/search"
              && p.query.params.Keys == {"elements", "exact_match", "limit"}
              && p.query.params["elements"].PyStr?
              && Split(p.query.params["elements"].s, ",") == ElementsFromFormula(f, pmg)
              && p.query.params["exact_match"] == PyStr(if exactMatch then "true" else "false")
              && p.tags.Keys == {"_query_elements", "_query_formula_hint", "_db_type"}
              && p.tags["_query_elements"] == p.query.params["elements"]
              && p.tags["_query_formula_hint"] == PyStr(f) && p.tags["_db_type"] == PyStr(dbType)
  {
    var els := ElementsFromFormula(f, pmg);
    if els != [] {
      ElementsNoComma(f, pmg);
      SplitJoin(',', els);
    }
  }

  /** No element symbol holds a comma, so the comma-joined list can be split back. */
  lemma ElementsNoComma(f: string, pmg: Pymatgen)
    requires pmg.Missing? || forall e <- ElementsFromFormula(f, pmg) :: ',' !in e
    ensures forall e <- ElementsFromFormula(f, pmg) :: ',' !in e
  {
    if pmg.Missing? {
      ElementsFallback(f);
      forall e <- ElementsFromFormula(f, pmg) ensures ',' !in e {
        assert IsSymbol(e);
      }
    }
  }

  /**
   * `data["results"]` as the loop sees it: None when the body is not
   * JSON, is falsy, or has no `results`, so the formula is skipped; the
   * items iterated; or the TypeError Python raises for `in` on a number,
   * for indexing a list or a string by `"results"`, or for iterating a
   * non-iterable `results` value.
   */
  function Results(data: Option<Py>): Result<Option<seq<Py>>> {
    match data
    case None => Ok(None)
    case Some(d) =>
      if !Truthy(d) then Ok(None)
      else
        match d
        case PyDict(entries) =>
          if "results" !in entries then Ok(None)
          else (match Iterate(entries["results"]) case Ok(items) => Ok(Some(items)) case Err(e) => Err(e))
        case PyList(items) => if PyStr("results") in items then Err(TypeError) else Ok(None)
        case PyTuple(elems) => if PyStr("results") in elems then Err(TypeError) else Ok(None)
        case PyStr(s) => if Find(s, "results").Some? then Err(TypeError) else Ok(None)
        case _ => Err(TypeError)
  }

  /** A JSON object with a `results` list yields that list; no body, an empty body or a body without `results` yields nothing. */
  lemma ResultsMeaning(data: Option<Py>)
    ensures data.None? ==> Results(data) == Ok(None)
    ensures data.Some? && !Truthy(data.value) ==> Results(data) == Ok(None)
    ensures data.Some? && data.value.PyDict? && "results" !in data.value.entries ==> Results(data) == Ok(None)
    ensures data.Some? && data.value.PyDict? && "results" in data.value.entries && data.value.entries["results"].PyList? ==>
              Results(data) == Ok(Some(data.value.entries["results"].items))
  {
  }

  /** The records of a response: each item, a dict, with the tags written into it; a non-dict item raises TypeError. */
  function Tagged(items: seq<Py>, tags: Record): (r: Result<seq<Record>>)
    ensures r.Ok? ==> |r.value| == |items|
  {
    if items == [] then Ok([])
    else if !items[0].PyDict? then Err(TypeError)
    else Prepend([items[0].entries + tags], Tagged(items[1..], tags))
  }

  /** `r` holds every tag with its value. */
  predicate Carries(r: Record, tags: Record) {
    forall k <- tags :: k in r && r[k] == tags[k]
  }

  /**
   * Tagging succeeds exactly when every item is a dict; each record then
   * keeps the item's other fields and carries every tag.
   */
  lemma {:induction false} TaggedMeaning(items: seq<Py>, tags: Record)
    ensures Tagged(items, tags).Ok? <==> forall x <- items :: x.PyDict?
    ensures Tagged(items, tags).Ok? ==>
              forall i | 0 <= i < |items| ::
                var r := Tagged(items, tags).value[i];
                Carries(r, tags) && forall k <- items[i].entries :: k !in tags ==> k in r && r[k] == items[i].entries[k]
  {
    if items != [] {
      TaggedMeaning(items[1..], tags);
      assert forall x <- items[1..] :: x in items;
      if Tagged(items, tags).Ok? {
        forall i | 1 <= i < |items| ensures Tagged(items, tags).value[i] == Tagged(items[1..], tags).value[i - 1] {
        }
      }
    }
  }

  /** The loop `for rec in data["results"]: rec[...] = ...; out.append(rec)` for one response. */
  method TagAll(items: seq<Py>, tags: Record) returns (r: Result<seq<Record>>)
    ensures r == Tagged(items, tags)
  {
    var acc: seq<Record> := [];
    var rest := items;
    PrependEmpty(Tagged(items, tags));
    while rest != []
      invariant Tagged(items, tags) == Prepend(acc, Tagged(rest, tags))
    {
      if !rest[0].PyDict? {
        return Err(TypeError);
      }
      PrependAssoc(acc, [rest[0].entries + tags], Tagged(rest[1..], tags));
      acc := acc + [rest[0].entries + tags];
      rest := rest[1..];
    }
    assert acc + [] == acc;
    r := Ok(acc);
  }

  /**
   * One formula: no request when there is no plan; otherwise the request,
   * the `max(0, sleep_ms)` millisecond pause, and the tagged records of
   * the response. An exception of the request leaves before the pause.
   */
  function PlanStep(world: NemadWorld, plan: Option<Plan>, sleepMs: int): (Result<seq<Record>>, seq<Event>) {
    match plan
    case None => (Ok([]), [])
    case Some(p) =>
      var trace := RequestTrace(world, p.query, DefaultRetries);
      match RequestResult(world, p.query, DefaultRetries)
      case Err(e) => (Err(e), trace)
      case Ok(data) =>
        var paused := trace + [Throttle(Max0(sleepMs))];
        match Results(data)
        case Err(e) => (Err(e), paused)
        case Ok(None) => (Ok([]), paused)
        case Ok(Some(items)) => (Tagged(items, p.tags), paused)
  }

  /** The records and the trace of a fetch loop over `formulas`; the first exception ends it. */
  function Fetched(world: NemadWorld, search: Search, formulas: seq<string>, sleepMs: int): (Result<seq<Record>>, seq<Event>) {
    if formulas == [] then (Ok([]), [])
    else
      var step := PlanStep(world, PlanFor(search, formulas[0]), sleepMs);
      match step.0
      case Err(e) => (Err(e), step.1)
      case Ok(recs) =>
        var rest := Fetched(world, search, formulas[1..], sleepMs);
        (Prepend(recs, rest.0), step.1 + rest.1)
  }

  /** The body of the fetch loop for one formula. */
  method FetchOne(world: NemadWorld, plan: Option<Plan>, sleepMs: int) returns (recs: Result<seq<Record>>, trace: seq<Event>)
    ensures (recs, trace) == PlanStep(world, plan, sleepMs)
  {
    if plan.None? {
      return Ok([]), [];
    }
    var p := plan.value;
    var data;
    data, trace := RequestJson(world, p.query, DefaultRetries);
    if data.Err? {
      return Err(data.error), trace;
    }
    trace := trace + [Throttle(Max0(sleepMs))];
    var results := Results(data.value);
    if results.Err? {
      recs := Err(results.error);
    } else if results.value.None? {
      recs := Ok([]);
    } else {
      recs := TagAll(results.value.value, p.tags);
    }
  }

  /** One more formula of a fetch loop: its records join those so far, or its exception ends the loop. */
  lemma FetchedNext(world: NemadWorld, search: Search, formulas: seq<string>, sleepMs: int, acc: seq<Record>, trace: seq<Event>)
    requires formulas != []
    ensures var step := PlanStep(world, PlanFor(search, formulas[0]), sleepMs);
            var whole := Fetched(world, search, formulas, sleepMs);
            step.0.Err? ==> Prepend(acc, whole.0) == Err(step.0.error) && trace + whole.1 == trace + step.1
    ensures var step := PlanStep(world, PlanFor(search, formulas[0]), sleepMs);
            var whole := Fetched(world, search, formulas, sleepMs);
            var later := Fetched(world, search, formulas[1..], sleepMs);
            step.0.Ok? ==>
              && Prepend(acc, whole.0) == Prepend(acc + step.0.value, later.0)
              && trace + whole.1 == (trace + step.1) + later.1
  {
    var step := PlanStep(world, PlanFor(search, formulas[0]), sleepMs);
    if step.0.Ok? {
      var later := Fetched(world, search, formulas[1..], sleepMs);
      PrependAssoc(acc, step.0.value, later.0);
      assert trace + (step.1 + later.1) == (trace + step.1) + later.1;
    }
  }

  /** The loop shared by `fetch_by_formula` and `fetch_by_elements`. */
  method FetchAll(world: NemadWorld, search: Search, formulas: seq<string>, sleepMs: int) returns (out: Result<seq<Record>>, trace: seq<Event>)
    ensures (out, trace) == Fetched(world, search, formulas, sleepMs)
  {
    ghost var whole := Fetched(world, search, formulas, sleepMs);
    var acc: seq<Record> := [];
    trace := [];
    var rest := formulas;
    PrependEmpty(whole.0);
    assert trace + whole.1 == whole.1;
    while rest != []
      invariant whole.0 == Prepend(acc, Fetched(world, search, rest, sleepMs).0)
      invariant whole.1 == trace + Fetched(world, search, rest, sleepMs).1
    {
      var recs, t := FetchOne(world, PlanFor(search, rest[0]), sleepMs);
      FetchedNext(world, search, rest, sleepMs, acc, trace);
      if recs.Err? {
        return Err(recs.error), trace + t;
      }
      acc := acc + recs.value;
      trace := trace + t;
      rest := rest[1..];
    }
    assert acc + [] == acc && trace + [] == trace;
    out := Ok(acc);
  }

  /** `fetch_by_formula(db_type, formulas, headers, limit, sleep_ms)` */
  method FetchByFormula(world: NemadWorld, dbType: string, formulas: seq<string>, limit: int, sleepMs: int)
    returns (out: Result<seq<Record>>, trace: seq<Event>)
    ensures (out, trace) == Fetched(world, ByFormula(dbType, limit), formulas, sleepMs)
  {
    out, trace := FetchAll(world, ByFormula(dbType, limit), formulas, sleepMs);
  }

  /** `fetch_by_elements(db_type, formulas, headers, exact_match, limit, sleep_ms)` */
  method FetchByElements(world: NemadWorld, dbType: string, formulas: seq<string>, exactMatch: bool, limit: int, sleepMs: int, pmg: Pymatgen)
    returns (out: Result<seq<Record>>, trace: seq<Event>)
    ensures (out, trace) == Fetched(world, ByElements(dbType, exactMatch, limit, pmg), formulas, sleepMs)
  {
    out, trace := FetchAll(world, ByElements(dbType, exactMatch, limit, pmg), formulas, sleepMs);
  }

  /** The number of formulas that lead to a request. */
  function Planned(search: Search, formulas: seq<string>): (n: nat)
    ensures n <= |formulas|
  {
    if formulas == [] then 0
    else (if PlanFor(search, formulas[0]).Some? then 1 else 0) + Planned(search, formulas[1..])
  }

  /** The records of one formula carry its tags; it makes at most 3 calls, and a completed step pauses once. */
  lemma PlanStepMeaning(world: NemadWorld, plan: Option<Plan>, sleepMs: int)
    ensures var step := PlanStep(world, plan, sleepMs);
              step.0.Ok? ==> forall r <- step.0.value :: plan.Some? && Carries(r, plan.value.tags)
    ensures var step := PlanStep(world, plan, sleepMs);
              Calls(step.1) <= (if plan.Some? then DefaultRetries else 0)
    ensures var step := PlanStep(world, plan, sleepMs);
              step.0.Ok? ==>
                && Throttles(step.1) == (if plan.Some? then [Max0(sleepMs)] else [])
                && Calls(step.1) >= (if plan.Some? then 1 else 0)
  {
    if plan.Some? {
      var p := plan.value;
      var trace := RequestTrace(world, p.query, DefaultRetries);
      RequestTraceShape(world, p.query, DefaultRetries);
      TraceAppend(trace, [Throttle(Max0(sleepMs))]);
      assert [Throttle(Max0(sleepMs))][1..] == [];
      var data := RequestResult(world, p.query, DefaultRetries);
      if data.Ok? && Results(data.value).Ok? && Results(data.value).value.Some? {
        TaggedMeaning(Results(data.value).value.value, p.tags);
      }
    }
  }

  /**
   * Every record a fetch loop returns carries the tags of a formula that
   * led to a request. The loop makes at most 3 calls per such formula
   * and none for the others; when it completes it made at least one call
   * and exactly one `max(0, sleep_ms)` pause per such formula.
   */
  lemma {:induction false} FetchedMeaning(world: NemadWorld, search: Search, formulas: seq<string>, sleepMs: int)
    ensures var (out, _) := Fetched(world, search, formulas, sleepMs);
              out.Ok? ==> forall r <- out.value :: exists f <- formulas :: PlanFor(search, f).Some? && Carries(r, PlanFor(search, f).value.tags)
    ensures Calls(Fetched(world, search, formulas, sleepMs).1) <= DefaultRetries * Planned(search, formulas)
    ensures var (out, trace) := Fetched(world, search, formulas, sleepMs);
              out.Ok? ==>
                && Calls(trace) >= Planned(search, formulas)
                && |Throttles(trace)| == Planned(search, formulas)
                && forall ms <- Throttles(trace) :: ms == Max0(sleepMs)
  {
    if formulas != [] {
      var plan := PlanFor(search, formulas[0]);
      var step := PlanStep(world, plan, sleepMs);
      PlanStepMeaning(world, plan, sleepMs);
      var rest := Fetched(world, search, formulas[1..], sleepMs);
      FetchedMeaning(world, search, formulas[1..], sleepMs);
      if step.0.Ok? {
        TraceAppend(step.1, rest.1);
        assert forall f <- formulas[1..] :: f in formulas;
      }
    }
  }

  // ---------------------------------------------------------------------
  // main: type validation, the query loop, column order, merge key
  // ---------------------------------------------------------------------

  /** A type argument as main compares it: stripped and lower-cased. */
  function Normalized(t: string): string {
    Lower(Strip(t))
  }

  /** The SystemExit main raises for an unknown type. */
  function UnknownType(t: string): Exception {
    SystemExit("Unknown db type '" + t + "'. Valid: " + Join(", ", SortSet(ValidTypes)))
  }

  /** `t.strip().lower()` of every argument. */
  function NormalizedAll(args: seq<string>): (ts: seq<string>)
    ensures |ts| == |args|
  {
    if args == [] then [] else [Normalized(args[0])] + NormalizedAll(args[1..])
  }

  lemma {:induction false} NormalizedAllIndex(args: seq<string>, i: nat)
    requires i < |args|
    ensures NormalizedAll(args)[i] == Normalized(args[i])
  {
    if i > 0 {
      NormalizedAllIndex(args[1..], i - 1);
    }
  }

  /** The checked items kept, or the exit for the first one outside `valid`. */
  function CheckAll(ts: seq<string>, valid: set<string>, exit: string -> Exception): Result<seq<string>> {
    if ts == [] then Ok([])
    else if ts[0] !in valid then Err(exit(ts[0]))
    else Prepend([ts[0]], CheckAll(ts[1..], valid, exit))
  }

  /** The validated types of the `--types` arguments. */
  function TypesResult(args: seq<string>): Result<seq<string>> {
    CheckAll(NormalizedAll(args), ValidTypes, UnknownType)
  }

  /** main's validation loop over `--types`. */
  method ValidateTypes(args: seq<string>) returns (r: Result<seq<string>>)
    ensures r == TypesResult(args)
  {
    var types: seq<string> := [];
    var rest := args;
    PrependEmpty(TypesResult(args));
    while rest != []
      invariant TypesResult(args) == Prepend(types, CheckAll(NormalizedAll(rest), ValidTypes, UnknownType))
    {
      var t := Normalized(rest[0]);
      assert NormalizedAll(rest)[0] == t && NormalizedAll(rest)[1..] == NormalizedAll(rest[1..]);
      if t !in ValidTypes {
        return Err(UnknownType(t));
      }
      PrependAssoc(types, [t], CheckAll(NormalizedAll(rest[1..]), ValidTypes, UnknownType));
      types := types + [t];
      rest := rest[1..];
    }
    assert types + [] == types;
    r := Ok(types);
  }

  /**
   * Checking keeps every item when all are valid, in order; otherwise it
   * exits naming the first invalid one.
   */
  lemma {:induction false} CheckAllMeaning(ts: seq<string>, valid: set<string>, exit: string -> Exception)
    ensures CheckAll(ts, valid, exit).Ok? <==> forall t <- ts :: t in valid
    ensures CheckAll(ts, valid, exit).Ok? ==> CheckAll(ts, valid, exit).value == ts
    ensures CheckAll(ts, valid, exit).Err? ==>
              exists i | 0 <= i < |ts| ::
                && ts[i] !in valid
                && (forall k | 0 <= k < i :: ts[k] in valid)
                && CheckAll(ts, valid, exit).error == exit(ts[i])
  {
    if ts != [] {
      CheckAllMeaning(ts[1..], valid, exit);
      assert forall t <- ts[1..] :: t in ts;
      if CheckAll(ts, valid, exit).Ok? {
        assert [ts[0]] + ts[1..] == ts;
      }
      if CheckAll(ts, valid, exit).Err? && ts[0] in valid {
        var j :| 0 <= j < |ts| - 1 &&
                 ts[1..][j] !in valid &&
                 (forall k | 0 <= k < j :: ts[1..][k] in valid) &&
                 CheckAll(ts[1..], valid, exit).error == exit(ts[1..][j]);
        assert ts[j + 1] !in valid;
      }
    }
  }

  /**
   * Validation succeeds exactly when every argument normalises to a known
   * type, and then yields the normalised arguments in order; otherwise
   * it exits naming the first argument that does not.
   */
  lemma TypesResultMeaning(args: seq<string>)
    ensures TypesResult(args).Ok? <==> forall i | 0 <= i < |args| :: Normalized(args[i]) in ValidTypes
    ensures TypesResult(args).Ok? ==>
              |TypesResult(args).value| == |args| &&
              forall i | 0 <= i < |args| :: TypesResult(args).value[i] == Normalized(args[i])
    ensures TypesResult(args).Err? ==>
              exists i | 0 <= i < |args| ::
                && Normalized(args[i]) !in ValidTypes
                && (forall k | 0 <= k < i :: Normalized(args[k]) in ValidTypes)
                && TypesResult(args).error == UnknownType(Normalized(args[i]))
  {
    var ts := NormalizedAll(args);
    CheckAllMeaning(ts, ValidTypes, UnknownType);
    forall i | 0 <= i < |args| ensures ts[i] == Normalized(args[i]) {
      NormalizedAllIndex(args, i);
    }
  }

  /** The query mode of one type: the formula endpoint with `--by-formula`, else the element search. */
  function SearchFor(dbType: string, byFormula: bool, exactMatch: bool, limit: int, pmg: Pymatgen): Search {
    if byFormula then ByFormula(dbType, limit) else ByElements(dbType, exactMatch, limit, pmg)
  }

  /** `args.exact_match.lower() == "true"` */
  function ExactMatchFlag(arg: string): bool {
    Lower(arg) == "true"
  }

  /**
   * Loop passes run one after another, `step(x)` for each `x` of `xs`: the
   * records of each completed pass appended, the traces concatenated; the
   * first exception ends the loop.
   */
  function Chain<T, R>(step: T -> (Result<seq<R>>, seq<Event>), xs: seq<T>): (Result<seq<R>>, seq<Event>) {
    if xs == [] then (Ok([]), [])
    else
      match step(xs[0]).0
      case Err(e) => (Err(e), step(xs[0]).1)
      case Ok(recs) =>
        var rest := Chain(step, xs[1..]);
        (Prepend(recs, rest.0), step(xs[0]).1 + rest.1)
  }

  /** A completed chain completed every pass and returns records of those passes. */
  lemma {:induction false} ChainMembers<T, R>(step: T -> (Result<seq<R>>, seq<Event>), xs: seq<T>)
    ensures Chain(step, xs).0.Ok? ==> forall x <- xs :: step(x).0.Ok?
    ensures Chain(step, xs).0.Ok? ==> forall r <- Chain(step, xs).0.value :: exists x <- xs :: step(x).0.Ok? && r in step(x).0.value
  {
    if xs != [] && step(xs[0]).0.Ok? {
      ChainMembers(step, xs[1..]);
      assert forall x <- xs[1..] :: x in xs;
    }
  }

  /** One more pass of a chain: its records join those so far, or its exception ends the chain. */
  lemma ChainNext<T, R>(step: T -> (Result<seq<R>>, seq<Event>), xs: seq<T>, acc: seq<R>, trace: seq<Event>)
    requires xs != []
    ensures step(xs[0]).0.Err? ==>
              Prepend(acc, Chain(step, xs).0) == Err(step(xs[0]).0.error) && trace + Chain(step, xs).1 == trace + step(xs[0]).1
    ensures step(xs[0]).0.Ok? ==>
              && Prepend(acc, Chain(step, xs).0) == Prepend(acc + step(xs[0]).0.value, Chain(step, xs[1..]).0)
              && trace + Chain(step, xs).1 == (trace + step(xs[0]).1) + Chain(step, xs[1..]).1
  {
    if step(xs[0]).0.Ok? {
      var later := Chain(step, xs[1..]);
      PrependAssoc(acc, step(xs[0]).0.value, later.0);
      assert trace + (step(xs[0]).1 + later.1) == (trace + step(xs[0]).1) + later.1;
    }
  }

  /** The fetch loop main runs for one type. */
  function TypeFetch(world: NemadWorld, byFormula: bool, exactMatch: bool, limit: int, pmg: Pymatgen,
                     formulas: seq<string>, sleepMs: int): string -> (Result<seq<Record>>, seq<Event>)
  {
    t => Fetched(world, SearchFor(t, byFormula, exactMatch, limit, pmg), formulas, sleepMs)
  }

  /** The branch of main's query loop for type `t`: `fetch_by_formula` or `fetch_by_elements`. */
  method FetchType(world: NemadWorld, t: string, byFormula: bool, exactMatch: bool, limit: int, pmg: Pymatgen,
                   formulas: seq<string>, sleepMs: int) returns (recs: Result<seq<Record>>, trace: seq<Event>)
    ensures (recs, trace) == TypeFetch(world, byFormula, exactMatch, limit, pmg, formulas, sleepMs)(t)
  {
    if byFormula {
      recs, trace := FetchByFormula(world, t, formulas, limit, sleepMs);
    } else {
      recs, trace := FetchByElements(world, t, formulas, exactMatch, limit, sleepMs, pmg);
    }
  }

  /** The records of all types, type after type, and the trace; the first exception ends it. */
  function Harvest(world: NemadWorld, types: seq<string>, byFormula: bool, exactMatch: bool, limit: int, pmg: Pymatgen,
                   formulas: seq<string>, sleepMs: int): (Result<seq<Record>>, seq<Event>)
  {
    Chain(TypeFetch(world, byFormula, exactMatch, limit, pmg, formulas, sleepMs), types)
  }

  /** main's query loop: `all_records.extend(recs)` per type. */
  method HarvestAll(world: NemadWorld, types: seq<string>, byFormula: bool, exactMatch: bool, limit: int, pmg: Pymatgen,
                    formulas: seq<string>, sleepMs: int) returns (all: Result<seq<Record>>, trace: seq<Event>)
    ensures (all, trace) == Harvest(world, types, byFormula, exactMatch, limit, pmg, formulas, sleepMs)
  {
    ghost var fetch := TypeFetch(world, byFormula, exactMatch, limit, pmg, formulas, sleepMs);
    ghost var whole := Chain(fetch, types);
    var acc: seq<Record> := [];
    trace := [];
    var rest := types;
    PrependEmpty(whole.0);
    assert trace + whole.1 == whole.1;
    while rest != []
      invariant whole.0 == Prepend(acc, Chain(fetch, rest).0)
      invariant whole.1 == trace + Chain(fetch, rest).1
    {
      var recs, t := FetchType(world, rest[0], byFormula, exactMatch, limit, pmg, formulas, sleepMs);
      ChainNext(fetch, rest, acc, trace);
      if recs.Err? {
        return Err(recs.error), trace + t;
      }
      acc := acc + recs.value;
      trace := trace + t;
      rest := rest[1..];
    }
    assert acc + [] == acc && trace + [] == trace;
    all := Ok(acc);
  }

  /** Every plan tags its records with the database type of its search. */
  lemma PlanTagsType(search: Search, f: string)
    requires PlanFor(search, f).Some?
    ensures "_db_type" in PlanFor(search, f).value.tags
    ensures PlanFor(search, f).value.tags["_db_type"] == PyStr(search.dbType)
  {
  }

  /** Every harvested record names, in `_db_type`, one of the requested types. */
  lemma HarvestTyped(world: NemadWorld, types: seq<string>, byFormula: bool, exactMatch: bool, limit: int,
                     pmg: Pymatgen, formulas: seq<string>, sleepMs: int)
    ensures var all := Harvest(world, types, byFormula, exactMatch, limit, pmg, formulas, sleepMs).0;
              all.Ok? ==> forall r <- all.value :: "_db_type" in r && exists t <- types :: r["_db_type"] == PyStr(t)
  {
    var fetch := TypeFetch(world, byFormula, exactMatch, limit, pmg, formulas, sleepMs);
    ChainMembers(fetch, types);
    if Chain(fetch, types).0.Ok? {
      forall r <- Chain(fetch, types).0.value ensures "_db_type" in r && exists t <- types :: r["_db_type"] == PyStr(t) {
        var t :| t in types && fetch(t).0.Ok? && r in fetch(t).0.value;
        var search := SearchFor(t, byFormula, exactMatch, limit, pmg);
        FetchedMeaning(world, search, formulas, sleepMs);
        var f :| f in formulas && PlanFor(search, f).Some? && Carries(r, PlanFor(search, f).value.tags);
        PlanTagsType(search, f);
      }
    }
  }

  /** `str(x)` of a table cell as `astype(str)` renders it; a missing cell reads `nan`. */
  function CellText(c: Py): string {
    if c.PyNone? then "nan" else Str(c)
  }

  /** `sorted(set(mp["_mp_formula"].astype(str).map(canonical_formula)))` */
  function MpFormulas(cells: seq<Py>, pmg: Pymatgen): (r: seq<string>)
    ensures StrictlySorted(r)
    ensures forall f :: f in r <==> exists c <- cells :: CanonicalFormula(PyStr(CellText(c)), pmg) == f
  {
    SortSet(set c | c in cells :: CanonicalFormula(PyStr(CellText(c)), pmg))
  }

  /** Without pymatgen every queried formula is stripped, so it canonicalises to itself. */
  lemma MpFormulasStripped(cells: seq<Py>)
    ensures forall f <- MpFormulas(cells, Missing) :: Trimmed(f) && CanonicalFormula(PyStr(f), Missing) == f
  {
    forall f <- MpFormulas(cells, Missing) ensures Trimmed(f) && CanonicalFormula(PyStr(f), Missing) == f {
      var c :| c in cells && CanonicalFormula(PyStr(CellText(c)), Missing) == f;
      CanonicalFormulaMeaning(PyStr(CellText(c)), Missing);
      StripIdempotent(CellText(c));
      TrimmedIsStripped(f);
    }
  }

  /** The columns `flatten_records` puts first, in this order, when present. */
  const Preferred: seq<string> := [
    "_db_type", "Material_Name", "Curie", "Neel", "Crystal_Structure", "Magnetic_Moment", "DOI",
    "_query_formula", "_query_elements", "_query_formula_hint"
  ]

  /** `[c for c in pref if c in cols]` */
  function Present(pref: seq<string>, cols: seq<string>): (r: seq<string>)
    ensures forall c :: c in r <==> c in pref && c in cols
  {
    if pref == [] then []
    else (if pref[0] in cols then [pref[0]] else []) + Present(pref[1..], cols)
  }

  /** `[c for c in cols if c not in front]` */
  function Others(cols: seq<string>, front: seq<string>): (r: seq<string>)
    ensures forall c :: c in r <==> c in cols && c !in front
  {
    if cols == [] then []
    else (if cols[0] !in front then [cols[0]] else []) + Others(cols[1..], front)
  }

  /** `[c for c in pref if c in cols]` of a single column keeps it exactly when it is present. */
  lemma PresentSingle(c: string, cols: seq<string>)
    ensures Present([c], cols) == if c in cols then [c] else []
  {
    assert [c][1..] == [];
  }

  /** The present filter distributes over concatenation, so it keeps the order of `pref`. */
  lemma {:induction false} PresentAppend(a: seq<string>, b: seq<string>, cols: seq<string>)
    ensures Present(a + b, cols) == Present(a, cols) + Present(b, cols)
    decreases |a|
  {
    if a != [] {
      assert (a + b)[0] == a[0];
      assert (a + b)[1..] == a[1..] + b;
      PresentAppend(a[1..], b, cols);
    } else {
      assert a + b == b;
    }
  }

  /** `[c for c in cols if c not in front]` of a single column keeps it exactly when it is not in front. */
  lemma OthersSingle(c: string, front: seq<string>)
    ensures Others([c], front) == if c !in front then [c] else []
  {
    assert [c][1..] == [];
  }

  /** The rest filter distributes over concatenation, so it keeps the order of `cols`. */
  lemma {:induction false} OthersAppend(a: seq<string>, b: seq<string>, front: seq<string>)
    ensures Others(a + b, front) == Others(a, front) + Others(b, front)
    decreases |a|
  {
    if a != [] {
      assert (a + b)[0] == a[0];
      assert (a + b)[1..] == a[1..] + b;
      OthersAppend(a[1..], b, front);
    } else {
      assert a + b == b;
    }
  }

  predicate Distinct(xs: seq<string>) {
    forall i, j | 0 <= i < j < |xs| :: xs[i] != xs[j]
  }

  lemma {:induction false} PresentDistinct(pref: seq<string>, cols: seq<string>)
    requires Distinct(pref)
    ensures Distinct(Present(pref, cols))
  {
    if pref != [] {
      assert Distinct(pref[1..]);
      PresentDistinct(pref[1..], cols);
      assert pref[0] !in pref[1..];
    }
  }

  lemma {:induction false} OthersDistinct(cols: seq<string>, front: seq<string>)
    requires Distinct(cols)
    ensures Distinct(Others(cols, front))
  {
    if cols != [] {
      assert Distinct(cols[1..]);
      OthersDistinct(cols[1..], front);
      assert cols[0] !in cols[1..];
    }
  }

  /**
   * The column order of the frame `flatten_records` builds from records
   * whose normalised columns are `cols`: none for no records, else the
   * preferred columns present, then the others in their order.
   */
  function FlattenColumns(records: seq<Record>, cols: seq<string>): seq<string> {
    if records == [] then []
    else
      var front := Present(Preferred, cols);
      front + Others(cols, front)
  }

  /**
   * For records, the reordering is a permutation of the (distinct)
   * normalised columns: first the preferred columns that are present, in
   * their listed order, then every other column in its order in `cols`
   * (PresentAppend and OthersAppend show both filters keep order).
   */
  lemma FlattenColumnsMeaning(records: seq<Record>, cols: seq<string>)
    requires Distinct(cols)
    ensures records == [] ==> FlattenColumns(records, cols) == []
    ensures records != [] ==>
              var r := FlattenColumns(records, cols);
              && Distinct(r)
              && |r| == |cols|
              && (forall c :: c in r <==> c in cols)
              && (forall i, j | 0 <= i < j < |r| :: r[j] in Preferred ==> r[i] in Preferred)
              && r[..|Present(Preferred, cols)|] == Present(Preferred, cols)
              && r[|Present(Preferred, cols)|..] == Others(cols, Present(Preferred, cols))
  {
    if records != [] {
      var front := Present(Preferred, cols);
      var others := Others(cols, front);
      var r := front + others;
      PresentDistinct(Preferred, cols);
      OthersDistinct(cols, front);
      forall i, j | 0 <= i < j < |r| ensures r[i] != r[j] {
        if i < |front| <= j {
          assert r[i] in front && r[j] in others;
        }
      }
      forall i, j | 0 <= i < j < |r| && r[j] in Preferred ensures r[i] in Preferred {
      }
      DistinctSameLength(r, cols);
    }
  }

  /** Two duplicate-free lists with the same members have the same length. */
  lemma DistinctSameLength(a: seq<string>, b: seq<string>)
    requires Distinct(a) && Distinct(b)
    requires forall c :: c in a <==> c in b
    ensures |a| == |b|
  {
    DistinctShorter(a, b);
    DistinctShorter(b, a);
  }

  /** A duplicate-free list whose members all occur in `b` is no longer than `b`. */
  lemma {:induction false} DistinctShorter(a: seq<string>, b: seq<string>)
    requires Distinct(a)
    requires forall c <- a :: c in b
    ensures |a| <= |b|
    decreases |a|
  {
    if a != [] {
      var x := a[|a| - 1];
      assert x in a;
      var k :| 0 <= k < |b| && b[k] == x;
      var a' := a[..|a| - 1];
      var b' := b[..k] + b[k + 1..];
      assert b == b[..k] + [x] + b[k + 1..];
      forall c <- a' ensures c in b' {
        var i :| 0 <= i < |a'| && a'[i] == c;
        assert a[i] != a[|a| - 1];
        assert c in b && c != x;
      }
      DistinctShorter(a', b');
    }
  }

  /**
   * The NEMAD column the merge canonicalises: `Material_Name` if present,
   * else `_query_formula` if present, else `_query_formula_hint`; no merge
   * for an empty result.
   */
  function MergeKey(records: seq<Record>, cols: seq<string>): Option<string> {
    if records == [] || cols == [] then None
    else if "Material_Name" in cols then Some("Material_Name")
    else if "_query_formula" in cols then Some("_query_formula")
    else Some("_query_formula_hint")
  }

  /** Each candidate is chosen exactly when it is the first of the three present (the last one by default). */
  lemma MergeKeyMeaning(records: seq<Record>, cols: seq<string>)
    ensures MergeKey(records, cols).None? <==> records == [] || cols == []
    ensures MergeKey(records, cols) == Some("Material_Name") <==> records != [] && "Material_Name" in cols
    ensures MergeKey(records, cols) == Some("_query_formula") <==>
              records != [] && "Material_Name" !in cols && "_query_formula" in cols
    ensures MergeKey(records, cols) == Some("_query_formula_hint") <==>
              records != [] && cols != [] && "Material_Name" !in cols && "_query_formula" !in cols
  {
  }

  /** The query tag a search by formula, or by elements, puts on its records. */
  function QueryTag(byFormula: bool): string {
    if byFormula then "_query_formula" else "_query_formula_hint"
  }

  /** Every plan carries the query tag of its kind of search, as a string. */
  lemma PlanTagsQuery(dbType: string, byFormula: bool, exactMatch: bool, limit: int, pmg: Pymatgen, f: string)
    requires PlanFor(SearchFor(dbType, byFormula, exactMatch, limit, pmg), f).Some?
    ensures var tags := PlanFor(SearchFor(dbType, byFormula, exactMatch, limit, pmg), f).value.tags;
              QueryTag(byFormula) in tags && tags[QueryTag(byFormula)].PyStr?
  {
  }

  /**
   * Every harvested record carries, as a string, the query tag of the
   * harvest: `_query_formula` by formula, `_query_formula_hint` by elements.
   */
  lemma HarvestQueryTagged(world: NemadWorld, types: seq<string>, byFormula: bool, exactMatch: bool, limit: int,
                           pmg: Pymatgen, formulas: seq<string>, sleepMs: int)
    ensures var all := Harvest(world, types, byFormula, exactMatch, limit, pmg, formulas, sleepMs).0;
              all.Ok? ==> forall r: Record <- all.value :: QueryTag(byFormula) in r && r[QueryTag(byFormula)].PyStr?
  {
    var fetch := TypeFetch(world, byFormula, exactMatch, limit, pmg, formulas, sleepMs);
    ChainMembers(fetch, types);
    if Chain(fetch, types).0.Ok? {
      forall r: Record <- Chain(fetch, types).0.value ensures QueryTag(byFormula) in r && r[QueryTag(byFormula)].PyStr? {
        var t :| t in types && fetch(t).0.Ok? && r in fetch(t).0.value;
        var search := SearchFor(t, byFormula, exactMatch, limit, pmg);
        FetchedMeaning(world, search, formulas, sleepMs);
        var f :| f in formulas && PlanFor(search, f).Some? && Carries(r, PlanFor(search, f).value.tags);
        PlanTagsQuery(t, byFormula, exactMatch, limit, pmg, f);
      }
    }
  }

  /**
   * The merge column is a column of the frame: when the records all carry
   * a query tag as a string and every field that is not a dict is a
   * column, the merge key exists and is one of the columns, so
   * `df_nemad[nemad_formula_col]` finds it.
   */
  lemma MergeKeyIsColumn(records: seq<Record>, cols: seq<string>, byFormula: bool)
    requires records != []
    requires forall r: Record <- records :: QueryTag(byFormula) in r && r[QueryTag(byFormula)].PyStr?
    requires forall r: Record <- records, k: string <- r.Keys | !r[k].PyDict? :: k in cols
    ensures MergeKey(records, cols).Some? && MergeKey(records, cols).value in cols
  {
    var r := records[0];
    assert r in records;
    assert QueryTag(byFormula) in cols;
  }

  /**
   * After a harvest that found records, the merge key main picks is a
   * column of the frame `flatten_records` builds from them.
   */
  lemma HarvestMergeKey(world: NemadWorld, types: seq<string>, byFormula: bool, exactMatch: bool, limit: int,
                        pmg: Pymatgen, formulas: seq<string>, sleepMs: int, cols: seq<string>)
    requires var all := Harvest(world, types, byFormula, exactMatch, limit, pmg, formulas, sleepMs).0;
               all.Ok? && all.value != [] && forall r: Record <- all.value, k: string <- r.Keys | !r[k].PyDict? :: k in cols
    ensures var all := Harvest(world, types, byFormula, exactMatch, limit, pmg, formulas, sleepMs).0;
              MergeKey(all.value, cols).Some? && MergeKey(all.value, cols).value in cols
  {
    HarvestQueryTagged(world, types, byFormula, exactMatch, limit, pmg, formulas, sleepMs);
    MergeKeyIsColumn(Harvest(world, types, byFormula, exactMatch, limit, pmg, formulas, sleepMs).0.value, cols, byFormula);
  }
}
