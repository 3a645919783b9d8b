/**
 * COD_downloader.py, `first_scan`: reads each CIF file named in a path
 * list, pulls its tagged fields out by plain text splitting, tokenises
 * its formula into element tokens, keeps the files whose tokens meet an
 * allow list and avoid a ban list, and appends one CSV row per kept file
 * to the datalist file; it counts the files without a formula tag.
 *
 * File contents are given by a `read` function from path to text.
 */
module CodDownloader {
  import opened Text
  import opened PyValues

  const Digits: set<char> := {'0', '1', '2', '3', '4', '5', '6', '7', '8', '9'}

  /** The deleted characters are exactly the decimal digits. */
  lemma DigitsAreDigits(c: char)
    ensures c in Digits <==> IsDigit(c)
  {
  }

  /** The header line `first_scan` appends before scanning. */
  const Header: string := "COD_ID,path,pretty_formula,compound,lattice_system,spacegroup,species,volume_cell,mag_sites,comment1,doi\n"

  /** At least one of these must be a token. */
  const Necessary: seq<string> := ["Mn", "Fe", "Si", "Ni", " Y", "Zr", "Al", "Cu"]

  /** None of these may be a token. */
  const Banlist: seq<string> := [
    "Re", "Os", "Ir", "Pt", "Au", "In", "Tc",
    "Be", "As", "Cd", "Ba", "Hg", "Tl", "Pb", "Ac",
    "Cs", "Po", "Np", "U", "Pu", "Th",
    "He", "Ne", "Ar", "O", "Kr", "Xe"
  ]

  // ---------------------------------------------------------------------
  // Tag extraction
  // ---------------------------------------------------------------------

  /** `s.split(sep)[1]`: None where it raises IndexError (no occurrence of `sep`). */
  function SecondPart(s: string, sep: string): Option<string>
    requires sep != []
  {
    var parts := Split(s, sep);
    if |parts| >= 2 then Some(parts[1]) else None
  }

  /** `s.split('\n')[0]` */
  function FirstLine(s: string): string {
    Split(s, "\n")[0]
  }

  /** `content.split(tag)[1].split('\n')[0]`, None where it raises. */
  function TagLine(content: string, tag: string): Option<string>
    requires tag != []
  {
    match SecondPart(content, tag)
    case None => None
    case Some(part) => Some(FirstLine(part))
  }

  /** The first piece of a split is the text before the first occurrence of the separator. */
  lemma SplitHead(s: string, sep: string)
    requires sep != []
    ensures Find(s, sep).None? ==> Split(s, sep)[0] == s
    ensures Find(s, sep).Some? ==> Split(s, sep)[0] == s[..Find(s, sep).value]
  {
  }

  /** The second piece of a split is the first piece of what follows the first occurrence. */
  lemma SplitSecond(s: string, sep: string, i: nat)
    requires sep != [] && Find(s, sep) == Some(i)
    ensures Split(s, sep)[1] == Split(s[i + |sep|..], sep)[0]
  {
  }

  /** An occurrence of a one-character separator is that character. */
  lemma OccursAtChar(s: string, j: nat, c: char)
    ensures OccursAt(s, j, [c]) <==> j < |s| && s[j] == c
  {
    if j < |s| {
      assert s[j..j + 1] == [s[j]];
    }
  }

  /** The first line is a newline-free prefix, ended by a newline or by the end of the text. */
  lemma FirstLineMeaning(s: string)
    ensures var l := FirstLine(s); |l| <= |s| && l == s[..|l|] && '\n' !in l
    ensures var l := FirstLine(s); |l| < |s| ==> s[|l|] == '\n'
  {
    SplitHead(s, "\n");
    var l := FirstLine(s);
    forall j: nat | j < |l| ensures l[j] != '\n' {
      OccursAtChar(s, j, '\n');
    }
    if Find(s, "\n").Some? {
      OccursAtChar(s, Find(s, "\n").value, '\n');
    }
  }

  /**
   * `v` is the newline-free text of `content` at `start`, ended by the end
   * of the text, a newline or an occurrence of `tag`.
   */
  predicate LineAt(content: string, start: nat, v: string, tag: string) {
    && '\n' !in v
    && start + |v| <= |content|
    && v == content[start..start + |v|]
    && (start + |v| == |content| || content[start + |v|] == '\n' || OccursAt(content, start + |v|, tag))
  }

  /**
   * The tag line is None exactly when the tag does not occur; otherwise it
   * is the newline-free text that follows the tag's first occurrence, up
   * to the next newline, the next occurrence of the tag, or the end.
   */
  lemma TagLineMeaning(content: string, tag: string)
    requires tag != []
    ensures TagLine(content, tag).None? <==> Find(content, tag).None?
    ensures TagLine(content, tag).Some? ==> LineAt(content, Find(content, tag).value + |tag|, TagLine(content, tag).value, tag)
  {
    SecondPartAbsent(content, tag);
    if Find(content, tag).Some? {
      TagLineFound(content, tag);
    }
  }

  /** `split(sep)[1]` raises exactly when the separator does not occur. */
  lemma SecondPartAbsent(s: string, sep: string)
    requires sep != []
    ensures SecondPart(s, sep).None? <==> Find(s, sep).None?
  {
  }

  /** The found case of `TagLineMeaning`, with the tag line and its start named. */
  lemma TagLineFound(content: string, tag: string)
    requires tag != [] && Find(content, tag).Some?
    ensures TagLine(content, tag).Some?
    ensures LineAt(content, Find(content, tag).value + |tag|, TagLine(content, tag).value, tag)
  {
    var start := Find(content, tag).value + |tag|;
    var rest := content[start..];
    var part := Split(rest, tag)[0];
    var v := FirstLine(part);
    assert TagLine(content, tag) == Some(v) by {
      SplitSecond(content, tag, Find(content, tag).value);
      assert SecondPart(content, tag) == Some(part);
    }
    assert '\n' !in v && |v| <= |part| && v == part[..|v|] && (|v| < |part| ==> part[|v|] == '\n') by {
      FirstLineMeaning(part);
    }
    assert |part| <= |rest| && part == rest[..|part|] && (|part| < |rest| ==> OccursAt(rest, |part|, tag)) by {
      PartOfRest(rest, tag);
    }
    LineAtPieces(content, start, part, v, tag);
  }

  /**
   * A newline-free prefix of a prefix of the text after `start`, the
   * first ended by a newline and the second by `tag`, is a line at `start`.
   */
  lemma LineAtPieces(content: string, start: nat, part: string, v: string, tag: string)
    requires start <= |content|
    requires '\n' !in v && |v| <= |part| && v == part[..|v|] && (|v| < |part| ==> part[|v|] == '\n')
    requires |part| <= |content| - start && part == content[start..][..|part|]
    requires |part| < |content| - start ==> OccursAt(content[start..], |part|, tag)
    ensures LineAt(content, start, v, tag)
  {
    var rest := content[start..];
    assert v == rest[..|v|];
    PrefixOfSuffix(content, start, v);
    if |v| < |rest| {
      assert content[start + |v|] == rest[|v|];
      if |v| == |part| {
        OccursShift(content, start, |v|, tag);
      } else {
        assert rest[|v|] == part[|v|];
      }
    }
  }

  /** A prefix of a suffix is a slice. */
  lemma PrefixOfSuffix(s: string, k: nat, v: string)
    requires k <= |s| && |v| <= |s| - k && v == s[k..][..|v|]
    ensures v == s[k..k + |v|]
  {
  }

  /** An occurrence in a suffix is an occurrence in the whole text. */
  lemma OccursShift(s: string, k: nat, j: nat, sep: string)
    requires k <= |s| && OccursAt(s[k..], j, sep)
    ensures OccursAt(s, k + j, sep)
  {
    assert s[k..][j..j + |sep|] == s[k + j..k + j + |sep|];
  }

  /** The first piece of a split is a prefix, ended by the separator or the end of the text. */
  lemma PartOfRest(s: string, sep: string)
    requires sep != []
    ensures var p := Split(s, sep)[0]; |p| <= |s| && p == s[..|p|]
    ensures var p := Split(s, sep)[0]; |p| < |s| ==> Find(s, sep) == Some(|p|) && OccursAt(s, |p|, sep)
  {
    SplitHead(s, sep);
  }

  /** `content.split(tag)[1].split('\n')[0].strip(' ').strip("'")`, or `'na'` when the tag is absent. */
  function Field(content: string, tag: string): string
    requires tag != []
  {
    match TagLine(content, tag)
    case None => "na"
    case Some(v) => StripChars(StripChars(v, {' '}), {'\''})
  }

  /** The formula of `_chemical_formula_sum`, stripped further of whitespace; None when the tag is absent. */
  function PrettyFormula(content: string): Option<string> {
    match TagLine(content, "_chemical_formula_sum")
    case None => None
    case Some(v) => Some(Strip(StripChars(StripChars(v, {' '}), {'\''})))
  }

  /** The COD id: the rest of the line after `data_`, stripped of spaces. */
  function CodId(content: string): string {
    match TagLine(content, "data_")
    case None => "na"
    case Some(v) => StripChars(v, {' '})
  }

  /** `content.split('_publ_section_title')[1].split('\n')[2].split('_journal_name_full')[0]`, or `'na'`. */
  function Comment1(content: string): string {
    match SecondPart(content, "_publ_section_title")
    case None => "na"
    case Some(part) =>
      var lines := Split(part, "\n");
      if |lines| < 3 then "na" else Split(lines[2], "_journal_name_full")[0]
  }

  /** `f` is drawn from the characters of `v` and has no single quote at either end. */
  predicate QuotesStripped(f: string, v: string) {
    (forall k | 0 <= k < |f| :: f[k] in v) && (f != [] ==> f[0] != '\'' && f[|f| - 1] != '\'')
  }

  /** Stripping spaces and then quotes keeps only characters of the text and leaves no quote at the ends. */
  lemma StripQuotes(v: string)
    ensures QuotesStripped(StripChars(StripChars(v, {' '}), {'\''}), v)
  {
    var once := StripChars(v, {' '});
    StripCharsFrom(v, {' '});
    StripCharsFrom(once, {'\''});
  }

  /** Stripping keeps only characters of the text. */
  lemma StripCharsFrom(s: string, chars: set<char>)
    ensures var r := StripChars(s, chars); forall k | 0 <= k < |r| :: r[k] in s
  {
  }

  /**
   * A field is `'na'` when its tag is absent; otherwise it comes from its
   * tag line, holds no newline and neither starts nor ends with a quote.
   */
  lemma FieldMeaning(content: string, tag: string)
    requires tag != []
    ensures Find(content, tag).None? ==> Field(content, tag) == "na"
    ensures Find(content, tag).Some? ==> QuotesStripped(Field(content, tag), TagLine(content, tag).value)
    ensures Find(content, tag).Some? ==> '\n' !in Field(content, tag)
  {
    TagLineMeaning(content, tag);
    if Find(content, tag).Some? {
      var v := TagLine(content, tag).value;
      StripQuotes(v);
      var f := Field(content, tag);
      assert QuotesStripped(f, v);
      assert '\n' !in v;
    }
  }

  /**
   * The formula is None exactly when `_chemical_formula_sum` is absent;
   * otherwise it is its tag line stripped of spaces, quotes and then
   * whitespace, so it has no whitespace at either end.
   */
  lemma PrettyFormulaMeaning(content: string)
    ensures PrettyFormula(content).None? <==> Find(content, "_chemical_formula_sum").None?
    ensures PrettyFormula(content).Some? ==> Trimmed(PrettyFormula(content).value)
  {
    TagLineMeaning(content, "_chemical_formula_sum");
  }

  // ---------------------------------------------------------------------
  // Element tokens and the allow/ban filter
  // ---------------------------------------------------------------------

  /** `formula.translate({ord(i): None for i in '1234567890'}).split()` */
  function Elements(formula: string): (els: seq<string>)
    ensures forall w <- els :: w != [] && forall c <- w :: !IsDigit(c) && !IsSpace(c)
  {
    var stripped := Delete(formula, Digits);
    assert forall c <- stripped :: !IsDigit(c);
    WordsFrom(stripped);
    Words(stripped)
  }

  /** Every character of a word comes from the text. */
  lemma {:induction false} WordsFrom(s: string)
    ensures forall w <- Words(s), c <- w :: c in s
    decreases |s|
  {
    if s != [] {
      if IsSpace(s[0]) {
        WordsFrom(s[1..]);
      } else {
        var n := RunLength(s);
        WordsFrom(s[n..]);
        assert forall c <- s[..n] :: c in s;
        assert forall c <- s[n..] :: c in s;
      }
    }
  }

  /** Every non-whitespace character of a text lies in one of its words. */
  lemma {:induction false} WordsCover(s: string, c: char)
    requires c in s && !IsSpace(c)
    ensures exists w <- Words(s) :: c in w
    decreases |s|
  {
    if IsSpace(s[0]) {
      WordsCover(s[1..], c);
    } else {
      var n := RunLength(s);
      var i :| 0 <= i < |s| && s[i] == c;
      if i < n {
        assert s[..n][i] == c;
        assert s[..n] in Words(s);
      } else {
        assert s[n..][i - n] == c;
        WordsCover(s[n..], c);
        assert forall w <- Words(s[n..]) :: w in Words(s);
      }
    }
  }

  /**
   * The tokens are digit-free and whitespace-free, and every other
   * character of the formula survives in some token: a `.` is kept, so
   * `Fe0.5` gives the token `Fe.`.
   */
  lemma ElementsKeep(formula: string, c: char)
    requires c in formula && !IsDigit(c) && !IsSpace(c)
    ensures exists w <- Elements(formula) :: c in w
  {
    assert c !in Digits;
    WordsCover(Delete(formula, Digits), c);
  }

  /** A space-free, non-empty text is its own single word. */
  lemma OneWord(w: string)
    requires w != [] && forall i | 0 <= i < |w| :: !IsSpace(w[i])
    ensures Words(w) == [w]
  {
    var n := RunLength(w);
    assert n == |w|;
    assert w[..n] == w && w[n..] == [];
    assert Words(w) == [w[..n]] + Words(w[n..]);
  }

  /** Deleting characters a text does not hold leaves it unchanged. */
  lemma {:induction false} DeleteNone(s: string, chars: set<char>)
    requires forall c <- s :: c !in chars
    ensures Delete(s, chars) == s
  {
    if s != [] {
      assert s[0] in s;
      assert forall c <- s[1..] :: c in s;
      DeleteNone(s[1..], chars);
      assert s == [s[0]] + s[1..];
    }
  }

  /** Deleting from a concatenation deletes from each part. */
  lemma {:induction false} DeleteAppend(a: string, b: string, chars: set<char>)
    ensures Delete(a + b, chars) == Delete(a, chars) + Delete(b, chars)
  {
    if a == [] {
      assert a + b == b;
    } else {
      assert (a + b)[1..] == a[1..] + b;
      DeleteAppend(a[1..], b, chars);
    }
  }

  /** Deleting the digits of `0.5` leaves its point. */
  lemma HalfKeepsPoint()
    ensures Delete("0.5", Digits) == "."
  {
    assert Delete("5", Digits) == "";
  }

  /**
   * A fractional amount keeps its decimal point in the token: `Fe0.5`
   * gives the token `Fe.`, which is not the symbol `Fe`.
   */
  lemma FractionalToken(symbol: string)
    requires symbol != [] && forall c <- symbol :: !IsDigit(c) && !IsSpace(c)
    ensures Elements(symbol + "0.5") == [symbol + "."]
    ensures symbol !in Elements(symbol + "0.5")
  {
    DeleteAppend(symbol, "0.5", Digits);
    forall c <- symbol ensures c !in Digits {
      DigitsAreDigits(c);
    }
    DeleteNone(symbol, Digits);
    HalfKeepsPoint();
    var token := symbol + ".";
    forall i | 0 <= i < |token| ensures !IsSpace(token[i]) {
      if i < |symbol| {
        assert token[i] == symbol[i] && symbol[i] in symbol;
      }
    }
    OneWord(token);
    assert |token| != |symbol|;
  }

  /** `[i for i in list if i in els]` */
  function Matches(list: seq<string>, els: seq<string>): (m: seq<string>)
    ensures forall x :: x in m <==> x in list && x in els
  {
    if list == [] then []
    else (if list[0] in els then [list[0]] else []) + Matches(list[1..], els)
  }

  /** The filter: some allow-list entry is a token, and (checked only then) no ban-list entry is. */
  predicate Accepted(els: seq<string>) {
    Matches(Necessary, els) != [] && Matches(Banlist, els) == []
  }

  /**
   * A file is kept exactly when one of its tokens is on the allow list
   * and none is on the ban list; the ban list wins, so Fe with O is
   * refused.
   */
  lemma AcceptedMeaning(els: seq<string>)
    ensures Accepted(els) <==> (exists n <- Necessary :: n in els) && (forall b <- Banlist :: b !in els)
    ensures "Fe" in els && "O" in els ==> !Accepted(els)
  {
    if Matches(Necessary, els) != [] {
      assert Matches(Necessary, els)[0] in Matches(Necessary, els);
    }
    if Matches(Banlist, els) != [] {
      assert Matches(Banlist, els)[0] in Matches(Banlist, els);
    }
    assert "O" in Banlist;
  }

  /**
   * The allow-list entry `" Y"` begins with a space and no token holds
   * one, so it never matches: yttrium alone never admits a file.
   */
  lemma SpacedYttriumNeverMatches(formula: string)
    ensures " Y" !in Elements(formula)
    ensures " Y" !in Matches(Necessary, Elements(formula))
  {
    assert IsSpace(" Y"[0]);
  }

  // ---------------------------------------------------------------------
  // The record and its row
  // ---------------------------------------------------------------------

  /** What `first_scan` pulls out of one CIF file's text. */
  datatype Cif = Cif(
    codId: string,
    formula: Option<string>,
    compound: string,
    lattice: string,
    spacegroup: string,
    volume: string,
    comment: string,
    doi: string)

  /** The fields of a CIF text, each by its tag. */
  function Parse(content: string): (c: Cif)
    ensures c.formula.None? <==> Find(content, "_chemical_formula_sum").None?
  {
    PrettyFormulaMeaning(content);
    Cif(
      CodId(content),
      PrettyFormula(content),
      Field(content, "_chemical_formula_structural"),
      Field(content, "_symmetry_cell_setting"),
      Field(content, "_space_group_IT_number"),
      Field(content, "_cell_volume"),
      Comment1(content),
      Field(content, "_journal_paper_doi"))
  }

  /** The formula as the row and the tokeniser see it: `'na'` when absent. */
  function FormulaText(c: Cif): string {
    match c.formula
    case None => "na"
    case Some(f) => f
  }

  /**
   * The eleven fields of the row for the file at path line `line`: id,
   * path with `D`, `:`, `/` stripped from both ends and then the newline,
   * formula, structural formula, lattice system, space group, the token
   * list's `str` with commas made `;`, volume, `0`, comment with commas
   * made `;`, DOI with commas stripped from both ends.
   */
  function RowFields(c: Cif, line: string): (fields: seq<string>)
    ensures |fields| == 11
  {
    [ c.codId,
      StripChars(StripChars(line, {'D', ':', '/'}), {'\n'}),
      FormulaText(c),
      c.compound,
      c.lattice,
      c.spacegroup,
      ReplaceChar(Str(PyList(Strs(Elements(FormulaText(c))))), ',', ';'),
      c.volume,
      "0",
      ReplaceChar(c.comment, ',', ';'),
      StripChars(c.doi, {','}) ]
  }

  /** The fields joined by commas, then a trailing comma and a newline. */
  function CsvLine(fields: seq<string>): string {
    Join(",", fields) + ",\n"
  }

  /** `newrow` */
  function Row(c: Cif, line: string): string {
    CsvLine(RowFields(c, line))
  }

  /** The token list and the comment carry no comma; the DOI neither starts nor ends with one. */
  lemma RowSanitised(c: Cif, line: string)
    ensures ',' !in RowFields(c, line)[6]
    ensures ',' !in RowFields(c, line)[9]
    ensures var doi := RowFields(c, line)[10]; doi != [] ==> doi[0] != ',' && doi[|doi| - 1] != ','
    ensures RowFields(c, line)[8] == "0"
  {
  }

  /**
   * When no field holds a comma, splitting a CSV line (without its
   * newline) on commas gives back the fields and the empty field after the
   * trailing comma.
   */
  lemma CsvLineRoundTrip(fields: seq<string>)
    requires fields != [] && forall f <- fields :: ',' !in f
    ensures var r := CsvLine(fields); |r| >= 2 && r[|r| - 1] == '\n'
    ensures var r := CsvLine(fields); Split(r[..|r| - 1], ",") == fields + [""]
  {
    var r := CsvLine(fields);
    JoinSnoc(",", fields, "");
    assert r[..|r| - 1] == Join(",", fields) + "," + "";
    assert forall f <- fields + [""] :: ',' !in f;
    SplitJoin(',', fields + [""]);
    assert "," == [','];
  }

  // ---------------------------------------------------------------------
  // The scan
  // ---------------------------------------------------------------------

  /** Whether a record passes the allow/ban filter on its formula's tokens. */
  predicate Kept(c: Cif) {
    Accepted(Elements(FormulaText(c)))
  }

  /** The record of the file a path line names (the line without its newline). */
  function Record(read: string -> string, line: string): Cif {
    Parse(read(StripChars(line, {'\n'})))
  }

  /** The row a path line contributes, if its file passes the filter. */
  function ScanRow(read: string -> string, line: string): Option<string> {
    var c := Record(read, line);
    if Kept(c) then Some(Row(c, line)) else None
  }

  /** Whether the file a path line names lacks `_chemical_formula_sum`. */
  predicate MissingFormula(read: string -> string, line: string) {
    Record(read, line).formula.None?
  }

  /** The present results of `f` over `xs`, in order. */
  function Somes<T>(f: T -> Option<string>, xs: seq<T>): seq<string> {
    if xs == [] then []
    else (match f(xs[0]) case Some(r) => [r] case None => []) + Somes(f, xs[1..])
  }

  /** How many of `xs` satisfy `p`. */
  function Count<T>(p: T -> bool, xs: seq<T>): nat {
    if xs == [] then 0 else (if p(xs[0]) then 1 else 0) + Count(p, xs[1..])
  }

  /** The rows written one after another. */
  function Concat(rows: seq<string>): string {
    if rows == [] then "" else rows[0] + Concat(rows[1..])
  }

  /** A present result as text, an absent one as nothing. */
  function OrEmpty(o: Option<string>): string {
    match o
    case Some(r) => r
    case None => ""
  }

  /** The rows of the kept files, in path-list order. */
  function Rows(read: string -> string, lines: seq<string>): seq<string> {
    Somes(line => ScanRow(read, line), lines)
  }

  /** The number of files without `_chemical_formula_sum`. */
  function Missing(read: string -> string, lines: seq<string>): nat {
    Count(line => MissingFormula(read, line), lines)
  }

  /** The concatenation of a row and more rows. */
  lemma ConcatCons(r: string, tail: seq<string>)
    ensures Concat([r] + tail) == r + Concat(tail)
  {
    assert ([r] + tail)[1..] == tail;
  }

  /** One step of the written text: the first result, then the rest. */
  lemma SomesNext<T>(f: T -> Option<string>, xs: seq<T>)
    requires xs != []
    ensures Concat(Somes(f, xs)) == OrEmpty(f(xs[0])) + Concat(Somes(f, xs[1..]))
  {
    var tail := Somes(f, xs[1..]);
    if f(xs[0]).Some? {
      ConcatCons(f(xs[0]).value, tail);
    } else {
      assert Somes(f, xs) == tail;
    }
  }

  /** Concatenation regroups. */
  lemma Regroup(a: string, b: string, c: string)
    ensures a + (b + c) == (a + b) + c
  {
  }

  /** Each present result comes from some input. */
  lemma {:induction false} SomesFrom<T>(f: T -> Option<string>, xs: seq<T>)
    ensures forall r <- Somes(f, xs) :: exists x <- xs :: f(x) == Some(r)
  {
    if xs != [] {
      SomesFrom(f, xs[1..]);
      assert forall x <- xs[1..] :: x in xs;
    }
  }

  /** Results absent wherever `p` holds: present results and `p`'s count fit in the input. */
  lemma {:induction false} SomesCount<T>(f: T -> Option<string>, p: T -> bool, xs: seq<T>)
    requires forall x <- xs :: p(x) ==> f(x).None?
    ensures |Somes(f, xs)| + Count(p, xs) <= |xs|
  {
    if xs != [] {
      assert xs[0] in xs;
      assert forall x <- xs[1..] :: x in xs;
      SomesCount(f, p, xs[1..]);
    }
  }

  /** A record without a formula has the token list `['na']` and is never kept. */
  lemma MissingNotKept(c: Cif)
    requires c.formula.None?
    ensures !Kept(c)
  {
    var na := FormulaText(c);
    assert na == "na";
    DeleteNone(na, Digits);
    OneWord(na);
    assert Elements(na) == [na];
    assert forall x <- Necessary :: x !in [na];
    NoneMatch(Necessary, [na]);
  }

  /** A list none of whose entries is a token matches nothing. */
  lemma {:induction false} NoneMatch(list: seq<string>, els: seq<string>)
    requires forall x <- list :: x !in els
    ensures Matches(list, els) == []
  {
    if list != [] {
      assert list[0] in list;
      assert forall x <- list[1..] :: x in list;
      NoneMatch(list[1..], els);
    }
  }

  /**
   * Every file either lacks the formula tag, or is written as one row, or
   * neither; never both. So the rows and the missing count together are
   * at most the number of paths.
   */
  lemma RowsAndMissing(read: string -> string, lines: seq<string>)
    ensures |Rows(read, lines)| + Missing(read, lines) <= |lines|
  {
    forall line <- lines | MissingFormula(read, line) ensures ScanRow(read, line).None? {
      MissingNotKept(Record(read, line));
    }
    SomesCount(line => ScanRow(read, line), line => MissingFormula(read, line), lines);
  }

  /** Each written row is the row of a path line whose file passed the filter. */
  lemma RowsKept(read: string -> string, lines: seq<string>)
    ensures forall r <- Rows(read, lines) :: exists l <- lines :: ScanRow(read, l) == Some(r)
  {
    SomesFrom(line => ScanRow(read, line), lines);
  }

  /** The datalist CSV file, appended to. */
  class Datalist {
    var text: string

    constructor(initial: string)
      ensures text == initial
    {
      text := initial;
    }

    /** `datalist.write(s)` in append mode. */
    method Append(s: string)
      modifies this
      ensures text == old(text) + s
    {
      text := text + s;
    }
  }

  /**
   * `first_scan(pathlist)`: appends the header and the row of every kept
   * file to the datalist, and returns the count it prints of files
   * without `_chemical_formula_sum`.
   */
  method FirstScan(datalist: Datalist, read: string -> string, lines: seq<string>) returns (missing: nat)
    modifies datalist
    ensures datalist.text == old(datalist.text) + Header + Concat(Rows(read, lines))
    ensures missing == Missing(read, lines)
  {
    datalist.Append(Header);
    ghost var start := datalist.text;
    ghost var written := "";
    missing := 0;
    var rest := lines;
    while rest != []
      invariant datalist.text == start + written
      invariant written + Concat(Rows(read, rest)) == Concat(Rows(read, lines))
      invariant Missing(read, lines) == missing + Missing(read, rest)
    {
      var line := rest[0];
      var c := Record(read, line);
      if c.formula.None? {
        missing := missing + 1;
      }
      var row: Option<string> := None;
      if Kept(c) {
        row := Some(Row(c, line));
        datalist.Append(row.value);
      }
      SomesNext(line => ScanRow(read, line), rest);
      Regroup(written, OrEmpty(row), Concat(Rows(read, rest[1..])));
      Regroup(start, written, OrEmpty(row));
      if row.None? {
        assert start + written + "" == start + written;
      }
      written := written + OrEmpty(row);
      rest := rest[1..];
    }
    assert written == Concat(Rows(read, lines));
  }
}
