/**
 * The dynamically typed values the harvesting scripts handle: API
 * documents, JSON bodies, CSV cells. Records (API documents, JSON
 * objects) are `map<string, Py>`, so that attribute access on a document
 * and key access on a dict read the same. Nested values keep the
 * distinction between a dict and an attribute object where the code
 * branches on `isinstance(x, dict)`.
 */
module PyValues {
  import opened Text

  datatype Py =
    | PyNone
    | PyBool(b: bool)
    | PyInt(i: int)
    | PyFloat(x: real)
    | PyStr(s: string)
    | PyList(items: seq<Py>)
    | PyTuple(elems: seq<Py>)
    | PyDict(entries: map<string, Py>)
    | PyObject(attrs: map<string, Py>)

  /** An API document or JSON object: field name to value. */
  type Record = map<string, Py>

  /** The Python exceptions that can leave the modelled code. */
  datatype Exception =
    | MPRestError
    | RequestError
    | TypeError
    | ValueError(message: string)
    | UnboundLocalError
    | SystemExit(message: string)

  datatype Result<+T> = Ok(value: T) | Err(error: Exception)

  /** Python truthiness (`bool(v)`); attribute objects are always true. */
  predicate Truthy(v: Py) {
    match v
    case PyNone => false
    case PyBool(b) => b
    case PyInt(i) => i != 0
    case PyFloat(x) => x != 0.0
    case PyStr(s) => s != []
    case PyList(items) => items != []
    case PyTuple(elems) => elems != []
    case PyDict(entries) => entries != map[]
    case PyObject(_) => true
  }

  /** `a or b` */
  function Or(a: Py, b: Py): (r: Py)
    ensures Truthy(a) ==> r == a
    ensures !Truthy(a) ==> r == b
  {
    if Truthy(a) then a else b
  }

  /** `d.get(key, default)` on a record, and `getattr(doc, key, default)` on a document. */
  function Get(d: Record, key: string, default: Py): (r: Py)
    ensures key in d ==> r == d[key]
    ensures key !in d ==> r == default
  {
    if key in d then d[key] else default
  }

  /**
   * `getattr(v, name, default)` on a nested value: only attribute objects
   * carry named attributes; dicts, strings, numbers and lists have none of
   * the names the scripts ask for.
   */
  function Attr(v: Py, name: string, default: Py): (r: Py)
    ensures v.PyObject? && name in v.attrs ==> r == v.attrs[name]
    ensures !(v.PyObject? && name in v.attrs) ==> r == default
  {
    if v.PyObject? && name in v.attrs then v.attrs[name] else default
  }

  /** The numeric value of a bool, int or float (bool is an int subclass). */
  function Numeric(v: Py): (r: Option<real>)
    ensures r.Some? <==> v.PyBool? || v.PyInt? || v.PyFloat?
  {
    match v
    case PyBool(b) => Some(if b then 1.0 else 0.0)
    case PyInt(i) => Some(i as real)
    case PyFloat(x) => Some(x)
    case _ => None
  }

  /** The keys of a dict in the order the model iterates them (ascending). */
  function Keys(m: map<string, Py>): (ks: seq<string>)
    ensures forall k :: k in ks <==> k in m
  {
    SortSet(m.Keys)
  }

  /**
   * `iter(v)` materialised: the items of a list or tuple, the characters of
   * a string, the keys of a dict; anything else raises TypeError.
   */
  function Iterate(v: Py): (r: Result<seq<Py>>)
    ensures r.Ok? <==> v.PyList? || v.PyTuple? || v.PyStr? || v.PyDict?
    ensures v.PyList? ==> r == Ok(v.items)
    ensures v.PyTuple? ==> r == Ok(v.elems)
  {
    match v
    case PyList(items) => Ok(items)
    case PyTuple(elems) => Ok(elems)
    case PyStr(s) => Ok(Chars(s))
    case PyDict(entries) => Ok(Strs(Keys(entries)))
    case _ => Err(TypeError)
  }

  /** The one-character strings of `s`, in order. */
  function Chars(s: string): (r: seq<Py>)
    ensures |r| == |s|
  {
    if s == [] then [] else [PyStr([s[0]])] + Chars(s[1..])
  }

  /** Strings as values. */
  function Strs(ks: seq<string>): (r: seq<Py>)
    ensures |r| == |ks|
  {
    if ks == [] then [] else [PyStr(ks[0])] + Strs(ks[1..])
  }

  // ---------------------------------------------------------------------
  // str() and repr()
  // ---------------------------------------------------------------------

  const TenTo16: int := 10_000_000_000_000_000

  /** The characters `repr` escapes inside a string literal quoted with `q`. */
  function Escape(s: string, q: char): string {
    if s == [] then []
    else
      var c := s[0];
      var e := if c == '\\' then "\\\\"
               else if c == q then ['\\', q]
               else if c == '\n' then "\\n"
               else if c == '\r' then "\\r"
               else if c == '\t' then "\\t"
               else [c];
      e + Escape(s[1..], q)
  }

  /** `repr(s)` for a str: single quotes unless the text holds a single quote and no double quote. */
  function ReprStr(s: string): (r: string)
    ensures |r| >= 2 && (r[0] == '\'' || r[0] == '"')
  {
    var q := if '\'' in s && '"' !in s then '"' else '\'';
    [q] + Escape(s, q) + [q]
  }

  /**
   * `str(v)`. Floats are rendered exactly when integral and below 10^16
   * in magnitude (`12.0`); other floats and attribute objects are
   * rendered by a fixed placeholder.
   */
  function Str(v: Py): (r: string)
    ensures v.PyStr? ==> r == v.s
    ensures !v.PyStr? ==> r != [] && !IsSpace(r[0])
    decreases v, 1
  {
    match v
    case PyNone => "None"
    case PyBool(b) => if b then "True" else "False"
    case PyInt(i) => IntText(i)
    case PyFloat(x) =>
      if x == x.Floor as real && -TenTo16 < x.Floor < TenTo16 then IntText(x.Floor) + ".0" else "<float>"
    case PyStr(s) => s
    case PyList(items) => "[" + Join(", ", ReprAll(v, items)) + "]"
    case PyTuple(elems) =>
      "(" + Join(", ", ReprAll(v, elems)) + (if |elems| == 1 then ",)" else ")")
    case PyDict(entries) => "{" + Join(", ", ReprEntries(v, entries, Keys(entries))) + "}"
    case PyObject(_) => "<object>"
  }

  /** `repr(v)`: quoted for strings, `str(v)` otherwise. */
  function Repr(v: Py): (r: string)
    decreases v, 2
  {
    if v.PyStr? then ReprStr(v.s) else Str(v)
  }

  function ReprAll(ghost parent: Py, items: seq<Py>): (r: seq<string>)
    requires forall x <- items :: x < parent
    ensures |r| == |items|
    decreases parent, 0, |items|
  {
    if items == [] then []
    else
      assert items[0] in items;
      assert forall x <- items[1..] :: x in items;
      [Repr(items[0])] + ReprAll(parent, items[1..])
  }

  function ReprEntries(ghost parent: Py, m: map<string, Py>, ks: seq<string>): (r: seq<string>)
    requires forall k <- ks :: k in m && m[k] < parent
    decreases parent, 0, |ks|
  {
    if ks == [] then []
    else
      assert ks[0] in ks;
      assert forall k <- ks[1..] :: k in ks;
      [ReprStr(ks[0]) + ": " + Repr(m[ks[0]])] + ReprEntries(parent, m, ks[1..])
  }

  /** `str(x)` of every item. */
  function StrAll(items: seq<Py>): (r: seq<string>)
    ensures |r| == |items|
  {
    if items == [] then [] else [Str(items[0])] + StrAll(items[1..])
  }

  lemma {:induction false} StrAllIndex(items: seq<Py>, i: nat)
    requires i < |items|
    ensures StrAll(items)[i] == Str(items[i])
  {
    if i > 0 {
      StrAllIndex(items[1..], i - 1);
    }
  }

  /**
   * A filtering list comprehension, `[y for x in xs if keep(x)]` with `y`
   * computed from `x`: `f(x)` is `Some(y)` for a kept item, None otherwise.
   */
  function FilterMap<A, B>(f: A -> Option<B>, xs: seq<A>): (r: seq<B>)
    ensures |r| <= |xs|
  {
    if xs == [] then []
    else (match f(xs[0]) case Some(y) => [y] case None => []) + FilterMap(f, xs[1..])
  }

  /** What the comprehension yields is exactly what it computes for some kept item. */
  lemma {:induction false} FilterMapMembers<A, B>(f: A -> Option<B>, xs: seq<A>)
    ensures forall y :: y in FilterMap(f, xs) <==> exists x <- xs :: f(x) == Some(y)
  {
    if xs != [] {
      FilterMapMembers(f, xs[1..]);
      assert forall x <- xs[1..] :: x in xs;
      forall y | exists x <- xs :: f(x) == Some(y) ensures y in FilterMap(f, xs) {
        var x :| x in xs && f(x) == Some(y);
        if x != xs[0] {
          assert x in xs[1..];
        }
      }
    }
  }

  /** `acc` in front of a successful list; an error passes through. */
  function Prepend<T>(acc: seq<T>, r: Result<seq<T>>): Result<seq<T>> {
    match r
    case Ok(xs) => Ok(acc + xs)
    case Err(e) => Err(e)
  }

  lemma PrependEmpty<T>(r: Result<seq<T>>)
    ensures Prepend([], r) == r
  {
    if r.Ok? {
      assert [] + r.value == r.value;
    }
  }

  lemma PrependAssoc<T>(a: seq<T>, b: seq<T>, r: Result<seq<T>>)
    ensures Prepend(a, Prepend(b, r)) == Prepend(a + b, r)
  {
    if r.Ok? {
      assert a + (b + r.value) == (a + b) + r.value;
    }
  }
}
