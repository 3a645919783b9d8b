/**
 * Python `str` operations that the harvesting scripts rely on, over
 * `string` (= seq<char>): whitespace and character-set stripping,
 * `split`/`join`, whitespace tokenising, character replacement and
 * deletion, ASCII lower-casing, decimal rendering of integers, and
 * `sorted(set(...))` for strings (code-point lexicographic order).
 */
module Text {

  datatype Option<+T> = None | Some(value: T)

  // ---------------------------------------------------------------------
  // Character classes
  // ---------------------------------------------------------------------

  /** The characters Python's `str.isspace`, `str.strip()` and `str.split()` treat as whitespace. */
  predicate IsSpace(c: char) {
    var n := c as int;
    (9 <= n <= 13) || (28 <= n <= 32) || n == 0x85 || n == 0xA0 || n == 0x1680
    || (0x2000 <= n <= 0x200A) || n == 0x2028 || n == 0x2029 || n == 0x202F
    || n == 0x205F || n == 0x3000
  }

  /** What a strip removes from the ends: whitespace (`strip()`) or the characters of a set (`strip(chars)`). */
  datatype CharClass = Whitespace | CharsIn(chars: set<char>)

  predicate Drops(k: CharClass, c: char) {
    match k
    case Whitespace => IsSpace(c)
    case CharsIn(chars) => c in chars
  }

  predicate IsDigit(c: char) { '0' <= c <= '9' }
  predicate IsUpper(c: char) { 'A' <= c <= 'Z' }
  predicate IsLower(c: char) { 'a' <= c <= 'z' }

  // ---------------------------------------------------------------------
  // Stripping
  // ---------------------------------------------------------------------

  /** Drops the leading characters that satisfy `drop`. */
  function TrimLeft(s: string, drop: CharClass): (r: string)
    ensures |r| <= |s| && r == s[|s| - |r|..]
    ensures r != [] ==> !Drops(drop, r[0])
    ensures forall k | 0 <= k < |s| - |r| :: Drops(drop, s[k])
    decreases |s|
  {
    if s != [] && Drops(drop, s[0]) then TrimLeft(s[1..], drop) else s
  }

  /** Drops the trailing characters that satisfy `drop`. */
  function TrimRight(s: string, drop: CharClass): (r: string)
    ensures |r| <= |s| && r == s[..|r|]
    ensures r != [] ==> !Drops(drop, r[|r| - 1])
    ensures forall k | |r| <= k < |s| :: Drops(drop, s[k])
    decreases |s|
  {
    if s != [] && Drops(drop, s[|s| - 1]) then TrimRight(s[..|s| - 1], drop) else s
  }

  /** Both ends stripped of the characters `drop` covers. */
  function StripWhere(s: string, drop: CharClass): (r: string)
    ensures r != [] ==> !Drops(drop, r[0]) && !Drops(drop, r[|r| - 1])
    ensures |r| <= |s| && forall k | 0 <= k < |r| :: r[k] in s
  {
    var l := TrimLeft(s, drop);
    var r := TrimRight(l, drop);
    InnerMembers(s, l, r);
    r
  }

  /** A prefix of a suffix of `s` holds only characters of `s`. */
  lemma InnerMembers(s: string, l: string, r: string)
    requires |l| <= |s| && l == s[|s| - |l|..]
    requires |r| <= |l| && r == l[..|r|]
    ensures forall k | 0 <= k < |r| :: r[k] in s
  {
    assert forall k | 0 <= k < |r| :: r[k] == s[|s| - |l| + k];
  }

  /** `s.strip()` */
  function Strip(s: string): (r: string)
    ensures r != [] ==> !IsSpace(r[0]) && !IsSpace(r[|r| - 1])
  {
    StripWhere(s, Whitespace)
  }

  /** `s.strip(chars)` with an explicit character set. */
  function StripChars(s: string, chars: set<char>): (r: string)
    ensures r != [] ==> r[0] !in chars && r[|r| - 1] !in chars
  {
    StripWhere(s, CharsIn(chars))
  }

  lemma {:induction false} TrimLeftKeeps(s: string, drop: CharClass)
    requires s == [] || !Drops(drop, s[0])
    ensures TrimLeft(s, drop) == s
  {
  }

  lemma {:induction false} TrimRightKeeps(s: string, drop: CharClass)
    requires s == [] || !Drops(drop, s[|s| - 1])
    ensures TrimRight(s, drop) == s
  {
  }

  /** Stripping twice is stripping once. */
  lemma StripWhereIdempotent(s: string, drop: CharClass)
    ensures StripWhere(StripWhere(s, drop), drop) == StripWhere(s, drop)
  {
    var r := StripWhere(s, drop);
    TrimLeftKeeps(r, drop);
    TrimRightKeeps(r, drop);
  }

  lemma StripIdempotent(s: string)
    ensures Strip(Strip(s)) == Strip(s)
  {
    StripWhereIdempotent(s, Whitespace);
  }

  /** Neither end is whitespace: what `str.strip` leaves. */
  predicate Trimmed(s: string) {
    s == [] || (!IsSpace(s[0]) && !IsSpace(s[|s| - 1]))
  }

  /** A string is its own strip exactly when neither end is whitespace. */
  lemma TrimmedIsStripped(s: string)
    ensures Strip(s) == s <==> Trimmed(s)
  {
    if Trimmed(s) {
      TrimLeftKeeps(s, Whitespace);
      TrimRightKeeps(s, Whitespace);
    }
  }

  /** A string with no whitespace at all is its own strip. */
  lemma StripNoSpace(s: string)
    requires forall c <- s :: !IsSpace(c)
    ensures Strip(s) == s
  {
    TrimLeftKeeps(s, Whitespace);
    TrimRightKeeps(s, Whitespace);
  }

  // ---------------------------------------------------------------------
  // Searching, splitting and joining
  // ---------------------------------------------------------------------

  /** `sep` occurs in `s` at index `j`. */
  predicate OccursAt(s: string, j: nat, sep: string) {
    j + |sep| <= |s| && s[j..j + |sep|] == sep
  }

  /** The index of the first occurrence of `sep` in `s`, as `str.find` (None for -1). */
  function Find(s: string, sep: string): (r: Option<nat>)
    requires sep != []
    ensures r.Some? ==> OccursAt(s, r.value, sep)
    ensures forall j: nat | (r.Some? ==> j < r.value) :: !OccursAt(s, j, sep)
    decreases |s|
  {
    if |s| < |sep| then None
    else if s[..|sep|] == sep then Some(0)
    else
      var r := Find(s[1..], sep);
      assert forall j: nat | 1 <= j :: OccursAt(s, j, sep) == OccursAt(s[1..], j - 1, sep) by {
        forall j: nat | 1 <= j ensures OccursAt(s, j, sep) == OccursAt(s[1..], j - 1, sep) {
          if j + |sep| <= |s| {
            assert s[1..][j - 1..j - 1 + |sep|] == s[j..j + |sep|];
          }
        }
      }
      match r
      case None => None
      case Some(i) => Some(i + 1)
  }

  /** `s.split(sep)` for a non-empty separator. */
  function Split(s: string, sep: string): (parts: seq<string>)
    requires sep != []
    ensures |parts| >= 1
    ensures |parts| >= 2 <==> Find(s, sep).Some?
    decreases |s|
  {
    match Find(s, sep)
    case None => [s]
    case Some(i) => [s[..i]] + Split(s[i + |sep|..], sep)
  }

  /** `sep.join(parts)` */
  function Join(sep: string, parts: seq<string>): string {
    if |parts| == 0 then ""
    else if |parts| == 1 then parts[0]
    else parts[0] + sep + Join(sep, parts[1..])
  }

  /** Joining the pieces of a split with the same separator gives back the text. */
  lemma {:induction false} JoinSplit(s: string, sep: string)
    requires sep != []
    ensures Join(sep, Split(s, sep)) == s
    decreases |s|
  {
    match Find(s, sep)
    case None =>
    case Some(i) =>
      var rest := s[i + |sep|..];
      JoinSplit(rest, sep);
      assert s == s[..i] + sep + rest;
  }

  lemma {:induction false} FindAfterClean(a: string, c: char, b: string)
    requires c !in a
    ensures Find(a + [c] + b, [c]) == Some(|a|)
  {
    var s := a + [c] + b;
    assert OccursAt(s, |a|, [c]) by { assert s[|a|..|a| + 1] == [c]; }
    forall j: nat | j < |a| ensures !OccursAt(s, j, [c]) {
      assert s[j..j + 1] == [a[j]];
    }
  }

  lemma {:induction false} FindClean(a: string, c: char)
    requires c !in a
    ensures Find(a, [c]).None?
  {
    forall j: nat | j + 1 <= |a| ensures !OccursAt(a, j, [c]) {
      assert a[j..j + 1] == [a[j]];
    }
  }

  /**
   * Splitting a join on a one-character separator gives back the parts,
   * provided no part contains that character.
   */
  lemma {:induction false} SplitJoin(c: char, parts: seq<string>)
    requires parts != []
    requires forall p <- parts :: c !in p
    ensures Split(Join([c], parts), [c]) == parts
  {
    if |parts| == 1 {
      FindClean(parts[0], c);
    } else {
      var rest := Join([c], parts[1..]);
      assert Join([c], parts) == parts[0] + [c] + rest;
      FindAfterClean(parts[0], c, rest);
      var s := parts[0] + [c] + rest;
      assert s[..|parts[0]|] == parts[0];
      assert s[|parts[0]| + 1..] == rest;
      SplitJoin(c, parts[1..]);
    }
  }

  lemma {:induction false} JoinNoChar(c: char, sep: string, parts: seq<string>)
    requires c !in sep
    requires forall p <- parts :: c !in p
    ensures c !in Join(sep, parts)
  {
    if |parts| > 1 {
      JoinNoChar(c, sep, parts[1..]);
    }
  }

  /** The text of an identifier-list file: one item per line, newline-terminated when non-empty. */
  function LinesText(lines: seq<string>): (r: string)
    ensures lines == [] <==> r == ""
  {
    if lines == [] then "" else Join("\n", lines) + "\n"
  }

  /** Reading an identifier-list file back (splitting on newlines) gives the items and one empty tail. */
  lemma LinesTextRoundTrip(lines: seq<string>)
    requires lines != []
    requires forall l <- lines :: '\n' !in l
    ensures Split(LinesText(lines), "\n") == lines + [""]
  {
    var ext := lines + [""];
    assert forall p <- ext :: '\n' !in p;
    JoinSnoc("\n", lines, "");
    assert LinesText(lines) == Join("\n", ext);
    SplitJoin('\n', ext);
    assert "\n" == ['\n'];
  }

  lemma {:induction false} JoinSnoc(sep: string, parts: seq<string>, x: string)
    requires parts != []
    ensures Join(sep, parts + [x]) == Join(sep, parts) + sep + x
  {
    if |parts| == 1 {
      assert parts + [x] == [parts[0], x];
    } else {
      assert (parts + [x])[1..] == parts[1..] + [x];
      JoinSnoc(sep, parts[1..], x);
    }
  }

  // ---------------------------------------------------------------------
  // Whitespace tokenising (`str.split()` without arguments)
  // ---------------------------------------------------------------------

  /** Length of the leading run of non-whitespace characters. */
  function RunLength(s: string): (n: nat)
    ensures n <= |s| && (n < |s| ==> IsSpace(s[n]))
    ensures forall k | 0 <= k < n :: !IsSpace(s[k])
  {
    if s == [] || IsSpace(s[0]) then 0 else 1 + RunLength(s[1..])
  }

  /** `s.split()`: the maximal runs of non-whitespace characters, in order. */
  function Words(s: string): (ws: seq<string>)
    ensures forall w <- ws :: w != [] && forall c <- w :: !IsSpace(c)
    decreases |s|
  {
    if s == [] then []
    else if IsSpace(s[0]) then Words(s[1..])
    else
      var n := RunLength(s);
      [s[..n]] + Words(s[n..])
  }

  // ---------------------------------------------------------------------
  // Character replacement, deletion and case
  // ---------------------------------------------------------------------

  /** `s.replace(a, b)` for single characters. */
  function ReplaceChar(s: string, a: char, b: char): (r: string)
    ensures |r| == |s|
    ensures forall i | 0 <= i < |s| :: r[i] == if s[i] == a then b else s[i]
    ensures a != b ==> a !in r
  {
    if s == [] then [] else [if s[0] == a then b else s[0]] + ReplaceChar(s[1..], a, b)
  }

  /** `s.translate({ord(c): None for c in chars})` / `s.replace(c, "")`: deletes the characters. */
  function Delete(s: string, chars: set<char>): (r: string)
    ensures forall c <- r :: c !in chars
    ensures forall c <- s :: c !in chars ==> c in r
    ensures forall c <- r :: c in s
    ensures |r| <= |s|
  {
    if s == [] then []
    else if s[0] in chars then Delete(s[1..], chars)
    else [s[0]] + Delete(s[1..], chars)
  }

  /** Python's `str.lower()` on ASCII letters. */
  function Lower(s: string): (r: string)
    ensures |r| == |s|
    ensures forall i | 0 <= i < |s| :: r[i] == if IsUpper(s[i]) then (s[i] as int + 32) as char else s[i]
  {
    if s == [] then [] else [if IsUpper(s[0]) then (s[0] as int + 32) as char else s[0]] + Lower(s[1..])
  }

  // ---------------------------------------------------------------------
  // Decimal rendering (`str(int)`)
  // ---------------------------------------------------------------------

  function NatText(n: nat): (r: string)
    ensures r != [] && forall c <- r :: IsDigit(c)
  {
    var d := ['0' + (n % 10) as char];
    if n < 10 then d else NatText(n / 10) + d
  }

  function IntText(i: int): (r: string)
    ensures r != [] && (r[0] == '-' || IsDigit(r[0]))
    ensures i >= 0 ==> forall c <- r :: IsDigit(c)
    ensures i < 0 ==> r[0] == '-'
  {
    if i < 0 then "-" + NatText(-i) else NatText(i)
  }

  // ---------------------------------------------------------------------
  // Ordering and sorting (`sorted(set(...))` on str)
  // ---------------------------------------------------------------------

  /** Python's `a < b` on str: lexicographic by code point, a proper prefix first. */
  predicate Below(a: string, b: string)
    decreases |a|
  {
    if a == [] then b != []
    else if b == [] then false
    else if a[0] == b[0] then Below(a[1..], b[1..])
    else a[0] < b[0]
  }

  lemma BelowIrreflexive(a: string)
    ensures !Below(a, a)
  {
  }

  lemma {:induction false} BelowTransitive(a: string, b: string, c: string)
    requires Below(a, b) && Below(b, c)
    ensures Below(a, c)
    decreases |a|
  {
    if a != [] && b != [] && c != [] && a[0] == b[0] && b[0] == c[0] {
      BelowTransitive(a[1..], b[1..], c[1..]);
    }
  }

  lemma {:induction false} BelowTotal(a: string, b: string)
    ensures a == b || Below(a, b) || Below(b, a)
    decreases |a|
  {
    if a != [] && b != [] && a[0] == b[0] {
      BelowTotal(a[1..], b[1..]);
      if a[1..] == b[1..] {
        assert a == [a[0]] + a[1..] && b == [b[0]] + b[1..];
      }
    }
  }

  lemma {:induction false} BelowAsymmetric(a: string, b: string)
    ensures !(Below(a, b) && Below(b, a))
    decreases |a|
  {
    if a != [] && b != [] && a[0] == b[0] {
      BelowAsymmetric(a[1..], b[1..]);
    }
  }

  /** Strictly increasing: sorted and duplicate-free. */
  predicate StrictlySorted(xs: seq<string>) {
    forall i, j | 0 <= i < j < |xs| :: Below(xs[i], xs[j])
  }

  predicate IsLeast(m: string, s: set<string>) {
    m in s && forall x <- s :: x == m || Below(m, x)
  }

  lemma {:induction false} LeastExists(s: set<string>)
    requires s != {}
    ensures exists m :: IsLeast(m, s)
    decreases s
  {
    var x :| x in s;
    if s != {x} {
      LeastExists(s - {x});
      var m :| IsLeast(m, s - {x});
      BelowTotal(x, m);
      if Below(x, m) {
        forall y <- s ensures y == x || Below(x, y) {
          if y != x && y != m { BelowTransitive(x, m, y); }
        }
        assert IsLeast(x, s);
      } else {
        assert IsLeast(m, s);
      }
    } else {
      assert IsLeast(x, s);
    }
  }

  function Least(s: set<string>): (m: string)
    requires s != {}
    ensures IsLeast(m, s)
  {
    LeastExists(s);
    forall a, b | IsLeast(a, s) && IsLeast(b, s) ensures a == b {
      BelowAsymmetric(a, b);
    }
    var m :| IsLeast(m, s);
    m
  }

  /** `sorted(s)` for a set of strings: the strictly increasing listing of `s`. */
  function SortSet(s: set<string>): (r: seq<string>)
    ensures StrictlySorted(r)
    ensures |r| == |s|
    ensures forall x :: x in r <==> x in s
    decreases s
  {
    if s == {} then []
    else
      var m := Least(s);
      var rest := SortSet(s - {m});
      assert forall j | 0 <= j < |rest| :: Below(m, rest[j]);
      [m] + rest
  }

  /** `sorted(set(xs))` */
  function SortedDistinct(xs: seq<string>): (r: seq<string>)
    ensures StrictlySorted(r)
    ensures forall x :: x in r <==> x in xs
  {
    SortSet(set x | x in xs)
  }

  /** The first element of a non-empty sequence is one of its elements. */
  lemma HeadIn(b: seq<string>)
    requires b != []
    ensures b[0] in b
  {
  }

  /** A strictly sorted listing of a set is unique, so SortSet is exactly Python's `sorted`. */
  lemma {:induction false} StrictlySortedUnique(a: seq<string>, b: seq<string>)
    requires StrictlySorted(a) && StrictlySorted(b)
    requires forall x :: x in a <==> x in b
    ensures a == b
    decreases |a|
  {
    if a == [] {
      if b != [] {
        HeadIn(b);
        assert false;
      }
    } else {
      assert a[0] in b;
      var i :| 0 <= i < |b| && b[i] == a[0];
      assert b[0] in a;
      var j :| 0 <= j < |a| && a[j] == b[0];
      BelowAsymmetric(a[0], b[0]);
      assert a[0] == b[0];
      forall x | x in a[1..] ensures x in b[1..] {
        var p :| 1 <= p < |a| && a[p] == x;
        assert Below(a[0], x);
        BelowIrreflexive(x);
        assert x in b;
        var q :| 0 <= q < |b| && b[q] == x;
        assert q != 0;
      }
      forall x | x in b[1..] ensures x in a[1..] {
        var p :| 1 <= p < |b| && b[p] == x;
        assert Below(b[0], x);
        BelowIrreflexive(x);
        assert x in a;
        var q :| 0 <= q < |a| && a[q] == x;
        assert q != 0;
      }
      StrictlySortedUnique(a[1..], b[1..]);
      assert a == [a[0]] + a[1..] && b == [b[0]] + b[1..];
    }
  }
}
