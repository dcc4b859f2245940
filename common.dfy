/** Shared vocabulary: optional values, results, HTTP-style failures, the
    ASCII text operations the Python and TypeScript sources rely on, and a
    JSON value type for the dictionaries and JSON columns they pass around. */
module Common {

  datatype Option<T> = None | Some(value: T) {
    function GetOr(default: T): T {
      match this
      case Some(v) => v
      case None => default
    }
  }

  datatype Result<T, E> = Ok(value: T) | Err(error: E)

  /** An error response: HTTP status code and detail message. */
  datatype Failure = Failure(status: int, detail: string)

  // ---------------------------------------------------------------------
  // Characters (ASCII only; see README "Left out")
  // ---------------------------------------------------------------------

  predicate IsDigit(c: char) { '0' <= c <= '9' }

  predicate IsUpper(c: char) { 'A' <= c <= 'Z' }

  /** Decimal text of a natural number (Python's `str`, JavaScript's
      template interpolation). */
  function IntText(n: nat): (r: string)
    ensures |r| >= 1 && forall i :: 0 <= i < |r| ==> IsDigit(r[i])
    ensures r[0] == '0' ==> n == 0
  {
    if n < 10 then [(48 + n) as char] else IntText(n / 10) + [(48 + n % 10) as char]
  }

  /** Decimal text of an integer: a minus sign exactly for a negative one. */
  function IntegerText(n: int): (r: string)
    ensures |r| >= 1
    ensures r[0] == '-' <==> n < 0
    ensures n < 0 ==> r[1..] == IntText(-n)
    ensures n >= 0 ==> r == IntText(n)
  {
    if n < 0 then "-" + IntText(-n) else IntText(n)
  }

  /** Python's whitespace set for str.strip() restricted to ASCII. */
  predicate IsSpace(c: char) {
    c == ' ' || c == '\t' || c == '\n' || c == '\r' || c == '\U{0B}' || c == '\U{0C}'
    || c == '\U{1C}' || c == '\U{1D}' || c == '\U{1E}' || c == '\U{1F}'
  }

  function LowerChar(c: char): (r: char)
    ensures IsUpper(c) ==> r as int == c as int + 32
    ensures !IsUpper(c) ==> r == c
  {
    if IsUpper(c) then (c as int + 32) as char else c
  }

  /** str.lower() / String.prototype.toLowerCase() on ASCII letters. */
  function Lower(s: string): (r: string)
    ensures |r| == |s|
    ensures forall i :: 0 <= i < |s| ==> r[i] == LowerChar(s[i])
  {
    seq(|s|, i requires 0 <= i < |s| => LowerChar(s[i]))
  }

  // ---------------------------------------------------------------------
  // Prefixes, suffixes, substrings
  // ---------------------------------------------------------------------

  predicate StartsWith(s: string, p: string) {
    |p| <= |s| && s[..|p|] == p
  }

  predicate EndsWith(s: string, p: string) {
    |p| <= |s| && s[|s| - |p|..] == p
  }

  /** `t` occurs in `s` starting at index `i`. */
  predicate OccursAt(s: string, t: string, i: int) {
    0 <= i && i + |t| <= |s| && s[i..i + |t|] == t
  }

  /** Substring test: Python `t in s`, JavaScript `s.includes(t)`. */
  function Contains(s: string, t: string): (r: bool)
    decreases |s|
  {
    if StartsWith(s, t) then true
    else if |s| == 0 then false
    else Contains(s[1..], t)
  }

  lemma {:induction false} ContainsMeansOccurs(s: string, t: string)
    ensures Contains(s, t) <==> exists i :: OccursAt(s, t, i)
    decreases |s|
  {
    if StartsWith(s, t) {
      assert OccursAt(s, t, 0);
    } else if |s| == 0 {
      assert |t| > 0;
    } else {
      ContainsMeansOccurs(s[1..], t);
      if Contains(s[1..], t) {
        var i :| OccursAt(s[1..], t, i);
        assert s[i + 1..i + 1 + |t|] == s[1..][i..i + |t|];
        assert OccursAt(s, t, i + 1);
      }
      forall i | OccursAt(s, t, i) ensures Contains(s[1..], t) {
        assert s[..|t|] == s[0..0 + |t|];
        assert i != 0;
        assert s[1..][i - 1..i - 1 + |t|] == s[i..i + |t|];
        assert OccursAt(s[1..], t, i - 1);
      }
    }
  }

  /** Index of the last occurrence of `c` in `s`, or -1 when there is none
      (JavaScript `lastIndexOf`; Python `rsplit(c, 1)` splits there). */
  function LastIndexOf(s: string, c: char): (r: int)
    ensures -1 <= r < |s|
    ensures r >= 0 ==> s[r] == c
    ensures forall j :: r < j < |s| ==> s[j] != c
    ensures r == -1 <==> c !in s
  {
    if s == [] then -1
    else if s[|s| - 1] == c then |s| - 1
    else LastIndexOf(s[..|s| - 1], c)
  }

  /** An occurrence with no later occurrence is the last one. */
  lemma LastIndexOfUnique(s: string, c: char, i: int)
    requires 0 <= i < |s| && s[i] == c
    requires forall j :: i < j < |s| ==> s[j] != c
    ensures LastIndexOf(s, c) == i
  {
  }

  // ---------------------------------------------------------------------
  // SQL LIKE / ILIKE
  // ---------------------------------------------------------------------

  /** PostgreSQL `s LIKE p`: `%` matches any run of characters, `_` any one
      character, and a backslash (the default escape) makes the next
      pattern character literal. A trailing lone backslash, which PostgreSQL
      refuses, is taken literally here; the patterns built below never end
      in one. */
  predicate LikeMatch(s: string, p: string)
    decreases |p|, |s|
  {
    if p == [] then s == []
    else if p[0] == '%' then LikeMatch(s, p[1..]) || (s != [] && LikeMatch(s[1..], p))
    else if p[0] == '_' then s != [] && LikeMatch(s[1..], p[1..])
    else if p[0] == '\\' && |p| >= 2 then s != [] && s[0] == p[1] && LikeMatch(s[1..], p[2..])
    else s != [] && s[0] == p[0] && LikeMatch(s[1..], p[1..])
  }

  /** `s ILIKE '%' || t || '%'` with ASCII case folding: the term is spliced
      into the pattern unescaped, so `%`, `_` and a backslash in `t` keep
      their pattern meaning. */
  predicate IlikeContains(s: string, t: string) {
    LikeMatch(Lower(s), "%" + Lower(t) + "%")
  }

  /** No character of `t` means anything in a LIKE pattern. */
  predicate Literal(t: string) {
    forall i :: 0 <= i < |t| ==> t[i] != '%' && t[i] != '_' && t[i] != '\\'
  }

  /** `%` alone matches every string. */
  lemma {:induction false} PercentMatchesAll(s: string)
    ensures LikeMatch(s, "%")
    decreases |s|
  {
    if s != [] {
      PercentMatchesAll(s[1..]);
    }
  }

  /** A literal followed by `%` matches exactly the strings it begins. */
  lemma {:induction false} LiteralThenPercent(s: string, w: string)
    requires Literal(w)
    ensures LikeMatch(s, w + "%") <==> StartsWith(s, w)
    decreases |w|
  {
    if w == [] {
      PercentMatchesAll(s);
      assert w + "%" == "%";
    } else {
      assert (w + "%")[1..] == w[1..] + "%";
      if s != [] {
        LiteralThenPercent(s[1..], w[1..]);
        assert StartsWith(s, w) <==> s[0] == w[0] && StartsWith(s[1..], w[1..]) by {
          if StartsWith(s, w) {
            assert s[1..][..|w| - 1] == s[..|w|][1..];
          }
          if s[0] == w[0] && StartsWith(s[1..], w[1..]) {
            assert s[..|w|] == [s[0]] + s[1..][..|w| - 1];
          }
        }
      }
    }
  }

  /** A literal between two `%` matches exactly the strings containing it. */
  lemma {:induction false} SurroundedLiteral(s: string, w: string)
    requires Literal(w)
    ensures LikeMatch(s, "%" + w + "%") <==> Contains(s, w)
    decreases |s|
  {
    assert ("%" + w + "%")[1..] == w + "%";
    LiteralThenPercent(s, w);
    if s != [] {
      SurroundedLiteral(s[1..], w);
    }
  }

  /** For a term without pattern characters, ILIKE is the case-insensitive
      substring test. */
  lemma IlikeLiteral(s: string, t: string)
    requires Literal(t)
    ensures IlikeContains(s, t) <==> Contains(Lower(s), Lower(t))
  {
    assert Literal(Lower(t)) by {
      forall i | 0 <= i < |t| ensures Lower(t)[i] != '%' && Lower(t)[i] != '_' && Lower(t)[i] != '\\' {
        assert t[i] != '%' && t[i] != '_' && t[i] != '\\';
      }
    }
    SurroundedLiteral(Lower(s), Lower(t));
  }

  // ---------------------------------------------------------------------
  // Python str.strip()
  // ---------------------------------------------------------------------

  function StripLeft(s: string): (r: string)
    ensures |r| <= |s| && r == s[|s| - |r|..]
    ensures r == [] || !IsSpace(r[0])
    ensures forall i :: 0 <= i < |s| - |r| ==> IsSpace(s[i])
  {
    if s != [] && IsSpace(s[0]) then
      var r := StripLeft(s[1..]);
      assert forall i :: 1 <= i < |s| - |r| ==> s[i] == s[1..][i - 1];
      r
    else s
  }

  function StripRight(s: string): (r: string)
    ensures |r| <= |s| && r == s[..|r|]
    ensures r == [] || !IsSpace(r[|r| - 1])
    ensures forall i :: |r| <= i < |s| ==> IsSpace(s[i])
  {
    if s != [] && IsSpace(s[|s| - 1]) then StripRight(s[..|s| - 1]) else s
  }

  function Strip(s: string): string {
    StripRight(StripLeft(s))
  }

  predicate AllSpace(s: string) {
    forall i :: 0 <= i < |s| ==> IsSpace(s[i])
  }

  /** `s.strip()` is empty exactly when `s` is all whitespace. */
  lemma StripEmptyIffAllSpace(s: string)
    ensures Strip(s) == [] <==> AllSpace(s)
  {
    var l := StripLeft(s);
    if l != [] {
      assert !IsSpace(l[0]);
      assert l[0] == s[|s| - |l|];
    }
  }

  lemma StripShorter(s: string)
    ensures |Strip(s)| <= |s|
  {
  }

  // ---------------------------------------------------------------------
  // Slicing helpers with Python / JavaScript clamping
  // ---------------------------------------------------------------------

  /** `s[:n]` in Python, `s.substring(0, n)` / `s.slice(0, n)` in JavaScript. */
  function Take<T>(s: seq<T>, n: nat): (r: seq<T>)
    ensures |r| == if n < |s| then n else |s|
    ensures r == s[..|r|]
    ensures forall x :: x in r ==> x in s
  {
    if n < |s| then s[..n] else s
  }

  /** `s[-n:]` in Python for n >= 1 (the last n elements, or all of them). */
  function TakeLast<T>(s: seq<T>, n: nat): (r: seq<T>)
    ensures |r| == if n < |s| then n else |s|
    ensures r == s[|s| - |r|..]
  {
    if n < |s| then s[|s| - n..] else s
  }

  function Min(a: int, b: int): int { if a <= b then a else b }

  // ---------------------------------------------------------------------
  // Order-preserving filter and counting
  // ---------------------------------------------------------------------

  /** The elements of `s` satisfying `p`, in their original order (SQL
      WHERE, Python list comprehension with `if`, JavaScript `filter`). */
  function Filter<T>(s: seq<T>, p: T -> bool): (r: seq<T>)
    ensures |r| <= |s|
    ensures forall i :: 0 <= i < |r| ==> r[i] in s && p(r[i])
    ensures forall i :: 0 <= i < |s| && p(s[i]) ==> s[i] in r
  {
    if s == [] then []
    else (if p(s[0]) then [s[0]] else []) + Filter(s[1..], p)
  }

  /** An element is kept exactly when it occurs in the input and passes. */
  lemma FilterMembers<T>(s: seq<T>, p: T -> bool)
    ensures forall x :: x in Filter(s, p) <==> x in s && p(x)
  {
    var r := Filter(s, p);
    forall x | x in r ensures x in s && p(x) {
      var k :| 0 <= k < |r| && r[k] == x;
    }
    forall x | x in s && p(x) ensures x in r {
      var k :| 0 <= k < |s| && s[k] == x;
    }
  }

  /** Filtering distributes over concatenation: the relative order of the
      kept elements is the order they had in the input. */
  lemma {:induction false} FilterConcat<T>(a: seq<T>, b: seq<T>, p: T -> bool)
    ensures Filter(a + b, p) == Filter(a, p) + Filter(b, p)
  {
    if a != [] {
      assert (a + b)[1..] == a[1..] + b;
      FilterConcat(a[1..], b, p);
    } else {
      assert a + b == b;
    }
  }

  /** The number of elements of `s` satisfying `p` (SQL `count()`). */
  function Count<T>(s: seq<T>, p: T -> bool): nat {
    |Filter(s, p)|
  }

  /** Sum of `f` over `s` (SQL `sum()`, with 0 for no rows). */
  function Sum<T>(s: seq<T>, f: T -> int): int {
    if s == [] then 0 else f(s[0]) + Sum(s[1..], f)
  }

  lemma {:induction false} SumConcat<T>(a: seq<T>, b: seq<T>, f: T -> int)
    ensures Sum(a + b, f) == Sum(a, f) + Sum(b, f)
  {
    if a != [] {
      assert (a + b)[1..] == a[1..] + b;
      SumConcat(a[1..], b, f);
    } else {
      assert a + b == b;
    }
  }

  /** Position of the first element satisfying `p`, or -1. */
  function FirstIndex<T>(s: seq<T>, p: T -> bool): (r: int)
    ensures -1 <= r < |s|
    ensures r >= 0 ==> p(s[r]) && forall j :: 0 <= j < r ==> !p(s[j])
    ensures r == -1 ==> forall j :: 0 <= j < |s| ==> !p(s[j])
  {
    if s == [] then -1
    else if p(s[0]) then 0
    else
      var k := FirstIndex(s[1..], p);
      if k == -1 then -1 else k + 1
  }

  /** The first element satisfying `p` (JavaScript `find`, SQL `.first()`). */
  function First<T>(s: seq<T>, p: T -> bool): (r: Option<T>)
    ensures r.None? <==> forall j :: 0 <= j < |s| ==> !p(s[j])
    ensures r.Some? ==> 0 <= FirstIndex(s, p) && r.value == s[FirstIndex(s, p)] && p(r.value)
  {
    var i := FirstIndex(s, p);
    if i < 0 then None else Some(s[i])
  }

  // ---------------------------------------------------------------------
  // JSON values
  // ---------------------------------------------------------------------

  /** A JSON value (numbers are integers; floating point is not modelled). */
  datatype Json =
    | JNull
    | JBool(b: bool)
    | JNum(n: int)
    | JStr(s: string)
    | JArr(items: seq<Json>)
    | JObj(fields: map<string, Json>)

  /** JavaScript truthiness of a JSON value. */
  predicate Truthy(j: Json) {
    match j
    case JNull => false
    case JBool(b) => b
    case JNum(n) => n != 0
    case JStr(s) => s != []
    case JArr(_) => true
    case JObj(_) => true
  }
}
