/** Ordering of query results: sort keys with the database's NULL placement,
    an insertion sort proved sorted and a permutation, and offset/limit
    paging. Used by the case and document listings, the cron job's queue
    and the Flask case list. */
module Order {

  import Common

  /** A sortable column value. NULL sorts after every value in ascending
      order and before every value in descending order, as in PostgreSQL. */
  datatype Key = KInt(i: int) | KStr(s: string) | KNull

  /** Lexicographic order on strings by character code. */
  predicate StrLe(a: string, b: string)
    decreases |a|
  {
    a == [] || (b != [] && (a[0] < b[0] || (a[0] == b[0] && StrLe(a[1..], b[1..]))))
  }

  lemma {:induction false} StrLeTotal(a: string, b: string)
    ensures StrLe(a, b) || StrLe(b, a)
    decreases |a|
  {
    if a != [] && b != [] && a[0] == b[0] {
      StrLeTotal(a[1..], b[1..]);
    }
  }

  lemma {:induction false} StrLeTrans(a: string, b: string, c: string)
    requires StrLe(a, b) && StrLe(b, c)
    ensures StrLe(a, c)
    decreases |a|
  {
    if a != [] && b != [] && c != [] && a[0] == b[0] && b[0] == c[0] {
      StrLeTrans(a[1..], b[1..], c[1..]);
    }
  }

  function Rank(k: Key): int {
    match k
    case KInt(_) => 0
    case KStr(_) => 1
    case KNull => 2
  }

  /** Ascending order on keys: a total preorder. */
  predicate KeyLe(a: Key, b: Key) {
    if Rank(a) != Rank(b) then Rank(a) < Rank(b)
    else match a
      case KInt(x) => x <= b.i
      case KStr(x) => StrLe(x, b.s)
      case KNull => true
  }

  lemma KeyLeTotal(a: Key, b: Key)
    ensures KeyLe(a, b) || KeyLe(b, a)
  {
    if a.KStr? && b.KStr? { StrLeTotal(a.s, b.s); }
  }

  lemma KeyLeTrans(a: Key, b: Key, c: Key)
    requires KeyLe(a, b) && KeyLe(b, c)
    ensures KeyLe(a, c)
  {
    if a.KStr? && b.KStr? && c.KStr? { StrLeTrans(a.s, b.s, c.s); }
  }

  /** `a` may come before `b` in the requested direction. */
  predicate InOrder(a: Key, b: Key, desc: bool) {
    if desc then KeyLe(b, a) else KeyLe(a, b)
  }

  lemma InOrderTotal(a: Key, b: Key, desc: bool)
    ensures InOrder(a, b, desc) || InOrder(b, a, desc)
  {
    KeyLeTotal(a, b);
  }

  lemma InOrderTrans(a: Key, b: Key, c: Key, desc: bool)
    requires InOrder(a, b, desc) && InOrder(b, c, desc)
    ensures InOrder(a, c, desc)
  {
    if desc { KeyLeTrans(c, b, a); } else { KeyLeTrans(a, b, c); }
  }

  ghost predicate SortedBy<T>(s: seq<T>, key: T -> Key, desc: bool) {
    forall i, j :: 0 <= i < j < |s| ==> InOrder(key(s[i]), key(s[j]), desc)
  }

  /** Inserts `x` before the first element it may precede. */
  function Insert<T>(x: T, s: seq<T>, key: T -> Key, desc: bool): seq<T> {
    if s == [] then [x]
    else if InOrder(key(x), key(s[0]), desc) then [x] + s
    else [s[0]] + Insert(x, s[1..], key, desc)
  }

  /** The rows of `s` ordered by `key`, ascending or descending. */
  function SortBy<T>(s: seq<T>, key: T -> Key, desc: bool): seq<T> {
    if s == [] then [] else Insert(s[0], SortBy(s[1..], key, desc), key, desc)
  }

  lemma {:induction false} InsertCorrect<T>(x: T, s: seq<T>, key: T -> Key, desc: bool)
    requires SortedBy(s, key, desc)
    ensures multiset(Insert(x, s, key, desc)) == multiset(s) + multiset{x}
    ensures SortedBy(Insert(x, s, key, desc), key, desc)
  {
    if s == [] {
    } else if InOrder(key(x), key(s[0]), desc) {
      forall e | e in s ensures InOrder(key(x), key(e), desc) {
        var k :| 0 <= k < |s| && s[k] == e;
        if k > 0 { InOrderTrans(key(x), key(s[0]), key(s[k]), desc); }
      }
      ConsSorted(x, s, key, desc);
    } else {
      InOrderTotal(key(x), key(s[0]), desc);
      var t := Insert(x, s[1..], key, desc);
      InsertCorrect(x, s[1..], key, desc);
      forall e | e in t ensures InOrder(key(s[0]), key(e), desc) {
        assert e in multiset(t);
        if e != x {
          assert e in multiset(s[1..]);
          var k :| 0 <= k < |s[1..]| && s[1..][k] == e;
          assert s[k + 1] == e;
        }
      }
      ConsSorted(s[0], t, key, desc);
      assert s == [s[0]] + s[1..];
    }
  }

  /** An element that may precede everything in a sorted sequence can be
      put in front of it. */
  lemma ConsSorted<T>(a: T, t: seq<T>, key: T -> Key, desc: bool)
    requires SortedBy(t, key, desc)
    requires forall e :: e in t ==> InOrder(key(a), key(e), desc)
    ensures SortedBy([a] + t, key, desc)
  {
    var r := [a] + t;
    forall i, j | 0 <= i < j < |r| ensures InOrder(key(r[i]), key(r[j]), desc) {
      assert r[j] == t[j - 1];
      if i > 0 { assert r[i] == t[i - 1]; } else { assert t[j - 1] in t; }
    }
  }

  /** SortBy returns a permutation of its input, sorted by `key`. */
  lemma {:induction false} SortByCorrect<T>(s: seq<T>, key: T -> Key, desc: bool)
    ensures multiset(SortBy(s, key, desc)) == multiset(s)
    ensures SortedBy(SortBy(s, key, desc), key, desc)
    ensures |SortBy(s, key, desc)| == |s|
  {
    if s != [] {
      SortByCorrect(s[1..], key, desc);
      InsertCorrect(s[0], SortBy(s[1..], key, desc), key, desc);
      assert s == [s[0]] + s[1..];
      assert |SortBy(s, key, desc)| == |multiset(SortBy(s, key, desc))|;
    }
  }

  /** SQL `OFFSET skip LIMIT limit`. */
  function Page<T>(s: seq<T>, skip: nat, limit: nat): (r: seq<T>)
    ensures |r| <= limit
    ensures skip <= |s| ==> |r| == Common.Min(limit, |s| - skip)
    ensures forall i :: 0 <= i < |r| ==> skip + i < |s| && r[i] == s[skip + i]
  {
    if skip >= |s| then [] else Common.Take(s[skip..], limit)
  }

  /** A page of a sorted sequence is sorted. */
  lemma PageSorted<T>(s: seq<T>, skip: nat, limit: nat, key: T -> Key, desc: bool)
    requires SortedBy(s, key, desc)
    ensures SortedBy(Page(s, skip, limit), key, desc)
  {
    var r := Page(s, skip, limit);
    forall i, j | 0 <= i < j < |r| ensures InOrder(key(r[i]), key(r[j]), desc) {
      assert r[i] == s[skip + i] && r[j] == s[skip + j];
    }
  }

  /** Every element lies on exactly the page its index selects. */
  lemma PageCovers<T>(s: seq<T>, k: nat, skip: nat, limit: nat)
    requires k < |s| && skip <= k < skip + limit
    ensures var r := Page(s, skip, limit);
      k - skip < |r| && r[k - skip] == s[k]
  {
    assert Common.Take(s[skip..], limit)[k - skip] == s[k];
  }
}
