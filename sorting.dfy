/**
 * The two list shapes the store's queries return: rows ordered by a text
 * column (SQL `ORDER BY col` or `ORDER BY col DESC`, compared as Python
 * compares `str`) and rows kept by a condition (SQL `WHERE`, a list comprehension).
 */
module Sorting {
  import opened Text

  /** `x` may stand before `y` when ordering by `key`, descending when `desc`. */
  predicate Precedes<T>(key: T -> string, desc: bool, x: T, y: T) {
    if desc then StrLe(key(y), key(x)) else StrLe(key(x), key(y))
  }

  /** Every row stands in order with its successor. */
  predicate SortedBy<T>(s: seq<T>, key: T -> string, desc: bool) {
    forall i :: 0 < i < |s| ==> Precedes(key, desc, s[i - 1], s[i])
  }

  lemma PrecedesTotal<T>(key: T -> string, desc: bool, x: T, y: T)
    ensures Precedes(key, desc, x, y) || Precedes(key, desc, y, x)
  {
    StrLeTotal(key(x), key(y));
  }

  function Insert<T>(x: T, s: seq<T>, key: T -> string, desc: bool): (r: seq<T>)
    requires SortedBy(s, key, desc)
    ensures SortedBy(r, key, desc)
    ensures multiset(r) == multiset(s) + multiset{x}
    ensures |r| == |s| + 1
    ensures r[0] == x || (s != [] && r[0] == s[0])
  {
    if s == [] then [x]
    else if Precedes(key, desc, x, s[0]) then [x] + s
    else
      PrecedesTotal(key, desc, x, s[0]);
      var t := Insert(x, s[1..], key, desc);
      assert s == [s[0]] + s[1..];
      [s[0]] + t
  }

  lemma SameMembers<T>(a: seq<T>, b: seq<T>)
    requires multiset(a) == multiset(b)
    ensures forall i :: 0 <= i < |a| ==> a[i] in b
  {
    forall i | 0 <= i < |a| ensures a[i] in b {
      assert a[i] in multiset(a);
    }
  }

  /** Insertion sort: the rows of `s`, each kept as often as it occurs, in `key` order. */
  function SortBy<T>(s: seq<T>, key: T -> string, desc: bool): (r: seq<T>)
    ensures SortedBy(r, key, desc)
    ensures multiset(r) == multiset(s)
    ensures |r| == |s|
    ensures forall i :: 0 <= i < |r| ==> r[i] in s
    ensures forall i :: 0 <= i < |s| ==> s[i] in r
  {
    if s == [] then []
    else
      assert s == [s[0]] + s[1..];
      var r := Insert(s[0], SortBy(s[1..], key, desc), key, desc);
      SameMembers(r, s);
      SameMembers(s, r);
      r
  }

  /** The rows of `s` that satisfy `p`, in their order. */
  function Keep<T>(s: seq<T>, p: T -> bool): (r: seq<T>)
    ensures |r| <= |s|
    ensures multiset(r) <= multiset(s)
    ensures forall i :: 0 <= i < |r| ==> r[i] in s && p(r[i])
    ensures forall i :: 0 <= i < |s| && p(s[i]) ==> s[i] in r
  {
    if s == [] then []
    else
      assert s == [s[0]] + s[1..];
      (if p(s[0]) then [s[0]] else []) + Keep(s[1..], p)
  }

  /**
   * Keeping distributes over concatenation: together with `KeepOne` this
   * says the kept rows are those of `s` that pass, in the order of `s`.
   */
  lemma {:induction false} KeepAppend<T>(a: seq<T>, b: seq<T>, p: T -> bool)
    ensures Keep(a + b, p) == Keep(a, p) + Keep(b, p)
  {
    if a != [] {
      var head := if p(a[0]) then [a[0]] else [];
      assert (a + b)[0] == a[0] && (a + b)[1..] == a[1..] + b;
      calc {
        Keep(a + b, p);
      ==
        head + Keep(a[1..] + b, p);
      == { KeepAppend(a[1..], b, p); }
        head + (Keep(a[1..], p) + Keep(b, p));
      ==
        (head + Keep(a[1..], p)) + Keep(b, p);
      ==
        Keep(a, p) + Keep(b, p);
      }
    } else {
      assert a + b == b;
    }
  }

  /** A single row is kept exactly when it passes. */
  lemma KeepOne<T>(x: T, p: T -> bool)
    ensures Keep([x], p) == if p(x) then [x] else []
  {
    assert [x][1..] == [];
  }

  /** No row occurs twice. */
  ghost predicate NoDuplicates<T>(s: seq<T>) {
    forall i, j :: 0 <= i < j < |s| ==> s[i] != s[j]
  }

  /** No row occurs twice exactly when every row has multiplicity at most one. */
  lemma {:induction false} NoDuplicatesIff<T>(s: seq<T>)
    ensures NoDuplicates(s) <==> forall x :: multiset(s)[x] <= 1
  {
    if s != [] {
      var t := s[1..];
      assert s == [s[0]] + t;
      NoDuplicatesIff(t);
      if NoDuplicates(s) {
        assert NoDuplicates(t) by {
          forall i, j | 0 <= i < j < |t| ensures t[i] != t[j] {
            assert t[i] == s[i + 1] && t[j] == s[j + 1];
          }
        }
        assert s[0] !in t by {
          forall i | 0 <= i < |t| ensures t[i] != s[0] {
            assert t[i] == s[i + 1];
          }
        }
      }
      if forall x :: multiset(s)[x] <= 1 {
        assert multiset(t)[s[0]] == 0 by {
          assert multiset(s)[s[0]] == multiset(t)[s[0]] + 1;
        }
        forall x ensures multiset(t)[x] <= 1 {
          assert multiset(s)[x] >= multiset(t)[x];
        }
        forall i, j | 0 <= i < j < |s| ensures s[i] != s[j] {
          if i == 0 {
            assert s[j] == t[j - 1] && s[j] in multiset(t);
          } else {
            assert s[i] == t[i - 1] && s[j] == t[j - 1];
          }
        }
      }
    }
  }

  /** Rearranging or filtering rows never duplicates one. */
  lemma NoDuplicatesSub<T>(s: seq<T>, r: seq<T>)
    requires multiset(r) <= multiset(s) && NoDuplicates(s)
    ensures NoDuplicates(r)
  {
    NoDuplicatesIff(s);
    NoDuplicatesIff(r);
    forall x ensures multiset(r)[x] <= 1 {
      assert multiset(r)[x] <= multiset(s)[x];
    }
  }

  /** Rearranging or filtering rows whose ids strictly increase leaves no id twice. */
  lemma DistinctIds<T>(s: seq<T>, r: seq<T>, id: T -> int)
    requires forall i, j :: 0 <= i < j < |s| ==> id(s[i]) < id(s[j])
    requires multiset(r) <= multiset(s)
    ensures forall i, j :: 0 <= i < j < |r| ==> id(r[i]) != id(r[j])
  {
    assert NoDuplicates(s) by {
      forall i, j | 0 <= i < j < |s| ensures s[i] != s[j] {
        assert id(s[i]) < id(s[j]);
      }
    }
    NoDuplicatesSub(s, r);
    forall i, j | 0 <= i < j < |r| ensures id(r[i]) != id(r[j]) {
      assert r[i] in multiset(r) && r[j] in multiset(r);
      var a :| 0 <= a < |s| && s[a] == r[i];
      var b :| 0 <= b < |s| && s[b] == r[j];
      assert a != b;
    }
  }

  /** Keeping every row changes nothing. */
  lemma {:induction false} KeepAll<T>(s: seq<T>, p: T -> bool)
    requires forall i :: 0 <= i < |s| ==> p(s[i])
    ensures Keep(s, p) == s
  {
    if s != [] {
      KeepAll(s[1..], p);
      assert s == [s[0]] + s[1..];
    }
  }

  /** Keeping nothing leaves nothing. */
  lemma {:induction false} KeepNone<T>(s: seq<T>, p: T -> bool)
    requires forall i :: 0 <= i < |s| ==> !p(s[i])
    ensures Keep(s, p) == []
  {
    if s != [] {
      KeepNone(s[1..], p);
    }
  }
}
