/** Strings in code-point order, and the sorting the program relies on. */
module Strings {

  /** The strict lexicographic order by which sorted() compares strings. */
  predicate StrLess(a: string, b: string) {
    if b == "" then false
    else if a == "" then true
    else a[0] < b[0] || (a[0] == b[0] && StrLess(a[1..], b[1..]))
  }

  /** At the first position where two strings differ the smaller character decides, and the end is smallest. */
  lemma {:induction false} StrLessMeaning(a: string, b: string)
    ensures StrLess(a, b) <==>
              exists k :: && 0 <= k <= |a| && k < |b| && a[..k] == b[..k]
                          && (k == |a| || a[k] < b[k])
  {
    if b == "" {
    } else if a == "" {
      assert a[..0] == b[..0];
    } else {
      StrLessMeaning(a[1..], b[1..]);
      if StrLess(a, b) {
        if a[0] < b[0] {
          assert a[..0] == b[..0];
        } else {
          var k :| && 0 <= k <= |a[1..]| && k < |b[1..]| && a[1..][..k] == b[1..][..k]
                   && (k == |a[1..]| || a[1..][k] < b[1..][k]);
          assert a[..k + 1] == [a[0]] + a[1..][..k] && b[..k + 1] == [b[0]] + b[1..][..k];
        }
      }
      if k :| 0 <= k <= |a| && k < |b| && a[..k] == b[..k] && (k == |a| || a[k] < b[k]) {
        if k > 0 {
          assert a[0] == a[..k][0] && b[0] == b[..k][0];
          assert a[1..][..k - 1] == a[..k][1..] && b[1..][..k - 1] == b[..k][1..];
        }
      }
    }
  }

  lemma {:induction false} StrLessIrreflexive(a: string)
    ensures !StrLess(a, a)
  {
    if a == "" {
    } else {
      StrLessIrreflexive(a[1..]);
    }
  }

  lemma {:induction false} StrLessTransitive(a: string, b: string, c: string)
    requires StrLess(a, b) && StrLess(b, c)
    ensures StrLess(a, c)
  {
    if a != "" && a[0] == b[0] && b[0] == c[0] {
      StrLessTransitive(a[1..], b[1..], c[1..]);
    }
  }

  lemma {:induction false} StrLessTotal(a: string, b: string)
    ensures a == b || StrLess(a, b) || StrLess(b, a)
  {
    if a != "" && b != "" && a[0] == b[0] {
      StrLessTotal(a[1..], b[1..]);
      if a[1..] == b[1..] {
        assert a == [a[0]] + a[1..] && b == [b[0]] + b[1..];
      }
    }
  }

  ghost predicate StrictlySorted(s: seq<string>) {
    forall i, j {:trigger StrLess(s[i], s[j])} :: 0 <= i < j < |s| ==> StrLess(s[i], s[j])
  }

  ghost predicate Sorted(s: seq<string>) {
    forall i, j {:trigger StrLess(s[j], s[i])} :: 0 <= i < j < |s| ==> !StrLess(s[j], s[i])
  }

  lemma StrictlySortedIsSorted(s: seq<string>)
    requires StrictlySorted(s)
    ensures Sorted(s)
  {
    forall i, j | 0 <= i < j < |s| ensures !StrLess(s[j], s[i]) {
      if StrLess(s[j], s[i]) {
        StrLessTransitive(s[i], s[j], s[i]);
        StrLessIrreflexive(s[i]);
      }
    }
  }

  ghost predicate IsSortingOf(r: seq<string>, s: set<string>) {
    && StrictlySorted(r)
    && (forall x :: x in r <==> x in s)
    && |r| == |s|
  }

  /** sorted() of a set: its members, each once, in increasing order. */
  ghost function SortSet(s: set<string>): (r: seq<string>)
    ensures forall x :: x in r <==> x in s
    ensures |r| == |s|
  {
    SortingExists(s);
    var r :| IsSortingOf(r, s);
    r
  }

  lemma SortingExists(s: set<string>)
    ensures exists r :: IsSortingOf(r, s)
  {
    if s == {} {
      assert IsSortingOf([], s);
    } else {
      var least := Least(s);
      SortingExists(s - {least});
      var rest :| IsSortingOf(rest, s - {least});
      assert IsSortingOf([least] + rest, s) by {
        forall j | 0 <= j < |rest| ensures StrLess(least, rest[j]) {
          assert rest[j] in rest;
        }
      }
    }
  }

  lemma {:induction false} Least(s: set<string>) returns (least: string)
    requires s != {}
    ensures least in s
    ensures forall x :: x in s ==> x == least || StrLess(least, x)
  {
    var any :| any in s;
    if s == {any} {
      least := any;
    } else {
      var rest := Least(s - {any});
      StrLessTotal(any, rest);
      if StrLess(any, rest) {
        least := any;
        forall x | x in s ensures x == least || StrLess(least, x) {
          if x != any && x != rest {
            StrLessTransitive(any, rest, x);
          }
        }
      } else {
        least := rest;
      }
    }
  }

  lemma SortSetStrictlySorted(s: set<string>)
    ensures StrictlySorted(SortSet(s))
  {
    SortingExists(s);
  }

  /** Selection of the least remaining element. */
  method SortedSet(s: set<string>) returns (r: seq<string>)
    ensures r == SortSet(s)
  {
    r := [];
    var left := s;
    while left != {}
      invariant left <= s && forall x :: x in r <==> x in s && x !in left
      invariant StrictlySorted(r)
      invariant forall x, y {:trigger StrLess(x, y)} :: x in r && y in left ==> StrLess(x, y)
    {
      ghost var some := Least(left);
      var least :| least in left && forall y {:trigger StrLess(least, y)} :: y in left ==> y == least || StrLess(least, y);
      assert forall x :: x in r + [least] <==> x in r || x == least;
      r, left := r + [least], left - {least};
    }
    SortSetUnique(s, r);
  }

  /** A strictly sorted sequence is determined by its set of elements. */
  lemma {:induction false} StrictlySortedUnique(a: seq<string>, b: seq<string>)
    requires StrictlySorted(a) && StrictlySorted(b)
    requires forall x :: x in a <==> x in b
    ensures a == b
  {
    if a == [] {
      assert forall i :: 0 <= i < |b| ==> b[i] in b;
    } else {
      assert a[0] in a && a[0] in b;
      assert b[0] in b && b[0] in a;
      if a[0] != b[0] {
        assert StrLess(a[0], b[0]) && StrLess(b[0], a[0]);
        StrLessTransitive(a[0], b[0], a[0]);
        StrLessIrreflexive(a[0]);
      }
      forall x ensures x in a[1..] <==> x in b[1..] {
        TailMembers(a, x);
        TailMembers(b, x);
      }
      StrictlySortedUnique(a[1..], b[1..]);
      assert a == [a[0]] + a[1..] && b == [b[0]] + b[1..];
    }
  }

  lemma TailMembers(a: seq<string>, x: string)
    requires a != [] && StrictlySorted(a)
    ensures x in a[1..] <==> x in a && x != a[0]
  {
    StrLessIrreflexive(a[0]);
    if x in a[1..] {
      var i :| 0 <= i < |a[1..]| && a[1..][i] == x;
      assert StrLess(a[0], a[i + 1]);
    }
    if x in a && x != a[0] {
      var i :| 0 <= i < |a| && a[i] == x;
      assert a[1..][i - 1] == x;
    }
  }

  lemma SortSetUnique(s: set<string>, a: seq<string>)
    requires StrictlySorted(a)
    requires forall x :: x in a <==> x in s
    ensures SortSet(s) == a
  {
    SortSetStrictlySorted(s);
    StrictlySortedUnique(SortSet(s), a);
  }

  /** The elements of `keys` that belong to `s`, in their order. */
  function Keep(keys: seq<string>, s: set<string>): seq<string> {
    if keys == [] then []
    else
      var last := keys[|keys| - 1];
      Keep(keys[..|keys| - 1], s) + if last in s then [last] else []
  }

  lemma {:induction false} KeepMembers(keys: seq<string>, s: set<string>, x: string)
    ensures x in Keep(keys, s) <==> x in keys && x in s
  {
    if keys == [] {
    } else {
      var front, last := keys[..|keys| - 1], keys[|keys| - 1];
      KeepMembers(front, s, x);
      assert keys == front + [last];
    }
  }

  function Elements(keys: seq<string>): set<string> {
    set k | k in keys
  }

  lemma KeepSnoc(keys: seq<string>, i: nat, s: set<string>)
    requires i < |keys|
    ensures Keep(keys[..i + 1], s) == Keep(keys[..i], s) + if keys[i] in s then [keys[i]] else []
    ensures Elements(keys[..i + 1]) == Elements(keys[..i]) + {keys[i]}
  {
    var front := keys[..i + 1];
    assert front[..i] == keys[..i] && front[i] == keys[i];
    assert front == keys[..i] + [keys[i]];
  }

  lemma {:induction false} KeepStrictlySorted(keys: seq<string>, s: set<string>)
    requires StrictlySorted(keys)
    ensures StrictlySorted(Keep(keys, s))
  {
    if keys == [] {
    } else {
      var front := keys[..|keys| - 1];
      var last := keys[|keys| - 1];
      KeepStrictlySorted(front, s);
      forall x | x in Keep(front, s) ensures StrLess(x, last) {
        KeepMembers(front, s, x);
        var i :| 0 <= i < |front| && front[i] == x;
        assert keys[i] == x;
      }
    }
  }

  lemma KeepSortSet(all: set<string>, s: set<string>)
    requires s <= all
    ensures Keep(SortSet(all), s) == SortSet(s)
  {
    SortSetStrictlySorted(all);
    KeepStrictlySorted(SortSet(all), s);
    forall x ensures x in Keep(SortSet(all), s) <==> x in s {
      KeepMembers(SortSet(all), s, x);
    }
    SortSetUnique(s, Keep(SortSet(all), s));
  }

  /** sorted() of a list: repetitions are kept. */
  function SortSeq(s: seq<string>): (r: seq<string>)
    ensures Sorted(r) && multiset(r) == multiset(s)
  {
    if s == [] then []
    else
      assert s == [s[0]] + s[1..];
      Insert(s[0], SortSeq(s[1..]))
  }

  function Insert(x: string, s: seq<string>): (r: seq<string>)
    requires Sorted(s)
    ensures Sorted(r) && multiset(r) == multiset(s) + multiset{x}
  {
    if s == [] then [x]
    else if !StrLess(s[0], x) then
      InsertFront(x, s);
      [x] + s
    else
      assert s == [s[0]] + s[1..];
      var r := Insert(x, s[1..]);
      InsertLater(x, s, r);
      [s[0]] + r
  }

  lemma InsertFront(x: string, s: seq<string>)
    requires s != [] && Sorted(s) && !StrLess(s[0], x)
    ensures Sorted([x] + s)
  {
    var r := [x] + s;
    forall j | 1 <= j < |r| ensures !StrLess(r[j], x) {
      assert r[j] == s[j - 1] && (j > 1 ==> !StrLess(r[j], s[0]));
      StrLessTotal(s[0], r[j]);
      if StrLess(r[j], x) && StrLess(s[0], r[j]) {
        StrLessTransitive(s[0], r[j], x);
      }
    }
  }

  lemma InsertLater(x: string, s: seq<string>, r: seq<string>)
    requires s != [] && Sorted(s) && StrLess(s[0], x)
    requires Sorted(r) && multiset(r) == multiset(s[1..]) + multiset{x}
    ensures Sorted([s[0]] + r)
  {
    forall j | 0 <= j < |r| ensures !StrLess(r[j], s[0]) {
      assert r[j] in multiset(r);
      if r[j] == x {
        if StrLess(x, s[0]) {
          StrLessTransitive(s[0], x, s[0]);
          StrLessIrreflexive(s[0]);
        }
      } else {
        assert r[j] in s[1..];
      }
    }
  }

  /** sorted() leaves a list alone exactly when it is already in order. */
  lemma {:induction false} SortSeqFixed(s: seq<string>)
    ensures SortSeq(s) == s <==> Sorted(s)
  {
    if s != [] && Sorted(s) {
      SortSeqFixed(s[1..]);
      assert s == [s[0]] + s[1..];
      assert |s| > 1 ==> !StrLess(s[1], s[0]);
    }
  }

  /** str.replace with a one-character pattern. */
  function ReplaceChar(s: string, c: char, text: string): string {
    if s == "" then ""
    else (if s[0] == c then text else [s[0]]) + ReplaceChar(s[1..], c, text)
  }

  lemma {:induction false} ReplaceCharConcat(a: string, b: string, c: char, text: string)
    ensures ReplaceChar(a + b, c, text) == ReplaceChar(a, c, text) + ReplaceChar(b, c, text)
  {
    if a == "" {
      assert a + b == b;
    } else {
      assert (a + b)[1..] == a[1..] + b;
      ReplaceCharConcat(a[1..], b, c, text);
    }
  }
}
