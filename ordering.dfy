/**
 * Ordering of query results by a text column (`order_by("company_name")`,
 * `order_by("contact_name")`), taken as code-point lexicographic order, and
 * a sort that establishes it.
 */
module Ordering {

  /** `a <= b` in code-point lexicographic order. */
  predicate TextLe(a: string, b: string) {
    a == [] || (b != [] && (a[0] < b[0] || (a[0] == b[0] && TextLe(a[1..], b[1..]))))
  }

  lemma {:induction false} TextLeTotal(a: string, b: string)
    ensures TextLe(a, b) || TextLe(b, a)
  {
    if a != [] && b != [] && a[0] == b[0] {
      TextLeTotal(a[1..], b[1..]);
    }
  }

  lemma {:induction false} TextLeTransitive(a: string, b: string, c: string)
    requires TextLe(a, b) && TextLe(b, c)
    ensures TextLe(a, c)
  {
    if a != [] && b != [] && c != [] && a[0] == b[0] && b[0] == c[0] {
      TextLeTransitive(a[1..], b[1..], c[1..]);
    }
  }

  /** `s` is ordered by `key`. */
  ghost predicate SortedBy<T>(s: seq<T>, key: T -> string) {
    forall i, j :: 0 <= i < j < |s| ==> TextLe(key(s[i]), key(s[j]))
  }

  function Insert<T>(x: T, s: seq<T>, key: T -> string): seq<T> {
    if s == [] then [x]
    else if TextLe(key(x), key(s[0])) then [x] + s
    else [s[0]] + Insert(x, s[1..], key)
  }

  lemma {:induction false} InsertKeepsElements<T>(x: T, s: seq<T>, key: T -> string)
    ensures multiset(Insert(x, s, key)) == multiset(s) + multiset{x}
  {
    if s != [] && !TextLe(key(x), key(s[0])) {
      InsertKeepsElements(x, s[1..], key);
      assert s == [s[0]] + s[1..];
    }
  }

  lemma {:induction false} InsertKeepsOrder<T>(x: T, s: seq<T>, key: T -> string)
    requires SortedBy(s, key)
    ensures SortedBy(Insert(x, s, key), key)
  {
    if s == [] {
    } else if TextLe(key(x), key(s[0])) {
      var r := [x] + s;
      forall i, j | 0 <= i < j < |r| ensures TextLe(key(r[i]), key(r[j])) {
        assert r[j] == s[j - 1];
        if i == 0 {
          if j > 1 { TextLeTransitive(key(x), key(s[0]), key(s[j - 1])); }
        } else {
          assert r[i] == s[i - 1];
        }
      }
    } else {
      TextLeTotal(key(x), key(s[0]));
      var rest := s[1..];
      assert SortedBy(rest, key);
      var tail := Insert(x, rest, key);
      InsertKeepsOrder(x, rest, key);
      InsertKeepsElements(x, rest, key);
      forall k | 0 <= k < |tail| ensures TextLe(key(s[0]), key(tail[k])) {
        var y := tail[k];
        assert y in multiset(tail);
        if y != x {
          assert y in multiset(rest);
          var m :| 0 <= m < |rest| && rest[m] == y;
          assert s[m + 1] == y;
        }
      }
      var r := [s[0]] + tail;
      forall i, j | 0 <= i < j < |r| ensures TextLe(key(r[i]), key(r[j])) {
        assert r[j] == tail[j - 1];
        if i > 0 {
          assert r[i] == tail[i - 1];
        }
      }
    }
  }

  lemma ConsElements<T>(s: seq<T>)
    requires s != []
    ensures multiset(s) == multiset(s[1..]) + multiset{s[0]}
  {
    assert s == [s[0]] + s[1..];
  }

  /** Insertion sort: the elements of `s`, each as often as in `s`, ordered by `key`. */
  function SortBy<T>(s: seq<T>, key: T -> string): (r: seq<T>)
    ensures multiset(r) == multiset(s)
    ensures SortedBy(r, key)
  {
    if s == [] then []
    else
      var sorted := SortBy(s[1..], key);
      InsertKeepsElements(s[0], sorted, key);
      InsertKeepsOrder(s[0], sorted, key);
      ConsElements(s);
      Insert(s[0], sorted, key)
  }
}
