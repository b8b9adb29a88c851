/**
 * `Array.prototype.sort` with a string-comparing comparator, as the widget and
 * the header call it: `(a, b) => keyOf(a).localeCompare(keyOf(b))`.
 *
 * The collation behind `localeCompare` is not modelled. It is a parameter
 * `le`, read as "`localeCompare(a, b) <= 0`", and the properties that need
 * it assume only that it is a total preorder (distinct strings may compare
 * equal). Since ECMAScript 2019 `sort` is stable, so for such a comparator its
 * result is fully determined; `Sort` below is that result, built by stable
 * insertion.
 */
module StableSort {

  /** `le` is total and transitive, as `localeCompare(a, b) <= 0` is. */
  ghost predicate TotalPreorder(le: (string, string) -> bool) {
    && (forall a, b :: le(a, b) || le(b, a))
    && (forall a, b, c :: le(a, b) && le(b, c) ==> le(a, c))
  }

  /** Every element's key is `le` every later element's key. */
  ghost predicate SortedBy<T>(s: seq<T>, key: T -> string, le: (string, string) -> bool) {
    forall i, j :: 0 <= i < j < |s| ==> le(key(s[i]), key(s[j]))
  }

  /** Inserts `x` after the last element whose key is `le` the key of `x`. */
  function Insert<T>(x: T, s: seq<T>, key: T -> string, le: (string, string) -> bool): (r: seq<T>)
    ensures multiset(r) == multiset(s) + multiset{x}
    ensures |r| == |s| + 1
  {
    if s == [] then [x]
    else if le(key(s[|s| - 1]), key(x)) then s + [x]
    else
      assert s == s[..|s| - 1] + [s[|s| - 1]];
      Insert(x, s[..|s| - 1], key, le) + [s[|s| - 1]]
  }

  /** The stable sort of `s` by `key` under `le`; a permutation of `s`. */
  function Sort<T>(s: seq<T>, key: T -> string, le: (string, string) -> bool): (r: seq<T>)
    ensures multiset(r) == multiset(s)
    ensures |r| == |s|
  {
    if s == [] then []
    else
      assert s == s[..|s| - 1] + [s[|s| - 1]];
      Insert(s[|s| - 1], Sort(s[..|s| - 1], key, le), key, le)
  }

  /** Appending an element whose key bounds every key of a sorted sequence keeps it sorted. */
  lemma AppendSorted<T>(s: seq<T>, e: T, key: T -> string, le: (string, string) -> bool)
    requires SortedBy(s, key, le)
    requires forall y :: y in s ==> le(key(y), key(e))
    ensures SortedBy(s + [e], key, le)
  {
    var t := s + [e];
    forall i, j | 0 <= i < j < |t| ensures le(key(t[i]), key(t[j])) {
      if j == |s| {
        assert t[i] in s;
      }
    }
  }

  lemma {:induction false} InsertSorted<T>(x: T, s: seq<T>, key: T -> string, le: (string, string) -> bool)
    requires TotalPreorder(le)
    requires SortedBy(s, key, le)
    ensures SortedBy(Insert(x, s, key, le), key, le)
    decreases |s|
  {
    if s == [] {
    } else {
      var last := s[|s| - 1];
      var init := s[..|s| - 1];
      if le(key(last), key(x)) {
        forall y | y in s ensures le(key(y), key(x)) {
          var i :| 0 <= i < |s| && s[i] == y;
          if i < |s| - 1 {
            assert le(key(s[i]), key(last));
          }
        }
        AppendSorted(s, x, key, le);
      } else {
        InsertSorted(x, init, key, le);
        var ins := Insert(x, init, key, le);
        forall y | y in ins ensures le(key(y), key(last)) {
          assert y in multiset(ins);
          if y != x {
            assert y in multiset(init);
            var i :| 0 <= i < |init| && init[i] == y;
            assert s[i] == y;
          }
        }
        AppendSorted(ins, last, key, le);
      }
    }
  }

  /** The result of `Sort` is sorted by `key` under any total preorder `le`. */
  lemma {:induction false} SortSorted<T>(s: seq<T>, key: T -> string, le: (string, string) -> bool)
    requires TotalPreorder(le)
    ensures SortedBy(Sort(s, key, le), key, le)
    decreases |s|
  {
    if s != [] {
      SortSorted(s[..|s| - 1], key, le);
      InsertSorted(s[|s| - 1], Sort(s[..|s| - 1], key, le), key, le);
    }
  }
}
