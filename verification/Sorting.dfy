/// Sorting by a key, as the standard library's stable sort does it.
module Sorting {
  import opened Text

  predicate SortedBy<T>(s: seq<T>, key: T -> string)
  {
    forall i, j | 0 <= i < j < |s| :: !Less(key(s[j]), key(s[i]))
  }

  function Insert<T>(s: seq<T>, x: T, key: T -> string): seq<T>
  {
    if s == [] || !Less(key(s[0]), key(x)) then [x] + s else [s[0]] + Insert(s[1..], x, key)
  }

  function SortBy<T>(s: seq<T>, key: T -> string): seq<T>
  {
    if s == [] then [] else Insert(SortBy(s[1..], key), s[0], key)
  }

  lemma {:induction false} InsertKeeps<T>(s: seq<T>, x: T, key: T -> string)
    ensures multiset(Insert(s, x, key)) == multiset(s) + multiset{x}
  {
    hide Less;
    if s != [] && Less(key(s[0]), key(x)) {
      InsertKeeps(s[1..], x, key);
      assert s == [s[0]] + s[1..];
    }
  }

  lemma {:induction false} InsertSorts<T>(s: seq<T>, x: T, key: T -> string)
    requires SortedBy(s, key)
    ensures SortedBy(Insert(s, x, key), key)
  {
    hide Less;
    if s != [] && Less(key(s[0]), key(x)) {
      InsertSorts(s[1..], x, key);
      InsertKeeps(s[1..], x, key);
      var rest := Insert(s[1..], x, key);
      forall k | 0 <= k < |rest| ensures !Less(key(rest[k]), key(s[0])) {
        assert rest[k] in multiset(rest);
        assert rest[k] == x || rest[k] in s[1..];
        NotBothLess(key(s[0]), key(x));
      }
    } else if s != [] {
      forall k | 0 <= k < |s| ensures !Less(key(s[k]), key(x)) {
        LessIsTotal(key(s[0]), key(s[0]));
        NotLessChain(key(x), key(s[0]), key(s[k]));
      }
    }
  }

  /// Sorting keeps every element and puts them in order.
  lemma {:induction false} SortSorts<T>(s: seq<T>, key: T -> string)
    ensures SortedBy(SortBy(s, key), key) && multiset(SortBy(s, key)) == multiset(s)
  {
    if s != [] {
      hide SortedBy;
      SortSorts(s[1..], key);
      InsertSorts(SortBy(s[1..], key), s[0], key);
      InsertKeeps(SortBy(s[1..], key), s[0], key);
      assert s == [s[0]] + s[1..];
    }
  }

  lemma SortedElements<T>(s: seq<T>, key: T -> string)
    ensures forall x :: x in SortBy(s, key) <==> x in s
  {
    SortSorts(s, key);
    hide SortBy;
    assert forall x :: x in SortBy(s, key) <==> x in multiset(SortBy(s, key));
  }
}
