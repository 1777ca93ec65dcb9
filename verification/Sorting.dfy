/** A stable sort, standing for the library sorts the code calls. */
module Sorting {

  predicate Ascending<T>(s: seq<T>, key: T -> int)
  {
    forall i, j :: 0 <= i < j < |s| ==> key(s[i]) <= key(s[j])
  }

  /** The elements of one key, in the order they stand. */
  function Having<T>(s: seq<T>, key: T -> int, k: int): seq<T>
  {
    if s == [] then []
    else Having(s[..|s| - 1], key, k) + if key(s[|s| - 1]) == k then [s[|s| - 1]] else []
  }

  /** Puts `x` after every element of an equal or smaller key. */
  function Insert<T>(s: seq<T>, x: T, key: T -> int): (t: seq<T>)
    ensures multiset(t) == multiset(s) + multiset{x}
    ensures |t| == |s| + 1
  {
    if s == [] || key(s[|s| - 1]) <= key(x) then s + [x]
    else
      assert s == s[..|s| - 1] + [s[|s| - 1]];
      Insert(s[..|s| - 1], x, key) + [s[|s| - 1]]
  }

  function StableSort<T>(s: seq<T>, key: T -> int): (t: seq<T>)
    ensures multiset(t) == multiset(s)
    ensures |t| == |s|
  {
    if s == [] then []
    else
      assert s == s[..|s| - 1] + [s[|s| - 1]];
      Insert(StableSort(s[..|s| - 1], key), s[|s| - 1], key)
  }

  /** One insertion, spelled out. */
  lemma InsertStep<T>(s: seq<T>, x: T, key: T -> int)
    ensures s == [] || key(s[|s| - 1]) <= key(x) ==> Insert(s, x, key) == s + [x]
    ensures s != [] && key(s[|s| - 1]) > key(x) ==> Insert(s, x, key) == Insert(s[..|s| - 1], x, key) + [s[|s| - 1]]
  {
  }

  /** What is in after an insertion was in before, or is what was inserted. */
  lemma {:induction false} InsertMembers<T>(s: seq<T>, x: T, key: T -> int)
    ensures forall i :: 0 <= i < |Insert(s, x, key)| ==> Insert(s, x, key)[i] == x || Insert(s, x, key)[i] in s
  {
    hide Insert;
    InsertStep(s, x, key);
    if s != [] && key(s[|s| - 1]) > key(x) {
      InsertMembers(s[..|s| - 1], x, key);
    }
  }

  lemma {:induction false} InsertAscends<T>(s: seq<T>, x: T, key: T -> int)
    requires Ascending(s, key)
    ensures Ascending(Insert(s, x, key), key)
  {
    hide Insert;
    InsertStep(s, x, key);
    if s != [] && key(s[|s| - 1]) > key(x) {
      var front, last := s[..|s| - 1], s[|s| - 1];
      var t := Insert(front, x, key);
      InsertAscends(front, x, key);
      InsertMembers(front, x, key);
      forall i | 0 <= i < |t| ensures key(t[i]) <= key(last) {
        if t[i] in front {
          var j :| 0 <= j < |front| && front[j] == t[i];
        }
      }
    }
  }

  lemma {:induction false} SortAscends<T>(s: seq<T>, key: T -> int)
    ensures Ascending(StableSort(s, key), key)
  {
    hide Insert;
    if s != [] {
      SortAscends(s[..|s| - 1], key);
      InsertAscends(StableSort(s[..|s| - 1], key), s[|s| - 1], key);
    }
  }

  lemma {:induction false} HavingAppend<T>(s: seq<T>, t: seq<T>, key: T -> int, k: int)
    ensures Having(s + t, key, k) == Having(s, key, k) + Having(t, key, k)
  {
    if t == [] {
      assert s + t == s;
    } else {
      var front := t[..|t| - 1];
      assert (s + t)[..|s + t| - 1] == s + front;
      HavingAppend(s, front, key, k);
    }
  }

  lemma HavingOne<T>(x: T, key: T -> int, k: int)
    ensures Having([x], key, k) == if key(x) == k then [x] else []
  {
    assert [x][..0] == [];
  }

  lemma {:induction false} InsertKeepsTies<T>(s: seq<T>, x: T, key: T -> int, k: int)
    requires Ascending(s, key)
    ensures Having(Insert(s, x, key), key, k) == Having(s, key, k) + Having([x], key, k)
  {
    hide Having, Insert;
    InsertStep(s, x, key);
    if s == [] || key(s[|s| - 1]) <= key(x) {
      HavingAppend(s, [x], key, k);
    } else {
      var front, last := s[..|s| - 1], s[|s| - 1];
      InsertKeepsTies(front, x, key, k);
      HavingAppend(Insert(front, x, key), [last], key, k);
      HavingAppend(front, [last], key, k);
      assert s == front + [last];
      HavingOne(x, key, k);
      HavingOne(last, key, k);
      var f, hx, hl := Having(front, key, k), Having([x], key, k), Having([last], key, k);
      assert hx == [] || hl == [];
      assert (f + hx) + hl == (f + hl) + hx;
    }
  }

  /** Elements of one key keep the order they had. */
  lemma {:induction false} SortKeepsTies<T>(s: seq<T>, key: T -> int, k: int)
    ensures Having(StableSort(s, key), key, k) == Having(s, key, k)
  {
    hide Insert;
    if s != [] {
      var front, last := s[..|s| - 1], s[|s| - 1];
      assert s == front + [last];
      SortKeepsTies(front, key, k);
      SortAscends(front, key);
      InsertKeepsTies(StableSort(front, key), last, key, k);
      HavingAppend(front, [last], key, k);
    }
  }

  /** Sorting neither adds nor drops an element. */
  lemma SortKeepsMembers<T>(s: seq<T>, key: T -> int)
    ensures forall x :: x in s <==> x in StableSort(s, key)
  {
    forall x ensures x in s <==> x in StableSort(s, key) {
      assert x in s <==> x in multiset(s);
      assert x in StableSort(s, key) <==> x in multiset(StableSort(s, key));
    }
  }
}
