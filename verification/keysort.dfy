/**
 * Sorting an object's entries by key. The generator walks and emits the
 * fields of every struct in ascending key order, whatever order the keys
 * were declared in.
 */
module KeySort {
  import opened Strings
  import opened JsonValues

  predicate Sorted(s: seq<Entry>) {
    forall i, j :: 0 <= i < j < |s| ==> !LexLess(s[j].0, s[i].0)
  }

  predicate StrictlySorted(s: seq<Entry>) {
    forall i, j :: 0 <= i < j < |s| ==> LexLess(s[i].0, s[j].0)
  }

  lemma PrependSorted(e: Entry, s: seq<Entry>)
    requires Sorted(s) && (|s| > 0 ==> !LexLess(s[0].0, e.0))
    ensures Sorted([e] + s)
    ensures StrictlySorted(s) && (|s| > 0 ==> LexLess(e.0, s[0].0)) ==> StrictlySorted([e] + s)
  {
    var r := [e] + s;
    forall j | 1 < j < |r|
      ensures !LexLess(r[j].0, e.0)
    {
      assert r[j] == s[j - 1];
      if s[0].0 != e.0 {
        LexLessTotal(s[0].0, e.0);
        if LexLess(r[j].0, e.0) {
          LexLessTransitive(r[j].0, e.0, s[0].0);
        }
      }
    }
    if StrictlySorted(s) && (|s| > 0 ==> LexLess(e.0, s[0].0)) {
      forall j | 1 < j < |r|
        ensures LexLess(e.0, r[j].0)
      {
        LexLessTransitive(e.0, s[0].0, r[j].0);
      }
    }
  }

  /** Places `e` before the first entry whose key is not smaller. */
  function Insert(e: Entry, s: seq<Entry>): seq<Entry> {
    if |s| == 0 then [e]
    else if LexLess(s[0].0, e.0) then [s[0]] + Insert(e, s[1..])
    else [e] + s
  }

  lemma {:induction false} InsertSorted(e: Entry, s: seq<Entry>)
    requires Sorted(s)
    ensures multiset(Insert(e, s)) == multiset(s) + multiset{e}
    ensures Sorted(Insert(e, s))
    ensures StrictlySorted(s) && (forall x :: x in s ==> x.0 != e.0) ==> StrictlySorted(Insert(e, s))
  {
    if |s| == 0 {
    } else if LexLess(s[0].0, e.0) {
      InsertSorted(e, s[1..]);
      InsertPast(e, s);
    } else {
      PrependSorted(e, s);
      if StrictlySorted(s) && (forall x :: x in s ==> x.0 != e.0) {
        assert s[0] in s;
        LexLessTotal(e.0, s[0].0);
      }
    }
  }

  /** The step of `InsertSorted` where `e` goes past the head of `s`. */
  lemma InsertPast(e: Entry, s: seq<Entry>)
    requires Sorted(s) && |s| > 0 && LexLess(s[0].0, e.0)
    requires multiset(Insert(e, s[1..])) == multiset(s[1..]) + multiset{e}
    requires Sorted(Insert(e, s[1..]))
    requires StrictlySorted(s[1..]) && (forall x :: x in s[1..] ==> x.0 != e.0) ==> StrictlySorted(Insert(e, s[1..]))
    ensures multiset(Insert(e, s)) == multiset(s) + multiset{e}
    ensures Sorted(Insert(e, s))
    ensures StrictlySorted(s) && (forall x :: x in s ==> x.0 != e.0) ==> StrictlySorted(Insert(e, s))
  {
    var rest := Insert(e, s[1..]);
    assert Insert(e, s) == [s[0]] + rest;
    HeadCount(s);
    forall x | x in rest
      ensures !LexLess(x.0, s[0].0)
      ensures StrictlySorted(s) ==> LexLess(s[0].0, x.0)
    {
      HeadBelowRest(e, s, rest, x);
    }
    ConsSorted(s[0], rest);
    if StrictlySorted(s) && (forall x :: x in s ==> x.0 != e.0) {
      TailStrictlySorted(s);
      forall x | x in s[1..] ensures x.0 != e.0 {
        assert x in s;
      }
    }
  }

  lemma HeadCount(s: seq<Entry>)
    requires |s| > 0
    ensures multiset(s) == multiset{s[0]} + multiset(s[1..])
  {
    assert s == [s[0]] + s[1..];
  }

  lemma TailStrictlySorted(s: seq<Entry>)
    requires |s| > 0 && StrictlySorted(s)
    ensures StrictlySorted(s[1..])
  {
    forall i, j | 0 <= i < j < |s[1..]| ensures LexLess(s[1..][i].0, s[1..][j].0) {
      assert s[1..][i] == s[i + 1] && s[1..][j] == s[j + 1];
    }
  }

  /** A head not above any later key keeps a sorted sequence sorted; strictly below, strictly. */
  lemma ConsSorted(h: Entry, rest: seq<Entry>)
    requires Sorted(rest) && forall x :: x in rest ==> !LexLess(x.0, h.0)
    ensures Sorted([h] + rest)
    ensures StrictlySorted(rest) && (forall x :: x in rest ==> LexLess(h.0, x.0)) ==> StrictlySorted([h] + rest)
  {
    var r := [h] + rest;
    forall i, j | 0 <= i < j < |r| ensures !LexLess(r[j].0, r[i].0) {
      assert r[j] == rest[j - 1];
      if i > 0 {
        assert r[i] == rest[i - 1];
      }
    }
    if StrictlySorted(rest) && (forall x :: x in rest ==> LexLess(h.0, x.0)) {
      forall i, j | 0 <= i < j < |r| ensures LexLess(r[i].0, r[j].0) {
        assert r[j] == rest[j - 1];
        if i > 0 {
          assert r[i] == rest[i - 1];
        }
      }
    }
  }

  lemma HeadBelowRest(e: Entry, s: seq<Entry>, rest: seq<Entry>, x: Entry)
    requires Sorted(s) && |s| > 0 && LexLess(s[0].0, e.0)
    requires multiset(rest) == multiset(s[1..]) + multiset{e}
    requires x in rest
    ensures !LexLess(x.0, s[0].0)
    ensures StrictlySorted(s) ==> LexLess(s[0].0, x.0)
  {
    assert x in multiset(rest);
    if x == e {
      LexLessAsymmetric(s[0].0, e.0);
    } else {
      assert x in multiset(s[1..]);
      var k :| 0 <= k < |s[1..]| && s[1..][k] == x;
      assert s[k + 1] == x;
    }
  }

  /** Insertion sort of an object's entries by key. */
  function SortByKey(kvs: seq<Entry>): (r: seq<Entry>)
    ensures multiset(r) == multiset(kvs)
    ensures Sorted(r)
    ensures UniqueKeys(kvs) ==> StrictlySorted(r)
  {
    if |kvs| == 0 then []
    else
      var rest := SortByKey(kvs[1..]);
      SortByKeyStep(kvs, rest);
      Insert(kvs[0], rest)
  }

  lemma SortByKeyStep(kvs: seq<Entry>, rest: seq<Entry>)
    requires |kvs| > 0 && Sorted(rest) && multiset(rest) == multiset(kvs[1..])
    requires UniqueKeys(kvs[1..]) ==> StrictlySorted(rest)
    ensures multiset(Insert(kvs[0], rest)) == multiset(kvs)
    ensures Sorted(Insert(kvs[0], rest))
    ensures UniqueKeys(kvs) ==> StrictlySorted(Insert(kvs[0], rest))
  {
    assert kvs == [kvs[0]] + kvs[1..];
    InsertSorted(kvs[0], rest);
    if UniqueKeys(kvs) {
      forall x | x in rest
        ensures x.0 != kvs[0].0
      {
        assert x in multiset(kvs[1..]);
        var k :| 0 <= k < |kvs[1..]| && kvs[1..][k] == x;
        assert kvs[k + 1] == x;
      }
    }
  }

  /** Sorting only rearranges: every sorted entry comes from the input. */
  lemma SortedMembers(kvs: seq<Entry>)
    ensures forall e :: e in SortByKey(kvs) ==> e in kvs
  {
    forall e | e in SortByKey(kvs) ensures e in kvs {
      assert e in multiset(SortByKey(kvs));
    }
  }

  /** A key-strictly-sorted sequence and a sorted one holding the same entries are equal. */
  lemma {:induction false} StrictlySortedUnique(a: seq<Entry>, b: seq<Entry>)
    requires StrictlySorted(a) && Sorted(b)
    requires multiset(a) == multiset(b)
    ensures a == b
    decreases |a|
  {
    assert |b| == |multiset(b)| == |multiset(a)| == |a|;
    if |a| > 0 {
      SameHead(a, b);
      TailCount(a, b);
      TailStrictlySorted(a);
      TailSorted(b);
      StrictlySortedUnique(a[1..], b[1..]);
      HeadTailEqual(a, b);
    }
  }

  lemma TailCount(a: seq<Entry>, b: seq<Entry>)
    requires |a| > 0 && |b| > 0 && a[0] == b[0] && multiset(a) == multiset(b)
    ensures multiset(a[1..]) == multiset(b[1..])
  {
    HeadCount(a);
    HeadCount(b);
    assert multiset(a[1..]) == multiset(a) - multiset{a[0]};
    assert multiset(b[1..]) == multiset(b) - multiset{b[0]};
  }

  lemma TailSorted(s: seq<Entry>)
    requires |s| > 0 && Sorted(s)
    ensures Sorted(s[1..])
  {
    forall i, j | 0 <= i < j < |s[1..]| ensures !LexLess(s[1..][j].0, s[1..][i].0) {
      assert s[1..][i] == s[i + 1] && s[1..][j] == s[j + 1];
    }
  }

  lemma HeadTailEqual<T>(a: seq<T>, b: seq<T>)
    requires |a| > 0 && |b| > 0 && a[0] == b[0] && a[1..] == b[1..]
    ensures a == b
  {
    assert a == [a[0]] + a[1..] && b == [b[0]] + b[1..];
  }

  /** Both start with the entry of least key. */
  lemma SameHead(a: seq<Entry>, b: seq<Entry>)
    requires StrictlySorted(a) && Sorted(b) && |a| > 0 && |b| > 0
    requires multiset(a) == multiset(b)
    ensures a[0] == b[0]
  {
    assert a[0] in multiset(b);
    assert b[0] in multiset(a);
  }

  /** The order in which an object declares its keys does not change the sorted result. */
  lemma SortByKeyOrderIndependent(kvs1: seq<Entry>, kvs2: seq<Entry>)
    requires UniqueKeys(kvs1)
    requires multiset(kvs1) == multiset(kvs2)
    ensures SortByKey(kvs1) == SortByKey(kvs2)
  {
    StrictlySortedUnique(SortByKey(kvs1), SortByKey(kvs2));
  }

  /** The sorted result is the one key-strictly-sorted arrangement of the entries. */
  lemma SortByKeyIs(kvs: seq<Entry>, sorted: seq<Entry>)
    requires StrictlySorted(sorted) && multiset(sorted) == multiset(kvs)
    ensures SortByKey(kvs) == sorted
  {
    StrictlySortedUnique(sorted, SortByKey(kvs));
  }
}
