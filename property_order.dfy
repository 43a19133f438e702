/** The order in which `for (key in obj)` visits the own properties of a
    plain object (the OrdinaryOwnPropertyKeys order of ECMAScript 2020 and
    later): first every key that is an array index, in ascending numeric
    order, then every other string key in the order the properties were
    created. An array index is the canonical decimal form of an integer
    below 2^32 - 1. */
module PropertyOrder {
  import opened JsValues

  const IndexLimit: nat := 4294967295

  predicate IsArrayIndex(k: string) {
    Canonical(k) && DecimalValue(k) < IndexLimit
  }

  /** The number an array-index key denotes (0 for any other key). */
  function IndexValue(k: string): nat {
    if IsArrayIndex(k) then DecimalValue(k) else 0
  }

  predicate NoDuplicates(s: seq<string>) {
    forall i, j :: 0 <= i < j < |s| ==> s[i] != s[j]
  }

  /** The array-index keys of `s`, in their order in `s`. */
  function IndexKeys(s: seq<string>): (r: seq<string>)
    ensures AllIndices(r)
  {
    if s == [] then []
    else (if IsArrayIndex(s[0]) then [s[0]] else []) + IndexKeys(s[1..])
  }

  /** The keys of `s` that are not array indices, in their order in `s`. */
  function NamedKeys(s: seq<string>): (r: seq<string>)
    ensures forall i :: 0 <= i < |r| ==> !IsArrayIndex(r[i])
  {
    if s == [] then []
    else (if IsArrayIndex(s[0]) then [] else [s[0]]) + NamedKeys(s[1..])
  }

  lemma {:induction false} SplitKeys(s: seq<string>)
    ensures multiset(IndexKeys(s)) + multiset(NamedKeys(s)) == multiset(s)
  {
    if s != [] {
      SplitKeys(s[1..]);
      assert s == [s[0]] + s[1..];
    }
  }

  /** Every key `NamedKeys` keeps is a key of its argument. */
  lemma NamedKeysWithin(s: seq<string>)
    ensures forall i :: 0 <= i < |NamedKeys(s)| ==> NamedKeys(s)[i] in s
  {
    var n := NamedKeys(s);
    SplitKeys(s);
    forall i | 0 <= i < |n| ensures n[i] in s {
      assert n[i] in multiset(n);
    }
  }

  lemma {:induction false} NamedKeysAppend(a: seq<string>, b: seq<string>)
    ensures NamedKeys(a + b) == NamedKeys(a) + NamedKeys(b)
  {
    if a == [] {
      assert a + b == b;
    } else {
      var head := if IsArrayIndex(a[0]) then [] else [a[0]];
      assert (a + b)[0] == a[0];
      assert (a + b)[1..] == a[1..] + b;
      NamedKeysAppend(a[1..], b);
      calc {
        NamedKeys(a + b);
        head + NamedKeys(a[1..] + b);
        head + (NamedKeys(a[1..]) + NamedKeys(b));
        (head + NamedKeys(a[1..])) + NamedKeys(b);
      }
    }
  }

  predicate AllIndices(s: seq<string>) {
    forall i :: 0 <= i < |s| ==> IsArrayIndex(s[i])
  }

  predicate SortedBy(s: seq<string>, rank: string -> nat) {
    forall i, j {:trigger rank(s[i]), rank(s[j])} :: 0 <= i < j < |s| ==> rank(s[i]) <= rank(s[j])
  }

  lemma SortedCons(x: string, t: seq<string>, rank: string -> nat)
    requires SortedBy(t, rank)
    requires t != [] ==> rank(x) <= rank(t[0])
    ensures SortedBy([x] + t, rank)
  {
    var r := [x] + t;
    forall i, j | 0 <= i < j < |r| ensures rank(r[i]) <= rank(r[j]) {
      assert r[j] == t[j - 1];
      if i > 0 {
        assert r[i] == t[i - 1];
      } else if j > 1 {
        assert rank(t[0]) <= rank(t[j - 1]);
      }
    }
  }

  /** Inserts `k` into `s` before the first element of higher or equal
      rank. */
  function InsertBy(k: string, s: seq<string>, rank: string -> nat): (r: seq<string>)
    ensures |r| == |s| + 1
  {
    if s == [] || rank(k) <= rank(s[0]) then [k] + s
    else [s[0]] + InsertBy(k, s[1..], rank)
  }

  lemma {:induction false} InsertByPermutes(k: string, s: seq<string>, rank: string -> nat)
    ensures multiset(InsertBy(k, s, rank)) == multiset(s) + multiset{k}
  {
    if !(s == [] || rank(k) <= rank(s[0])) {
      InsertByPermutes(k, s[1..], rank);
      assert s == [s[0]] + s[1..];
    }
  }

  /** Inserting into a sorted sequence keeps it sorted; the new head is
      either `k` or the old head. */
  lemma {:induction false} InsertBySorted(k: string, s: seq<string>, rank: string -> nat)
    requires SortedBy(s, rank)
    ensures SortedBy(InsertBy(k, s, rank), rank)
    ensures InsertBy(k, s, rank)[0] == k || (s != [] && InsertBy(k, s, rank)[0] == s[0])
  {
    if s == [] || rank(k) <= rank(s[0]) {
      SortedCons(k, s, rank);
    } else {
      var rest := s[1..];
      assert SortedBy(rest, rank) by {
        forall i, j | 0 <= i < j < |rest| ensures rank(rest[i]) <= rank(rest[j]) {
          assert rest[i] == s[i + 1] && rest[j] == s[j + 1];
        }
      }
      InsertBySorted(k, rest, rank);
      var t := InsertBy(k, rest, rank);
      if t[0] != k {
        assert rest != [] && t[0] == s[1];
        assert rank(s[0]) <= rank(s[1]);
      }
      SortedCons(s[0], t, rank);
    }
  }

  /** `s` sorted by `rank` (insertion sort; keys of equal rank keep no
      particular order). */
  function SortBy(s: seq<string>, rank: string -> nat): (r: seq<string>)
    ensures |r| == |s|
  {
    if s == [] then [] else InsertBy(s[0], SortBy(s[1..], rank), rank)
  }

  lemma {:induction false} SortByPermutes(s: seq<string>, rank: string -> nat)
    ensures multiset(SortBy(s, rank)) == multiset(s)
  {
    if s != [] {
      SortByPermutes(s[1..], rank);
      InsertByPermutes(s[0], SortBy(s[1..], rank), rank);
      assert s == [s[0]] + s[1..];
    }
  }

  lemma {:induction false} SortBySorted(s: seq<string>, rank: string -> nat)
    ensures SortedBy(SortBy(s, rank), rank)
  {
    if s != [] {
      SortBySorted(s[1..], rank);
      InsertBySorted(s[0], SortBy(s[1..], rank), rank);
    }
  }

  /** The keys of an object, whose properties were created in the order
      `created`, in the order `for...in` visits them. */
  function ForInOrder(created: seq<string>): (r: seq<string>)
    ensures |r| == |created|
  {
    SplitKeys(created);
    assert |multiset(IndexKeys(created))| + |multiset(NamedKeys(created))| == |multiset(created)|;
    SortBy(IndexKeys(created), IndexValue) + NamedKeys(created)
  }

  /** `for...in` visits the properties themselves, in some order. */
  lemma ForInOrderPermutes(created: seq<string>)
    ensures multiset(ForInOrder(created)) == multiset(created)
  {
    SplitKeys(created);
    SortByPermutes(IndexKeys(created), IndexValue);
  }

  lemma {:induction false} NoDuplicatesByMultiset(s: seq<string>)
    ensures NoDuplicates(s) <==> forall x :: multiset(s)[x] <= 1
  {
    if s != [] {
      var t := s[1..];
      assert s == [s[0]] + t;
      NoDuplicatesByMultiset(t);
      if NoDuplicates(s) {
        forall j | 0 <= j < |t| ensures t[j] != s[0] {
          assert t[j] == s[j + 1];
        }
        assert NoDuplicates(t) by {
          forall i, j | 0 <= i < j < |t| ensures t[i] != t[j] {
            assert s[i + 1] != s[j + 1];
          }
        }
      }
      if forall x :: multiset(s)[x] <= 1 {
        assert forall x :: multiset(t)[x] <= 1 by {
          forall x ensures multiset(t)[x] <= 1 {
            assert multiset(s)[x] == multiset(t)[x] + (if x == s[0] then 1 else 0);
          }
        }
        assert multiset(t)[s[0]] == 0 by {
          assert multiset(s)[s[0]] == multiset(t)[s[0]] + 1;
        }
        forall i, j | 0 <= i < j < |s| ensures s[i] != s[j] {
          if i == 0 {
            assert s[j] in t;
          } else {
            assert s[i] == t[i - 1] && s[j] == t[j - 1];
          }
        }
      }
    }
  }

  /** The `for...in` order visits every property exactly once. */
  lemma ForInOrderNoDuplicates(created: seq<string>)
    requires NoDuplicates(created)
    ensures NoDuplicates(ForInOrder(created))
  {
    ForInOrderPermutes(created);
    NoDuplicatesByMultiset(created);
    NoDuplicatesByMultiset(ForInOrder(created));
  }

  /** Array-index keys come first, in strictly ascending numeric order. */
  lemma ForInOrderIndicesFirst(created: seq<string>)
    requires NoDuplicates(created)
    ensures var r := ForInOrder(created);
      forall i, j :: 0 <= i < j < |r| && IsArrayIndex(r[j]) ==>
        IsArrayIndex(r[i]) && IndexValue(r[i]) < IndexValue(r[j])
  {
    var a := SortBy(IndexKeys(created), IndexValue);
    var b := NamedKeys(created);
    var r := ForInOrder(created);
    ForInOrderNoDuplicates(created);
    assert r == a + b;
    SortBySorted(IndexKeys(created), IndexValue);
    SortedIndices(IndexKeys(created));
    forall i, j | 0 <= i < j < |r| && IsArrayIndex(r[j])
      ensures IsArrayIndex(r[i]) && IndexValue(r[i]) < IndexValue(r[j])
    {
      if j >= |a| {
        assert false;
      }
      assert r[i] == a[i] && r[j] == a[j];
      assert NoDuplicates(a) by {
        forall i', j' | 0 <= i' < j' < |a| ensures a[i'] != a[j'] {
          assert a[i'] == r[i'] && a[j'] == r[j'];
        }
      }
      StrictlyAscending(a, i, j);
    }
  }

  lemma SortedIndices(s: seq<string>)
    requires AllIndices(s)
    ensures AllIndices(SortBy(s, IndexValue))
  {
    var r := SortBy(s, IndexValue);
    SortByPermutes(s, IndexValue);
    forall i | 0 <= i < |r| ensures IsArrayIndex(r[i]) {
      assert r[i] in multiset(s);
    }
  }

  lemma StrictlyAscending(a: seq<string>, i: nat, j: nat)
    requires AllIndices(a) && SortedBy(a, IndexValue) && NoDuplicates(a)
    requires i < j < |a|
    ensures IndexValue(a[i]) < IndexValue(a[j])
  {
    CanonicalInjective(a[i], a[j]);
  }

  /** The keys that are not array indices keep the order in which they were
      created. */
  lemma ForInOrderKeepsNamedOrder(created: seq<string>)
    ensures NamedKeys(ForInOrder(created)) == NamedKeys(created)
  {
    var a := SortBy(IndexKeys(created), IndexValue);
    var b := NamedKeys(created);
    SortedIndices(IndexKeys(created));
    NamedKeysAppend(a, b);
    NamedKeysOfNamed(b);
    NamedKeysOfIndices(a);
  }

  lemma {:induction false} NamedKeysOfNamed(s: seq<string>)
    requires forall i :: 0 <= i < |s| ==> !IsArrayIndex(s[i])
    ensures NamedKeys(s) == s
  {
    if s != [] {
      NamedKeysOfNamed(s[1..]);
    }
  }

  lemma {:induction false} NamedKeysOfIndices(s: seq<string>)
    requires AllIndices(s)
    ensures NamedKeys(s) == []
  {
    if s != [] {
      NamedKeysOfIndices(s[1..]);
    }
  }
}
