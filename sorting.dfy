/** `sort_element_tree` / `getkey`: the subjects are put in ascending order
    of (STUDY_ID, redcapFormName, timestamp) by Python's stable `sorted`. */
module Sorting {
  import opened Common
  import opened Records

  /** `getkey`: the three `findtext` values; a missing element is None. */
  datatype Key = Key(studyId: Option<string>, formName: Option<string>, timestamp: Option<string>)

  function GetKey(s: Elems): Key
  {
    Key(Find(s, "STUDY_ID"), Find(s, "redcapFormName"), Find(s, "timestamp"))
  }

  /** Python 2 orders None below every string. */
  predicate OptLe(a: Option<string>, b: Option<string>)
  {
    a.None? || (b.Some? && StrLe(a.value, b.value))
  }

  /** Tuple comparison: lexicographic over the three parts. */
  predicate KeyLe(a: Key, b: Key)
  {
    if a.studyId != b.studyId then OptLe(a.studyId, b.studyId)
    else if a.formName != b.formName then OptLe(a.formName, b.formName)
    else OptLe(a.timestamp, b.timestamp)
  }

  lemma OptLeFacts()
    ensures forall a :: OptLe(a, a)
    ensures forall a, b :: OptLe(a, b) || OptLe(b, a)
    ensures forall a, b :: OptLe(a, b) && OptLe(b, a) ==> a == b
    ensures forall a, b, c :: OptLe(a, b) && OptLe(b, c) ==> OptLe(a, c)
  {
    forall a: Option<string> ensures OptLe(a, a) {
      if a.Some? { StrLeReflexive(a.value); }
    }
    forall a: Option<string>, b: Option<string> ensures OptLe(a, b) || OptLe(b, a) {
      if a.Some? && b.Some? { StrLeTotal(a.value, b.value); }
    }
    forall a: Option<string>, b: Option<string> | OptLe(a, b) && OptLe(b, a) ensures a == b {
      if a.Some? && b.Some? { StrLeAntisymmetric(a.value, b.value); }
    }
    forall a: Option<string>, b: Option<string>, c: Option<string> | OptLe(a, b) && OptLe(b, c)
      ensures OptLe(a, c)
    {
      if a.Some? && b.Some? && c.Some? { StrLeTransitive(a.value, b.value, c.value); }
    }
  }

  /** KeyLe is a total order on keys. */
  lemma KeyLeTotalOrder()
    ensures forall a :: KeyLe(a, a)
    ensures forall a, b :: KeyLe(a, b) || KeyLe(b, a)
    ensures forall a, b :: KeyLe(a, b) && KeyLe(b, a) ==> a == b
    ensures forall a, b, c :: KeyLe(a, b) && KeyLe(b, c) ==> KeyLe(a, c)
  {
    OptLeFacts();
  }

  predicate SortedByKey(s: seq<Elems>)
  {
    forall i, j :: 0 <= i < j < |s| ==> KeyLe(GetKey(s[i]), GetKey(s[j]))
  }

  /** The subjects of `s` whose key is `k`, in their order in `s`. */
  function WithKey(s: seq<Elems>, k: Key): seq<Elems>
    decreases |s|
  {
    if s == [] then []
    else (if GetKey(s[0]) == k then [s[0]] else []) + WithKey(s[1..], k)
  }

  /** Insert `x` in front of the first element whose key is not below it. */
  function Insert(x: Elems, t: seq<Elems>): seq<Elems>
    decreases |t|
  {
    if t == [] || KeyLe(GetKey(x), GetKey(t[0])) then [x] + t
    else [t[0]] + Insert(x, t[1..])
  }

  /** A stable sort: the first subject is inserted in front of every later
      subject with the same key. */
  function SortByKey(s: seq<Elems>): seq<Elems>
    decreases |s|
  {
    if s == [] then [] else Insert(s[0], SortByKey(s[1..]))
  }

  lemma {:induction false} InsertPermutes(x: Elems, t: seq<Elems>)
    ensures multiset(Insert(x, t)) == multiset(t) + multiset{x}
    decreases |t|
  {
    if t != [] && !KeyLe(GetKey(x), GetKey(t[0])) {
      InsertPermutes(x, t[1..]);
      assert t == [t[0]] + t[1..];
    }
  }

  lemma {:induction false} InsertSorted(x: Elems, t: seq<Elems>)
    requires SortedByKey(t)
    ensures SortedByKey(Insert(x, t))
    decreases |t|
  {
    KeyLeTotalOrder();
    if t != [] && !KeyLe(GetKey(x), GetKey(t[0])) {
      InsertSorted(x, t[1..]);
      InsertPermutes(x, t[1..]);
      var r := Insert(x, t[1..]);
      forall e | e in r ensures KeyLe(GetKey(t[0]), GetKey(e)) {
        assert e in multiset(r);
        if e != x {
          assert e in multiset(t[1..]);
        }
      }
      assert Insert(x, t) == [t[0]] + r;
    }
  }

  lemma {:induction false} WithKeyAppend(a: seq<Elems>, b: seq<Elems>, k: Key)
    ensures WithKey(a + b, k) == WithKey(a, k) + WithKey(b, k)
    decreases |a|
  {
    if a != [] {
      WithKeyAppend(a[1..], b, k);
      assert (a + b)[0] == a[0];
      assert (a + b)[1..] == a[1..] + b;
    } else {
      assert a + b == b;
    }
  }

  /** Inserting `x` puts it in front of the other subjects with its key and
      leaves every other key's subsequence alone. */
  lemma {:induction false} InsertStable(x: Elems, t: seq<Elems>, k: Key)
    ensures WithKey(Insert(x, t), k) == (if GetKey(x) == k then [x] else []) + WithKey(t, k)
    decreases |t|
  {
    KeyLeTotalOrder();
    if t == [] || KeyLe(GetKey(x), GetKey(t[0])) {
      WithKeyAppend([x], t, k);
    } else {
      InsertStable(x, t[1..], k);
      WithKeyAppend([t[0]], Insert(x, t[1..]), k);
      WithKeyAppend([t[0]], t[1..], k);
      assert t == [t[0]] + t[1..];
      assert GetKey(t[0]) != GetKey(x);
    }
  }

  /** The sorted list is a permutation of the input, non-decreasing in the
      key, and for every key its subjects keep their original order. */
  lemma {:induction false} SortByKeyCorrect(s: seq<Elems>)
    ensures multiset(SortByKey(s)) == multiset(s)
    ensures SortedByKey(SortByKey(s))
    ensures forall k :: WithKey(SortByKey(s), k) == WithKey(s, k)
    decreases |s|
  {
    if s != [] {
      SortByKeyCorrect(s[1..]);
      InsertPermutes(s[0], SortByKey(s[1..]));
      InsertSorted(s[0], SortByKey(s[1..]));
      assert s == [s[0]] + s[1..];
      forall k ensures WithKey(SortByKey(s), k) == WithKey(s, k) {
        InsertStable(s[0], SortByKey(s[1..]), k);
      }
    }
  }

  /** `sort_element_tree`: the root's children are replaced by their sorted
      list. */
  method SortElementTree(data: RawData)
    modifies data
    ensures data.subjects == SortByKey(old(data.subjects))
    ensures multiset(data.subjects) == multiset(old(data.subjects))
    ensures SortedByKey(data.subjects)
    ensures forall k :: WithKey(data.subjects, k) == WithKey(old(data.subjects), k)
  {
    SortByKeyCorrect(data.subjects);
    data.subjects := SortByKey(data.subjects);
  }
}
