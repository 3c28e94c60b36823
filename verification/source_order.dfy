/**
 * The `@Handle` table exactly as the actor class builds it: a sorted map
 * ordered by `MostToLeastSpecificComparator`, which the JDK sorts with the
 * small-array path of TimSort (find the leading run, reverse it if it is
 * descending, then binary-insert the rest). The comparator never answers 0
 * and answers -1 both ways for unrelated classes, so the sort can leave a
 * supertype ahead of its subtype.
 */
module SourceOrder {
  import opened Base
  import opened Types
  import opened Messages
  import opened HandlerTable

  /** `MostToLeastSpecificComparator.compare(o1, o2)`. */
  function Compare(h: Hierarchy, o1: TypeId, o2: TypeId): int {
    if IsSubtype(h, o2, o1) then 1 else -1
  }

  /** The comparator never reports two classes equal, so a key search in the map never hits. */
  lemma CompareNeverZero(h: Hierarchy, o1: TypeId, o2: TypeId)
    ensures Compare(h, o1, o2) != 0
    ensures Compare(h, o1, o1) == 1
  {
  }

  /** For unrelated classes both orders compare as "less", breaking the comparator contract. */
  lemma CompareUnrelatedBothLess(h: Hierarchy, a: TypeId, b: TypeId)
    requires !IsSubtype(h, a, b) && !IsSubtype(h, b, a)
    ensures Compare(h, a, b) == -1 && Compare(h, b, a) == -1
  {
  }

  /** Rows are compared by their keys. */
  function CompareRows(h: Hierarchy, e1: Entry, e2: Entry): int {
    Compare(h, e1.key, e2.key)
  }

  /** End of the leading run whose neighbours compare as "less", scanning from `i`. */
  function DescendingRunEnd(h: Hierarchy, a: seq<Entry>, i: nat): (k: nat)
    requires 1 <= i <= |a|
    ensures i <= k <= |a|
    decreases |a| - i
  {
    if i < |a| && CompareRows(h, a[i], a[i - 1]) < 0 then DescendingRunEnd(h, a, i + 1) else i
  }

  /** End of the leading run whose neighbours compare as "not less", scanning from `i`. */
  function AscendingRunEnd(h: Hierarchy, a: seq<Entry>, i: nat): (k: nat)
    requires 1 <= i <= |a|
    ensures i <= k <= |a|
    decreases |a| - i
  {
    if i < |a| && CompareRows(h, a[i], a[i - 1]) >= 0 then AscendingRunEnd(h, a, i + 1) else i
  }

  function Reverse<T>(s: seq<T>): (r: seq<T>)
    ensures |r| == |s|
    ensures multiset(r) == multiset(s)
  {
    if |s| == 0 then [] else
      assert s == [s[0]] + s[1..];
      Reverse(s[1..]) + [s[0]]
  }

  /** TimSort's `countRunAndMakeAscending` on a table of at least two rows. */
  function CountRunAndMakeAscending(h: Hierarchy, a: seq<Entry>): (r: (nat, seq<Entry>))
    requires |a| >= 2
    ensures 2 <= r.0 <= |a| && multiset(r.1) == multiset(a) && |r.1| == |a|
  {
    if CompareRows(h, a[1], a[0]) < 0 then
      var k := DescendingRunEnd(h, a, 2);
      assert a == a[..k] + a[k..];
      (k, Reverse(a[..k]) + a[k..])
    else
      (AscendingRunEnd(h, a, 2), a)
  }

  /** The insertion point binary search of TimSort's `binarySort`. */
  function BinaryPosition(h: Hierarchy, pivot: Entry, a: seq<Entry>, left: nat, right: nat): (p: nat)
    requires left <= right <= |a|
    ensures left <= p <= right
    decreases right - left
  {
    if left < right then
      var mid := (left + right) / 2;
      if CompareRows(h, pivot, a[mid]) < 0 then BinaryPosition(h, pivot, a, left, mid)
      else BinaryPosition(h, pivot, a, mid + 1, right)
    else left
  }

  /** TimSort's `binarySort`: rows before `start` form the sorted prefix. */
  function BinarySort(h: Hierarchy, a: seq<Entry>, start: nat): (r: seq<Entry>)
    requires start <= |a|
    ensures |r| == |a| && multiset(r) == multiset(a)
    decreases |a| - start
  {
    if start == |a| then a
    else
      var pivot := a[start];
      var pos := BinaryPosition(h, pivot, a, 0, start);
      var b := a[..pos] + [pivot] + a[pos..start] + a[start + 1..];
      assert a == a[..pos] + a[pos..start] + [pivot] + a[start + 1..];
      BinarySort(h, b, start + 1)
  }

  /** `Arrays.sort` on fewer than 32 rows with the comparator above. */
  function LibrarySort(h: Hierarchy, a: seq<Entry>): (r: seq<Entry>)
    ensures multiset(r) == multiset(a)
  {
    if |a| < 2 then a
    else
      var run := CountRunAndMakeAscending(h, a);
      BinarySort(h, run.1, run.0)
  }

  /** `getHandleMethodsByMsgClass` as written: collect the rows, then sort them. */
  function SourceTable(h: Hierarchy, ds: seq<HandlerDecl>): (r: Result<seq<Entry>>)
    ensures r.Err? <==> !AllHaveParams(ds)
    ensures r.Err? ==> exists i: nat :: IsFirstWithoutParams(ds, i) && r.error == NoParameter(ds[i].handler)
    ensures r.Ok? ==> multiset(r.value) == multiset(Entries(ds))
  {
    if !AllHaveParams(ds) then Err(NoParameter(ds[FirstWithoutParams(ds)].handler))
    else Ok(LibrarySort(h, Entries(ds)))
  }

  /** Classes of the counterexample: B extends A, C is unrelated to both. */
  const ClassA: TypeId := 0
  const ClassB: TypeId := 1
  const ClassC: TypeId := 2
  const ExampleHierarchy: Hierarchy := [Root, ClassNode({ClassA}, 1), Root]

  const RowA := Entry(ClassA, 3)
  const RowB := Entry(ClassB, 1)
  const RowC := Entry(ClassC, 2)

  /** Handlers for B, C and A, discovered in that order. */
  const ExampleDecls: seq<HandlerDecl> := [DeclB, DeclC, DeclA]

  /** How the three classes of the example relate. */
  lemma ExampleSubtypes()
    ensures IsStrictSubtype(ExampleHierarchy, ClassB, ClassA)
    ensures !IsSubtype(ExampleHierarchy, ClassA, ClassB) && !IsSubtype(ExampleHierarchy, ClassA, ClassC)
    ensures !IsSubtype(ExampleHierarchy, ClassB, ClassC) && !IsSubtype(ExampleHierarchy, ClassC, ClassB)
    ensures !IsSubtype(ExampleHierarchy, ClassC, ClassA)
  {
    var h := ExampleHierarchy;
    assert ClassA in h[ClassB].supers && IsSubtype(h, ClassA, ClassA);
  }

  lemma ExampleEntries()
    ensures Entries(ExampleDecls) == [RowB, RowC, RowA]
  {
    var es := Entries(ExampleDecls);
    assert |es| == 3 && es[0] == RowB && es[1] == RowC && es[2] == RowA;
  }

  lemma ExampleReverse()
    ensures Reverse([RowB, RowC, RowA]) == [RowA, RowC, RowB]
  {
    var es := [RowB, RowC, RowA];
    assert es[1..] == [RowC, RowA] && es[1..][1..] == [RowA];
    assert Reverse([RowA]) == [RowA];
  }

  lemma ExampleDescending()
    ensures CompareRows(ExampleHierarchy, RowC, RowB) < 0
    ensures DescendingRunEnd(ExampleHierarchy, [RowB, RowC, RowA], 2) == 3
  {
    var h := ExampleHierarchy;
    var es := [RowB, RowC, RowA];
    ExampleSubtypes();
    assert CompareRows(h, es[2], es[1]) < 0;
    assert DescendingRunEnd(h, es, 3) == 3;
  }

  lemma ExampleRun()
    ensures CountRunAndMakeAscending(ExampleHierarchy, [RowB, RowC, RowA]) == (3, [RowA, RowC, RowB])
  {
    var h := ExampleHierarchy;
    var es := [RowB, RowC, RowA];
    ExampleDescending();
    assert es[..3] == es && es[3..] == [];
    ExampleReverse();
    assert Reverse(es[..3]) + es[3..] == [RowA, RowC, RowB];
  }

  /**
   * As written, the three rows sort to A, C, B, and a message of class B is
   * handed to A's handler although B has its own.
   */
  lemma SourceTableMisorders()
    ensures SourceTable(ExampleHierarchy, ExampleDecls) == Ok([RowA, RowC, RowB])
    ensures Lookup(ExampleHierarchy, [RowA, RowC, RowB], ClassB) == Some(RowA.handler)
    ensures !SpecificFirst(ExampleHierarchy, [RowA, RowC, RowB])
  {
    ExampleSubtypes();
    ExampleEntries();
    ExampleRun();
    var sorted := [RowA, RowC, RowB];
    assert BinarySort(ExampleHierarchy, sorted, 3) == sorted;
    assert Find(ExampleHierarchy, sorted, ClassB) == Some(0);
  }

  const DeclB := HandlerDecl([ClassB], 1)
  const DeclC := HandlerDecl([ClassC], 2)
  const DeclA := HandlerDecl([ClassA], 3)

  lemma BuildFirst()
    ensures BuildTable(ExampleHierarchy, [DeclB]) == Ok([RowB])
  {
    var h := ExampleHierarchy;
    assert BuildTable(h, []) == Ok([]);
    BuildTableSnoc(h, [], DeclB);
    InsertAppends(h, [], RowB);
    assert [] + [DeclB] == [DeclB] && [] + [RowB] == [RowB] && EntryOf(DeclB) == RowB;
  }

  lemma BuildFirstTwo()
    ensures BuildTable(ExampleHierarchy, [DeclB, DeclC]) == Ok([RowB, RowC])
  {
    var h := ExampleHierarchy;
    ExampleSubtypes();
    BuildFirst();
    BuildTableSnoc(h, [DeclB], DeclC);
    InsertAppends(h, [RowB], RowC);
    assert [DeclB] + [DeclC] == [DeclB, DeclC] && [RowB] + [RowC] == [RowB, RowC] && EntryOf(DeclC) == RowC;
  }

  lemma BuildAllThree()
    ensures BuildTable(ExampleHierarchy, ExampleDecls) == Ok([RowB, RowC, RowA])
  {
    assert ExampleDecls == [DeclB, DeclC] + [DeclA];
    BuildFirstTwo();
    BuildTableSnoc(ExampleHierarchy, [DeclB, DeclC], DeclA);
    InsertThird();
  }

  lemma InsertThird()
    ensures Insert(ExampleHierarchy, [RowB, RowC], RowA) == [RowB, RowC, RowA]
  {
    ExampleSubtypes();
    InsertAppends(ExampleHierarchy, [RowB, RowC], RowA);
  }

  /** The specificity-ordered build hands the same B message to B's own handler. */
  lemma BuildTableRoutesToSubtype()
    ensures BuildTable(ExampleHierarchy, ExampleDecls) == Ok([RowB, RowC, RowA])
    ensures Lookup(ExampleHierarchy, [RowB, RowC, RowA], ClassB) == Some(RowB.handler)
  {
    BuildAllThree();
    assert Find(ExampleHierarchy, [RowB, RowC, RowA], ClassB) == Some(0);
  }
}
