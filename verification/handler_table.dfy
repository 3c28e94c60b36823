/**
 * Handler tables: the (declared type, method) rows an actor class registers,
 * the first-match lookup every dispatch performs, and the specificity-ordered
 * construction of the `@Handle` table.
 */
module HandlerTable {
  import opened Base
  import opened Types
  import opened Messages

  /** A method carrying a handler annotation, with its parameter types in order. */
  datatype HandlerDecl = HandlerDecl(params: seq<TypeId>, handler: MethodId)

  /** One row of a handler table: the first parameter type and the method. */
  datatype Entry = Entry(key: TypeId, handler: MethodId)

  /** `entry.getKey().isAssignableFrom(cls)`. */
  predicate Matches(h: Hierarchy, e: Entry, cls: TypeId) {
    IsSubtype(h, cls, e.key)
  }

  /** Row `i` is the first row of `t` that accepts class `cls`. */
  predicate IsFirstMatch(h: Hierarchy, t: seq<Entry>, cls: TypeId, i: nat) {
    && i < |t|
    && Matches(h, t[i], cls)
    && forall j | 0 <= j < i :: !Matches(h, t[j], cls)
  }

  /** The linear scan over the table's rows, stopping at the first that accepts `cls`. */
  function Find(h: Hierarchy, t: seq<Entry>, cls: TypeId): (r: Option<nat>)
    ensures r.Some? ==> IsFirstMatch(h, t, cls, r.value)
    ensures r.None? <==> forall j | 0 <= j < |t| :: !Matches(h, t[j], cls)
    decreases |t|
  {
    if |t| == 0 then None
    else if Matches(h, t[0], cls) then Some(0)
    else match Find(h, t[1..], cls)
      case None => None
      case Some(i) =>
        assert t[1..][i] == t[i + 1];
        Some(i + 1)
  }

  /** The method a message of class `cls` is handed to, or `None` (Java `null`). */
  function Lookup(h: Hierarchy, t: seq<Entry>, cls: TypeId): (r: Option<MethodId>)
    ensures r.None? <==> forall j | 0 <= j < |t| :: !Matches(h, t[j], cls)
    ensures r.Some? ==> exists i: nat :: IsFirstMatch(h, t, cls, i) && t[i].handler == r.value
  {
    match Find(h, t, cls)
    case None => None
    case Some(i) => Some(t[i].handler)
  }

  /** No row is a strict subtype of a row that precedes it. */
  ghost predicate SpecificFirst(h: Hierarchy, t: seq<Entry>) {
    forall i, j | 0 <= i < j < |t| :: !IsStrictSubtype(h, t[j].key, t[i].key)
  }

  /**
   * In a specificity-ordered table the row a lookup picks is most specific:
   * no other row accepting the same class is a strict subtype of it.
   */
  lemma FindIsMostSpecific(h: Hierarchy, t: seq<Entry>, cls: TypeId, i: nat, k: nat)
    requires SpecificFirst(h, t)
    requires Find(h, t, cls) == Some(i)
    requires k < |t| && Matches(h, t[k], cls)
    ensures !IsStrictSubtype(h, t[k].key, t[i].key)
  {
  }

  /**
   * When T1 is a strict subtype of T2 and both have rows, a message of class T1
   * (or of any subtype of T1) is never handed to T2's row.
   */
  lemma SubtypeRowWins(h: Hierarchy, t: seq<Entry>, cls: TypeId, i1: nat, i2: nat)
    requires SpecificFirst(h, t)
    requires i1 < |t| && i2 < |t|
    requires IsSubtype(h, cls, t[i1].key)
    requires IsStrictSubtype(h, t[i1].key, t[i2].key)
    ensures Find(h, t, cls) != Some(i2)
  {
    if Find(h, t, cls) == Some(i2) {
      FindIsMostSpecific(h, t, cls, i2, i1);
    }
  }

  /**
   * When the accepting rows' types are pairwise comparable (single inheritance),
   * the row picked is a subtype of every accepting row: the most specific one.
   */
  lemma FindIsLeastInChain(h: Hierarchy, t: seq<Entry>, cls: TypeId, i: nat, k: nat)
    requires SpecificFirst(h, t)
    requires Find(h, t, cls) == Some(i)
    requires k < |t| && Matches(h, t[k], cls)
    requires IsSubtype(h, t[i].key, t[k].key) || IsSubtype(h, t[k].key, t[i].key)
    ensures IsSubtype(h, t[i].key, t[k].key)
  {
    FindIsMostSpecific(h, t, cls, i, k);
  }

  /**
   * In a specificity-ordered table a class that has a row of its own is
   * handled by a row of exactly that class, so an exact-key lookup and the
   * scan agree.
   */
  lemma ExactRowFound(h: Hierarchy, t: seq<Entry>, cls: TypeId, k: nat)
    requires SpecificFirst(h, t) && k < |t| && t[k].key == cls
    ensures Find(h, t, cls).Some? && t[Find(h, t, cls).value].key == cls
  {
    assert Matches(h, t[k], cls);
    FindIsMostSpecific(h, t, cls, Find(h, t, cls).value, k);
  }

  /** The index of the first row whose type is a strict supertype of `k`, or `|t|`. */
  function FirstStrictSuper(h: Hierarchy, t: seq<Entry>, k: TypeId): (p: nat)
    ensures p <= |t|
    ensures forall i | 0 <= i < p :: !IsStrictSubtype(h, k, t[i].key)
    ensures p < |t| ==> IsStrictSubtype(h, k, t[p].key)
    decreases |t|
  {
    if |t| == 0 then 0
    else if IsStrictSubtype(h, k, t[0].key) then 0
    else
      var p := FirstStrictSuper(h, t[1..], k);
      assert forall i | 1 <= i < p + 1 :: t[1..][i - 1] == t[i];
      p + 1
  }

  /**
   * Position `p` is just before the first row that `e`'s type is strictly
   * more specific than, or the end of the table when there is none.
   */
  predicate InsertedAt(h: Hierarchy, t: seq<Entry>, e: Entry, p: nat) {
    && p <= |t|
    && (forall i | 0 <= i < p :: !IsStrictSubtype(h, e.key, t[i].key))
    && (p < |t| ==> IsStrictSubtype(h, e.key, t[p].key))
  }

  /**
   * Inserting `e` just before the first row it is strictly more specific than
   * keeps the table specificity-ordered.
   */
  function Insert(h: Hierarchy, t: seq<Entry>, e: Entry): (r: seq<Entry>)
    requires SpecificFirst(h, t)
    ensures SpecificFirst(h, r)
    ensures multiset(r) == multiset(t) + multiset{e}
    ensures exists p: nat :: InsertedAt(h, t, e, p) && r == t[..p] + [e] + t[p..]
  {
    var p := FirstStrictSuper(h, t, e.key);
    var r := t[..p] + [e] + t[p..];
    assert t == t[..p] + t[p..];
    InsertKeepsOrder(h, t, e, p, r);
    r
  }

  lemma InsertKeepsOrder(h: Hierarchy, t: seq<Entry>, e: Entry, p: nat, r: seq<Entry>)
    requires SpecificFirst(h, t)
    requires p <= |t|
    requires forall i | 0 <= i < p :: !IsStrictSubtype(h, e.key, t[i].key)
    requires p < |t| ==> IsStrictSubtype(h, e.key, t[p].key)
    requires r == t[..p] + [e] + t[p..]
    ensures SpecificFirst(h, r)
  {
    forall i, j | 0 <= i < j < |r|
      ensures !IsStrictSubtype(h, r[j].key, r[i].key)
    {
      if j == p {
        assert r[i] == t[i];
      } else if i == p {
        var q := j - 1;
        assert r[j] == t[q];
        if IsStrictSubtype(h, t[q].key, e.key) {
          StrictSubtypeTransitive(h, t[q].key, e.key, t[p].key);
          assert false;
        }
      } else {
        var i' := if i < p then i else i - 1;
        var j' := if j < p then j else j - 1;
        assert r[i] == t[i'] && r[j] == t[j'];
      }
    }
  }

  /** The row a declared method contributes. */
  function EntryOf(d: HandlerDecl): Entry
    requires |d.params| > 0
  {
    Entry(d.params[0], d.handler)
  }

  predicate AllHaveParams(ds: seq<HandlerDecl>) {
    forall i | 0 <= i < |ds| :: |ds[i].params| > 0
  }

  /** The rows of the declarations, in declaration order. */
  function Entries(ds: seq<HandlerDecl>): (r: seq<Entry>)
    requires AllHaveParams(ds)
    ensures |r| == |ds|
    ensures forall i | 0 <= i < |ds| :: r[i] == EntryOf(ds[i])
  {
    if |ds| == 0 then [] else Entries(ds[..|ds| - 1]) + [EntryOf(ds[|ds| - 1])]
  }

  /** One `Subscribe` per row of the table, in table order. */
  function Subscriptions(self: ActorId, t: seq<Entry>): (r: seq<Effect>)
    ensures |r| == |t|
    ensures forall i | 0 <= i < |t| :: r[i] == Subscribe(self, t[i].key)
  {
    if |t| == 0 then [] else [Subscribe(self, t[0].key)] + Subscriptions(self, t[1..])
  }

  /** Declaration `i` is the first one that has no parameter. */
  predicate IsFirstWithoutParams(ds: seq<HandlerDecl>, i: nat) {
    && i < |ds|
    && |ds[i].params| == 0
    && forall j | 0 <= j < i :: |ds[j].params| > 0
  }

  /**
   * The `@Handle` table of an actor class, built by inserting the declared
   * methods one by one in declaration order. A method without a parameter
   * stops the build with an error naming the first such method.
   */
  function BuildTable(h: Hierarchy, ds: seq<HandlerDecl>): (r: Result<seq<Entry>>)
    ensures r.Err? <==> !AllHaveParams(ds)
    ensures r.Err? ==> exists i: nat :: IsFirstWithoutParams(ds, i) && r.error == NoParameter(ds[i].handler)
    ensures r.Ok? ==> SpecificFirst(h, r.value) && multiset(r.value) == multiset(Entries(ds))
    decreases |ds|
  {
    if |ds| == 0 then Ok([])
    else
      var init := ds[..|ds| - 1];
      var d := ds[|ds| - 1];
      PrefixFacts(ds);
      match BuildTable(h, init)
      case Err(e) => Err(e)
      case Ok(t) =>
        if |d.params| == 0 then
          Err(NoParameter(d.handler))
        else
          Ok(Insert(h, t, EntryOf(d)))
  }

  /** How the declarations relate to all but their last one. */
  lemma PrefixFacts(ds: seq<HandlerDecl>)
    requires |ds| > 0
    ensures var init := ds[..|ds| - 1];
      && (AllHaveParams(ds) <==> AllHaveParams(init) && |ds[|ds| - 1].params| > 0)
      && (forall i: nat | IsFirstWithoutParams(init, i) :: IsFirstWithoutParams(ds, i))
      && (AllHaveParams(init) && |ds[|ds| - 1].params| == 0 ==> IsFirstWithoutParams(ds, |ds| - 1))
      && (AllHaveParams(ds) ==> Entries(ds) == Entries(init) + [EntryOf(ds[|ds| - 1])])
  {
    var init := ds[..|ds| - 1];
    assert forall j | 0 <= j < |init| :: init[j] == ds[j];
  }

  /** The first declaration without a parameter. */
  function FirstWithoutParams(ds: seq<HandlerDecl>): (i: nat)
    requires !AllHaveParams(ds)
    ensures IsFirstWithoutParams(ds, i)
  {
    if |ds[0].params| == 0 then 0
    else
      var i := FirstWithoutParams(ds[1..]);
      assert forall j | 1 <= j <= i :: ds[1..][j - 1] == ds[j];
      i + 1
  }

  predicate DistinctKeys(t: seq<Entry>) {
    forall i, j | 0 <= i < j < |t| :: t[i].key != t[j].key
  }

  /**
   * A key that two rows share, if there is one: the first row's key that
   * recurs later. Guava's message may name another repeated key (the first
   * later row that collides); only the payload of the error can differ.
   */
  function RepeatedKey(t: seq<Entry>): (r: Option<TypeId>)
    ensures r.None? <==> DistinctKeys(t)
    ensures r.Some? ==> exists i, j :: 0 <= i < j < |t| && t[i].key == r.value && t[j].key == r.value
    decreases |t|
  {
    if |t| == 0 then None
    else if exists j | 1 <= j < |t| :: t[j].key == t[0].key then Some(t[0].key)
    else
      var r := RepeatedKey(t[1..]);
      assert forall j | 1 <= j < |t| :: t[1..][j - 1] == t[j];
      if r.Some? then
        var i, j :| 0 <= i < j < |t[1..]| && t[1..][i].key == r.value && t[1..][j].key == r.value;
        assert t[i + 1].key == r.value && t[j + 1].key == r.value;
        r
      else
        r
  }

  /**
   * A Guava `ImmutableMap` filled from the declarations in declaration order
   * (the `@OnException` table and the older base class's table): a method
   * without a parameter fails while filling, a repeated key fails at `build()`,
   * and otherwise the rows keep declaration order.
   */
  function DeclaredTable(ds: seq<HandlerDecl>): (r: Result<seq<Entry>>)
    ensures !AllHaveParams(ds) ==>
      exists i: nat :: IsFirstWithoutParams(ds, i) && r == Err(NoParameter(ds[i].handler))
    ensures AllHaveParams(ds) ==> (r.Ok? <==> DistinctKeys(Entries(ds)))
    ensures AllHaveParams(ds) && r.Err? ==>
      r.error.DuplicateKey? &&
      exists i, j :: 0 <= i < j < |ds| && ds[i].params[0] == r.error.key && ds[j].params[0] == r.error.key
    ensures r.Ok? ==> AllHaveParams(ds) && r.value == Entries(ds)
  {
    if !AllHaveParams(ds) then Err(NoParameter(ds[FirstWithoutParams(ds)].handler))
    else match RepeatedKey(Entries(ds))
      case Some(k) => Err(DuplicateKey(k))
      case None => Ok(Entries(ds))
  }

  /** Building from one more declaration inserts its row into the table built so far. */
  lemma BuildTableSnoc(h: Hierarchy, ds: seq<HandlerDecl>, d: HandlerDecl)
    requires BuildTable(h, ds).Ok? && |d.params| > 0
    ensures BuildTable(h, ds + [d]) == Ok(Insert(h, BuildTable(h, ds).value, EntryOf(d)))
  {
    assert (ds + [d])[..|ds|] == ds;
  }

  /**
   * Building from one more declaration keeps the table built so far in order
   * and puts the new row just before the first row of a strict supertype of
   * its class, or at the end when there is none.
   */
  lemma BuildTableAddsRowBeforeSuper(h: Hierarchy, ds: seq<HandlerDecl>, d: HandlerDecl)
    requires BuildTable(h, ds).Ok? && |d.params| > 0
    ensures var t := BuildTable(h, ds).value;
      exists p: nat :: InsertedAt(h, t, EntryOf(d), p) && BuildTable(h, ds + [d]) == Ok(t[..p] + [EntryOf(d)] + t[p..])
  {
    BuildTableSnoc(h, ds, d);
  }

  /** A row with no strict supertype in the table goes to its end. */
  lemma InsertAppends(h: Hierarchy, t: seq<Entry>, e: Entry)
    requires SpecificFirst(h, t)
    requires forall i | 0 <= i < |t| :: !IsStrictSubtype(h, e.key, t[i].key)
    ensures Insert(h, t, e) == t + [e]
  {
    var p := FirstStrictSuper(h, t, e.key);
    assert p == |t|;
    assert t[..p] == t && t[p..] == [];
  }
}
