/**
 * The abstract class hierarchy that stands in for Java reflection.
 * Classes are numbered; every class lists its direct supertypes (superclass
 * and interfaces) and carries a rank, and each direct supertype has a
 * smaller rank, so the hierarchy is acyclic whatever the numbering.
 */
module Types {

  type TypeId = nat

  /** What reflection tells about one class: its direct supertypes and its depth rank. */
  datatype ClassNode = ClassNode(supers: set<TypeId>, rank: nat)

  /** A class with no supertype. */
  const Root := ClassNode({}, 0)

  /** The rank of class `t`; classes past the end of the table have rank 0. */
  function RankIn(nodes: seq<ClassNode>, t: TypeId): nat {
    if t < |nodes| then nodes[t].rank else 0
  }

  /**
   * `h[t]` describes class `t`; classes past the end have no supertypes.
   * Every direct supertype ranks below its subtype.
   */
  type Hierarchy = h: seq<ClassNode> | forall t, p | 0 <= t < |h| && p in h[t].supers :: RankIn(h, p) < h[t].rank
    witness []

  function Rank(h: Hierarchy, t: TypeId): nat {
    RankIn(h, t)
  }

  /** Well-known classes of the runtime and of the library. */
  const PostMsgClass: TypeId := 0
  const AkkaTerminatedClass: TypeId := 1
  const TerminatedClass: TypeId := 2
  const TimeoutMsgClass: TypeId := 3
  const ExceptionClass: TypeId := 4
  const ActorInitializationExceptionClass: TypeId := 5
  const ActorKilledExceptionClass: TypeId := 6
  const DeathPactExceptionClass: TypeId := 7

  /** Classes of a hierarchy with user classes above the library's: `Object`, `Throwable` and a reply class. */
  const ObjectClass: TypeId := 8
  const ThrowableClass: TypeId := 9
  const ReplyClass: TypeId := 10

  /**
   * Every message class of the library extends `Object`, `Exception`
   * extends `Throwable`, and the fatal exceptions extend `Exception`.
   */
  const ObjectHierarchy: Hierarchy := [
    ClassNode({ObjectClass}, 1), ClassNode({ObjectClass}, 1), ClassNode({ObjectClass}, 1), ClassNode({ObjectClass}, 1),
    ClassNode({ThrowableClass}, 2),
    ClassNode({ExceptionClass}, 3), ClassNode({ExceptionClass}, 3), ClassNode({ExceptionClass}, 3),
    Root, ClassNode({ObjectClass}, 1), ClassNode({ObjectClass}, 1)]

  /** `IsSubtype(h, a, b)` is Java's `b.isAssignableFrom(a)`. */
  predicate IsSubtype(h: Hierarchy, a: TypeId, b: TypeId)
    decreases Rank(h, a)
  {
    a == b || (a < |h| && exists p | p in h[a].supers :: IsSubtype(h, p, b))
  }

  predicate IsStrictSubtype(h: Hierarchy, a: TypeId, b: TypeId) {
    a != b && IsSubtype(h, a, b)
  }

  /** A strict supertype ranks below its subtype. */
  lemma {:induction false} SubtypeRankBelow(h: Hierarchy, a: TypeId, b: TypeId)
    requires IsSubtype(h, a, b)
    ensures Rank(h, b) <= Rank(h, a)
    ensures a != b ==> Rank(h, b) < Rank(h, a)
    decreases Rank(h, a)
  {
    if a != b {
      var p :| p in h[a].supers && IsSubtype(h, p, b);
      SubtypeRankBelow(h, p, b);
    }
  }

  lemma SubtypeAntisymmetric(h: Hierarchy, a: TypeId, b: TypeId)
    requires IsSubtype(h, a, b) && IsSubtype(h, b, a)
    ensures a == b
  {
    SubtypeRankBelow(h, a, b);
    SubtypeRankBelow(h, b, a);
  }

  lemma {:induction false} SubtypeTransitive(h: Hierarchy, a: TypeId, b: TypeId, c: TypeId)
    requires IsSubtype(h, a, b) && IsSubtype(h, b, c)
    ensures IsSubtype(h, a, c)
    decreases Rank(h, a)
  {
    if a != b {
      var p :| p in h[a].supers && IsSubtype(h, p, b);
      SubtypeTransitive(h, p, b, c);
    }
  }

  /** A strict subtype of a strict subtype is a strict subtype. */
  lemma StrictSubtypeTransitive(h: Hierarchy, a: TypeId, b: TypeId, c: TypeId)
    requires IsStrictSubtype(h, a, b) && IsSubtype(h, b, c)
    ensures IsStrictSubtype(h, a, c)
  {
    SubtypeTransitive(h, a, b, c);
    if a == c {
      SubtypeAntisymmetric(h, a, b);
    }
  }

  /** No class of the hierarchy names `f` as a direct supertype: `f` is final. */
  predicate IsFinal(h: Hierarchy, f: TypeId) {
    forall t | 0 <= t < |h| :: f !in h[t].supers
  }

  /** No other class is assignable to a final class. */
  lemma {:induction false} FinalHasNoSubtype(h: Hierarchy, a: TypeId, f: TypeId)
    requires IsFinal(h, f) && a != f
    ensures !IsSubtype(h, a, f)
    decreases Rank(h, a)
  {
    if a < |h| {
      forall p | p in h[a].supers
        ensures !IsSubtype(h, p, f)
      {
        FinalHasNoSubtype(h, p, f);
      }
    }
  }

  /** A class never has a supertype of higher rank. */
  lemma {:induction false} HigherRankNotAbove(h: Hierarchy, a: TypeId, b: TypeId)
    requires Rank(h, a) < Rank(h, b)
    ensures !IsSubtype(h, a, b)
    decreases Rank(h, a)
  {
    if a < |h| {
      forall p | p in h[a].supers
        ensures !IsSubtype(h, p, b)
      {
        HigherRankNotAbove(h, p, b);
      }
    }
  }
}
