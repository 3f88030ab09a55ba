/** Which conversions depend on which: the recursive query over a list of relations. */
module ConvertGraph {

  datatype Relation<T> = Relation(dependee: T, depender: T)

  // ----- reachability

  predicate Edge<T(==)>(rels: seq<Relation<T>>, a: T, b: T) {
    Relation(a, b) in rels
  }

  /** A walk along relations, with its first and last node. */
  predicate Walk<T(==)>(rels: seq<Relation<T>>, a: T, p: seq<T>, b: T) {
    && |p| > 0 && p[0] == a && p[|p| - 1] == b
    && forall i :: 0 <= i < |p| - 1 ==> Edge(rels, p[i], p[i + 1])
  }

  ghost predicate Reaches<T(!new)>(rels: seq<Relation<T>>, a: T, b: T) {
    exists p :: Walk(rels, a, p, b)
  }

  ghost predicate ReachesBySteps<T(!new)>(rels: seq<Relation<T>>, a: T, b: T) {
    exists p :: Walk(rels, a, p, b) && |p| > 1
  }

  ghost predicate Acyclic<T(!new)>(rels: seq<Relation<T>>) {
    forall a :: !ReachesBySteps(rels, a, a)
  }

  lemma Prepend<T>(rels: seq<Relation<T>>, a: T, b: T, p: seq<T>, c: T)
    requires Edge(rels, a, b) && Walk(rels, b, p, c)
    ensures Walk(rels, a, [a] + p, c) && |[a] + p| > 1
  {
    var q := [a] + p;
    forall i | 0 <= i < |q| - 1
      ensures Edge(rels, q[i], q[i + 1])
    {
      if i > 0 {
        assert q[i] == p[i - 1] && q[i + 1] == p[i - 1 + 1];
      }
    }
  }

  lemma Rest<T>(rels: seq<Relation<T>>, a: T, p: seq<T>, c: T)
    requires Walk(rels, a, p, c) && |p| > 1
    ensures Edge(rels, a, p[1]) && Walk(rels, p[1], p[1..], c)
  {
    assert Edge(rels, p[0], p[0 + 1]);
    forall i | 0 <= i < |p[1..]| - 1
      ensures Edge(rels, p[1..][i], p[1..][i + 1])
    {
      assert Edge(rels, p[i + 1], p[i + 1 + 1]);
    }
  }

  // ----- the rank on which the recursion terminates

  /** What depends on `a`, directly or through others. */
  ghost function Dependers<T(!new)>(rels: seq<Relation<T>>, a: T): set<T> {
    set r | r in rels && ReachesBySteps(rels, a, r.depender) :: r.depender
  }

  /** Along a relation the set of dependers gets strictly smaller if there is no cycle. */
  lemma DependersShrink<T(!new)>(rels: seq<Relation<T>>, a: T, b: T)
    requires Acyclic(rels) && Edge(rels, a, b)
    ensures Dependers(rels, b) < Dependers(rels, a)
  {
    forall x | x in Dependers(rels, b)
      ensures x in Dependers(rels, a)
    {
      var p :| Walk(rels, b, p, x) && |p| > 1;
      Prepend(rels, a, b, p, x);
    }
    assert Walk(rels, b, [b], b);
    Prepend(rels, a, b, [b], b);
    assert Relation(a, b) in rels && ReachesBySteps(rels, a, b);
    assert b in Dependers(rels, a);
    assert !ReachesBySteps(rels, b, b);
  }

  lemma RelationsShrink<T(!new)>(rels: seq<Relation<T>>, a: T)
    requires Acyclic(rels)
    ensures forall i :: 0 <= i < |rels| && rels[i].dependee == a ==>
              Dependers(rels, rels[i].depender) < Dependers(rels, a)
  {
    forall i | 0 <= i < |rels| && rels[i].dependee == a
      ensures Dependers(rels, rels[i].depender) < Dependers(rels, a)
    {
      assert rels[i] == Relation(a, rels[i].depender);
      DependersShrink(rels, a, rels[i].depender);
    }
  }

  // ----- the query

  /** `convert_option_has_dependency`: looks at every relation that starts at `dependee`. */
  predicate HasDependency<T(==,!new)>(rels: seq<Relation<T>>, dependee: T, depender: T)
    requires Acyclic(rels)
    decreases Dependers(rels, dependee)
  {
    RelationsShrink(rels, dependee);
    || dependee == depender
    || exists i :: 0 <= i < |rels| && rels[i].dependee == dependee
                   && (rels[i].depender == depender || HasDependency(rels, rels[i].depender, depender))
  }

  /** The query is the reflexive and transitive closure of the relations. */
  lemma HasDependencyIsReachability<T(!new)>(rels: seq<Relation<T>>, a: T, b: T)
    requires Acyclic(rels)
    ensures HasDependency(rels, a, b) <==> Reaches(rels, a, b)
  {
    if HasDependency(rels, a, b) {
      DependencyReaches(rels, a, b);
    }
    if p :| Walk(rels, a, p, b) {
      ReachesDependency(rels, a, p, b);
    }
  }

  lemma {:induction false} DependencyReaches<T(!new)>(rels: seq<Relation<T>>, a: T, b: T)
    requires Acyclic(rels) && HasDependency(rels, a, b)
    ensures Reaches(rels, a, b)
    decreases Dependers(rels, a)
  {
    RelationsShrink(rels, a);
    if a == b {
      assert Walk(rels, a, [a], b);
    } else {
      var i :| 0 <= i < |rels| && rels[i].dependee == a
               && (rels[i].depender == b || HasDependency(rels, rels[i].depender, b));
      var next := rels[i].depender;
      assert Edge(rels, a, next) by {
        assert rels[i] == Relation(a, next);
      }
      DependencyReaches(rels, next, b);
      var p :| Walk(rels, next, p, b);
      Prepend(rels, a, next, p, b);
    }
  }

  lemma {:induction false} ReachesDependency<T(!new)>(rels: seq<Relation<T>>, a: T, p: seq<T>, b: T)
    requires Acyclic(rels) && Walk(rels, a, p, b)
    ensures HasDependency(rels, a, b)
    decreases |p|
  {
    if |p| <= 1 {
    } else {
      Rest(rels, a, p, b);
      ReachesDependency(rels, p[1], p[1..], b);
      var i :| 0 <= i < |rels| && rels[i] == Relation(a, p[1]);
      assert rels[i].dependee == a && HasDependency(rels, rels[i].depender, b);
    }
  }

  lemma ReachesTransitive<T(!new)>(rels: seq<Relation<T>>, a: T, b: T, c: T)
    requires Edge(rels, a, b) && Reaches(rels, b, c)
    ensures Reaches(rels, a, c)
  {
    var p :| Walk(rels, b, p, c);
    Prepend(rels, a, b, p, c);
  }

  // ----- a rank is the same as having no cycle

  ghost predicate Ranked<T(!new)>(rels: seq<Relation<T>>, rank: T -> int) {
    forall a, b :: Edge(rels, a, b) ==> rank(a) > rank(b)
  }

  lemma {:induction false} RankFalls<T(!new)>(rels: seq<Relation<T>>, rank: T -> int, a: T, p: seq<T>, b: T)
    requires Ranked(rels, rank) && Walk(rels, a, p, b)
    ensures rank(a) >= rank(b) && (|p| > 1 ==> rank(a) > rank(b))
    decreases |p|
  {
    if |p| <= 1 {
    } else {
      Rest(rels, a, p, b);
      RankFalls(rels, rank, p[1], p[1..], b);
    }
  }

  /** A relation list has no cycle exactly when some rank falls along every relation. */
  lemma AcyclicIffRanked<T(!new)>(rels: seq<Relation<T>>)
    ensures Acyclic(rels) <==> exists rank: T -> int :: Ranked(rels, rank)
  {
    if Acyclic(rels) {
      var rank: T -> int := a => |Dependers(rels, a)|;
      forall a, b | Edge(rels, a, b)
        ensures rank(a) > rank(b)
      {
        DependersShrink(rels, a, b);
        ProperSubsetSize(Dependers(rels, b), Dependers(rels, a));
      }
      assert Ranked(rels, rank);
    }
    if rank: T -> int :| Ranked(rels, rank) {
      RankMeansAcyclic(rels, rank);
    }
  }

  lemma RankMeansAcyclic<T(!new)>(rels: seq<Relation<T>>, rank: T -> int)
    requires Ranked(rels, rank)
    ensures Acyclic(rels)
  {
    forall a
      ensures !ReachesBySteps(rels, a, a)
    {
      if p :| Walk(rels, a, p, a) && |p| > 1 {
        RankFalls(rels, rank, a, p, a);
      }
    }
  }

  lemma ProperSubsetSize<T>(a: set<T>, b: set<T>)
    requires a < b
    ensures |a| < |b|
  {
    assert b == a + (b - a);
    assert b - a != {};
  }

  // ----- the shipped relations

  datatype ConvertOption = NoConversion | Raw | RawFrame | Structure | StructureToProto | Proto | ProtoFrame

  const RELATIONS: seq<Relation<ConvertOption>> := [
    Relation(Raw, RawFrame),
    Relation(Raw, Structure),
    Relation(Structure, StructureToProto),
    Relation(Structure, StructureToProto),
    Relation(StructureToProto, Proto),
    Relation(StructureToProto, ProtoFrame)]

  function Rank(o: ConvertOption): int {
    match o
    case Raw => 3
    case Structure => 2
    case StructureToProto => 1
    case _ => 0
  }

  lemma ShippedAcyclic()
    ensures Acyclic(RELATIONS)
  {
    RankMeansAcyclic(RELATIONS, Rank);
  }

  predicate Depends(dependee: ConvertOption, depender: ConvertOption) {
    ShippedAcyclic();
    HasDependency(RELATIONS, dependee, depender)
  }

  /** The answers of the query on the shipped relations. */
  function Needs(depender: ConvertOption): set<ConvertOption> {
    match depender
    case NoConversion => {NoConversion}
    case Raw => {Raw}
    case RawFrame => {RawFrame, Raw}
    case Structure => {Structure, Raw}
    case StructureToProto => {StructureToProto, Structure, Raw}
    case Proto => {Proto, StructureToProto, Structure, Raw}
    case ProtoFrame => {ProtoFrame, StructureToProto, Structure, Raw}
  }

  lemma ShippedAnswers(dependee: ConvertOption, depender: ConvertOption)
    ensures Depends(dependee, depender) <==> dependee in Needs(depender)
  {
    ShippedAcyclic();
    HasDependencyIsReachability(RELATIONS, dependee, depender);
    if p :| Walk(RELATIONS, dependee, p, depender) {
      NeedsOfWalk(dependee, p, depender);
    }
    if dependee in Needs(depender) {
      WalkOfNeeds(dependee, depender);
    }
  }

  lemma {:induction false} NeedsOfWalk(a: ConvertOption, p: seq<ConvertOption>, b: ConvertOption)
    requires Walk(RELATIONS, a, p, b)
    ensures a in Needs(b)
    decreases |p|
  {
    if |p| <= 1 {
    } else {
      Rest(RELATIONS, a, p, b);
      NeedsOfWalk(p[1], p[1..], b);
    }
  }

  /** The only option that an option needs directly. */
  function Previous(o: ConvertOption): ConvertOption {
    match o
    case RawFrame => Raw
    case Structure => Raw
    case StructureToProto => Structure
    case Proto => StructureToProto
    case ProtoFrame => StructureToProto
    case _ => o
  }

  lemma {:induction false} WalkOfNeeds(a: ConvertOption, b: ConvertOption)
    requires a in Needs(b)
    ensures Reaches(RELATIONS, a, b)
    decreases Rank(a)
  {
    if a == b {
      assert Walk(RELATIONS, a, [a], b);
    } else {
      var next := if a == Raw then (if b == RawFrame then RawFrame else Structure)
                  else if a == Structure then StructureToProto else b;
      assert RELATIONS[if next == RawFrame then 0 else if a == Raw then 1 else if a == Structure then 2
                       else if next == Proto then 4 else 5] == Relation(a, next);
      WalkOfNeeds(next, b);
      ReachesTransitive(RELATIONS, a, next, b);
    }
  }

  /** The query in so many words: every conversion needs itself and the raw data, messages need the structs, and
      encoded messages need both. */
  lemma DependsExactly(a: ConvertOption, b: ConvertOption)
    ensures Depends(a, b)
       <==> || a == b
            || (a == Raw && b != NoConversion)
            || (a == Structure && (b == StructureToProto || b == Proto || b == ProtoFrame))
            || (a == StructureToProto && (b == Proto || b == ProtoFrame))
  {
    ShippedAnswers(a, b);
  }
}
