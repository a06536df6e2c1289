/**
 * The coverage-loss analysis: which coverages a user is likely to lose when the job ends, judged
 * from the user's insurance snapshot. Private coverage is not affected; employer or unknown
 * coverage yields one loss per registered type, and uncertainty adds a reminder at the end.
 */
module CoverageLossAnalysis {
  import opened Wrappers
  import opened InsuranceSnapshots
  import opened CoverageGapAnalysis

  datatype Loss = Loss(area: string, description: string, severity: Severity)

  const NoData: Loss := Loss("Forsikringer ved jobbslutt",
    "Ingen data registrert. Legg inn hurtigregistrering for å se hva som kan falle bort.", MEDIUM)
  const PrivateCover: Loss := Loss("Private forsikringer",
    "Du har registrert at dekningene er private. De påvirkes normalt ikke av jobbslutt.", LOW)
  const NoTypes: Loss := Loss("Forsikringer ved jobbslutt",
    "Du er usikker på hvilke dekninger du har gjennom arbeidsgiver. Sjekk arbeidsavtale eller HR for detaljer.", MEDIUM)
  const Uncertainty: Loss := Loss("Usikkerhet",
    "Du markerte at du er usikker. Bekreft med arbeidsgiver hvilke forsikringer du har, og om de opphører.", MEDIUM)
  const NothingFound: Loss := Loss("Forsikringer ved jobbslutt",
    "Ingen tap identifisert basert på opplysningene.", LOW)

  /** lossMap: the loss for every insurance type. */
  const LossMap: map<InsuranceType, Loss> := map[
    TREATMENT := Loss("Behandlingsforsikring",
      "Behandlingsforsikring via arbeidsgiver opphører normalt når du slutter.", HIGH),
    INCOME := Loss("Inntektsforsikring",
      "Inntektsforsikring knyttet til arbeidsforholdet opphører når arbeidsforholdet avsluttes.", CRITICAL),
    DISABILITY := Loss("Uføreforsikring",
      "Gruppeliv/uføredekninger fra arbeidsgiver opphører vanligvis ved jobbslutt.", HIGH),
    LIFE := Loss("Livsforsikring",
      "Gruppelivsforsikring knyttet til ansettelse opphører når du slutter.", HIGH),
    PENSION := Loss("Tjenestepensjon",
      "Innskudd stopper ved jobbslutt; du beholder opptjent saldo, men må sikre videre sparing.", MEDIUM),
    InsuranceType.UNKNOWN := Loss("Ukjente dekninger",
      "Du er usikker på hvilke dekninger du har. Bekreft med arbeidsgiver eller forsikringsselskap.", MEDIUM)
  ]

  /** The severity each type is given. */
  function TypeSeverity(t: InsuranceType): Severity {
    match t
    case INCOME => CRITICAL
    case TREATMENT | DISABILITY | LIFE => HIGH
    case PENSION | UNKNOWN => MEDIUM
  }

  /** The type losses of a type sequence, skipping types the map does not know. */
  function TypeLosses(order: seq<InsuranceType>): seq<Loss> {
    if order == [] then []
    else (if order[0] in LossMap then [LossMap[order[0]]] else []) + TypeLosses(order[1..])
  }

  /**
   * The losses for a snapshot, with order the sequence in which the snapshot's type set is iterated.
   * This is what analyze computes.
   */
  function Losses(snapshot: Option<SnapshotRow>, order: seq<InsuranceType>): seq<Loss> {
    if snapshot.None? then [NoData]
    else
      var found :=
        if snapshot.value.source == PRIVATE then [PrivateCover]
        else (if order == [] then [NoTypes] else TypeLosses(order))
             + (if snapshot.value.uncertain then [Uncertainty] else []);
      if found == [] then [NothingFound] else found
  }

  /** No element occurs twice. */
  predicate Distinct<T(==)>(s: seq<T>) {
    forall i, j :: 0 <= i < j < |s| ==> s[i] != s[j]
  }

  /** order visits every type of the set exactly once: how a set's forEach proceeds. */
  predicate Enumerates(order: seq<InsuranceType>, types: set<InsuranceType>) {
    (forall t :: t in order <==> t in types) && Distinct(order)
  }

  /** An enumeration is empty iff its set is. */
  lemma EmptyEnumeration(order: seq<InsuranceType>, types: set<InsuranceType>)
    requires Enumerates(order, types)
    ensures order == [] <==> types == {}
  {
    if order != [] {
      assert order[0] in types;
    }
    if types != {} {
      var t :| t in types;
      assert t in order;
    }
  }

  /** lossMap has an entry for every type, with that type's severity. */
  lemma LossMapCovers(t: InsuranceType)
    ensures t in LossMap && LossMap[t].severity == TypeSeverity(t)
  {
    match t
    case TREATMENT =>
    case INCOME =>
    case DISABILITY =>
    case LIFE =>
    case PENSION =>
    case UNKNOWN =>
  }

  /** analyze, given the snapshot the snapshot service returns and the iteration order of its types. */
  method Analyze(snapshot: Option<SnapshotRow>, order: seq<InsuranceType>) returns (losses: seq<Loss>)
    requires snapshot.Some? ==> Enumerates(order, snapshot.value.types)
    ensures losses == Losses(snapshot, order)
  {
    if snapshot.None? {
      return [NoData];
    }
    var s := snapshot.value;
    losses := [];
    if s.source == PRIVATE {
      losses := losses + [PrivateCover];
    } else {
      EmptyEnumeration(order, s.types);
      if s.types == {} {
        losses := losses + [NoTypes];
      } else {
        var i := 0;
        while i < |order|
          invariant 0 <= i <= |order|
          invariant losses == TypeLosses(order[..i])
        {
          TypeLossesSnoc(order[..i], order[i]);
          assert order[..i + 1] == order[..i] + [order[i]];
          var loss := if order[i] in LossMap then [LossMap[order[i]]] else [];
          losses := losses + loss;
          i := i + 1;
        }
        assert order[..i] == order;
      }
      if s.uncertain {
        losses := losses + [Uncertainty];
      }
    }
    if losses == [] {
      losses := losses + [NothingFound];
    }
  }

  /** Adding one type at the end adds its loss at the end. */
  lemma {:induction false} TypeLossesSnoc(order: seq<InsuranceType>, t: InsuranceType)
    ensures TypeLosses(order + [t]) == TypeLosses(order) + (if t in LossMap then [LossMap[t]] else [])
  {
    if order != [] {
      assert (order + [t])[1..] == order[1..] + [t];
      TypeLossesSnoc(order[1..], t);
    }
  }

  /** lossMap covers every type, so each type yields exactly its map entry, with the type's severity. */
  lemma {:induction false} TypeLossesExact(order: seq<InsuranceType>)
    ensures |TypeLosses(order)| == |order|
    ensures forall i :: 0 <= i < |order| ==> order[i] in LossMap && TypeLosses(order)[i] == LossMap[order[i]]
    ensures forall i :: 0 <= i < |order| ==> TypeLosses(order)[i].severity == TypeSeverity(order[i])
  {
    if order != [] {
      TypeLossesExact(order[1..]);
      LossMapCovers(order[0]);
      forall i | 0 <= i < |order|
        ensures order[i] in LossMap && TypeLosses(order)[i] == LossMap[order[i]]
        ensures TypeLosses(order)[i].severity == TypeSeverity(order[i])
      {
        LossMapCovers(order[i]);
        if i > 0 { assert order[i] == order[1..][i - 1]; }
      }
    }
  }

  /** With no snapshot the result is the single MEDIUM "no data" loss. */
  lemma NoSnapshotOneMedium(order: seq<InsuranceType>)
    ensures Losses(None, order) == [NoData] && NoData.severity == MEDIUM
  {
  }

  /** Private coverage gives the single LOW loss, whatever the types and the uncertain flag. */
  lemma PrivateOneLow(snapshot: SnapshotRow, order: seq<InsuranceType>)
    requires snapshot.source == PRIVATE
    ensures Losses(Some(snapshot), order) == [PrivateCover] && PrivateCover.severity == LOW
  {
  }

  /**
   * For employer or unknown coverage: one loss per type (or the MEDIUM "no types" loss when there are
   * none), each with its type's severity, then the uncertainty loss last when the user is unsure.
   */
  lemma {:induction false} OtherSourceLosses(snapshot: SnapshotRow, order: seq<InsuranceType>)
    requires snapshot.source != PRIVATE && Enumerates(order, snapshot.types)
    ensures var r := Losses(Some(snapshot), order);
      var n := if |order| == 0 then 1 else |order|;
      && |r| == n + (if snapshot.uncertain then 1 else 0)
      && (order == [] ==> r[0] == NoTypes)
      && (forall i :: 0 <= i < |order| ==> order[i] in LossMap && r[i] == LossMap[order[i]] && r[i].severity == TypeSeverity(order[i]))
      && (snapshot.uncertain ==> r[|r| - 1] == Uncertainty)
  {
    TypeLossesExact(order);
  }

  /** With employer or unknown coverage the count is max(|types|, 1), plus one when the user is unsure. */
  lemma CountOfTypes(snapshot: SnapshotRow, order: seq<InsuranceType>)
    requires snapshot.source != PRIVATE && Enumerates(order, snapshot.types)
    ensures |Losses(Some(snapshot), order)|
            == (if |snapshot.types| == 0 then 1 else |snapshot.types|) + (if snapshot.uncertain then 1 else 0)
  {
    OtherSourceLosses(snapshot, order);
    EnumerationSize(order, snapshot.types);
  }

  /** A repetition-free enumeration of a set is as long as the set is large. */
  lemma {:induction false} EnumerationSize(order: seq<InsuranceType>, types: set<InsuranceType>)
    requires Enumerates(order, types)
    ensures |order| == |types|
  {
    EmptyEnumeration(order, types);
    if order != [] {
      DistinctTail(order);
      var rest := types - {order[0]};
      assert order == [order[0]] + order[1..];
      assert Enumerates(order[1..], rest);
      EnumerationSize(order[1..], rest);
      assert types == rest + {order[0]};
    }
  }

  /** The tail of a repetition-free sequence is repetition-free and lacks the head. */
  lemma DistinctTail<T>(s: seq<T>)
    requires Distinct(s) && s != []
    ensures Distinct(s[1..]) && s[0] !in s[1..]
  {
    forall i, j | 0 <= i < j < |s[1..]| ensures s[1..][i] != s[1..][j] {
      assert s[1..][i] == s[i + 1] && s[1..][j] == s[j + 1];
    }
    forall k | 0 <= k < |s[1..]| ensures s[1..][k] != s[0] {
      assert s[1..][k] == s[k + 1];
    }
  }

  /** The analysis never returns an empty list, and the LOW "nothing found" fallback never appears. */
  lemma NeverEmptyNoFallback(snapshot: Option<SnapshotRow>, order: seq<InsuranceType>)
    requires snapshot.Some? ==> Enumerates(order, snapshot.value.types)
    ensures |Losses(snapshot, order)| >= 1
    ensures NothingFound !in Losses(snapshot, order)
  {
    if snapshot.Some? && snapshot.value.source != PRIVATE {
      OtherSourceLosses(snapshot.value, order);
      var r := Losses(snapshot, order);
      forall x | x in r ensures x != NothingFound {
        var i :| 0 <= i < |r| && r[i] == x;
        if i < |order| {
          assert r[i] == LossMap[order[i]];
        } else {
          assert r[i] == NoTypes || r[i] == Uncertainty;
        }
      }
    }
  }

  /**
   * The losses do not depend on the order in which the type set is iterated, as a multiset: any two
   * enumerations of the same set give the same losses up to order.
   */
  lemma OrderIrrelevant(snapshot: SnapshotRow, order1: seq<InsuranceType>, order2: seq<InsuranceType>)
    requires Enumerates(order1, snapshot.types) && Enumerates(order2, snapshot.types)
    ensures multiset(Losses(Some(snapshot), order1)) == multiset(Losses(Some(snapshot), order2))
  {
    if snapshot.source != PRIVATE {
      EmptyEnumeration(order1, snapshot.types);
      EmptyEnumeration(order2, snapshot.types);
      if order1 != [] {
        SameTypeLosses(order1, order2, snapshot.types);
      }
    }
  }

  /** Two enumerations of one set have type losses with equal multisets. */
  lemma SameTypeLosses(order1: seq<InsuranceType>, order2: seq<InsuranceType>, types: set<InsuranceType>)
    requires Enumerates(order1, types) && Enumerates(order2, types)
    ensures multiset(TypeLosses(order1)) == multiset(TypeLosses(order2))
  {
    var l1, l2 := TypeLosses(order1), TypeLosses(order2);
    TypeLossesExact(order1);
    TypeLossesExact(order2);
    TypeLossesDistinct(order1);
    TypeLossesDistinct(order2);
    forall x | x in l1 ensures x in l2 {
      var i :| 0 <= i < |l1| && l1[i] == x;
      assert order1[i] in types;
      var j :| 0 <= j < |order2| && order2[j] == order1[i];
      assert l2[j] == x;
    }
    forall x | x in l2 ensures x in l1 {
      var j :| 0 <= j < |l2| && l2[j] == x;
      assert order2[j] in types;
      var i :| 0 <= i < |order1| && order1[i] == order2[j];
      assert l1[i] == x;
    }
    DistinctMultiset(l1, l2);
  }

  /** Distinct types have distinct losses, so a repetition-free type sequence has repetition-free losses. */
  lemma TypeLossesDistinct(order: seq<InsuranceType>)
    requires Distinct(order)
    ensures Distinct(TypeLosses(order))
  {
    TypeLossesExact(order);
    LossMapInjective();
  }

  /** Distinct types have distinct losses. */
  lemma LossMapInjective()
    ensures forall s, t :: s in LossMap && t in LossMap && s != t ==> LossMap[s] != LossMap[t]
  {
  }

  /** Two repetition-free sequences with the same elements have the same multiset. */
  lemma DistinctMultiset<T>(a: seq<T>, b: seq<T>)
    requires forall x :: x in a <==> x in b
    requires Distinct(a) && Distinct(b)
    ensures multiset(a) == multiset(b)
  {
    forall x ensures multiset(a)[x] == multiset(b)[x] {
      DistinctCount(a, x);
      DistinctCount(b, x);
    }
  }

  /** In a repetition-free sequence every element occurs once. */
  lemma {:induction false} DistinctCount<T>(a: seq<T>, x: T)
    requires Distinct(a)
    ensures multiset(a)[x] == if x in a then 1 else 0
  {
    if a != [] {
      DistinctTail(a);
      DistinctCount(a[1..], x);
      assert a == [a[0]] + a[1..];
      assert multiset(a) == multiset([a[0]]) + multiset(a[1..]);
    }
  }
}
