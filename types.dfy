/** Record shapes and fixed configuration of the pairing ("parrainage") app:
    the two roles, the six classes, students, pairing rules, matches, the
    ordered rule table and the seed roster. */
module Types {

  datatype Option<+T> = None | Some(value: T)

  /** FILLEUL is a mentee, PARRAIN a mentor. */
  datatype GroupType = Filleul | Parrain

  datatype ClassName = Bts1 | Bts2 | Lp1Agitel | Lp2Agitel | Lp1Upaf | Lp2Upaf

  /** `groupType` is the source's `type` field (a keyword here). `photoUrl`
      is an opaque locator (a URL or a data URL). */
  datatype Student = Student(
    id: string,
    name: string,
    photoUrl: string,
    className: ClassName,
    groupType: GroupType,
    isMatched: bool)

  datatype PairingRule = PairingRule(source: ClassName, target: ClassName)

  /** A committed pairing; `filleul` and `parrain` are snapshots of the
      roster records taken at commit time. */
  datatype Match = Match(id: string, filleul: Student, parrain: Student, timestamp: int)

  /** The rule table, in priority order. */
  const PairingRules: seq<PairingRule> := [
    PairingRule(Bts1, Bts2),
    PairingRule(Lp1Agitel, Lp2Agitel),
    PairingRule(Lp1Upaf, Lp2Upaf)
  ]

  /** The seed roster, one block per class as in the source. */
  const SeedBts1: seq<Student> := [
    Student("f1", "Alice Dupont", "https://picsum.photos/200/300?random=1", Bts1, Filleul, false),
    Student("f2", "Jean Kofi", "https://picsum.photos/200/300?random=2", Bts1, Filleul, false),
    Student("f3", "Sarah Koné", "https://picsum.photos/200/300?random=3", Bts1, Filleul, false)
  ]
  const SeedBts2: seq<Student> := [
    Student("p1", "Marc Yao", "https://picsum.photos/200/300?random=4", Bts2, Parrain, false),
    Student("p2", "Julie Kouadio", "https://picsum.photos/200/300?random=5", Bts2, Parrain, false),
    Student("p3", "Paul Digbeu", "https://picsum.photos/200/300?random=6", Bts2, Parrain, false)
  ]
  const SeedLp1Agitel: seq<Student> := [
    Student("f4", "Awa Touré", "https://picsum.photos/200/300?random=7", Lp1Agitel, Filleul, false),
    Student("f5", "Moussa Diop", "https://picsum.photos/200/300?random=8", Lp1Agitel, Filleul, false)
  ]
  const SeedLp2Agitel: seq<Student> := [
    Student("p4", "Fatou Sylla", "https://picsum.photos/200/300?random=9", Lp2Agitel, Parrain, false),
    Student("p5", "Oumar Cissé", "https://picsum.photos/200/300?random=10", Lp2Agitel, Parrain, false)
  ]
  const SeedLp1Upaf: seq<Student> := [
    Student("f6", "Grace N’Guessan", "https://picsum.photos/200/300?random=11", Lp1Upaf, Filleul, false)
  ]
  const SeedLp2Upaf: seq<Student> := [
    Student("p6", "Hervé Banny", "https://picsum.photos/200/300?random=12", Lp2Upaf, Parrain, false)
  ]

  /** The seed roster used when nothing was saved and after a full reset. */
  const InitialStudents: seq<Student> :=
    SeedBts1 + SeedBts2 + SeedLp1Agitel + SeedLp2Agitel + SeedLp1Upaf + SeedLp2Upaf

  predicate IsRuleSource(c: ClassName) {
    exists i | 0 <= i < |PairingRules| :: PairingRules[i].source == c
  }

  predicate IsRuleTarget(c: ClassName) {
    exists i | 0 <= i < |PairingRules| :: PairingRules[i].target == c
  }

  /** Ids are pairwise distinct. */
  predicate UniqueIds(students: seq<Student>) {
    forall i, j | 0 <= i < j < |students| :: students[i].id != students[j].id
  }

  /** The rule table holds exactly three rules, in this order. */
  lemma PairingRulesInOrder()
    ensures |PairingRules| == 3
    ensures PairingRules[0] == PairingRule(Bts1, Bts2)
    ensures PairingRules[1] == PairingRule(Lp1Agitel, Lp2Agitel)
    ensures PairingRules[2] == PairingRule(Lp1Upaf, Lp2Upaf)
  {
  }

  /** No rule pairs a class with itself, no class is the source of two rules,
      and no class is both a source and a target. */
  lemma PairingRulesWellFormed()
    ensures forall i | 0 <= i < |PairingRules| :: PairingRules[i].source != PairingRules[i].target
    ensures forall i, j | 0 <= i < j < |PairingRules| :: PairingRules[i].source != PairingRules[j].source
    ensures forall c :: !(IsRuleSource(c) && IsRuleTarget(c))
  {
  }

  /** Every class is the source or the target of some rule. */
  lemma EveryClassInARule(c: ClassName)
    ensures IsRuleSource(c) || IsRuleTarget(c)
  {
    match c
    case Bts1 => assert PairingRules[0].source == c;
    case Bts2 => assert PairingRules[0].target == c;
    case Lp1Agitel => assert PairingRules[1].source == c;
    case Lp2Agitel => assert PairingRules[1].target == c;
    case Lp1Upaf => assert PairingRules[2].source == c;
    case Lp2Upaf => assert PairingRules[2].target == c;
  }

  /** The seed roster has twelve students, none matched, with distinct ids. */
  lemma InitialStudentsUnmatchedAndUnique()
    ensures |InitialStudents| == 12
    ensures forall i | 0 <= i < |InitialStudents| :: !InitialStudents[i].isMatched
    ensures UniqueIds(InitialStudents)
  {
  }

  /** A seed student is a FILLEUL exactly when its class is a rule source and
      a PARRAIN exactly when its class is a rule target. */
  lemma InitialStudentsRolesFollowRules()
    ensures forall i | 0 <= i < |InitialStudents| ::
      (InitialStudents[i].groupType == Filleul <==> IsRuleSource(InitialStudents[i].className)) &&
      (InitialStudents[i].groupType == Parrain <==> IsRuleTarget(InitialStudents[i].className))
  {
    forall i | 0 <= i < |InitialStudents|
      ensures (InitialStudents[i].groupType == Filleul <==> IsRuleSource(InitialStudents[i].className))
      ensures (InitialStudents[i].groupType == Parrain <==> IsRuleTarget(InitialStudents[i].className))
    {
      PairingRulesWellFormed();
      EveryClassInARule(InitialStudents[i].className);
    }
  }
}
