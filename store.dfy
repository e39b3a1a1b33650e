/** The roster and match-log store: three state cells (students, matches,
    settings), their mutators, and the pool and rule queries. The queries and
    the effect of each mutator are pure functions over `StoreState`; the class
    `Store` holds the cells and its methods are tied to those functions. */
module AppStore {
  import opened Types

  /** AppSettings: the optional logo override. */
  datatype Settings = Settings(logoUrl: Option<string>)

  /** Partial<AppSettings>: `None` means the key is absent from the patch. */
  datatype SettingsPatch = SettingsPatch(logoUrl: Option<Option<string>>)

  const DefaultSettings: Settings := Settings(None)

  datatype StoreState = StoreState(students: seq<Student>, matches: seq<Match>, settings: Settings)

  /** The answer of the rule scan (the source's record also carries a field
      `available` that is always true). */
  datatype Pairing = Pairing(ruleIndex: nat, source: ClassName, target: ClassName)

  // ---------------------------------------------------------------------------
  // Pools

  predicate Eligible(s: Student, c: ClassName, g: GroupType) {
    s.className == c && s.groupType == g && !s.isMatched
  }

  /** The records of class `c` and role `g` that are not matched, in roster order. */
  function Available(students: seq<Student>, c: ClassName, g: GroupType): (r: seq<Student>)
    ensures forall x :: x in r <==> x in students && Eligible(x, c, g)
    ensures |r| <= |students|
  {
    if students == [] then []
    else (if Eligible(students[0], c, g) then [students[0]] else []) + Available(students[1..], c, g)
  }

  function AvailableFilleuls(students: seq<Student>, c: ClassName): seq<Student> {
    Available(students, c, Filleul)
  }

  function AvailableParrains(students: seq<Student>, c: ClassName): seq<Student> {
    Available(students, c, Parrain)
  }

  /** Filtering distributes over concatenation: the pool keeps roster order. */
  lemma {:induction false} AvailableAppend(a: seq<Student>, b: seq<Student>, c: ClassName, g: GroupType)
    ensures Available(a + b, c, g) == Available(a, c, g) + Available(b, c, g)
  {
    if a == [] {
      assert a + b == b;
    } else {
      assert (a + b)[1..] == a[1..] + b;
      AvailableAppend(a[1..], b, c, g);
    }
  }

  /** A roster made only of eligible records is its own pool. */
  lemma {:induction false} AvailableAllEligible(students: seq<Student>, c: ClassName, g: GroupType)
    requires forall i | 0 <= i < |students| :: Eligible(students[i], c, g)
    ensures Available(students, c, g) == students
  {
    if students != [] {
      AvailableAllEligible(students[1..], c, g);
    }
  }

  /** Adding records (one or a batch) at the end of the roster adds their
      eligible ones at the end of every pool. */
  lemma AddedStudentsJoinPoolsAtEnd(students: seq<Student>, batch: seq<Student>, c: ClassName, g: GroupType)
    ensures Available(students + batch, c, g) == Available(students, c, g) + Available(batch, c, g)
  {
    AvailableAppend(students, batch, c, g);
  }

  /** A block of unmatched records sharing one class and one role is either
      entirely in a pool or entirely out of it. */
  lemma {:induction false} AvailableOfBlock(block: seq<Student>, k: ClassName, h: GroupType, c: ClassName, g: GroupType)
    requires forall i | 0 <= i < |block| :: block[i].className == k && block[i].groupType == h && !block[i].isMatched
    ensures Available(block, c, g) == if c == k && g == h then block else []
  {
    if block != [] {
      var rest := block[1..];
      assert forall i | 0 <= i < |rest| :: rest[i] == block[i + 1];
      AvailableOfBlock(rest, k, h, c, g);
      assert Available(block, c, g) == (if Eligible(block[0], c, g) then [block[0]] else []) + Available(rest, c, g);
      if c == k && g == h {
        assert Eligible(block[0], c, g);
        assert [block[0]] + rest == block;
      } else {
        assert !Eligible(block[0], c, g);
      }
    }
  }

  /** A pool of the seed roster is the concatenation of that pool in each
      class block. */
  lemma InitialPoolByBlock(c: ClassName, g: GroupType)
    ensures Available(InitialStudents, c, g) ==
      Available(SeedBts1, c, g) + Available(SeedBts2, c, g) + Available(SeedLp1Agitel, c, g) +
      Available(SeedLp2Agitel, c, g) + Available(SeedLp1Upaf, c, g) + Available(SeedLp2Upaf, c, g)
  {
    AvailableAppend(SeedBts1, SeedBts2, c, g);
    AvailableAppend(SeedBts1 + SeedBts2, SeedLp1Agitel, c, g);
    AvailableAppend(SeedBts1 + SeedBts2 + SeedLp1Agitel, SeedLp2Agitel, c, g);
    AvailableAppend(SeedBts1 + SeedBts2 + SeedLp1Agitel + SeedLp2Agitel, SeedLp1Upaf, c, g);
    AvailableAppend(SeedBts1 + SeedBts2 + SeedLp1Agitel + SeedLp2Agitel + SeedLp1Upaf, SeedLp2Upaf, c, g);
  }

  /** The size of a seed pool is the sum of its sizes in the class blocks. */
  lemma InitialPoolSizeByBlock(c: ClassName, g: GroupType)
    ensures |Available(InitialStudents, c, g)| ==
      |Available(SeedBts1, c, g)| + |Available(SeedBts2, c, g)| + |Available(SeedLp1Agitel, c, g)| +
      |Available(SeedLp2Agitel, c, g)| + |Available(SeedLp1Upaf, c, g)| + |Available(SeedLp2Upaf, c, g)|
  {
    InitialPoolByBlock(c, g);
  }

  /** Each seed block holds unmatched records of one class and one role, so
      it contributes to that pool only. */
  lemma SeedBts1Pool(c: ClassName, g: GroupType)
    ensures |Available(SeedBts1, c, g)| == (if c == Bts1 && g == Filleul then 3 else 0)
  {
    AvailableOfBlock(SeedBts1, Bts1, Filleul, c, g);
  }

  lemma SeedBts2Pool(c: ClassName, g: GroupType)
    ensures |Available(SeedBts2, c, g)| == (if c == Bts2 && g == Parrain then 3 else 0)
  {
    AvailableOfBlock(SeedBts2, Bts2, Parrain, c, g);
  }

  lemma SeedLp1AgitelPool(c: ClassName, g: GroupType)
    ensures |Available(SeedLp1Agitel, c, g)| == (if c == Lp1Agitel && g == Filleul then 2 else 0)
  {
    AvailableOfBlock(SeedLp1Agitel, Lp1Agitel, Filleul, c, g);
  }

  lemma SeedLp2AgitelPool(c: ClassName, g: GroupType)
    ensures |Available(SeedLp2Agitel, c, g)| == (if c == Lp2Agitel && g == Parrain then 2 else 0)
  {
    AvailableOfBlock(SeedLp2Agitel, Lp2Agitel, Parrain, c, g);
  }

  lemma SeedLp1UpafPool(c: ClassName, g: GroupType)
    ensures |Available(SeedLp1Upaf, c, g)| == (if c == Lp1Upaf && g == Filleul then 1 else 0)
  {
    AvailableOfBlock(SeedLp1Upaf, Lp1Upaf, Filleul, c, g);
  }

  lemma SeedLp2UpafPool(c: ClassName, g: GroupType)
    ensures |Available(SeedLp2Upaf, c, g)| == (if c == Lp2Upaf && g == Parrain then 1 else 0)
  {
    AvailableOfBlock(SeedLp2Upaf, Lp2Upaf, Parrain, c, g);
  }

  // One lemma per seed pool: each unfolds the filter over the literal roster.

  lemma InitialFilleulsBts1()
    ensures |AvailableFilleuls(InitialStudents, Bts1)| == 3
  {
    InitialPoolSizeByBlock(Bts1, Filleul);
    SeedBts1Pool(Bts1, Filleul);
    SeedBts2Pool(Bts1, Filleul);
    SeedLp1AgitelPool(Bts1, Filleul);
    SeedLp2AgitelPool(Bts1, Filleul);
    SeedLp1UpafPool(Bts1, Filleul);
    SeedLp2UpafPool(Bts1, Filleul);
  }

  lemma InitialParrainsBts2()
    ensures |AvailableParrains(InitialStudents, Bts2)| == 3
  {
    InitialPoolSizeByBlock(Bts2, Parrain);
    SeedBts1Pool(Bts2, Parrain);
    SeedBts2Pool(Bts2, Parrain);
    SeedLp1AgitelPool(Bts2, Parrain);
    SeedLp2AgitelPool(Bts2, Parrain);
    SeedLp1UpafPool(Bts2, Parrain);
    SeedLp2UpafPool(Bts2, Parrain);
  }

  lemma InitialFilleulsLp1Agitel()
    ensures |AvailableFilleuls(InitialStudents, Lp1Agitel)| == 2
  {
    InitialPoolSizeByBlock(Lp1Agitel, Filleul);
    SeedBts1Pool(Lp1Agitel, Filleul);
    SeedBts2Pool(Lp1Agitel, Filleul);
    SeedLp1AgitelPool(Lp1Agitel, Filleul);
    SeedLp2AgitelPool(Lp1Agitel, Filleul);
    SeedLp1UpafPool(Lp1Agitel, Filleul);
    SeedLp2UpafPool(Lp1Agitel, Filleul);
  }

  lemma InitialParrainsLp2Agitel()
    ensures |AvailableParrains(InitialStudents, Lp2Agitel)| == 2
  {
    InitialPoolSizeByBlock(Lp2Agitel, Parrain);
    SeedBts1Pool(Lp2Agitel, Parrain);
    SeedBts2Pool(Lp2Agitel, Parrain);
    SeedLp1AgitelPool(Lp2Agitel, Parrain);
    SeedLp2AgitelPool(Lp2Agitel, Parrain);
    SeedLp1UpafPool(Lp2Agitel, Parrain);
    SeedLp2UpafPool(Lp2Agitel, Parrain);
  }

  lemma InitialFilleulsLp1Upaf()
    ensures |AvailableFilleuls(InitialStudents, Lp1Upaf)| == 1
  {
    InitialPoolSizeByBlock(Lp1Upaf, Filleul);
    SeedBts1Pool(Lp1Upaf, Filleul);
    SeedBts2Pool(Lp1Upaf, Filleul);
    SeedLp1AgitelPool(Lp1Upaf, Filleul);
    SeedLp2AgitelPool(Lp1Upaf, Filleul);
    SeedLp1UpafPool(Lp1Upaf, Filleul);
    SeedLp2UpafPool(Lp1Upaf, Filleul);
  }

  lemma InitialParrainsLp2Upaf()
    ensures |AvailableParrains(InitialStudents, Lp2Upaf)| == 1
  {
    InitialPoolSizeByBlock(Lp2Upaf, Parrain);
    SeedBts1Pool(Lp2Upaf, Parrain);
    SeedBts2Pool(Lp2Upaf, Parrain);
    SeedLp1AgitelPool(Lp2Upaf, Parrain);
    SeedLp2AgitelPool(Lp2Upaf, Parrain);
    SeedLp1UpafPool(Lp2Upaf, Parrain);
    SeedLp2UpafPool(Lp2Upaf, Parrain);
  }

  /** Per rule, the seed roster has equal mentee and mentor counts: 3/3, 2/2 and 1/1. */
  lemma InitialPoolsBalanced()
    ensures |AvailableFilleuls(InitialStudents, PairingRules[0].source)| == 3
    ensures |AvailableParrains(InitialStudents, PairingRules[0].target)| == 3
    ensures |AvailableFilleuls(InitialStudents, PairingRules[1].source)| == 2
    ensures |AvailableParrains(InitialStudents, PairingRules[1].target)| == 2
    ensures |AvailableFilleuls(InitialStudents, PairingRules[2].source)| == 1
    ensures |AvailableParrains(InitialStudents, PairingRules[2].target)| == 1
  {
    InitialFilleulsBts1();
    InitialParrainsBts2();
    InitialFilleulsLp1Agitel();
    InitialParrainsLp2Agitel();
    InitialFilleulsLp1Upaf();
    InitialParrainsLp2Upaf();
  }

  // ---------------------------------------------------------------------------
  // removeStudent

  /** `students.filter(s => s.id !== id)`. */
  function RemoveById(students: seq<Student>, id: string): (r: seq<Student>)
    ensures forall x :: x in r <==> x in students && x.id != id
    ensures |r| <= |students|
  {
    if students == [] then []
    else (if students[0].id != id then [students[0]] else []) + RemoveById(students[1..], id)
  }

  /** Removal keeps the surviving records in order. */
  lemma {:induction false} RemoveByIdAppend(a: seq<Student>, b: seq<Student>, id: string)
    ensures RemoveById(a + b, id) == RemoveById(a, id) + RemoveById(b, id)
  {
    if a == [] {
      assert a + b == b;
    } else {
      assert (a + b)[1..] == a[1..] + b;
      RemoveByIdAppend(a[1..], b, id);
    }
  }

  /** Removing an id that no record carries changes nothing. */
  lemma {:induction false} RemoveAbsentIsNoOp(students: seq<Student>, id: string)
    requires forall i | 0 <= i < |students| :: students[i].id != id
    ensures RemoveById(students, id) == students
  {
    if students != [] {
      RemoveAbsentIsNoOp(students[1..], id);
    }
  }

  // ---------------------------------------------------------------------------
  // createMatch

  /** `students.findIndex(s => s.id === id)`: -1 when absent. */
  function FindIndex(students: seq<Student>, id: string): (r: int)
    ensures -1 <= r < |students|
    ensures r == -1 <==> forall j | 0 <= j < |students| :: students[j].id != id
    ensures r >= 0 ==> students[r].id == id && forall j | 0 <= j < r :: students[j].id != id
  {
    if students == [] then -1
    else if students[0].id == id then 0
    else
      var k := FindIndex(students[1..], id);
      if k == -1 then -1 else k + 1
  }

  /** `students.find(s => s.id === id)`: the first record with that id. */
  function FindById(students: seq<Student>, id: string): (r: Option<Student>)
    ensures r.Some? <==> exists i | 0 <= i < |students| :: students[i].id == id
    ensures r.Some? ==> r.value in students && r.value.id == id
  {
    var k := FindIndex(students, id);
    if k < 0 then None else Some(students[k])
  }

  function MarkAsMatched(s: Student, filleulId: string, parrainId: string): Student {
    if s.id == filleulId || s.id == parrainId then s.(isMatched := true) else s
  }

  /** The `prev.map(...)` of createMatch. */
  function MarkMatched(students: seq<Student>, filleulId: string, parrainId: string): (r: seq<Student>)
    ensures |r| == |students|
    ensures forall i | 0 <= i < |students| ::
      && r[i].id == students[i].id
      && r[i].isMatched == (students[i].isMatched || students[i].id == filleulId || students[i].id == parrainId)
      && r[i].(isMatched := students[i].isMatched) == students[i]
  {
    seq(|students|, i requires 0 <= i < |students| => MarkAsMatched(students[i], filleulId, parrainId))
  }

  /** createMatch: when both ids are found, append one match holding the found
      records and flag every record with either id as matched; otherwise do
      nothing. The match id and the timestamp are clock readings. */
  function CommitMatch(st: StoreState, filleulId: string, parrainId: string, matchId: string, now: int): (r: StoreState)
    ensures r.settings == st.settings && |r.students| == |st.students|
    ensures !BothFound(st.students, filleulId, parrainId) ==> r == st
    ensures BothFound(st.students, filleulId, parrainId) ==>
      |r.matches| == |st.matches| + 1 && r.matches[..|st.matches|] == st.matches
  {
    var filleul := FindById(st.students, filleulId);
    var parrain := FindById(st.students, parrainId);
    if filleul.Some? && parrain.Some? then
      StoreState(MarkMatched(st.students, filleulId, parrainId),
                 st.matches + [Match(matchId, filleul.value, parrain.value, now)],
                 st.settings)
    else st
  }

  predicate BothFound(students: seq<Student>, filleulId: string, parrainId: string) {
    (exists i | 0 <= i < |students| :: students[i].id == filleulId) &&
    (exists i | 0 <= i < |students| :: students[i].id == parrainId)
  }

  /** A commit with both ids present appends exactly one match, whose records
      are the first roster records with those ids, flags exactly the records
      carrying either id, and changes no other field, record or setting. */
  lemma CommitMatchFound(st: StoreState, filleulId: string, parrainId: string, matchId: string, now: int)
    requires BothFound(st.students, filleulId, parrainId)
    ensures var st' := CommitMatch(st, filleulId, parrainId, matchId, now);
      && |st'.matches| == |st.matches| + 1
      && st'.matches[..|st.matches|] == st.matches
      && st'.matches[|st.matches|].id == matchId
      && st'.matches[|st.matches|].timestamp == now
      && st'.matches[|st.matches|].filleul == st.students[FindIndex(st.students, filleulId)]
      && st'.matches[|st.matches|].parrain == st.students[FindIndex(st.students, parrainId)]
      && |st'.students| == |st.students|
      && (forall i | 0 <= i < |st.students| ::
            st'.students[i].isMatched == (st.students[i].isMatched || st.students[i].id == filleulId || st.students[i].id == parrainId))
      && (forall i | 0 <= i < |st.students| :: st'.students[i].(isMatched := st.students[i].isMatched) == st.students[i])
      && st'.settings == st.settings
  {
  }

  /** A commit with either id absent changes nothing. */
  lemma CommitMatchMissing(st: StoreState, filleulId: string, parrainId: string, matchId: string, now: int)
    requires !BothFound(st.students, filleulId, parrainId)
    ensures CommitMatch(st, filleulId, parrainId, matchId, now) == st
  {
  }

  /** After a commit, no record carrying either committed id is in any pool. */
  lemma CommittedLeavePools(st: StoreState, filleulId: string, parrainId: string, matchId: string, now: int, c: ClassName, g: GroupType)
    requires BothFound(st.students, filleulId, parrainId)
    ensures forall x | x in Available(CommitMatch(st, filleulId, parrainId, matchId, now).students, c, g) ::
      x.id != filleulId && x.id != parrainId
  {
    var after := CommitMatch(st, filleulId, parrainId, matchId, now).students;
    forall x | x in Available(after, c, g) ensures x.id != filleulId && x.id != parrainId {
      var i :| 0 <= i < |after| && after[i] == x;
      assert after[i] == MarkAsMatched(st.students[i], filleulId, parrainId);
    }
  }

  lemma MarkMatchedTail(students: seq<Student>, filleulId: string, parrainId: string)
    requires students != []
    ensures MarkMatched(students, filleulId, parrainId)[1..] == MarkMatched(students[1..], filleulId, parrainId)
  {
  }

  /** Flagging records never grows a pool, and it shrinks every pool that held
      a record carrying one of the committed ids. */
  lemma {:induction false} MarkMatchedShrinksPools(students: seq<Student>, filleulId: string, parrainId: string, c: ClassName, g: GroupType)
    ensures |Available(MarkMatched(students, filleulId, parrainId), c, g)| <= |Available(students, c, g)|
    ensures (exists x | x in Available(students, c, g) :: x.id == filleulId || x.id == parrainId) ==>
      |Available(MarkMatched(students, filleulId, parrainId), c, g)| < |Available(students, c, g)|
  {
    if students != [] {
      var marked := MarkMatched(students, filleulId, parrainId);
      MarkMatchedTail(students, filleulId, parrainId);
      MarkMatchedShrinksPools(students[1..], filleulId, parrainId, c, g);
      assert marked[0] == MarkAsMatched(students[0], filleulId, parrainId);
      assert Available(marked, c, g) ==
        (if Eligible(marked[0], c, g) then [marked[0]] else []) + Available(marked[1..], c, g);
      if exists x | x in Available(students, c, g) :: x.id == filleulId || x.id == parrainId {
        var x :| x in Available(students, c, g) && (x.id == filleulId || x.id == parrainId);
        if x != students[0] || !Eligible(students[0], c, g) {
          assert x in Available(students[1..], c, g);
        }
      }
    }
  }

  /** A commit of two present records strictly shrinks the pool the mentee was
      drawn from: rounds of the ceremony cannot go on forever. */
  lemma CommitShrinksFilleulPool(st: StoreState, f: Student, parrainId: string, matchId: string, now: int)
    requires f in AvailableFilleuls(st.students, f.className)
    requires BothFound(st.students, f.id, parrainId)
    ensures |AvailableFilleuls(CommitMatch(st, f.id, parrainId, matchId, now).students, f.className)|
      < |AvailableFilleuls(st.students, f.className)|
  {
    MarkMatchedShrinksPools(st.students, f.id, parrainId, f.className, Filleul);
  }

  /** The match log agrees with the flags: a roster record is matched exactly
      when some match names its id. */
  predicate LogConsistent(st: StoreState) {
    forall i | 0 <= i < |st.students| ::
      st.students[i].isMatched <==>
      exists m | m in st.matches :: m.filleul.id == st.students[i].id || m.parrain.id == st.students[i].id
  }

  /** Committing keeps the log consistent with the flags. */
  lemma CommitKeepsLogConsistent(st: StoreState, filleulId: string, parrainId: string, matchId: string, now: int)
    requires LogConsistent(st)
    ensures LogConsistent(CommitMatch(st, filleulId, parrainId, matchId, now))
  {
    var st' := CommitMatch(st, filleulId, parrainId, matchId, now);
    if BothFound(st.students, filleulId, parrainId) {
      var f := FindById(st.students, filleulId).value;
      var p := FindById(st.students, parrainId).value;
      var m := Match(matchId, f, p, now);
      var marked := MarkMatched(st.students, filleulId, parrainId);
      assert st' == StoreState(marked, st.matches + [m], st.settings);
      forall i | 0 <= i < |marked|
        ensures marked[i].isMatched <==>
          exists m' | m' in st.matches + [m] :: m'.filleul.id == marked[i].id || m'.parrain.id == marked[i].id
      {
        MarkedRecordLogged(st.students[i], marked[i], st.matches, m);
      }
    }
  }

  /** One record across a commit: its flag was set by the commit exactly when
      the new match names it, so flag and log still agree. */
  lemma MarkedRecordLogged(s: Student, r: Student, matches: seq<Match>, m: Match)
    requires r.id == s.id
    requires r.isMatched == (s.isMatched || s.id == m.filleul.id || s.id == m.parrain.id)
    requires s.isMatched <==> exists m' | m' in matches :: m'.filleul.id == s.id || m'.parrain.id == s.id
    ensures r.isMatched <==> exists m' | m' in matches + [m] :: m'.filleul.id == r.id || m'.parrain.id == r.id
  {
    if s.id == m.filleul.id || s.id == m.parrain.id {
      assert m in matches + [m];
    } else {
      assert forall m' | m' in matches + [m] :: m' in matches || m' == m;
    }
  }

  /** Removing records keeps the log consistent with the flags. */
  lemma RemoveKeepsLogConsistent(st: StoreState, id: string)
    requires LogConsistent(st)
    ensures LogConsistent(st.(students := RemoveById(st.students, id)))
  {
    var after := RemoveById(st.students, id);
    forall i | 0 <= i < |after|
      ensures after[i].isMatched <==>
        exists m | m in st.matches :: m.filleul.id == after[i].id || m.parrain.id == after[i].id
    {
      assert after[i] in st.students;
    }
  }

  // ---------------------------------------------------------------------------
  // getPossiblePairing

  /** Rule `i` has an available mentee in its source class and an available
      mentor in its target class. */
  predicate RuleOpen(students: seq<Student>, i: nat)
    requires i < |PairingRules|
  {
    |AvailableFilleuls(students, PairingRules[i].source)| > 0 &&
    |AvailableParrains(students, PairingRules[i].target)| > 0
  }

  /** The first open rule at index `from` or later. */
  function FirstOpenRule(students: seq<Student>, from: nat): (r: Option<Pairing>)
    requires from <= |PairingRules|
    decreases |PairingRules| - from
    ensures r.Some? ==>
      && from <= r.value.ruleIndex < |PairingRules|
      && RuleOpen(students, r.value.ruleIndex)
      && r.value.source == PairingRules[r.value.ruleIndex].source
      && r.value.target == PairingRules[r.value.ruleIndex].target
      && forall j | from <= j < r.value.ruleIndex :: !RuleOpen(students, j)
    ensures r.None? <==> forall j | from <= j < |PairingRules| :: !RuleOpen(students, j)
  {
    if from == |PairingRules| then None
    else if RuleOpen(students, from) then Some(Pairing(from, PairingRules[from].source, PairingRules[from].target))
    else FirstOpenRule(students, from + 1)
  }

  /** The rule scan: the first rule, in table order, with both pools non-empty. */
  function PossiblePairing(students: seq<Student>): (r: Option<Pairing>)
    ensures r.None? <==> forall j | 0 <= j < |PairingRules| :: !RuleOpen(students, j)
    ensures r.Some? ==> r.value.ruleIndex < |PairingRules| && RuleOpen(students, r.value.ruleIndex)
  {
    FirstOpenRule(students, 0)
  }

  /** The scan's answer is the least open rule index, and there is none only
      when every rule has an empty side. */
  lemma PossiblePairingIsLeastOpenRule(students: seq<Student>, i: nat)
    requires i < |PairingRules|
    ensures PossiblePairing(students) == Some(Pairing(i, PairingRules[i].source, PairingRules[i].target))
      <==> RuleOpen(students, i) && forall j | 0 <= j < i :: !RuleOpen(students, j)
  {
    var r := PossiblePairing(students);
    if RuleOpen(students, i) && forall j | 0 <= j < i :: !RuleOpen(students, j) {
      assert r.Some?;
    }
  }

  /** The seed roster's first draw is for the first rule. */
  lemma InitialPairingIsFirstRule()
    ensures PossiblePairing(InitialStudents) == Some(Pairing(0, Bts1, Bts2))
  {
    InitialPoolsBalanced();
  }

  // ---------------------------------------------------------------------------
  // The store object

  class Store {
    var students: seq<Student>
    var matches: seq<Match>
    var settings: Settings

    function State(): StoreState
      reads this
    {
      StoreState(students, matches, settings)
    }

    /** The lazy initial values of the three cells: a saved snapshot when one
        was read from storage, otherwise the seed roster, an empty log and no
        logo. */
    constructor (savedStudents: Option<seq<Student>>, savedMatches: Option<seq<Match>>, savedSettings: Option<Settings>)
      ensures students == (if savedStudents.Some? then savedStudents.value else InitialStudents)
      ensures matches == (if savedMatches.Some? then savedMatches.value else [])
      ensures settings == (if savedSettings.Some? then savedSettings.value else DefaultSettings)
    {
      students := if savedStudents.Some? then savedStudents.value else InitialStudents;
      matches := if savedMatches.Some? then savedMatches.value else [];
      settings := if savedSettings.Some? then savedSettings.value else DefaultSettings;
    }

    /** Appends one record; ids are not checked for duplicates. */
    method AddStudent(student: Student)
      modifies this
      ensures students == old(students) + [student]
      ensures matches == old(matches) && settings == old(settings)
    {
      students := students + [student];
    }

    /** Appends a batch, in order, in one update. */
    method AddStudents(newStudents: seq<Student>)
      modifies this
      ensures students == old(students) + newStudents
      ensures matches == old(matches) && settings == old(settings)
    {
      students := students + newStudents;
    }

    method RemoveStudent(id: string)
      modifies this
      ensures students == RemoveById(old(students), id)
      ensures matches == old(matches) && settings == old(settings)
    {
      students := RemoveById(students, id);
    }

    /** Looks both ids up, and only when both are found appends the match and
        flags the records. Neither record's `isMatched` is checked. */
    method CreateMatch(filleulId: string, parrainId: string, matchId: string, now: int)
      modifies this
      ensures State() == CommitMatch(old(State()), filleulId, parrainId, matchId, now)
    {
      var filleul := FindById(students, filleulId);
      var parrain := FindById(students, parrainId);
      if filleul.Some? && parrain.Some? {
        var newMatch := Match(matchId, filleul.value, parrain.value, now);
        matches := matches + [newMatch];
        students := MarkMatched(students, filleulId, parrainId);
      }
    }

    /** Overwrites exactly the keys the patch supplies. */
    method UpdateSettings(patch: SettingsPatch)
      modifies this
      ensures patch.logoUrl.Some? ==> settings.logoUrl == patch.logoUrl.value
      ensures patch.logoUrl.None? ==> settings == old(settings)
      ensures students == old(students) && matches == old(matches)
    {
      if patch.logoUrl.Some? {
        settings := settings.(logoUrl := patch.logoUrl.value);
      }
    }

    /** The confirmed branch of resetAll. */
    method ResetAll()
      modifies this
      ensures students == InitialStudents && matches == [] && settings == DefaultSettings
    {
      students := InitialStudents;
      matches := [];
      settings := Settings(None);
    }

    /** The indexed scan with early return over the rule table. */
    method GetPossiblePairing() returns (r: Option<Pairing>)
      ensures r == PossiblePairing(students)
      ensures r.Some? ==> r.value.ruleIndex < |PairingRules| && RuleOpen(students, r.value.ruleIndex)
      ensures r.None? <==> forall j | 0 <= j < |PairingRules| :: !RuleOpen(students, j)
    {
      var i := 0;
      while i < |PairingRules|
        invariant 0 <= i <= |PairingRules|
        invariant forall j | 0 <= j < i :: !RuleOpen(students, j)
      {
        var rule := PairingRules[i];
        var filleuls := AvailableFilleuls(students, rule.source);
        var parrains := AvailableParrains(students, rule.target);
        if |filleuls| > 0 && |parrains| > 0 {
          PossiblePairingIsLeastOpenRule(students, i);
          return Some(Pairing(i, rule.source, rule.target));
        }
        i := i + 1;
      }
      return None;
    }
  }
}
