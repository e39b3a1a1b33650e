/** Runs of the draw ceremony: the events the component reacts to, the
    invariant every reachable stage keeps, and what a round does from the
    start button to the committed match. */
module CeremonyRuns {
  import opened Types
  import opened AppStore
  import opened Ceremony

  /** What can happen to the component: a button press (with the random
      indices `startCeremony` draws) or the firing of the next timer (with
      the random indices one shuffle tick draws, and the clock readings a
      commit would use). */
  datatype Event =
    | StartPressed(rf: nat, rp: nat)
    | NextPressed(rf: nat, rp: nat)
    | ResetPressed
    | TimerFired(draws: seq<nat>, matchId: string, now: int)

  /** The start button is rendered only when idle; the next-draw and the
      back-to-home (reset) buttons only in the finished modal. */
  predicate Allowed(st: Stage, e: Event) {
    match e
    case StartPressed(rf, rp) => st.session.state == Idle && StartFits(st.store.students, rf, rp)
    case NextPressed(rf, rp) => st.session.state == Finished && StartFits(st.store.students, rf, rp)
    case ResetPressed => st.session.state == Finished
    case TimerFired(draws, _, _) => TickFits(st, draws)
  }

  /** One event. Only a timer leaving the handshake can touch the store, and
      a reset always lands idle. */
  function Step(st: Stage, e: Event): (r: Stage)
    requires Allowed(st, e)
    ensures r.store == st.store ||
      (e.TimerFired? && st.session.state == Handshake && r.session.state == Finished)
    ensures e.ResetPressed? ==> r.session.state == Idle
  {
    match e
    case StartPressed(rf, rp) => Start(st, rf, rp)
    case NextPressed(rf, rp) => NextDraw(st, rf, rp)
    case ResetPressed => Reset(st)
    case TimerFired(draws, matchId, now) => Tick(st, draws, matchId, now)
  }

  predicate RunAllowed(st: Stage, events: seq<Event>)
    decreases |events|
  {
    events == [] || (Allowed(st, events[0]) && RunAllowed(Step(st, events[0]), events[1..]))
  }

  function Run(st: Stage, events: seq<Event>): Stage
    requires RunAllowed(st, events)
    decreases |events|
  {
    if events == [] then st else Run(Step(st, events[0]), events[1..])
  }

  predicate AllTimers(events: seq<Event>) {
    forall k | 0 <= k < |events| :: events[k].TimerFired?
  }

  /** No start or next-draw press: the events of one round. */
  predicate NoPresses(events: seq<Event>) {
    forall k | 0 <= k < |events| :: !events[k].StartPressed? && !events[k].NextPressed?
  }

  /** The states between the start of a round and its commit. */
  predicate Active(state: CeremonyState) {
    state != Idle && state != Finished
  }

  /** A pause is pending only right after a card was locked on its winner. */
  predicate HoldPending(s: Session) {
    || (s.state == SelectingFilleul && s.pendingHold == Some(TransitionToParrain) && s.displayedFilleul == s.selectedFilleul)
    || (s.state == SelectingParrain && s.pendingHold == Some(Reveal) && s.displayedParrain == s.selectedParrain)
  }

  /** What every reachable stage satisfies: a countdown in progress has
      seconds left, a started round has its pairing and both winners, a
      running shuffle has ticks left, and until the commit both winners are
      still available in the pools of the round's pairing. */
  predicate Inv(st: Stage) {
    var s := st.session;
    && (s.pendingHold.Some? ==> HoldPending(s))
    && (s.state == Countdown ==> s.countdown > 0)
    && (s.state != Idle ==> s.currentPairing.Some? && s.selectedFilleul.Some? && s.selectedParrain.Some?)
    && (ShuffleRunning(s) ==> s.shuffles < ShuffleLimit(SideOf(s.state)))
    && (Active(s.state) ==>
          && s.selectedFilleul.value in AvailableFilleuls(st.store.students, s.currentPairing.value.source)
          && s.selectedParrain.value in AvailableParrains(st.store.students, s.currentPairing.value.target))
  }

  /** The component's first render satisfies the invariant, whatever the store holds. */
  lemma InitialStageKeepsInv(store: StoreState)
    ensures Inv(Stage(InitialSession, store))
    ensures RunAllowed(Stage(InitialSession, store), [])
  {
  }

  // ---------------------------------------------------------------------------
  // The start of a round

  /** startCeremony with no open rule changes nothing; with one it records
      the pairing, pre-selects the winners at the drawn positions of the
      two pools (each an available student of the right class and role),
      and starts a five-second countdown without touching the store. */
  lemma StartOutcome(st: Stage, rf: nat, rp: nat)
    requires StartFits(st.store.students, rf, rp)
    ensures PossiblePairing(st.store.students).None? ==> Start(st, rf, rp) == st
    ensures PossiblePairing(st.store.students).Some? ==>
      var p := PossiblePairing(st.store.students).value;
      var filleuls := AvailableFilleuls(st.store.students, p.source);
      var parrains := AvailableParrains(st.store.students, p.target);
      var s := Start(st, rf, rp).session;
      && Start(st, rf, rp).store == st.store
      && s == st.session.(state := Countdown, countdown := CountdownStart,
                          currentPairing := Some(PairingRule(p.source, p.target)),
                          selectedFilleul := Some(filleuls[rf]), selectedParrain := Some(parrains[rp]))
      && filleuls[rf] in st.store.students && !filleuls[rf].isMatched
      && filleuls[rf].className == p.source && filleuls[rf].groupType == Filleul
      && parrains[rp] in st.store.students && !parrains[rp].isMatched
      && parrains[rp].className == p.target && parrains[rp].groupType == Parrain
  {
    if PossiblePairing(st.store.students).Some? {
      var p := PossiblePairing(st.store.students).value;
      var filleuls := AvailableFilleuls(st.store.students, p.source);
      var parrains := AvailableParrains(st.store.students, p.target);
      assert filleuls[rf] in filleuls;
      assert parrains[rp] in parrains;
    }
  }

  // ---------------------------------------------------------------------------
  // The invariant is kept by every event

  lemma StepKeepsInv(st: Stage, e: Event)
    requires Inv(st) && Allowed(st, e)
    ensures Inv(Step(st, e))
  {
    var students := st.store.students;
    match e
    case StartPressed(rf, rp) =>
      StartKeepsInv(st, rf, rp);
    case NextPressed(rf, rp) =>
      StartKeepsInv(st.(session := st.session.(displayedFilleul := None, displayedParrain := None)), rf, rp);
    case ResetPressed =>
    case TimerFired(draws, matchId, now) =>
      TickKeepsInv(st, draws, matchId, now);
  }

  lemma StartKeepsInv(st: Stage, rf: nat, rp: nat)
    requires Inv(st) && !Active(st.session.state) && StartFits(st.store.students, rf, rp)
    ensures Inv(Start(st, rf, rp))
  {
    StartOutcome(st, rf, rp);
    if PossiblePairing(st.store.students).Some? {
      var p := PossiblePairing(st.store.students).value;
      assert AvailableFilleuls(st.store.students, p.source)[rf] in AvailableFilleuls(st.store.students, p.source);
      assert AvailableParrains(st.store.students, p.target)[rp] in AvailableParrains(st.store.students, p.target);
    }
  }

  lemma TickKeepsInv(st: Stage, draws: seq<nat>, matchId: string, now: int)
    requires Inv(st) && TickFits(st, draws)
    ensures Inv(Tick(st, draws, matchId, now))
  {
    var s := st.session;
    if s.pendingHold.None? && s.state == Handshake {
      var f := s.selectedFilleul.value;
      var p := s.selectedParrain.value;
      assert f in st.store.students;
    }
  }

  // ---------------------------------------------------------------------------
  // Single timer firings

  /** Which state follows which in a round. */
  function NextPhase(state: CeremonyState): CeremonyState {
    match state
    case Idle => Idle
    case Countdown => SelectingFilleul
    case SelectingFilleul => TransitionToParrain
    case TransitionToParrain => SelectingParrain
    case SelectingParrain => Reveal
    case Reveal => Handshake
    case Handshake => Finished
    case Finished => Finished
  }

  /** A timer firing never skips a phase: the state stays or moves to the
      next one in the order countdown, mentee selection, transition, mentor
      selection, reveal, handshake, finished. */
  lemma TimerFollowsPhaseOrder(st: Stage, draws: seq<nat>, matchId: string, now: int)
    requires Inv(st) && TickFits(st, draws)
    ensures var q := Tick(st, draws, matchId, now).session.state;
      q == st.session.state || q == NextPhase(st.session.state)
  {
  }

  /** With nothing pending in the idle or finished state, a timer changes nothing. */
  lemma QuietTimerChangesNothing(st: Stage, draws: seq<nat>, matchId: string, now: int)
    requires st.session.state == Idle || st.session.state == Finished
    requires st.session.pendingHold.None?
    ensures Tick(st, draws, matchId, now) == st
  {
  }

  /** One countdown second: the counter drops by one; at zero the mentee
      selection begins with the current pool of the pairing's source class
      as candidates and its counter at zero. */
  lemma CountdownSecond(st: Stage, draws: seq<nat>, matchId: string, now: int)
    requires Inv(st) && st.session.state == Countdown
    ensures TickFits(st, draws)
    ensures var s := Tick(st, draws, matchId, now).session;
      && Tick(st, draws, matchId, now).store == st.store
      && s.countdown == st.session.countdown - 1
      && s.state == (if st.session.countdown > 1 then Countdown else SelectingFilleul)
      && (s.state == SelectingFilleul ==>
            s.candidates == AvailableFilleuls(st.store.students, s.currentPairing.value.source) && s.shuffles == 0)
      && s.selectedFilleul == st.session.selectedFilleul && s.selectedParrain == st.session.selectedParrain
  {
  }

  /** One firing of a running shuffle before its last: the card shown is the
      pick against the card shown until now, so it is a candidate and, with
      more than one candidate, a different card; the counter advances. */
  lemma ShuffleTickShowsNewCard(st: Stage, draws: seq<nat>, matchId: string, now: int)
    requires ShuffleRunning(st.session)
    requires st.session.shuffles + 1 < ShuffleLimit(SideOf(st.session.state))
    requires TickFits(st, draws)
    ensures var g := SideOf(st.session.state);
      var s := Tick(st, draws, matchId, now).session;
      && Tick(st, draws, matchId, now).store == st.store
      && s == WithDisplayed(st.session, g, DisplayedOf(s, g)).(shuffles := st.session.shuffles + 1)
      && DisplayedOf(s, g) == Pick(st.session.candidates, DisplayedOf(st.session, g), draws)
      && (st.session.candidates != [] ==> DisplayedOf(s, g).Some? && DisplayedOf(s, g).value in st.session.candidates)
      && (|st.session.candidates| > 1 ==> DisplayedOf(s, g) != DisplayedOf(st.session, g))
      && DisplayedOf(s, if g == Filleul then Parrain else Filleul) ==
         DisplayedOf(st.session, if g == Filleul then Parrain else Filleul)
      && ShuffleRunning(s)
  {
  }

  /** The last firing of a shuffle shows the winner and schedules the pause. */
  lemma ShuffleTickLocksWinner(st: Stage, draws: seq<nat>, matchId: string, now: int)
    requires ShuffleRunning(st.session)
    requires st.session.shuffles + 1 >= ShuffleLimit(SideOf(st.session.state))
    requires TickFits(st, draws)
    ensures var g := SideOf(st.session.state);
      var s := Tick(st, draws, matchId, now).session;
      && Tick(st, draws, matchId, now).store == st.store
      && s.state == st.session.state
      && DisplayedOf(s, g) == SelectedOf(st.session, g)
      && s.pendingHold == Some(AfterHold(g))
  {
  }

  // ---------------------------------------------------------------------------
  // Runs of timer firings

  /** Running a sequence split in two is running its halves in turn. */
  lemma {:induction false} RunAppend(st: Stage, a: seq<Event>, b: seq<Event>)
    requires RunAllowed(st, a + b)
    ensures RunAllowed(st, a) && RunAllowed(Run(st, a), b)
    ensures Run(st, a + b) == Run(Run(st, a), b)
    decreases |a|
  {
    if a != [] {
      assert (a + b)[0] == a[0];
      assert (a + b)[1..] == a[1..] + b;
      RunAppend(Step(st, a[0]), a[1..], b);
    } else {
      assert a + b == b;
    }
  }

  lemma {:induction false} AllTimersSlice(events: seq<Event>, i: nat, j: nat)
    requires AllTimers(events) && i <= j <= |events|
    ensures AllTimers(events[i..j])
  {
    forall k | 0 <= k < j - i
      ensures events[i..j][k].TimerFired?
    {
      assert events[i..j][k] == events[i + k];
    }
  }

  /** A countdown of `n` seconds takes exactly `n` timer firings to reach the
      mentee selection, which then starts with a fresh shuffle. */
  lemma {:induction false} CountdownRun(st: Stage, events: seq<Event>)
    requires Inv(st) && st.session.state == Countdown
    requires AllTimers(events) && |events| == st.session.countdown && RunAllowed(st, events)
    ensures var r := Run(st, events);
      && Inv(r)
      && r.store == st.store
      && r.session.state == SelectingFilleul && ShuffleRunning(r.session) && r.session.shuffles == 0
      && r.session.candidates == AvailableFilleuls(st.store.students, st.session.currentPairing.value.source)
      && r.session.currentPairing == st.session.currentPairing
      && r.session.selectedFilleul == st.session.selectedFilleul
      && r.session.selectedParrain == st.session.selectedParrain
    decreases |events|
  {
    var e := events[0];
    assert e.TimerFired?;
    var next := Step(st, e);
    CountdownSecond(st, e.draws, e.matchId, e.now);
    TickKeepsInv(st, e.draws, e.matchId, e.now);
    if |events| > 1 {
      AllTimersSlice(events, 1, |events|);
      CountdownRun(next, events[1..]);
    }
  }

  /** A shuffle with `k` ticks left, run for up to `k` firings: before the
      last firing the shuffle is still running with its counter advanced by
      the number of firings; after the last one the winner is shown and the
      pause is pending. The state, the winners and the store do not change. */
  lemma {:induction false} SelectionRun(st: Stage, events: seq<Event>)
    requires Inv(st) && ShuffleRunning(st.session)
    requires AllTimers(events) && RunAllowed(st, events)
    requires |events| <= ShuffleLimit(SideOf(st.session.state)) - st.session.shuffles
    ensures var r := Run(st, events);
      var g := SideOf(st.session.state);
      && Inv(r)
      && r.store == st.store
      && r.session.state == st.session.state
      && r.session.currentPairing == st.session.currentPairing
      && r.session.selectedFilleul == st.session.selectedFilleul
      && r.session.selectedParrain == st.session.selectedParrain
      && (|events| < ShuffleLimit(g) - st.session.shuffles ==>
            ShuffleRunning(r.session) && r.session.shuffles == st.session.shuffles + |events|)
      && (|events| == ShuffleLimit(g) - st.session.shuffles ==>
            DisplayedOf(r.session, g) == SelectedOf(st.session, g) && r.session.pendingHold == Some(AfterHold(g)))
    decreases |events|
  {
    if events != [] {
      var e := events[0];
      assert e.TimerFired?;
      TickKeepsInv(st, e.draws, e.matchId, e.now);
      var next := Step(st, e);
      if st.session.shuffles + 1 >= ShuffleLimit(SideOf(st.session.state)) {
        ShuffleTickLocksWinner(st, e.draws, e.matchId, e.now);
      } else {
        ShuffleTickShowsNewCard(st, e.draws, e.matchId, e.now);
        AllTimersSlice(events, 1, |events|);
        SelectionRun(next, events[1..]);
      }
    }
  }

  // ---------------------------------------------------------------------------
  // Commits

  /** The event is the handshake timer with both winners known: the one
      place where the source calls createMatch. */
  predicate CommitsMatch(st: Stage, e: Event) {
    && e.TimerFired? && st.session.pendingHold.None? && st.session.state == Handshake
    && st.session.selectedFilleul.Some? && st.session.selectedParrain.Some?
  }

  /** The number of createMatch calls along a run. */
  function Commits(st: Stage, events: seq<Event>): nat
    requires RunAllowed(st, events)
    decreases |events|
  {
    if events == [] then 0
    else (if CommitsMatch(st, events[0]) then 1 else 0) + Commits(Step(st, events[0]), events[1..])
  }

  /** Only the handshake timer touches the store, and it commits the two
      pre-selected winners' ids. */
  lemma StoreChangesOnlyOnCommit(st: Stage, e: Event)
    requires Allowed(st, e)
    ensures Step(st, e).store ==
      if CommitsMatch(st, e) then
        CommitMatch(st.store, st.session.selectedFilleul.value.id, st.session.selectedParrain.value.id, e.matchId, e.now)
      else st.store
    ensures CommitsMatch(st, e) ==> Step(st, e).session.state == Finished && Step(st, e).session.pendingHold.None?
  {
  }

  /** On a reachable stage, the commit always finds both winners: exactly one
      match is appended, pairing the winners' ids, and both are flagged matched. */
  lemma CommitRecordsDrawnPair(st: Stage, e: Event)
    requires Inv(st) && Allowed(st, e) && CommitsMatch(st, e)
    ensures var before := st.store;
      var after := Step(st, e).store;
      && |after.matches| == |before.matches| + 1
      && after.matches[..|before.matches|] == before.matches
      && after.matches[|before.matches|].filleul.id == st.session.selectedFilleul.value.id
      && after.matches[|before.matches|].parrain.id == st.session.selectedParrain.value.id
      && after.matches[|before.matches|].id == e.matchId
      && |after.students| == |before.students|
      && forall i | 0 <= i < |after.students| ::
           after.students[i].isMatched ==
             (before.students[i].isMatched || before.students[i].id == st.session.selectedFilleul.value.id
                                           || before.students[i].id == st.session.selectedParrain.value.id)
  {
    var f := st.session.selectedFilleul.value;
    var p := st.session.selectedParrain.value;
    StoreChangesOnlyOnCommit(st, e);
    assert Step(st, e).store == CommitMatch(st.store, f.id, p.id, e.matchId, e.now);
    assert f in st.store.students && p in st.store.students;
    var fi :| 0 <= fi < |st.store.students| && st.store.students[fi] == f;
    var pi :| 0 <= pi < |st.store.students| && st.store.students[pi] == p;
    assert BothFound(st.store.students, f.id, p.id);
    CommitMatchFound(st.store, f.id, p.id, e.matchId, e.now);
  }

  /** Idle or finished with no pause pending. */
  predicate Quiet(s: Session) {
    (s.state == Idle || s.state == Finished) && s.pendingHold.None?
  }

  /** Without a start or next-draw press, a quiet stage stays quiet, commits
      nothing and keeps the store; an idle one stays idle. */
  lemma {:induction false} QuietRun(st: Stage, events: seq<Event>)
    requires Quiet(st.session) && NoPresses(events) && RunAllowed(st, events)
    ensures Commits(st, events) == 0
    ensures Run(st, events).store == st.store
    ensures Quiet(Run(st, events).session)
    ensures st.session.state == Idle ==> Run(st, events).session.state == Idle
    decreases |events|
  {
    if events != [] {
      assert !events[0].StartPressed? && !events[0].NextPressed?;
      assert NoPresses(events[1..]) by {
        forall k | 0 <= k < |events[1..]|
          ensures !events[1..][k].StartPressed? && !events[1..][k].NextPressed?
        {
          assert events[1..][k] == events[k + 1];
        }
      }
      QuietRun(Step(st, events[0]), events[1..]);
    }
  }

  /** Between two presses of start or next draw, createMatch is called at most once. */
  lemma {:induction false} AtMostOneCommitPerRound(st: Stage, events: seq<Event>)
    requires Inv(st) && NoPresses(events) && RunAllowed(st, events)
    ensures Commits(st, events) <= 1
    decreases |events|
  {
    if events != [] {
      var next := Step(st, events[0]);
      assert NoPresses(events[1..]) by {
        forall k | 0 <= k < |events[1..]|
          ensures !events[1..][k].StartPressed? && !events[1..][k].NextPressed?
        {
          assert events[1..][k] == events[k + 1];
        }
      }
      if CommitsMatch(st, events[0]) {
        StoreChangesOnlyOnCommit(st, events[0]);
        QuietRun(next, events[1..]);
      } else {
        StepKeepsInv(st, events[0]);
        AtMostOneCommitPerRound(next, events[1..]);
      }
    }
  }

  /** After a reset, and until the next start press, the ceremony stays idle
      and nothing is committed. */
  lemma ResetEndsRound(st: Stage, events: seq<Event>)
    requires Inv(st) && st.session.state == Finished
    requires NoPresses(events) && RunAllowed(Reset(st), events)
    ensures Run(Reset(st), events).session.state == Idle
    ensures Run(Reset(st), events).store == st.store
    ensures Commits(Reset(st), events) == 0
  {
    QuietRun(Reset(st), events);
  }

  // ---------------------------------------------------------------------------
  // A whole round

  /** The timers of a round after the countdown: thirty mentee shuffles,
      the pause, the transition, fifty mentor shuffles, the pause, the
      reveal and the handshake. */
  const TimersAfterCountdown: nat := FilleulShuffles + 2 + ParrainShuffles + 3

  /** A selection of side `g` has just been set up. */
  predicate FreshSelection(st: Stage, g: GroupType) {
    Inv(st) && st.session.state == SelectingState(g) && ShuffleRunning(st.session) && st.session.shuffles == 0
  }

  /** `b` continues the round of `a`: same pairing, same winners. */
  predicate SameRound(a: Session, b: Session) {
    a.currentPairing == b.currentPairing && a.selectedFilleul == b.selectedFilleul && a.selectedParrain == b.selectedParrain
  }

  lemma RunFirst(st: Stage, events: seq<Event>)
    requires events != [] && RunAllowed(st, events)
    ensures Allowed(st, events[0]) && RunAllowed(Step(st, events[0]), events[1..])
    ensures Run(st, events) == Run(Step(st, events[0]), events[1..])
  {
  }

  /** The pause after a lock fires: the state it was scheduled for begins. */
  lemma PauseEnds(st: Stage, e: Event)
    requires Inv(st) && st.session.pendingHold.Some? && e.TimerFired? && Allowed(st, e)
    ensures var r := Step(st, e);
      && Inv(r) && SameRound(st.session, r.session) && r.store == st.store
      && r.session.state == st.session.pendingHold.value && r.session.pendingHold.None?
  {
    TickKeepsInv(st, e.draws, e.matchId, e.now);
  }

  /** The transition's timer sets up the mentor selection. */
  lemma TransitionEnds(st: Stage, e: Event)
    requires Inv(st) && st.session.state == TransitionToParrain && st.session.pendingHold.None?
    requires e.TimerFired? && Allowed(st, e)
    ensures var r := Step(st, e);
      FreshSelection(r, Parrain) && SameRound(st.session, r.session) && r.store == st.store
  {
    TickKeepsInv(st, e.draws, e.matchId, e.now);
  }

  /** The reveal's timer starts the handshake. */
  lemma RevealEnds(st: Stage, e: Event)
    requires Inv(st) && st.session.state == Reveal && st.session.pendingHold.None?
    requires e.TimerFired? && Allowed(st, e)
    ensures var r := Step(st, e);
      && Inv(r) && SameRound(st.session, r.session) && r.store == st.store
      && r.session.state == Handshake && r.session.pendingHold.None?
  {
    TickKeepsInv(st, e.draws, e.matchId, e.now);
  }

  /** The mentee shuffle, its pause and the transition take thirty-two
      firings and end in a fresh mentor selection. */
  lemma MenteePhase(st: Stage, events: seq<Event>)
    requires FreshSelection(st, Filleul)
    requires AllTimers(events) && |events| == FilleulShuffles + 2 && RunAllowed(st, events)
    ensures var r := Run(st, events);
      FreshSelection(r, Parrain) && SameRound(st.session, r.session) && r.store == st.store
  {
    var a := events[..FilleulShuffles];
    var b := events[FilleulShuffles..];
    assert events == a + b;
    RunAppend(st, a, b);
    AllTimersSlice(events, 0, FilleulShuffles);
    SelectionRun(st, a);
    var s1 := Run(st, a);
    assert b[0].TimerFired? && b[1].TimerFired?;
    RunFirst(s1, b);
    PauseEnds(s1, b[0]);
    var s2 := Step(s1, b[0]);
    var b1 := b[1..];
    assert b1[0] == b[1];
    RunFirst(s2, b1);
    TransitionEnds(s2, b1[0]);
    assert b1[1..] == [];
  }

  /** The mentor shuffle, its pause, the reveal and the handshake take
      fifty-three firings, end finished, and commit the winners' ids. */
  lemma MentorPhase(st: Stage, events: seq<Event>)
    requires FreshSelection(st, Parrain)
    requires AllTimers(events) && |events| == ParrainShuffles + 3 && RunAllowed(st, events)
    ensures var r := Run(st, events);
      && r.session.state == Finished
      && r.store == CommitMatch(st.store, st.session.selectedFilleul.value.id, st.session.selectedParrain.value.id,
                                events[|events| - 1].matchId, events[|events| - 1].now)
  {
    var a := events[..ParrainShuffles];
    var b := events[ParrainShuffles..];
    assert events == a + b;
    RunAppend(st, a, b);
    AllTimersSlice(events, 0, ParrainShuffles);
    SelectionRun(st, a);
    var s1 := Run(st, a);
    assert b[0].TimerFired? && b[1].TimerFired? && b[2].TimerFired?;
    RunFirst(s1, b);
    PauseEnds(s1, b[0]);
    var s2 := Step(s1, b[0]);
    var b1 := b[1..];
    assert b1[0] == b[1];
    RunFirst(s2, b1);
    RevealEnds(s2, b1[0]);
    var s3 := Step(s2, b1[0]);
    var b2 := b1[1..];
    assert b2[0] == b[2] && b2[1..] == [];
    RunFirst(s3, b2);
    StoreChangesOnlyOnCommit(s3, b2[0]);
    assert b[2] == events[|events| - 1];
  }

  /** From the mentee selection's set-up, the round's remaining timers finish
      it and commit the winners. */
  lemma SelectionsToCommit(st: Stage, events: seq<Event>)
    requires FreshSelection(st, Filleul)
    requires AllTimers(events) && |events| == TimersAfterCountdown && RunAllowed(st, events)
    ensures var r := Run(st, events);
      && r.session.state == Finished
      && r.store == CommitMatch(st.store, st.session.selectedFilleul.value.id, st.session.selectedParrain.value.id,
                                events[|events| - 1].matchId, events[|events| - 1].now)
  {
    var a := events[..FilleulShuffles + 2];
    var b := events[FilleulShuffles + 2..];
    assert events == a + b;
    RunAppend(st, a, b);
    AllTimersSlice(events, 0, FilleulShuffles + 2);
    AllTimersSlice(events, FilleulShuffles + 2, |events|);
    MenteePhase(st, a);
    MentorPhase(Run(st, a), b);
    assert b[|b| - 1] == events[|events| - 1];
  }

  /** A whole round: pressing start on an idle stage with an open rule, then
      the countdown's seconds and the round's timers, ends finished with
      exactly the pre-selected pair committed to the store. */
  lemma RoundCommitsDrawnPair(st: Stage, rf: nat, rp: nat, events: seq<Event>)
    requires Inv(st) && st.session.state == Idle
    requires PossiblePairing(st.store.students).Some? && StartFits(st.store.students, rf, rp)
    requires AllTimers(events) && |events| == CountdownStart + TimersAfterCountdown
    requires RunAllowed(st, [StartPressed(rf, rp)] + events)
    ensures var p := PossiblePairing(st.store.students).value;
      var f := AvailableFilleuls(st.store.students, p.source)[rf];
      var q := AvailableParrains(st.store.students, p.target)[rp];
      var last := events[|events| - 1];
      && Run(st, [StartPressed(rf, rp)] + events).session.state == Finished
      && Run(st, [StartPressed(rf, rp)] + events).store == CommitMatch(st.store, f.id, q.id, last.matchId, last.now)
  {
    var all := [StartPressed(rf, rp)] + events;
    assert all[0] == StartPressed(rf, rp) && all[1..] == events;
    RunFirst(st, all);
    StartBegins(st, rf, rp);
    CountdownToCommit(Step(st, StartPressed(rf, rp)), events);
  }

  /** From the start of a countdown, the round's timers finish it and commit
      the winners. */
  lemma CountdownToCommit(st: Stage, events: seq<Event>)
    requires Inv(st) && st.session.state == Countdown && st.session.countdown == CountdownStart
    requires AllTimers(events) && |events| == CountdownStart + TimersAfterCountdown && RunAllowed(st, events)
    ensures var r := Run(st, events);
      var last := events[|events| - 1];
      && r.session.state == Finished
      && r.store == CommitMatch(st.store, st.session.selectedFilleul.value.id, st.session.selectedParrain.value.id,
                                last.matchId, last.now)
  {
    var a := events[..CountdownStart];
    var b := events[CountdownStart..];
    assert events == a + b;
    RunAppend(st, a, b);
    AllTimersSlice(events, 0, CountdownStart);
    CountdownRun(st, a);
    AllTimersSlice(events, CountdownStart, |events|);
    SelectionsToCommit(Run(st, a), b);
    assert b[|b| - 1] == events[|events| - 1];
  }

  /** Start on an idle reachable stage with an open rule begins the countdown
      with the drawn winners. */
  lemma StartBegins(st: Stage, rf: nat, rp: nat)
    requires Inv(st) && st.session.state == Idle
    requires PossiblePairing(st.store.students).Some? && StartFits(st.store.students, rf, rp)
    ensures var p := PossiblePairing(st.store.students).value;
      var r := Start(st, rf, rp);
      && Inv(r) && r.store == st.store
      && r.session.state == Countdown && r.session.countdown == CountdownStart
      && r.session.selectedFilleul == Some(AvailableFilleuls(st.store.students, p.source)[rf])
      && r.session.selectedParrain == Some(AvailableParrains(st.store.students, p.target)[rp])
  {
    StartKeepsInv(st, rf, rp);
    StartOutcome(st, rf, rp);
  }

  // ---------------------------------------------------------------------------
  // Reset

  /** The reset button is reachable only in the finished state, where no
      pause is pending: after it the ceremony is idle, keeps the invariant,
      and no timer of the finished round fires any more. */
  lemma ResetFromFinishedIsQuiet(st: Stage, draws: seq<nat>, matchId: string, now: int)
    requires Inv(st) && st.session.state == Finished
    ensures Inv(Reset(st)) && Quiet(Reset(st).session) && Reset(st).session.state == Idle
    ensures Tick(Reset(st), draws, matchId, now) == Reset(st)
  {
  }

  // ---------------------------------------------------------------------------
  // The resample loop's comparison (see the findings)

  predicate FitsAgainst(pool: seq<Student>, captured: Option<Student>, ticks: seq<seq<nat>>) {
    forall k | 0 <= k < |ticks| :: DrawsFit(pool, captured, ticks[k])
  }

  /** As written: the cards a shuffle shows when every tick compares its pick
      with the card shown when the interval was set up (`captured`). */
  function DisplaysAsWritten(pool: seq<Student>, captured: Option<Student>, ticks: seq<seq<nat>>): (r: seq<Option<Student>>)
    requires FitsAgainst(pool, captured, ticks)
    ensures |r| == |ticks|
    decreases |ticks|
  {
    if ticks == [] then []
    else [Pick(pool, captured, ticks[0])] + DisplaysAsWritten(pool, captured, ticks[1..])
  }

  /** At set-up the captured card is always none (the initial render, a reset
      and handleNextDraw all clear it), so the resampling never fires: two
      cards, the same draw twice, the same card shown twice in a row. */
  lemma AsWrittenShowsSameCardTwice()
    ensures var a := SeedBts1[0];
      var b := SeedBts1[1];
      && a != b
      && FitsAgainst([a, b], None, [[0], [0]])
      && DisplaysAsWritten([a, b], None, [[0], [0]]) == [Some(a), Some(a)]
  {
    var a := SeedBts1[0];
    var b := SeedBts1[1];
    assert [0][0] == 0;
    assert Acceptable([a, b], None, [0][0]);
    assert DisplaysAsWritten([a, b], None, [[0]]) == [Some(a)];
  }

  /** Corrected: each tick's draws fit against the card the previous tick showed. */
  predicate ChainFits(pool: seq<Student>, previous: Option<Student>, ticks: seq<seq<nat>>)
    decreases |ticks|
  {
    ticks == [] || (DrawsFit(pool, previous, ticks[0]) && ChainFits(pool, Pick(pool, previous, ticks[0]), ticks[1..]))
  }

  /** Corrected: the cards a shuffle shows when every tick compares with the
      card shown by the tick before. `ShuffleRunShows` proves that the
      session's shuffle ticks show exactly these cards. */
  function Displays(pool: seq<Student>, previous: Option<Student>, ticks: seq<seq<nat>>): (r: seq<Option<Student>>)
    requires ChainFits(pool, previous, ticks)
    ensures |r| == |ticks|
    decreases |ticks|
  {
    if ticks == [] then []
    else
      var first := Pick(pool, previous, ticks[0]);
      [first] + Displays(pool, first, ticks[1..])
  }

  /** Corrected: with more than one candidate, every card shown is a
      candidate and no card is shown twice in a row, the first one included. */
  lemma {:induction false} DisplaysNeverRepeat(pool: seq<Student>, previous: Option<Student>, ticks: seq<seq<nat>>)
    requires |pool| > 1 && ChainFits(pool, previous, ticks)
    ensures var r := Displays(pool, previous, ticks);
      && (forall k | 0 <= k < |r| :: r[k].Some? && r[k].value in pool)
      && (|r| > 0 ==> r[0] != previous)
      && (forall k | 0 <= k < |r| - 1 :: r[k] != r[k + 1])
    decreases |ticks|
  {
    if ticks != [] {
      var first := Pick(pool, previous, ticks[0]);
      var rest := Displays(pool, first, ticks[1..]);
      DisplaysNeverRepeat(pool, first, ticks[1..]);
      var r := Displays(pool, previous, ticks);
      assert r == [first] + rest;
      forall k | 0 <= k < |r| - 1
        ensures r[k] != r[k + 1]
      {
        if k > 0 {
          assert r[k] == rest[k - 1] && r[k + 1] == rest[k];
        }
      }
    }
  }

  /** The draws of a run of timer firings, one list per firing. */
  function TickDraws(events: seq<Event>): (r: seq<seq<nat>>)
    requires AllTimers(events)
    ensures |r| == |events|
    ensures forall k | 0 <= k < |events| :: r[k] == events[k].draws
  {
    seq(|events|, k requires 0 <= k < |events| && events[k].TimerFired? => events[k].draws)
  }

  /** Shuffle ticks before the last one show, tick by tick, the corrected
      display sequence that starts from the card shown when they begin. */
  lemma {:induction false} ShuffleRunShows(st: Stage, events: seq<Event>)
    requires Inv(st) && ShuffleRunning(st.session)
    requires AllTimers(events) && RunAllowed(st, events)
    requires |events| < ShuffleLimit(SideOf(st.session.state)) - st.session.shuffles
    ensures var g := SideOf(st.session.state);
      var d := TickDraws(events);
      && ChainFits(st.session.candidates, DisplayedOf(st.session, g), d)
      && (events != [] ==>
            DisplayedOf(Run(st, events).session, g) ==
            Displays(st.session.candidates, DisplayedOf(st.session, g), d)[|events| - 1])
    decreases |events|
  {
    if events != [] {
      var g := SideOf(st.session.state);
      var pool := st.session.candidates;
      var e := events[0];
      RunFirst(st, events);
      var next := Step(st, e);
      ShuffleTickShowsNewCard(st, e.draws, e.matchId, e.now);
      TickKeepsInv(st, e.draws, e.matchId, e.now);
      var first := Pick(pool, DisplayedOf(st.session, g), e.draws);
      assert DisplayedOf(next.session, g) == first;
      assert next.session.state == st.session.state && next.session.candidates == pool;
      var rest := events[1..];
      AllTimersSlice(events, 1, |events|);
      var d := TickDraws(events);
      assert d[0] == e.draws;
      assert d[1..] == TickDraws(rest);
      ShuffleRunShows(next, rest);
      assert Displays(pool, DisplayedOf(st.session, g), d) == [first] + Displays(pool, first, d[1..]);
      if rest == [] {
        assert Run(st, events) == next;
      }
    }
  }
}
