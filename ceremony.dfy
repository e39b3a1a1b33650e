/** The draw ceremony: a state machine that pre-selects one mentee and one
    mentor from the pools of the first open rule, shows a countdown, shuffles
    the displayed card a fixed number of times per side, locks it on the
    pre-selected winner, and commits the match once, on leaving the handshake.

    Time is abstract: a timer event is the firing of the next pending timer
    (a countdown second, a shuffle interval tick, a pause). The synchronous
    work the component does right after a state change is folded into the
    step that made the change (`Settle`). `Math.random` becomes index
    arguments, and `Date.now` the match id and timestamp arguments.

    The pure functions below (`Start`, `NextDraw`, `Reset`, `Tick`) give the
    effect of each event on a `Stage` (the component's state cells plus the
    store); the class `CeremonyStage` holds the same cells as fields and its
    methods are tied to those functions. */
module Ceremony {
  import opened Types
  import opened AppStore

  datatype CeremonyState =
    Idle | Countdown | SelectingFilleul | TransitionToParrain | SelectingParrain | Reveal | Handshake | Finished

  const CountdownStart: int := 5
  const FilleulShuffles: nat := 30
  const ParrainShuffles: nat := 50

  /** The component's state cells, plus what the running effect holds:
      the candidate pool it captured, its local shuffle counter, and the
      pause timer scheduled after a card is locked (it sets `pendingHold`'s
      state when it fires). */
  datatype Session = Session(
    state: CeremonyState,
    countdown: int,
    currentPairing: Option<PairingRule>,
    selectedFilleul: Option<Student>,
    selectedParrain: Option<Student>,
    displayedFilleul: Option<Student>,
    displayedParrain: Option<Student>,
    candidates: seq<Student>,
    shuffles: nat,
    pendingHold: Option<CeremonyState>)

  const InitialSession: Session := Session(Idle, CountdownStart, None, None, None, None, None, [], 0, None)

  /** The ceremony together with the store it reads and commits into. */
  datatype Stage = Stage(session: Session, store: StoreState)

  // ---------------------------------------------------------------------------
  // The two sides of a draw

  function SelectingState(g: GroupType): CeremonyState {
    if g == Filleul then SelectingFilleul else SelectingParrain
  }

  function ShuffleLimit(g: GroupType): nat {
    if g == Filleul then FilleulShuffles else ParrainShuffles
  }

  /** The state the pause after the lock leads to. */
  function AfterHold(g: GroupType): CeremonyState {
    if g == Filleul then TransitionToParrain else Reveal
  }

  function SideOf(state: CeremonyState): GroupType {
    if state == SelectingParrain then Parrain else Filleul
  }

  function DisplayedOf(s: Session, g: GroupType): Option<Student> {
    if g == Filleul then s.displayedFilleul else s.displayedParrain
  }

  function SelectedOf(s: Session, g: GroupType): Option<Student> {
    if g == Filleul then s.selectedFilleul else s.selectedParrain
  }

  function OtherSide(g: GroupType): GroupType {
    if g == Filleul then Parrain else Filleul
  }

  function WithDisplayed(s: Session, g: GroupType, v: Option<Student>): Session {
    if g == Filleul then s.(displayedFilleul := v) else s.(displayedParrain := v)
  }

  /** The pool a side draws from: available mentees of the rule's source
      class, or available mentors of its target class. */
  function SidePool(students: seq<Student>, rule: PairingRule, g: GroupType): seq<Student> {
    if g == Filleul then AvailableFilleuls(students, rule.source) else AvailableParrains(students, rule.target)
  }

  // ---------------------------------------------------------------------------
  // One shuffle pick: the resample-until-different loop

  /** A drawn index is kept when it is in range and, for a pool of more than
      one card, shows a card different from `previous`. */
  predicate Acceptable(pool: seq<Student>, previous: Option<Student>, d: nat) {
    d < |pool| && (|pool| <= 1 || Some(pool[d]) != previous)
  }

  /** The random indices one interval tick draws are in range, and the random
      source eventually yields an acceptable one (the loop's termination
      assumption). An empty pool draws nothing that matters. */
  predicate DrawsFit(pool: seq<Student>, previous: Option<Student>, draws: seq<nat>) {
    pool == [] ||
    ((forall k | 0 <= k < |draws| :: draws[k] < |pool|) &&
     exists k | 0 <= k < |draws| :: Acceptable(pool, previous, draws[k]))
  }

  /** The position of the first acceptable draw at or after `from`. */
  function FirstAcceptable(pool: seq<Student>, previous: Option<Student>, draws: seq<nat>, from: nat): (k: nat)
    requires exists k | from <= k < |draws| :: Acceptable(pool, previous, draws[k])
    decreases |draws| - from
    ensures from <= k < |draws| && Acceptable(pool, previous, draws[k])
    ensures forall j | from <= j < k :: !Acceptable(pool, previous, draws[j])
  {
    if Acceptable(pool, previous, draws[from]) then from
    else FirstAcceptable(pool, previous, draws, from + 1)
  }

  /** The card one interval tick shows: `None` (undefined) for an empty pool,
      otherwise the card at the first acceptable draw. */
  function Pick(pool: seq<Student>, previous: Option<Student>, draws: seq<nat>): (r: Option<Student>)
    requires DrawsFit(pool, previous, draws)
    ensures r.None? <==> pool == []
    ensures r.Some? ==> r.value in pool
    ensures r.Some? && |pool| > 1 ==> r != previous
  {
    if pool == [] then None
    else Some(pool[draws[FirstAcceptable(pool, previous, draws, 0)]])
  }

  /** The `do { ... } while (...)` resampling loop. */
  method ShufflePick(pool: seq<Student>, previous: Option<Student>, draws: seq<nat>) returns (pick: Option<Student>)
    requires DrawsFit(pool, previous, draws)
    ensures pick == Pick(pool, previous, draws)
  {
    if |pool| == 0 {
      return None;
    }
    var k := 0;
    var next := pool[draws[k]];
    while |pool| > 1 && Some(next) == previous
      invariant 0 <= k < |draws| && next == pool[draws[k]]
      invariant forall j | 0 <= j < k :: !Acceptable(pool, previous, draws[j])
      decreases |draws| - k
    {
      k := k + 1;
      next := pool[draws[k]];
    }
    pick := Some(next);
  }

  // ---------------------------------------------------------------------------
  // The effect of each event

  /** The shuffle effect's set-up on entering a selection state: capture the
      current pool and start the local counter at zero. Nothing is set up
      when there is no current pairing. */
  function SetUpShuffle(s: Session, students: seq<Student>, g: GroupType): Session {
    if s.currentPairing.None? then s
    else s.(candidates := SidePool(students, s.currentPairing.value, g), shuffles := 0)
  }

  /** What the effect does synchronously after a change of state or counter:
      a countdown at zero moves to the mentee selection, and a selection
      state sets up its shuffle. */
  function Settle(s: Session, students: seq<Student>): (r: Session)
    ensures r.state == s.state || (s.state == Countdown && s.countdown <= 0 && r.state == SelectingFilleul)
    ensures r.countdown == s.countdown && r.currentPairing == s.currentPairing && r.pendingHold == s.pendingHold
    ensures r.selectedFilleul == s.selectedFilleul && r.selectedParrain == s.selectedParrain
    ensures r.displayedFilleul == s.displayedFilleul && r.displayedParrain == s.displayedParrain
  {
    if s.state == Countdown && s.countdown <= 0 then SetUpShuffle(s.(state := SelectingFilleul), students, Filleul)
    else if s.state == SelectingFilleul then SetUpShuffle(s, students, Filleul)
    else if s.state == SelectingParrain then SetUpShuffle(s, students, Parrain)
    else s
  }

  /** The random indices of `startCeremony` are in range of the pools of the
      pairing it finds. */
  predicate StartFits(students: seq<Student>, rf: nat, rp: nat) {
    var p := PossiblePairing(students);
    p.Some? ==>
      rf < |AvailableFilleuls(students, p.value.source)| && rp < |AvailableParrains(students, p.value.target)|
  }

  /** startCeremony. */
  function Start(st: Stage, rf: nat, rp: nat): (r: Stage)
    requires StartFits(st.store.students, rf, rp)
    ensures r.store == st.store
    ensures PossiblePairing(st.store.students).None? ==> r == st
    ensures r.session.displayedFilleul == st.session.displayedFilleul
    ensures r.session.displayedParrain == st.session.displayedParrain
  {
    var students := st.store.students;
    var pairing := PossiblePairing(students);
    if pairing.None? then st
    else
      var s1 := st.session.(currentPairing := Some(PairingRule(pairing.value.source, pairing.value.target)));
      var filleuls := AvailableFilleuls(students, pairing.value.source);
      var parrains := AvailableParrains(students, pairing.value.target);
      if |filleuls| == 0 || |parrains| == 0 then st.(session := s1)
      else
        st.(session := Settle(s1.(selectedFilleul := Some(filleuls[rf]), selectedParrain := Some(parrains[rp]),
                             countdown := CountdownStart, state := Countdown), students))
  }

  /** handleNextDraw: clear both displayed cards, then startCeremony. */
  function NextDraw(st: Stage, rf: nat, rp: nat): (r: Stage)
    requires StartFits(st.store.students, rf, rp)
    ensures r.store == st.store
    ensures r.session.displayedFilleul.None? && r.session.displayedParrain.None?
  {
    Start(st.(session := st.session.(displayedFilleul := None, displayedParrain := None)), rf, rp)
  }

  /** resetCeremony: back to idle with no winner and no card shown. It cancels
      no timer; the pause timer scheduled inside a shuffle interval, if any,
      stays pending. */
  function Reset(st: Stage): (r: Stage)
    ensures r.store == st.store && r.session.state == Idle
    ensures r.session.selectedFilleul.None? && r.session.selectedParrain.None?
    ensures r.session.displayedFilleul.None? && r.session.displayedParrain.None?
    ensures r.session.pendingHold == st.session.pendingHold
  {
    st.(session := st.session.(state := Idle, selectedFilleul := None, selectedParrain := None,
                               displayedFilleul := None, displayedParrain := None))
  }

  /** The shuffle interval is running: a selection state with a pairing and
      no lock yet. */
  predicate ShuffleRunning(s: Session) {
    s.pendingHold.None? && s.currentPairing.Some? &&
    (s.state == SelectingFilleul || s.state == SelectingParrain)
  }

  /** One firing of the shuffle interval of side `g`: show a new pick; on the
      last shuffle show the pre-selected winner and schedule the pause. */
  function ShuffleStep(s: Session, g: GroupType, draws: seq<nat>): (r: Session)
    requires DrawsFit(s.candidates, DisplayedOf(s, g), draws)
    ensures r.state == s.state && r.candidates == s.candidates && r.shuffles == s.shuffles + 1
    ensures r.currentPairing == s.currentPairing && r.countdown == s.countdown
    ensures r.selectedFilleul == s.selectedFilleul && r.selectedParrain == s.selectedParrain
    ensures DisplayedOf(r, OtherSide(g)) == DisplayedOf(s, OtherSide(g))
    ensures r.shuffles < ShuffleLimit(g) ==>
      && r.pendingHold == s.pendingHold
      && (s.candidates != [] ==> DisplayedOf(r, g).Some? && DisplayedOf(r, g).value in s.candidates)
      && (|s.candidates| > 1 ==> DisplayedOf(r, g) != DisplayedOf(s, g))
    ensures r.shuffles >= ShuffleLimit(g) ==>
      DisplayedOf(r, g) == SelectedOf(s, g) && r.pendingHold == Some(AfterHold(g))
  {
    var pick := Pick(s.candidates, DisplayedOf(s, g), draws);
    var n := s.shuffles + 1;
    if n >= ShuffleLimit(g) then
      WithDisplayed(s, g, SelectedOf(s, g)).(shuffles := n, pendingHold := Some(AfterHold(g)))
    else
      WithDisplayed(s, g, pick).(shuffles := n)
  }

  predicate TickFits(st: Stage, draws: seq<nat>) {
    ShuffleRunning(st.session) ==>
      DrawsFit(st.session.candidates, DisplayedOf(st.session, SideOf(st.session.state)), draws)
  }

  /** The next pending timer fires. */
  function Tick(st: Stage, draws: seq<nat>, matchId: string, now: int): (r: Stage)
    requires TickFits(st, draws)
    ensures r.store == st.store ||
      (st.session.pendingHold.None? && st.session.state == Handshake && r.session.state == Finished)
    ensures (st.session.state == Idle || st.session.state == Finished) && st.session.pendingHold.None? ==> r == st
  {
    var s := st.session;
    var students := st.store.students;
    if s.pendingHold.Some? then
      st.(session := Settle(s.(state := s.pendingHold.value, pendingHold := None), students))
    else
      match s.state
      case Idle => st
      case Countdown =>
        if s.countdown > 0 then st.(session := Settle(s.(countdown := s.countdown - 1), students)) else st
      case SelectingFilleul =>
        if s.currentPairing.Some? then st.(session := ShuffleStep(s, Filleul, draws)) else st
      case TransitionToParrain => st.(session := Settle(s.(state := SelectingParrain), students))
      case SelectingParrain =>
        if s.currentPairing.Some? then st.(session := ShuffleStep(s, Parrain, draws)) else st
      case Reveal => st.(session := s.(state := Handshake))
      case Handshake =>
        var store := if s.selectedFilleul.Some? && s.selectedParrain.Some? then
          CommitMatch(st.store, s.selectedFilleul.value.id, s.selectedParrain.value.id, matchId, now)
        else st.store;
        Stage(s.(state := Finished), store)
      case Finished => st
  }

  // ---------------------------------------------------------------------------
  // The component object

  class CeremonyStage {
    const store: Store
    var state: CeremonyState
    var countdown: int
    var currentPairing: Option<PairingRule>
    var selectedFilleul: Option<Student>
    var selectedParrain: Option<Student>
    var displayedFilleul: Option<Student>
    var displayedParrain: Option<Student>
    var candidates: seq<Student>
    var shuffles: nat
    var pendingHold: Option<CeremonyState>

    function Snapshot(): Stage
      reads this, store
    {
      Stage(Session(state, countdown, currentPairing, selectedFilleul, selectedParrain,
                    displayedFilleul, displayedParrain, candidates, shuffles, pendingHold),
            store.State())
    }

    constructor (store: Store)
      ensures this.store == store
      ensures Snapshot() == Stage(InitialSession, store.State())
    {
      this.store := store;
      state := Idle;
      countdown := CountdownStart;
      currentPairing := None;
      selectedFilleul := None;
      selectedParrain := None;
      displayedFilleul := None;
      displayedParrain := None;
      candidates := [];
      shuffles := 0;
      pendingHold := None;
    }

    method HasNextPairing() returns (b: bool)
      ensures b <==> exists i | 0 <= i < |PairingRules| :: RuleOpen(store.students, i)
    {
      var pairing := store.GetPossiblePairing();
      b := pairing.Some?;
    }

    /** The start button, shown only in the idle state. */
    method StartCeremony(rf: nat, rp: nat)
      requires state == Idle && StartFits(store.students, rf, rp)
      modifies this
      ensures Snapshot() == Start(old(Snapshot()), rf, rp)
    {
      BeginRound(rf, rp);
    }

    /** The next-draw button, shown only in the finished state. */
    method HandleNextDraw(rf: nat, rp: nat)
      requires state == Finished && StartFits(store.students, rf, rp)
      modifies this
      ensures Snapshot() == NextDraw(old(Snapshot()), rf, rp)
    {
      displayedFilleul := None;
      displayedParrain := None;
      BeginRound(rf, rp);
    }

    /** The body of startCeremony. */
    method BeginRound(rf: nat, rp: nat)
      requires StartFits(store.students, rf, rp)
      modifies this
      ensures Snapshot() == Start(old(Snapshot()), rf, rp)
    {
      var pairing := store.GetPossiblePairing();
      if pairing.None? {
        return;
      }
      var source := pairing.value.source;
      var target := pairing.value.target;
      currentPairing := Some(PairingRule(source, target));
      var filleuls := AvailableFilleuls(store.students, source);
      var parrains := AvailableParrains(store.students, target);
      if |filleuls| == 0 || |parrains| == 0 {
        return;
      }
      selectedFilleul := Some(filleuls[rf]);
      selectedParrain := Some(parrains[rp]);
      countdown := CountdownStart;
      state := Countdown;
    }

    /** The back-to-home button, shown only in the finished state. */
    method ResetCeremony()
      requires state == Finished
      modifies this
      ensures Snapshot() == Reset(old(Snapshot()))
    {
      state := Idle;
      selectedFilleul := None;
      selectedParrain := None;
      displayedFilleul := None;
      displayedParrain := None;
    }

    /** The synchronous part of the effect after a change of state or counter. */
    method RunEffect()
      modifies this
      ensures Snapshot().session == Settle(old(Snapshot()).session, store.students)
    {
      if state == Countdown && countdown <= 0 {
        state := SelectingFilleul;
      }
      if (state == SelectingFilleul || state == SelectingParrain) && currentPairing.Some? {
        candidates := SidePool(store.students, currentPairing.value, SideOf(state));
        shuffles := 0;
      }
    }

    /** One firing of the shuffle interval. */
    method ShuffleOnce(g: GroupType, draws: seq<nat>)
      requires DrawsFit(candidates, if g == Filleul then displayedFilleul else displayedParrain, draws)
      modifies this
      ensures Snapshot().session == ShuffleStep(old(Snapshot()).session, g, draws)
    {
      var previous := if g == Filleul then displayedFilleul else displayedParrain;
      var next := ShufflePick(candidates, previous, draws);
      if g == Filleul {
        displayedFilleul := next;
      } else {
        displayedParrain := next;
      }
      shuffles := shuffles + 1;
      if shuffles >= ShuffleLimit(g) {
        if g == Filleul {
          displayedFilleul := selectedFilleul;
        } else {
          displayedParrain := selectedParrain;
        }
        pendingHold := Some(AfterHold(g));
      }
    }

    /** The next pending timer fires. */
    method FireTimer(draws: seq<nat>, matchId: string, now: int)
      requires TickFits(Snapshot(), draws)
      modifies this, store
      ensures Snapshot() == Tick(old(Snapshot()), draws, matchId, now)
    {
      if pendingHold.Some? {
        state := pendingHold.value;
        pendingHold := None;
        RunEffect();
        return;
      }
      match state {
        case Idle =>
        case Countdown =>
          if countdown > 0 {
            countdown := countdown - 1;
            RunEffect();
          }
        case SelectingFilleul =>
          if currentPairing.Some? {
            ShuffleOnce(Filleul, draws);
          }
        case TransitionToParrain =>
          state := SelectingParrain;
          RunEffect();
        case SelectingParrain =>
          if currentPairing.Some? {
            ShuffleOnce(Parrain, draws);
          }
        case Reveal =>
          state := Handshake;
        case Handshake =>
          if selectedFilleul.Some? && selectedParrain.Some? {
            store.CreateMatch(selectedFilleul.value.id, selectedParrain.value.id, matchId, now);
          }
          state := Finished;
        case Finished =>
      }
    }
  }
}
