/** `when_any` of two tasks, split into its atomic steps: the children's compare-and-swap of
    the ready index and exchange of the stage, and the starter's load, exchange and load. */
module WhenAny {
  import opened Prelude

  /** A child: not started, running, its body ended, winner between its swap and its exchange,
      winner that must post the caller, through with the awaiter, or cancelled. */
  datatype Child = NotStarted | Running | Finished | Won | MustPost | Through | Cancelled

  /** The starter: starts the first child, loads the index, starts the second, exchanges the
      stage, loads the index again; then suspends or continues. */
  datatype Starter = First | Check | Second | Exchange | Recheck | Suspended | Continued

  /** What the atomic steps read and write; `overlap` is history: both windows were open at once. */
  datatype Race = Race(
    a: Child, b: Child, starter: Starter, ready: Option<nat>, stage: nat, caller: bool, resumes: nat, overlap: bool)

  /** `alive` says whether the awaiter still exists, `fault` that it was touched after its end. */
  datatype State = State(
    race: Race, alive: bool, fault: bool,
    finished: seq<nat>,   // history: the children in the order in which their bodies ended
    read: Option<nat>,    // history: the index the resumed caller read
    early: bool)          // history: the caller ended the awaiter while somebody was using it

  datatype Step =
    | StartFirst | CheckIndex | StartSecond | ExchangeStage | RecheckIndex
    | Finish(i: nat) | Swap(i: nat) | Publish(i: nat) | Post(i: nat)
    | CallerRuns  // the resumed caller reads the index, cancels the loser and ends the awaiter

  const START: Race := Race(NotStarted, NotStarted, First, None, 0, true, 0, false)

  function Init(): State {
    State(START, true, false, [], None, false)
  }

  function Kid(s: Race, i: nat): Child {
    if i == 0 then s.a else s.b
  }

  function SetKid(s: Race, i: nat, c: Child): Race {
    if i == 0 then s.(a := c) else s.(b := c)
  }

  /** The winner is between claiming the index and publishing the stage. */
  predicate WinnerOpen(s: Race) {
    s.a == Won || s.b == Won
  }

  /** The starter is between publishing the stage and its last look at the index. */
  predicate StarterOpen(s: Race) {
    s.starter == Recheck
  }

  /** Between the end of its body and its last access to the awaiter. */
  predicate Notifying(c: Child) {
    c == Finished || c == Won || c == MustPost
  }

  /** Somebody is about to use the awaiter. */
  predicate InUse(s: Race) {
    StarterOpen(s) || Notifying(s.a) || Notifying(s.b)
  }

  function Note(s: Race): Race {
    s.(overlap := s.overlap || (WinnerOpen(s) && StarterOpen(s)))
  }

  /** The destroyed awaiter cancels a child that is not done. */
  function Dropped(c: Child): Child {
    if c == NotStarted || c == Running then Cancelled else c
  }

  predicate Can(s: Race, step: Step) {
    match step
    case StartFirst => s.starter == First
    case CheckIndex => s.starter == Check
    case StartSecond => s.starter == Second
    case ExchangeStage => s.starter == Exchange
    case RecheckIndex => s.starter == Recheck
    case Finish(i) => i < 2 && Kid(s, i) == Running
    case Swap(i) => i < 2 && Kid(s, i) == Finished
    case Publish(i) => i < 2 && Kid(s, i) == Won
    case Post(i) => i < 2 && Kid(s, i) == MustPost
    case CallerRuns => s.resumes > 0
  }

  function Move(s: Race, step: Step): Race
    requires Can(s, step)
  {
    Note(match step
      case StartFirst => s.(a := Running, starter := Check)
      case CheckIndex =>
        if s.ready.Some? then s.(starter := Continued, resumes := s.resumes + 1) else s.(starter := Second)
      case StartSecond => s.(b := Running, starter := Exchange)
      case ExchangeStage =>
        if s.stage == 2 then s.(stage := 1, starter := Continued, resumes := s.resumes + 1)
        else s.(stage := 1, starter := Recheck)
      case RecheckIndex =>
        if s.ready.Some? then s.(starter := Continued, resumes := s.resumes + 1) else s.(starter := Suspended)
      case Finish(i) => SetKid(s, i, Finished)
      case Swap(i) => if s.ready == None then SetKid(s.(ready := Some(i)), i, Won) else SetKid(s, i, Through)
      case Publish(i) => SetKid(s.(stage := 2), i, if s.stage == 1 then MustPost else Through)
      case Post(i) =>
        SetKid(s.(caller := false, resumes := if s.caller then s.resumes + 1 else s.resumes), i, Through)
      case CallerRuns => s.(a := Dropped(s.a), b := Dropped(s.b)))
  }

  predicate Enabled(s: State, step: Step) {
    Can(s.race, step) && (step.CallerRuns? ==> s.alive)
  }

  function Apply(s: State, step: Step): State
    requires Enabled(s, step)
  {
    var t := s.(race := Move(s.race, step));
    match step
    case Finish(i) => t.(finished := s.finished + [i])
    case CallerRuns => t.(alive := false, read := s.race.ready, early := s.early || InUse(s.race))
    case _ => t.(fault := s.fault || !s.alive)
  }

  /** Nothing is left to do: the starter has decided and the winner is through. */
  predicate Settled(s: Race) {
    && (s.starter == Suspended || s.starter == Continued)
    && s.ready.Some? && Kid(s, s.ready.value) == Through
  }

  predicate Beaten(c: Child) {
    c != Won && c != MustPost
  }

  predicate BodyEnded(c: Child) {
    Notifying(c) || c == Through
  }

  function B(p: bool): nat {
    if p then 1 else 0
  }

  ghost predicate Inv(s: State) {
    RaceInv(s.race) && LifeInv(s) && BodyInv(s)
  }

  ghost predicate RaceInv(s: Race) {
    && s.stage <= 2
    && (s.ready.Some? ==> s.ready.value < 2 && Beaten(Kid(s, 1 - s.ready.value)))
    && (s.ready.Some? ==>
          var w := Kid(s, s.ready.value); w == Won || w == MustPost || w == Through)
    && (s.ready.None? ==> Beaten(s.a) && Beaten(s.b) && s.a != Through && s.b != Through)
    && (s.starter == First ==> s.a == NotStarted && s.b == NotStarted)
    && (s.starter == Check || s.starter == Second ==> s.b == NotStarted)
    && StageInv(s)
  }

  /** The stage and the number of resumptions, by where the winner and the starter stand. */
  ghost predicate StageInv(s: Race) {
    var winner := if s.ready.None? then NotStarted else Kid(s, s.ready.value);
    match s.starter
    case Suspended =>
      && !s.overlap
      && (if winner == Through then !s.caller && s.resumes == 1 && s.stage == 2
          else s.caller && s.resumes == 0 && s.stage == (if winner == MustPost then 2 else 1))
    case Continued =>
      && s.ready.Some?
      && (s.overlap ==> (if winner == Through then s.resumes == 2 && !s.caller else s.resumes == 1 && s.caller)
                        && s.stage == (if winner == Won then 1 else 2))
      && (!s.overlap ==> s.resumes == 1 && winner != MustPost && s.caller && (winner == Won ==> s.stage == 0))
    case Recheck =>
      && (s.overlap <==> s.ready.Some?)
      && s.caller == (winner != Through) && s.resumes == B(winner == Through)
      && s.stage == (if winner == MustPost || winner == Through then 2 else 1)
    case _ =>
      && !s.overlap && s.caller && s.resumes == 0 && winner != MustPost
      && s.stage == (if winner == Through then 2 else 0)
  }

  /** A fault comes from an early end, and from an early end comes a fault. */
  ghost predicate LifeInv(s: State) {
    && (s.alive ==> s.read == None && !s.early && !s.fault && s.race.a != Cancelled && s.race.b != Cancelled)
    && (!s.alive ==>
          && s.race.resumes > 0 && s.read == s.race.ready && s.race.ready.Some?
          && s.race.a == Dropped(s.race.a) && s.race.b == Dropped(s.race.b))
    && (s.fault ==> s.early) && (s.early ==> s.fault || InUse(s.race))
    && (!s.alive && !s.early ==> !InUse(s.race))
  }

  /** The history names exactly the children whose bodies have ended, each once. */
  ghost predicate BodyInv(s: State) {
    var f := s.finished;
    && |f| <= 2 && (|f| > 0 ==> f[0] < 2) && (|f| == 2 ==> f[1] == 1 - f[0])
    && (BodyEnded(s.race.a) <==> Named(f, 0)) && (BodyEnded(s.race.b) <==> Named(f, 1))
  }

  predicate Named(f: seq<nat>, i: nat) {
    (|f| > 0 && f[0] == i) || (|f| > 1 && f[1] == i)
  }

  lemma StarterRace(s: Race, step: Step)
    requires RaceInv(s) && Can(s, step)
    requires step.StartFirst? || step.CheckIndex? || step.StartSecond? || step.ExchangeStage? || step.RecheckIndex?
    ensures RaceInv(Move(s, step))
  {
    match step
    case StartFirst =>
    case CheckIndex =>
    case StartSecond =>
    case ExchangeStage =>
    case RecheckIndex =>
  }

  lemma FinishRace(s: Race, i: nat)
    requires RaceInv(s) && Can(s, Finish(i))
    ensures RaceInv(Move(s, Finish(i)))
  {
  }

  lemma SwapRace(s: Race, i: nat)
    requires RaceInv(s) && Can(s, Swap(i))
    ensures RaceInv(Move(s, Swap(i)))
  {
  }

  lemma PublishRace(s: Race, i: nat)
    requires RaceInv(s) && Can(s, Publish(i))
    ensures RaceInv(Move(s, Publish(i)))
  {
  }

  lemma PostRace(s: Race, i: nat)
    requires RaceInv(s) && Can(s, Post(i))
    ensures RaceInv(Move(s, Post(i)))
  {
  }

  lemma CallerRace(s: Race)
    requires RaceInv(s) && Can(s, CallerRuns)
    ensures RaceInv(Move(s, CallerRuns)) && s.ready.Some?
  {
  }

  lemma RaceKeeps(s: Race, step: Step)
    requires RaceInv(s) && Can(s, step)
    ensures RaceInv(Move(s, step))
  {
    match step
    case Finish(i) => FinishRace(s, i);
    case Swap(i) => SwapRace(s, i);
    case Publish(i) => PublishRace(s, i);
    case Post(i) => PostRace(s, i);
    case CallerRuns => CallerRace(s);
    case _ => StarterRace(s, step);
  }

  /** Once the awaiter has ended, only its users take steps. */
  lemma EndedByUsers(s: State, step: Step)
    requires RaceInv(s.race) && LifeInv(s) && Enabled(s, step) && !s.alive
    ensures step.RecheckIndex? || step.Swap? || step.Publish? || step.Post?
  {
  }

  lemma LifeKeeps(s: State, step: Step)
    requires RaceInv(s.race) && LifeInv(s) && Enabled(s, step)
    ensures LifeInv(Apply(s, step))
  {
    if s.alive {
      if step.CallerRuns? {
        CallerRace(s.race);
      } else {
        NotCancelled(s.race, step);
      }
    } else {
      EndedByUsers(s, step);
    }
  }

  lemma NotCancelled(s: Race, step: Step)
    requires Can(s, step) && !step.CallerRuns? && s.a != Cancelled && s.b != Cancelled
    ensures Move(s, step).a != Cancelled && Move(s, step).b != Cancelled
  {
    match step
    case Finish(i) =>
    case Swap(i) =>
    case Publish(i) =>
    case Post(i) =>
    case _ =>
  }

  lemma BodyKeeps(s: State, step: Step)
    requires RaceInv(s.race) && BodyInv(s) && Enabled(s, step)
    ensures BodyInv(Apply(s, step))
  {
    if !step.Finish? {
      BodiesStay(s.race, step);
    }
  }

  lemma BodiesStay(s: Race, step: Step)
    requires Can(s, step) && !step.Finish? && RaceInv(s)
    ensures BodyEnded(Move(s, step).a) == BodyEnded(s.a) && BodyEnded(Move(s, step).b) == BodyEnded(s.b)
  {
  }

  lemma StepKeeps(s: State, step: Step)
    requires Inv(s) && Enabled(s, step)
    ensures Inv(Apply(s, step))
  {
    RaceKeeps(s.race, step);
    LifeKeeps(s, step);
    BodyKeeps(s, step);
  }

  lemma StepRemembers(s: Race, step: Step)
    requires Can(s, step)
    ensures s.ready.Some? ==> Move(s, step).ready == s.ready
    ensures s.overlap ==> Move(s, step).overlap
  {
  }

  predicate Runs(s: State, steps: seq<Step>, t: State)
    decreases |steps|
  {
    if steps == [] then t == s else Enabled(s, steps[0]) && Runs(Apply(s, steps[0]), steps[1..], t)
  }

  lemma {:induction false} RunKeeps(s: State, steps: seq<Step>, t: State)
    requires Inv(s) && Runs(s, steps, t)
    ensures Inv(t) && (s.race.ready.Some? ==> t.race.ready == s.race.ready) && (s.race.overlap ==> t.race.overlap)
    decreases |steps|
  {
    if steps != [] {
      StepKeeps(s, steps[0]);
      StepRemembers(s.race, steps[0]);
      RunKeeps(Apply(s, steps[0]), steps[1..], t);
    }
  }

  /** Once everything has settled the caller has been resumed exactly once if, and only if, the
      winner's window between its swap and its exchange never overlapped the starter's window
      between its exchange and its last load; otherwise it has been resumed twice. */
  lemma OnceUnlessOverlap(steps: seq<Step>, t: State)
    requires Runs(Init(), steps, t) && Settled(t.race)
    ensures t.race.resumes == if t.race.overlap then 2 else 1
  {
    RunKeeps(Init(), steps, t);
  }

  /** The index, once claimed, never changes, names a child whose body has ended, and is the one
      the caller reads. */
  lemma ClaimedForGood(before: seq<Step>, after: seq<Step>, s: State, t: State)
    requires Runs(Init(), before, s) && Runs(s, after, t) && s.race.ready.Some?
    ensures t.race.ready == s.race.ready && s.race.ready.value in s.finished
    ensures t.read.Some? ==> t.read == s.race.ready
  {
    RunKeeps(Init(), before, s);
    RunKeeps(s, after, t);
    assert s.race.ready.value == 0 || s.race.ready.value == 1;
  }

  /** When nobody is left in the middle of a notification or of `await_suspend`, the awaiter was
      touched after its end if, and only if, the caller ended it while somebody was there. */
  lemma TouchedAfterEnd(steps: seq<Step>, t: State)
    requires Runs(Init(), steps, t)
    ensures t.fault ==> t.early
    ensures !InUse(t.race) ==> (t.fault <==> t.early)
  {
    RunKeeps(Init(), steps, t);
  }

  lemma {:induction false} RunsOn(s: State, steps: seq<Step>, t: State, step: Step)
    requires Runs(s, steps, t) && Enabled(t, step)
    ensures Runs(s, steps + [step], Apply(t, step))
    decreases |steps|
  {
    if steps == [] {
      assert steps + [step] == [step] && [step][1..] == [];
    } else {
      assert (steps + [step])[1..] == steps[1..] + [step];
      RunsOn(Apply(s, steps[0]), steps[1..], t, step);
    }
  }

  /** One more step of a run from the start. */
  lemma Then(steps: seq<Step>, s: State, step: Step, t: State)
    requires Runs(Init(), steps, s) && Enabled(s, step) && Apply(s, step) == t
    ensures Runs(Init(), steps + [step], t)
  {
    RunsOn(Init(), steps, s, step);
  }

  function At(race: Race, finished: seq<nat>): State {
    Init().(race := race, finished := finished)
  }

  const BOTH_RUN: Race := START.(a := Running, b := Running, starter := Exchange)

  lemma BothRunning() returns (steps: seq<Step>)
    ensures Runs(Init(), steps, At(BOTH_RUN, []))
  {
    var r1 := START.(a := Running, starter := Check);
    Then([], Init(), StartFirst, At(r1, []));
    Then([] + [StartFirst], At(r1, []), CheckIndex, At(r1.(starter := Second), []));
    steps := [] + [StartFirst] + [CheckIndex];
    Then(steps, At(r1.(starter := Second), []), StartSecond, At(BOTH_RUN, []));
    steps := steps + [StartSecond];
  }

  lemma FirstEnds() returns (steps: seq<Step>)
    ensures Runs(Init(), steps, At(BOTH_RUN.(a := Finished), [0]))
  {
    steps := BothRunning();
    assert [] + [0] == [0];
    Then(steps, At(BOTH_RUN, []), Finish(0), At(BOTH_RUN.(a := Finished), [0]));
    steps := steps + [Finish(0)];
  }

  /** The first child has claimed the index, and the starter publishes the stage. */
  lemma ClaimedAndPublished() returns (steps: seq<Step>)
    ensures Runs(Init(), steps, At(Race(Won, Running, Recheck, Some(0), 1, true, 0, true), [0]))
  {
    steps := FirstEnds();
    var r := BOTH_RUN.(a := Won, ready := Some(0));
    Then(steps, At(BOTH_RUN.(a := Finished), [0]), Swap(0), At(r, [0]));
    Then(steps + [Swap(0)], At(r, [0]), ExchangeStage, At(Race(Won, Running, Recheck, Some(0), 1, true, 0, true), [0]));
    steps := steps + [Swap(0)] + [ExchangeStage];
  }

  /** ... the starter sees the index claimed and continues; the winner publishes and must post. */
  lemma ContinuedAndPublished() returns (steps: seq<Step>)
    ensures Runs(Init(), steps, At(Race(MustPost, Running, Continued, Some(0), 2, true, 1, true), [0]))
  {
    steps := ClaimedAndPublished();
    var r := Race(Won, Running, Continued, Some(0), 1, true, 1, true);
    Then(steps, At(r.(starter := Recheck, resumes := 0), [0]), RecheckIndex, At(r, [0]));
    Then(steps + [RecheckIndex], At(r, [0]), Publish(0), At(r.(a := MustPost, stage := 2), [0]));
    steps := steps + [RecheckIndex] + [Publish(0)];
  }

  /** With the winner's steps split by the starter's, the caller is resumed twice: the first
      child claims the index, the starter publishes the stage and sees the index claimed, and
      the child's exchange then finds the stage published and posts the caller as well. */
  lemma ResumedTwice()
    ensures exists steps, t :: Runs(Init(), steps, t) && Settled(t.race) && t.race.resumes == 2
  {
    var q := ContinuedAndPublished();
    var u := Race(MustPost, Running, Continued, Some(0), 2, true, 1, true);
    var v := At(u.(a := Through, caller := false, resumes := 2), [0]);
    Then(q, At(u, [0]), Post(0), v);
    assert Settled(v.race);
  }

  lemma BothEnd() returns (steps: seq<Step>)
    ensures Runs(Init(), steps, At(BOTH_RUN.(a := Finished, b := Finished), [0, 1]))
  {
    steps := FirstEnds();
    assert [0] + [1] == [0, 1];
    Then(steps, At(BOTH_RUN.(a := Finished), [0]), Finish(1), At(BOTH_RUN.(a := Finished, b := Finished), [0, 1]));
    steps := steps + [Finish(1)];
  }

  /** On several threads the first child to end need not win: the other may swap before it. */
  lemma SecondMayWin()
    ensures exists steps, t :: Runs(Init(), steps, t) && t.finished == [0, 1] && t.race.ready == Some(1)
  {
    var q := BothEnd();
    var r := BOTH_RUN.(a := Finished, b := Finished);
    var t := At(r.(b := Won, ready := Some(1)), [0, 1]);
    Then(q, At(r, [0, 1]), Swap(1), t);
    assert t.finished == [0, 1];
  }

  // ---------------------------------------------------------------------------
  // On the single AbstractX thread
  // ---------------------------------------------------------------------------

  /** `FinalAwaiter` calls the hook at once: the child's end and `notify_winner`, uninterrupted. */
  function FinishAlone(s: State, i: nat): State
    requires Enabled(s, Finish(i))
  {
    var t := Apply(Apply(s, Finish(i)), Swap(i));
    if Kid(t.race, i) != Won then t else PublishAndPost(t, i)
  }

  function PublishAndPost(s: State, i: nat): State
    requires i < 2 && Kid(s.race, i) == Won
  {
    var u := Apply(s, Publish(i));
    if Kid(u.race, i) == MustPost then Apply(u, Post(i)) else u
  }

  /** The exchange and the load that end `await_suspend`, uninterrupted. */
  function DecideAlone(s: State): State
    requires s.race.starter == Exchange
  {
    var t := Apply(s, ExchangeStage);
    if t.race.starter == Recheck then Apply(t, RecheckIndex) else t
  }

  datatype Turn = Simple(step: Step) | FinishTurn(i: nat) | DecideTurn

  predicate Allowed(s: State, u: Turn) {
    match u
    case Simple(step) =>
      Enabled(s, step) && (step.StartFirst? || step.CheckIndex? || step.StartSecond? || step.CallerRuns?)
    case FinishTurn(i) => Enabled(s, Finish(i))
    case DecideTurn => s.race.starter == Exchange
  }

  function Take(s: State, u: Turn): State
    requires Allowed(s, u)
  {
    match u
    case Simple(step) => Apply(s, step)
    case FinishTurn(i) => FinishAlone(s, i)
    case DecideTurn => DecideAlone(s)
  }

  predicate Turns(s: State, us: seq<Turn>, t: State)
    decreases |us|
  {
    if us == [] then t == s else Allowed(s, us[0]) && Turns(Take(s, us[0]), us[1..], t)
  }

  /** Between turns nobody is using the awaiter, and the index is that of the first child to end. */
  ghost predicate TurnInv(s: State) {
    Inv(s) && !InUse(s.race) && !s.race.overlap && !s.early && s.race.ready == FirstOf(s.finished)
  }

  function FirstOf(q: seq<nat>): Option<nat> {
    if q == [] then None else Some(q[0])
  }

  lemma PublishWhole(s: State, i: nat)
    requires Inv(s) && !StarterOpen(s.race) && !s.race.overlap && !s.early
    requires i < 2 && Kid(s.race, i) == Won && !Notifying(Kid(s.race, 1 - i))
    ensures var t := PublishAndPost(s, i);
      && Inv(t) && !InUse(t.race) && !t.race.overlap && !t.early
      && t.finished == s.finished && t.race.ready == s.race.ready
  {
    StepKeeps(s, Publish(i));
    var u := Apply(s, Publish(i));
    OthersStay(s.race, Publish(i), i);
    if Kid(u.race, i) == MustPost {
      StepKeeps(u, Post(i));
      OthersStay(u.race, Post(i), i);
    }
  }

  /** The winner's steps leave the starter, the index and the other child alone. */
  lemma OthersStay(s: Race, step: Step, i: nat)
    requires (step == Publish(i) || step == Post(i)) && Can(s, step) && !StarterOpen(s)
    ensures var t := Move(s, step);
      && t.starter == s.starter && t.ready == s.ready && t.overlap == s.overlap && Kid(t, 1 - i) == Kid(s, 1 - i)
      && (Kid(t, i) == Through || (step.Publish? && Kid(t, i) == MustPost))
  {
  }

  lemma FinishWhole(s: State, i: nat)
    requires TurnInv(s) && Enabled(s, Finish(i))
    ensures TurnInv(FinishAlone(s, i))
  {
    StepKeeps(s, Finish(i));
    var r := Apply(s, Finish(i));
    StepKeeps(r, Swap(i));
    var t := Apply(r, Swap(i));
    assert FirstOf(t.finished) == if s.finished == [] then Some(i) else FirstOf(s.finished);
    if Kid(t.race, i) == Won {
      PublishWhole(t, i);
    }
  }

  lemma DecideWhole(s: State)
    requires TurnInv(s) && s.race.starter == Exchange
    ensures TurnInv(DecideAlone(s))
  {
    StepKeeps(s, ExchangeStage);
    var t := Apply(s, ExchangeStage);
    if t.race.starter == Recheck {
      StepKeeps(t, RecheckIndex);
    }
  }

  lemma {:induction false} TurnsKeep(s: State, us: seq<Turn>, t: State)
    requires TurnInv(s) && Turns(s, us, t)
    ensures TurnInv(t)
    decreases |us|
  {
    if us != [] {
      match us[0] {
        case Simple(step) => StepKeeps(s, step);
        case FinishTurn(i) => FinishWhole(s, i);
        case DecideTurn => DecideWhole(s);
      }
      TurnsKeep(Take(s, us[0]), us[1..], t);
    }
  }

  /** On one thread, over all orders of synchronous and later completion, the caller is resumed
      at most once, never before a child has ended, and exactly once when all is settled; and
      nobody touches the awaiter after the caller has ended it. */
  lemma OneThreadOnce(us: seq<Turn>, t: State)
    requires Turns(Init(), us, t)
    ensures t.race.resumes <= 1 && (t.race.resumes == 1 ==> t.finished != []) && !t.fault
    ensures Settled(t.race) ==> t.race.resumes == 1
  {
    TurnsKeep(Init(), us, t);
  }

  /** On one thread the caller reads the index of the child whose body ended first, also when
      the other one ends before the caller runs. */
  lemma FirstToFinishWins(us: seq<Turn>, t: State)
    requires Turns(Init(), us, t)
    ensures t.finished != [] ==> t.race.ready == Some(t.finished[0])
    ensures t.finished == [] ==> t.race.ready == None
    ensures t.read.Some? ==> t.finished != [] && t.read == Some(t.finished[0])
  {
    TurnsKeep(Init(), us, t);
  }
}
