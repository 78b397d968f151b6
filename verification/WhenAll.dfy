/** `when_all`: the children may finish on any thread, each decrement of the shared counter
    is one atomic step, and the starter's own decrement may fall anywhere between them. */
module WhenAll {

  /** A child: not started, running, finished, the one whose decrement reached zero and must
      post the caller, or through with the awaiter. */
  datatype Child = NotStarted | Running | Finished | MustPost | Through

  datatype Starter = Starting(next: nat) | Suspended | Continued

  /** `resumes` counts posts of the caller and its own return from `await_suspend`; `alive`
      says whether the awaiter still exists; `fault` that it was touched after its end. */
  datatype State = State(
    kids: seq<Child>, starter: Starter, remaining: int, caller: bool, resumes: nat, alive: bool, fault: bool)

  datatype Step = Start | Finish(i: nat) | Decrement(i: nat) | Post(i: nat) | Decide | CallerRuns

  function Init(n: nat): State {
    State(seq(n, _ => NotStarted), Starting(0), n + 1, true, 0, true, false)
  }

  predicate Enabled(s: State, step: Step) {
    match step
    case Start => s.starter.Starting? && s.starter.next < |s.kids|
    case Finish(i) => i < |s.kids| && s.kids[i] == Running
    case Decrement(i) => i < |s.kids| && s.kids[i] == Finished
    case Post(i) => i < |s.kids| && s.kids[i] == MustPost
    case Decide => s.starter == Starting(|s.kids|)
    case CallerRuns => s.resumes > 0 && s.alive
  }

  function Apply(s: State, step: Step): State
    requires Enabled(s, step)
  {
    match step
    case Start =>
      var i := s.starter.next;
      s.(kids := s.kids[i := Running], starter := Starting(i + 1), fault := s.fault || !s.alive)
    case Finish(i) => s.(kids := s.kids[i := Finished])
    case Decrement(i) =>
      s.(kids := s.kids[i := if s.remaining == 1 then MustPost else Through],
         remaining := s.remaining - 1, fault := s.fault || !s.alive)
    case Post(i) =>
      s.(kids := s.kids[i := Through], caller := false,
         resumes := if s.caller then s.resumes + 1 else s.resumes, fault := s.fault || !s.alive)
    case Decide =>
      if s.remaining > 1
      then s.(starter := Suspended, remaining := s.remaining - 1, fault := s.fault || !s.alive)
      else s.(starter := Continued, remaining := s.remaining - 1, resumes := s.resumes + 1,
              fault := s.fault || !s.alive)
    case CallerRuns => s.(alive := false)
  }

  /** How many children have not decremented the counter yet. */
  function Pending(kids: seq<Child>): nat {
    if kids == [] then 0
    else (if kids[0] == MustPost || kids[0] == Through then 0 else 1) + Pending(kids[1..])
  }

  lemma {:induction false} PendingUpdate(kids: seq<Child>, i: nat, c: Child)
    requires i < |kids|
    ensures Pending(kids[i := c]) == Pending(kids)
      - (if kids[i] == MustPost || kids[i] == Through then 0 else 1)
      + (if c == MustPost || c == Through then 0 else 1)
  {
    if i > 0 {
      PendingUpdate(kids[1..], i - 1, c);
      assert kids[i := c][1..] == kids[1..][i - 1 := c];
    }
  }

  lemma {:induction false} NonePending(kids: seq<Child>, i: nat)
    requires i < |kids| && Pending(kids) == 0
    ensures kids[i] == MustPost || kids[i] == Through
  {
    if i > 0 {
      NonePending(kids[1..], i - 1);
    }
  }

  lemma {:induction false} AllPending(n: nat)
    ensures Pending(seq(n, _ => NotStarted)) == n
  {
    if n > 0 {
      AllPending(n - 1);
      assert seq(n, _ => NotStarted)[1..] == seq(n - 1, _ => NotStarted);
    }
  }

  ghost predicate Inv(s: State) {
    && !s.fault
    && s.remaining == Pending(s.kids) + (if s.starter.Starting? then 1 else 0)
    && (s.starter.Starting? ==>
          && s.starter.next <= |s.kids|
          && forall i :: 0 <= i < |s.kids| ==> (s.kids[i] == NotStarted <==> s.starter.next <= i))
    && (!s.starter.Starting? ==> forall i :: 0 <= i < |s.kids| ==> s.kids[i] != NotStarted)
    && (forall i, j :: 0 <= i < j < |s.kids| ==> s.kids[i] != MustPost || s.kids[j] != MustPost)
    && (forall i :: 0 <= i < |s.kids| && s.kids[i] == MustPost ==>
          s.remaining == 0 && s.resumes == 0 && s.starter == Suspended && s.caller)
    && (s.remaining > 0 ==> s.resumes == 0 && s.caller && s.starter != Continued)
    && (s.remaining == 0 ==> (s.resumes == 1 || exists i :: 0 <= i < |s.kids| && s.kids[i] == MustPost))
    && s.resumes <= 1 && (!s.alive ==> s.resumes == 1)
  }

  lemma DecrementKeeps(s: State, i: nat)
    requires Inv(s) && Enabled(s, Decrement(i))
    ensures Inv(Apply(s, Decrement(i)))
  {
    var t := Apply(s, Decrement(i));
    PendingUpdate(s.kids, i, t.kids[i]);
    SomePending(s.kids, i);
    if s.remaining == 1 {
      assert t.kids[i] == MustPost;
    }
  }

  lemma {:induction false} SomePending(kids: seq<Child>, i: nat)
    requires i < |kids| && kids[i] != MustPost && kids[i] != Through
    ensures Pending(kids) > 0
  {
    if i > 0 {
      SomePending(kids[1..], i - 1);
    }
  }

  lemma StartKeeps(s: State)
    requires Inv(s) && Enabled(s, Start)
    ensures Inv(Apply(s, Start))
  {
    PendingUpdate(s.kids, s.starter.next, Running);
  }

  lemma FinishKeeps(s: State, i: nat)
    requires Inv(s) && Enabled(s, Finish(i))
    ensures Inv(Apply(s, Finish(i)))
  {
    PendingUpdate(s.kids, i, Finished);
    SomePending(s.kids, i);
  }

  lemma PostKeeps(s: State, i: nat)
    requires Inv(s) && Enabled(s, Post(i))
    ensures Inv(Apply(s, Post(i)))
  {
    PendingUpdate(s.kids, i, Through);
  }

  lemma StepKeeps(s: State, step: Step)
    requires Inv(s) && Enabled(s, step)
    ensures Inv(Apply(s, step))
  {
    match step
    case Start => StartKeeps(s);
    case Finish(i) => FinishKeeps(s, i);
    case Decrement(i) => DecrementKeeps(s, i);
    case Post(i) => PostKeeps(s, i);
    case Decide =>
    case CallerRuns =>
  }

  predicate Runs(s: State, steps: seq<Step>, t: State)
    decreases |steps|
  {
    if steps == [] then t == s else Enabled(s, steps[0]) && Runs(Apply(s, steps[0]), steps[1..], t)
  }

  lemma {:induction false} RunKeeps(s: State, steps: seq<Step>, t: State)
    requires Inv(s) && Runs(s, steps, t)
    ensures Inv(t)
    decreases |steps|
  {
    if steps != [] {
      StepKeeps(s, steps[0]);
      RunKeeps(Apply(s, steps[0]), steps[1..], t);
    }
  }

  /** For any number of children and every interleaving, the caller is resumed at most once,
      only after every child has finished and made its decrement, exactly once when nothing
      is left to do, and nobody touches the awaiter after the caller may have destroyed it. */
  lemma CallerOnce(n: nat, steps: seq<Step>, t: State)
    requires Runs(Init(n), steps, t)
    ensures !t.fault && t.resumes <= 1
    ensures t.resumes == 1 ==> forall i :: 0 <= i < |t.kids| ==> t.kids[i] == Through
    ensures (!t.starter.Starting? && forall i :: 0 <= i < |t.kids| ==> t.kids[i] == Through) ==> t.resumes == 1
  {
    AllPending(n);
    RunKeeps(Init(n), steps, t);
    if t.resumes == 1 {
      forall i | 0 <= i < |t.kids|
        ensures t.kids[i] == Through
      {
        NonePending(t.kids, i);
      }
    }
    if !t.starter.Starting? && forall i :: 0 <= i < |t.kids| ==> t.kids[i] == Through {
      NoneLeft(t.kids);
    }
  }

  lemma {:induction false} NoneLeft(kids: seq<Child>)
    requires forall i :: 0 <= i < |kids| ==> kids[i] == Through
    ensures Pending(kids) == 0
  {
    if kids != [] {
      NoneLeft(kids[1..]);
    }
  }
}
