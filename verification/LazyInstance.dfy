/**
 * Lazy construction of a shared object by a compare-and-swap and a spin loop. Any number of threads
 * call `LazyInstance::ptr()`, any number of times; each load, store and swap is one step, and the
 * steps interleave in every possible way.
 */
module LazyInstances {
  type Thread = nat

  datatype Cell = Init | Constructing | Done

  /** Where a thread is inside `ptr()` and the `needConstruction` it calls. */
  datatype Pc =
    | Outside    // not in ptr()
    | Loaded     // after the first load, whose value the code does not use
    | Checked    // mState was not DONE when read again; the swap comes next
    | Spinning   // lost the swap
    | Won        // needConstruction returned true; the constructor runs next
    | Built      // the constructor has run; doneConstructing comes next

  datatype Event =
    | ReturnTrue(t: Thread)
    | Construct(t: Thread)
    | StoreDone(t: Thread)
    | ReturnFalse(t: Thread)

  datatype State = State(cell: Cell, pc: map<Thread, Pc>, log: seq<Event>) {
    ghost function At(t: Thread): Pc {
      if t in pc then pc[t] else Outside
    }
  }

  ghost predicate Start(s: State) {
    s.cell == Init && s.pc == map[] && s.log == []
  }

  ghost function Move(s: State, t: Thread, cell: Cell, pc: Pc, events: seq<Event>): (s': State)
    ensures forall u :: s'.At(u) == if u == t then pc else s.At(u)
  {
    State(cell, s.pc[t := pc], s.log + events)
  }

  /** The one step that thread `t` can take. */
  ghost function Next(s: State, t: Thread): State {
    match s.At(t)
    case Outside => Move(s, t, s.cell, Loaded, [])
    case Loaded =>
      if s.cell == Done then Move(s, t, s.cell, Outside, [ReturnFalse(t)]) else Move(s, t, s.cell, Checked, [])
    case Checked =>
      if s.cell == Init then Move(s, t, Constructing, Won, [ReturnTrue(t)]) else Move(s, t, s.cell, Spinning, [])
    case Spinning =>
      if s.cell == Done then Move(s, t, s.cell, Outside, [ReturnFalse(t)]) else Move(s, t, s.cell, Spinning, [])
    case Won => Move(s, t, s.cell, Built, [Construct(t)])
    case Built => Move(s, t, Done, Outside, [StoreDone(t)])
  }

  /** The state after the threads of `schedule` have stepped in that order. */
  ghost function Run(s: State, schedule: seq<Thread>): State {
    if schedule == [] then s else Next(Run(s, schedule[..|schedule| - 1]), schedule[|schedule| - 1])
  }

  ghost predicate Busy(pc: Pc) { pc.Won? || pc.Built? }

  /** The winner's three events, in order and with no other event between them. */
  ghost function Winning(w: Thread): seq<Event> {
    [ReturnTrue(w), Construct(w), StoreDone(w)]
  }

  ghost predicate Inv(s: State) {
    match s.cell
    case Init => s.log == [] && forall t :: !Busy(s.At(t))
    case Constructing => exists w :: ConstructingBy(s, w)
    case Done => (exists w :: FinishedBy(s.log, w)) && forall t :: !Busy(s.At(t))
  }

  ghost predicate ConstructingBy(s: State, w: Thread) {
    && Busy(s.At(w)) && (forall t :: Busy(s.At(t)) ==> t == w)
    && s.log == if s.At(w).Won? then [ReturnTrue(w)] else [ReturnTrue(w), Construct(w)]
  }

  ghost predicate FinishedBy(log: seq<Event>, w: Thread) {
    |log| >= 3 && log[..3] == Winning(w) && forall i :: 3 <= i < |log| ==> log[i].ReturnFalse?
  }

  lemma NextKeepsInv(s: State, t: Thread)
    requires Inv(s)
    ensures Inv(Next(s, t))
  {
    var s' := Next(s, t);
    match s.cell {
      case Init =>
        if s'.cell == Constructing {
          assert ConstructingBy(s', t);
        }
      case Constructing =>
        var w :| ConstructingBy(s, w);
        if s'.cell == Done {
          assert FinishedBy(s'.log, w);
        } else {
          assert s'.At(w) == if t == w then Built else s.At(w);
          assert ConstructingBy(s', w);
        }
      case Done =>
        var w :| FinishedBy(s.log, w);
        assert FinishedBy(s'.log, w);
    }
  }

  lemma {:induction false} StepsKeepInv(s: State, schedule: seq<Thread>)
    requires Inv(s)
    ensures Inv(Run(s, schedule))
  {
    if schedule != [] {
      StepsKeepInv(s, schedule[..|schedule| - 1]);
      NextKeepsInv(Run(s, schedule[..|schedule| - 1]), schedule[|schedule| - 1]);
    }
  }

  lemma RunKeepsInv(s: State, schedule: seq<Thread>)
    requires Start(s)
    ensures Inv(Run(s, schedule))
  {
    StepsKeepInv(s, schedule);
  }

  /**
   * In every interleaving: one thread at most is told to construct, it constructs once and
   * publishes once, and every call that returns false does so after the object was built and published.
   */
  lemma ConstructedOnce(s: State, schedule: seq<Thread>)
    requires Start(s)
    ensures var log := Run(s, schedule).log;
            exists w :: log <= Winning(w) || FinishedBy(log, w)
  {
    RunKeepsInv(s, schedule);
    var end := Run(s, schedule);
    match end.cell {
      case Init =>
        assert end.log <= Winning(0);
      case Constructing =>
        var w :| ConstructingBy(end, w);
        assert end.log <= Winning(w);
      case Done =>
    }
  }

  lemma AtMostOneTrue(s: State, schedule: seq<Thread>, i: nat, j: nat)
    requires Start(s)
    requires var log := Run(s, schedule).log;
             i < |log| && j < |log| && log[i].ReturnTrue? && log[j].ReturnTrue?
    ensures i == j
  {
    ConstructedOnce(s, schedule);
  }

  lemma FalseOnlyAfterDone(s: State, schedule: seq<Thread>, i: nat)
    requires Start(s)
    requires i < |Run(s, schedule).log| && Run(s, schedule).log[i].ReturnFalse?
    ensures exists j :: 0 <= j < i && Run(s, schedule).log[j].StoreDone?
  {
    ConstructedOnce(s, schedule);
    assert i >= 3;
    assert Run(s, schedule).log[2].StoreDone?;
  }

  /** Once DONE is stored it stays, whoever steps. */
  lemma {:induction false} DoneIsFinal(s: State, schedule: seq<Thread>, more: seq<Thread>)
    requires Start(s) && Run(s, schedule).cell == Done
    ensures Run(s, schedule + more).cell == Done
    decreases |more|
  {
    if more == [] {
      assert schedule + more == schedule;
    } else {
      var front := more[..|more| - 1];
      assert (schedule + more)[..|schedule + more| - 1] == schedule + front;
      DoneIsFinal(s, schedule, front);
      RunKeepsInv(s, schedule + front);
      assert !Busy(Run(s, schedule + front).At(more[|more| - 1]));
    }
  }

  /** How often `w` steps. */
  ghost function Turns(schedule: seq<Thread>, w: Thread): nat {
    if schedule == [] then 0 else
      Turns(schedule[..|schedule| - 1], w) + if schedule[|schedule| - 1] == w then 1 else 0
  }

  /** While the winner constructs, no other thread is busy and the cell is theirs to read only. */
  lemma OthersWait(s: State, w: Thread, t: Thread)
    requires Inv(s) && Busy(s.At(w)) && t != w
    ensures Next(s, t).At(w) == s.At(w) && s.cell == Constructing && Next(s, t).cell == Constructing
  {
    assert !Busy(s.At(t));
  }

  lemma DoneStays(s: State, t: Thread)
    requires Inv(s) && s.cell == Done
    ensures Next(s, t).cell == Done
  {
    assert !Busy(s.At(t));
  }

  /**
   * No other thread can delay the winner: in every schedule its first step constructs, its second
   * publishes, and the cell is DONE from then on, however the others' steps fall in between.
   */
  lemma {:induction false} WinnerPublishes(s: State, w: Thread, schedule: seq<Thread>)
    requires Inv(s) && s.At(w).Won?
    ensures var end, turns := Run(s, schedule), Turns(schedule, w);
            && end.cell == (if turns < 2 then Constructing else Done)
            && (turns < 2 ==> end.At(w) == if turns == 0 then Won else Built)
  {
    if schedule != [] {
      var front, t := schedule[..|schedule| - 1], schedule[|schedule| - 1];
      WinnerPublishes(s, w, front);
      StepsKeepInv(s, front);
      var before := Run(s, front);
      if Turns(front, w) >= 2 {
        DoneStays(before, t);
      } else if t != w {
        OthersWait(before, w, t);
      }
    } else {
      assert s.cell == Constructing;
    }
  }
}
