/** Whole runs: what holds in every state, and what holds while EGL refuses no bracket. */
module Runs {
  import opened Worlds
  import opened WorldLaws
  import opened Agreement
  import opened Liveness

  // ---------------------------------------------------------------- brackets that EGL answers alike

  const OK := Bracket(true, true)

  /** EGL refuses none of the step's brackets, nor of the destructors'. */
  predicate Clean(op: Op, ends: seq<Bracket>) {
    && (forall i :: 0 <= i < |ends| ==> ends[i] == OK)
    && match op
       case CreateColorBuffer(_, _, _, br) => br == OK
       case FlushSurface(_, br, _) => br == OK
       case UpdateColorBuffer(_, br) => br == OK
       case Post(_, draw, read) => draw == OK && read == OK
       case SetupSubWindow(_, outer, draw, read) => outer == OK && draw == OK && read == OK
       case _ => true
  }

  ghost predicate AllOk(trips: seq<Trip>) {
    forall i :: 0 <= i < |trips| ==> trips[i].br == OK
  }

  lemma {:induction false} OkReturns(at: Egl, trips: seq<Trip>)
    requires at.slot == NONE && AllOk(trips)
    ensures Through(at, trips) == at
  {
    if trips != [] {
      OkReturns(at, trips[..|trips| - 1]);
    }
  }

  lemma {:induction false} OkWalks(idle: bool, p: Place, trips: seq<Trip>)
    requires AllOk(trips)
    ensures Walk(idle, p, trips) == if p == Home || trips == [] then p else if idle then Away else Gone
  {
    if trips != [] {
      OkWalks(idle, p, trips[..|trips| - 1]);
    }
  }

  lemma OkDestructors(n: nat, ends: seq<Bracket>)
    requires forall i :: 0 <= i < |ends| ==> ends[i] == OK
    ensures AllOk(Destructors(n, ends))
  {
    DestructorsAre(n, ends);
  }

  lemma WalkNext(idle: bool, p: Place, trips: seq<Trip>, trip: Trip)
    ensures Walk(idle, p, trips + [trip]) == Moved(idle, Walk(idle, p, trips), trip.br)
  {
    assert (trips + [trip])[..|trips|] == trips;
  }

  lemma WalkFrom(idle: bool, p: Place, trip: Trip, trips: seq<Trip>)
    ensures Walk(idle, p, [trip] + trips) == Walk(idle, Moved(idle, p, trip.br), trips)
    decreases |trips|
  {
    if trips == [] {
      assert [trip] + trips == [] + [trip];
      WalkNext(idle, p, [], trip);
    } else {
      var front := trips[..|trips| - 1];
      assert ([trip] + trips)[..|trips|] == [trip] + front;
      WalkFrom(idle, p, trip, front);
    }
  }

  // ---------------------------------------------------------------- setupSubWindow

  /** The last bracket inside `post` that was entered was also left. */
  predicate LastIsLeft(draw: Bracket, onPost: bool, read: Bracket) {
    if onPost && read.bindOk then read.unbindOk else draw.unbindOk
  }

  lemma PostWalks(idle: bool, win: nat, onPost: bool, draw: Bracket, read: Bracket)
    ensures var end := Walk(idle, Away, PostTrips(win, onPost, draw, read));
            end == if !draw.bindOk then Away
                   else if !idle then Gone else if LastIsLeft(draw, onPost, read) then Away else Gone
  {
    if draw.bindOk {
      WalkFrom(idle, Away, Trip(SubWin(win), draw), if onPost then [Trip(OWN, Checked(read))] else []);
      if onPost {
        assert [Trip(OWN, Checked(read))] == [] + [Trip(OWN, Checked(read))];
        WalkNext(idle, Moved(idle, Away, draw), [], Trip(OWN, Checked(read)));
      }
    }
  }

  /**
   * `setupSubWindow` posts the last buffer inside its own bracket, and there is one slot for both. For
   * every combination of answers the caller is back home exactly if the bracket was not entered, or was
   * left with nothing drawn inside it, or with nothing current before and the slot emptied by the drawing.
   */
  lemma SetupReturnsExactly(idle: bool, w: World, t: Thread, op: Op)
    requires op.SetupSubWindow?
    ensures Walk(idle, Home, Trips(w, t, op)) == Home <==>
              || w.frame.subWin || !op.windowOk || !op.outer.bindOk
              || (op.outer.unbindOk &&
                  (w.frame.lastPosted !in w.colorBuffers || !op.draw.bindOk ||
                   (idle && LastIsLeft(op.draw, w.frame.onPost, op.read))))
  {
    if Trips(w, t, op) != [] {
      var win := w.frame.made + 1;
      var enter, leave := Trip(SubWin(win), Bracket(true, false)), Trip(SubWin(win), Bracket(false, op.outer.unbindOk));
      var inner := if w.frame.lastPosted in w.colorBuffers then PostTrips(win, w.frame.onPost, op.draw, op.read)
                   else [];
      WalkNext(idle, Home, [enter] + inner, leave);
      WalkFrom(idle, Home, enter, inner);
      PostWalks(idle, win, w.frame.onPost, op.draw, op.read);
    }
  }

  /** The nested post draws over a slot that holds the caller's triple. */
  ghost predicate NestedPost(w: World, t: Thread, op: Op) {
    && op.SetupSubWindow? && !w.frame.subWin && op.windowOk && w.frame.lastPosted in w.colorBuffers
    && t in w.threads && w.threads[t].ctx != 0
  }

  /** `removeSubWindow` is called by a bound thread while there is a window, and EGL releases it. */
  ghost predicate Unwindows(w: World, t: Thread, op: Op) {
    op.RemoveSubWindow? && op.eglOk && w.frame.subWin && t in w.threads && w.threads[t].ctx != 0
  }

  // ---------------------------------------------------------------- when EGL refuses no bracket

  lemma CleanTrips(w: World, t: Thread, op: Op, ends: seq<Bracket>)
    requires Clean(op, ends)
    ensures op.SetupSubWindow? || AllOk(Trips(w, t, op))
  {
  }

  lemma CleanWalks(idle: bool, w: World, t: Thread, op: Op, ends: seq<Bracket>, n: nat)
    requires Clean(op, ends) && !op.SetupSubWindow?
    ensures Walk(idle, Walk(idle, Home, Trips(w, t, op)), Destructors(n, ends)) == Home
  {
    CleanTrips(w, t, op, ends);
    OkWalks(idle, Home, Trips(w, t, op));
    OkDestructors(n, ends);
    OkWalks(idle, Home, Destructors(n, ends));
  }

  lemma CleanSetup(idle: bool, w: World, t: Thread, op: Op, ends: seq<Bracket>, n: nat)
    requires Clean(op, ends) && op.SetupSubWindow?
    ensures Walk(idle, Walk(idle, Home, Trips(w, t, op)), Destructors(n, ends)) == Home <==>
              w.frame.subWin || !op.windowOk || w.frame.lastPosted !in w.colorBuffers || idle
  {
    SetupReturnsExactly(idle, w, t, op);
    OkDestructors(n, ends);
    OkWalks(idle, Walk(idle, Home, Trips(w, t, op)), Destructors(n, ends));
  }

  lemma CleanEnds(w: World, t: Thread, op: Op, ends: seq<Bracket>)
    requires Inv(w) && Enabled(w, t, op) && Clean(op, ends) && !op.ExitThread?
    ensures Ended(w, t, op, ends) != Home <==> NestedPost(w, t, op) || Unwindows(w, t, op)
  {
    if op.SetupSubWindow? {
      CleanSetup(IdleAfter(w, t, op), w, t, op, ends, Deaths(w, t, op));
      EffectFrames(w, t, op);
    } else if !op.RemoveSubWindow? {
      CleanWalks(IdleAfter(w, t, op), w, t, op, ends, Deaths(w, t, op));
    }
  }

  lemma {:induction false} OkSees(trips: seq<Trip>, cur: bool)
    requires AllOk(trips)
    ensures Sighted(Sighting(cur, true), true, trips) == Sighting(cur, true)
  {
    if trips != [] {
      OkSees(trips[..|trips| - 1], cur);
    }
  }

  lemma CleanExit(w: World, t: Thread, op: Op, ends: seq<Bracket>)
    requires Inv(w) && Enabled(w, t, op) && Clean(op, ends) && op.ExitThread?
    ensures !LeavesTriple(w, t, op, ends)
  {
    OkDestructors(Deaths(w, t, op), ends);
    OkSees(Destructors(Deaths(w, t, op), ends), op.eglOk || w.threads[t].ctx == 0);
  }

  /** Then only the resize, the nested post and the removal of the window can unsettle a state. */
  lemma CleanBreaksExactly(w: World, t: Thread, op: Op, ends: seq<Bracket>)
    requires Inv(w) && Enabled(w, t, op) && Clean(op, ends)
    ensures Breaks(w, t, op, ends) <==> ResizeBreaks(w, t, op) || NestedPost(w, t, op) || Unwindows(w, t, op)
  {
    if op.ExitThread? {
      CleanExit(w, t, op, ends);
    } else {
      CleanEnds(w, t, op, ends);
    }
  }

  // ---------------------------------------------------------------- runs

  datatype Step = Step(t: Thread, op: Op, ends: seq<Bracket>)

  ghost predicate Follows(w: World, step: Step, w': World) {
    Defined(w) && Enabled(w, step.t, step.op) && w' == Next(w, step.t, step.op, step.ends)
  }

  /** State `i + 1` is the result of step `i` in state `i`. */
  ghost predicate StepAt(worlds: seq<World>, steps: seq<Step>, i: nat)
    requires i < |steps| && |worlds| == |steps| + 1
  {
    Follows(worlds[i], steps[i], worlds[i + 1])
  }

  /** `worlds` are the states that `steps` lead through from the start. */
  ghost predicate IsRun(worlds: seq<World>, steps: seq<Step>) {
    |worlds| == |steps| + 1 && worlds[0] == START && forall i :: 0 <= i < |steps| ==> StepAt(worlds, steps, i)
  }

  /** Every state of every run: no dangling pointer, no leaked or shared pbuffer, sound tables and bindings. */
  lemma {:induction false} RunKeepsInv(worlds: seq<World>, steps: seq<Step>, k: nat)
    requires IsRun(worlds, steps) && k < |worlds|
    ensures Inv(worlds[k])
  {
    if k > 0 {
      assert StepAt(worlds, steps, k - 1);
      RunKeepsInv(worlds, steps, k - 1);
      NextKeepsInv(worlds[k - 1], steps[k - 1].t, steps[k - 1].op, steps[k - 1].ends);
    }
  }

  lemma {:induction false} RunKeepsSurfaces(worlds: seq<World>, steps: seq<Step>, k: nat)
    requires IsRun(worlds, steps) && k < |worlds|
    requires forall i :: 0 <= i < k ==> PositiveSizes(steps[i].op)
    ensures SurfacesOk(worlds[k])
  {
    if k > 0 {
      assert StepAt(worlds, steps, k - 1);
      RunKeepsInv(worlds, steps, k - 1);
      RunKeepsSurfaces(worlds, steps, k - 1);
      NextKeepsInv(worlds[k - 1], steps[k - 1].t, steps[k - 1].op, steps[k - 1].ends);
    }
  }

  ghost predicate BreaksAt(worlds: seq<World>, steps: seq<Step>, i: nat)
    requires i < |steps| && i < |worlds|
  {
    && Defined(worlds[i]) && Enabled(worlds[i], steps[i].t, steps[i].op)
    && Breaks(worlds[i], steps[i].t, steps[i].op, steps[i].ends)
  }

  ghost predicate UnbrokenUpTo(worlds: seq<World>, steps: seq<Step>, k: nat)
    requires k <= |steps| && k <= |worlds|
  {
    forall i :: 0 <= i < k ==> !BreaksAt(worlds, steps, i)
  }

  lemma StepAgrees(worlds: seq<World>, steps: seq<Step>, i: nat)
    requires IsRun(worlds, steps) && i < |steps| && UnbrokenUpTo(worlds, steps, i + 1) && Inv(worlds[i])
    requires Settled(worlds[i])
    ensures Settled(worlds[i + 1])
  {
    assert StepAt(worlds, steps, i) && !BreaksAt(worlds, steps, i);
    AgreementExactly(worlds[i], steps[i].t, steps[i].op, steps[i].ends);
  }

  lemma {:induction false} RunIsSettled(worlds: seq<World>, steps: seq<Step>, k: nat)
    requires IsRun(worlds, steps) && k < |worlds| && UnbrokenUpTo(worlds, steps, k)
    ensures Settled(worlds[k])
  {
    if k > 0 {
      RunIsSettled(worlds, steps, k - 1);
      RunKeepsInv(worlds, steps, k - 1);
      StepAgrees(worlds, steps, k - 1);
    }
  }

  /**
   * On every run without such a step, EGL and the thread infos agree, the slot is empty and nothing
   * current is destroyed.
   */
  lemma RunAgrees(worlds: seq<World>, steps: seq<Step>, k: nat)
    requires IsRun(worlds, steps) && k < |worlds| && UnbrokenUpTo(worlds, steps, k)
    ensures Inv(worlds[k]) && Settled(worlds[k]) && CurrentIsLive(worlds[k])
  {
    RunKeepsInv(worlds, steps, k);
    RunIsSettled(worlds, steps, k);
    SettledIsLive(worlds[k]);
  }

  /** EGL refuses none of the step's brackets, and it is none of the three steps that break agreement then. */
  ghost predicate HarmlessAt(worlds: seq<World>, steps: seq<Step>, i: nat)
    requires i < |steps| && i < |worlds|
  {
    && Clean(steps[i].op, steps[i].ends)
    && (Defined(worlds[i]) ==>
          && !ResizeBreaks(worlds[i], steps[i].t, steps[i].op) && !NestedPost(worlds[i], steps[i].t, steps[i].op)
          && !Unwindows(worlds[i], steps[i].t, steps[i].op))
  }

  lemma PlainIsHarmless(worlds: seq<World>, steps: seq<Step>, i: nat)
    requires i < |steps| && i < |worlds| && Clean(steps[i].op, steps[i].ends)
    requires !steps[i].op.SetColorBuffer? && !steps[i].op.SetupSubWindow? && !steps[i].op.RemoveSubWindow?
    ensures HarmlessAt(worlds, steps, i)
  {
  }

  lemma HarmlessStep(worlds: seq<World>, steps: seq<Step>, i: nat)
    requires |worlds| == |steps| + 1 && i < |steps| && Inv(worlds[i]) && HarmlessAt(worlds, steps, i)
    ensures !BreaksAt(worlds, steps, i)
  {
    if BreaksAt(worlds, steps, i) {
      CleanBreaksExactly(worlds[i], steps[i].t, steps[i].op, steps[i].ends);
    }
  }

  /** A run on which EGL refuses no bracket agrees as long as none of the three steps is taken. */
  lemma CleanRunAgrees(worlds: seq<World>, steps: seq<Step>, k: nat)
    requires IsRun(worlds, steps) && k < |worlds| && forall i :: 0 <= i < k ==> HarmlessAt(worlds, steps, i)
    ensures Inv(worlds[k]) && Settled(worlds[k]) && CurrentIsLive(worlds[k])
  {
    forall i | 0 <= i < k
      ensures !BreaksAt(worlds, steps, i)
    {
      RunKeepsInv(worlds, steps, i);
      HarmlessStep(worlds, steps, i);
    }
    RunAgrees(worlds, steps, k);
  }

  lemma SettledIsLive(w: World)
    requires Inv(w) && Settled(w)
    ensures Tied(w) && CurrentIsLive(w)
  {
    forall u | u in w.threads
      ensures TiedOn(w, u)
    {
      assert AgreesOn(w, u);
    }
    TiedIsLive(w);
  }

  ghost predicate UnsafeAt(worlds: seq<World>, steps: seq<Step>, i: nat)
    requires i < |steps| && i < |worlds|
  {
    && Defined(worlds[i]) && Enabled(worlds[i], steps[i].t, steps[i].op)
    && (|| DestroysCurrent(worlds[i], steps[i].t, steps[i].op, steps[i].ends)
        || StaleIn(worlds[i], steps[i].t, steps[i].op, steps[i].ends))
  }

  ghost predicate SafeUpTo(worlds: seq<World>, steps: seq<Step>, k: nat)
    requires k <= |steps| && k <= |worlds|
  {
    forall i :: 0 <= i < k ==> !UnsafeAt(worlds, steps, i)
  }

  lemma StepIsLive(worlds: seq<World>, steps: seq<Step>, i: nat)
    requires IsRun(worlds, steps) && i < |steps| && SafeUpTo(worlds, steps, i + 1) && Inv(worlds[i]) && Tied(worlds[i])
    ensures Tied(worlds[i + 1])
  {
    assert StepAt(worlds, steps, i) && !UnsafeAt(worlds, steps, i);
    LivenessExactly(worlds[i], steps[i].t, steps[i].op, steps[i].ends);
  }

  lemma {:induction false} RunIsTied(worlds: seq<World>, steps: seq<Step>, k: nat)
    requires IsRun(worlds, steps) && k < |worlds| && SafeUpTo(worlds, steps, k)
    ensures Tied(worlds[k])
  {
    if k > 0 {
      RunIsTied(worlds, steps, k - 1);
      RunKeepsInv(worlds, steps, k - 1);
      StepIsLive(worlds, steps, k - 1);
    }
  }

  /**
   * Whatever EGL refuses on the way: nothing destroyed is current until a step destroys what a thread
   * has current, or leaves its caller with a stale slot's triple.
   */
  lemma RunIsLive(worlds: seq<World>, steps: seq<Step>, k: nat)
    requires IsRun(worlds, steps) && k < |worlds| && SafeUpTo(worlds, steps, k)
    ensures Tied(worlds[k]) && CurrentIsLive(worlds[k])
  {
    RunKeepsInv(worlds, steps, k);
    RunIsTied(worlds, steps, k);
    TiedIsLive(worlds[k]);
  }

  // ---------------------------------------------------------------- the slot

  lemma SetupEmpties(at: Egl, win: Triple, inner: seq<Trip>)
    ensures Through(at, [Trip(win, Bracket(true, false))] + inner + [Trip(win, Bracket(false, true))]).slot == NONE
  {
    var trips, leave := [Trip(win, Bracket(true, false))] + inner, Trip(win, Bracket(false, true));
    assert (trips + [leave])[..|trips|] == trips;
  }

  lemma CleanFraming(w: World, t: Thread, op: Op, ends: seq<Bracket>)
    requires Clean(op, ends) && w.frame.slot == NONE
    ensures Framed(w, t, op).frame.slot == NONE
  {
    if t in w.current {
      FramedIs(w, t, op);
      if op.SetupSubWindow? {
        if Trips(w, t, op) != [] {
          var win := w.frame.made + 1;
          SetupEmpties(EglAt(w, t), SubWin(win),
                       if w.frame.lastPosted !in w.colorBuffers then []
                       else PostTrips(win, w.frame.onPost, op.draw, op.read));
        }
      } else {
        CleanTrips(w, t, op, ends);
        OkReturns(EglAt(w, t), Trips(w, t, op));
      }
    }
  }

  lemma CleanRelease(w: World, t: Thread, ends: seq<Bracket>)
    requires (forall i :: 0 <= i < |ends| ==> ends[i] == OK) && w.frame.slot == NONE
    ensures Release(w, t, ends).frame.slot == NONE && Release(w, t, ends).current == w.current
  {
    if t in w.current {
      OkDestructors(|Dead(w)|, ends);
      OkReturns(EglAt(w, t), Destructors(|Dead(w)|, ends));
      assert w.current[t := w.current[t]] == w.current;
    }
  }

  lemma BindingKeepsSlot(w: World, t: Thread, op: Op)
    requires Defined(w) && Enabled(w, t, op) && (Binds(op) || op.SetColorBuffer? || op.RemoveSubWindow?)
    ensures Effect(w, t, op).frame.slot == w.frame.slot
  {
    if op.BindContext? {
      var w' := BindingIs(w, t, op);
    } else if op.SetColorBuffer? {
      var w' := DetachingIs(w, t, op);
    }
  }

  lemma CleanEffect(w: World, t: Thread, op: Op, ends: seq<Bracket>)
    requires Defined(w) && Enabled(w, t, op) && Clean(op, ends) && w.frame.slot == NONE
    ensures Effect(w, t, op).frame.slot == NONE
  {
    if Binds(op) || op.SetColorBuffer? || op.RemoveSubWindow? {
      BindingKeepsSlot(w, t, op);
    } else if Creates(op) || op.FlushSurface? {
      CleanFraming(w, t, op, ends);
    } else {
      CleanFraming(Retabled(w, t, op), t, op, ends);
    }
  }

  lemma FinishKeepsFrame(w: World, t: Thread, op: Op)
    ensures Finish(w, t, op).frame == w.frame
  {
  }

  /** A step whose brackets EGL does not refuse leaves the slot empty. */
  lemma CleanEmptiesSlot(w: World, t: Thread, op: Op, ends: seq<Bracket>)
    requires Defined(w) && Enabled(w, t, op) && Clean(op, ends) && w.frame.slot == NONE
    ensures Next(w, t, op, ends).frame.slot == NONE
  {
    CleanEffect(w, t, op, ends);
    CleanRelease(Effect(w, t, op), t, ends);
    FinishKeepsFrame(Freed(Effect(w, t, op), t, op, ends), t, op);
  }

  /** The steps that are not about bindings. */
  predicate Unbinding(op: Op) {
    && !op.StartThread? && !op.ExitThread? && !op.BindContext? && !op.SetColorBuffer?
    && !op.SetupSubWindow? && !op.RemoveSubWindow?
  }

  /** And if it is not about bindings, every thread has current what it had before. */
  lemma CleanKeepsTriples(w: World, t: Thread, op: Op, ends: seq<Bracket>)
    requires Inv(w) && Enabled(w, t, op) && Clean(op, ends) && w.frame.slot == NONE && Unbinding(op)
    ensures Next(w, t, op, ends).current == w.current
  {
    EffectFrames(w, t, op);
    CleanTrips(w, t, op, ends);
    OkReturns(EglAt(w, t), Trips(w, t, op));
    SameTriples(w, Effect(w, t, op), t, Trips(w, t, op));
    CleanRelease(Effect(w, t, op), t, ends);
    FinishIsIdle(w, t, op, ends);
  }

  lemma SameTriples(w: World, w': World, t: Thread, trips: seq<Trip>)
    requires w.threads.Keys == w.current.Keys && Frames(w, w', t, trips) && Through(EglAt(w, t), trips) == EglAt(w, t)
    ensures w'.current == w.current && w'.frame.slot == w.frame.slot
  {
  }

  /** Between the locked operations of a run in which EGL refuses no bracket, the slot is empty. */
  lemma {:induction false} RunEmptiesSlot(worlds: seq<World>, steps: seq<Step>, k: nat)
    requires IsRun(worlds, steps) && k < |worlds|
    requires forall i :: 0 <= i < k ==> Clean(steps[i].op, steps[i].ends)
    ensures worlds[k].frame.slot == NONE
  {
    if k > 0 {
      assert StepAt(worlds, steps, k - 1);
      RunEmptiesSlot(worlds, steps, k - 1);
      CleanEmptiesSlot(worlds[k - 1], steps[k - 1].t, steps[k - 1].op, steps[k - 1].ends);
    }
  }

  // ---------------------------------------------------------------- single steps of concrete runs

  /** Every object has an owner. */
  ghost predicate Tidy(w: World) {
    && (forall s :: s in w.surfaces ==> SurfaceHeld(w, s))
    && (forall c :: c in w.ctxs ==> ContextHeld(w, c))
    && (forall b :: b in w.buffers ==> BufferHeld(w, b))
  }

  lemma TidyRelease(w: World, t: Thread, ends: seq<Bracket>)
    requires Tidy(w)
    ensures Release(w, t, ends) == w
  {
    assert SweepSurfaces(w) == w;
    assert Sweep(w) == w;
  }

  lemma CleanFrame(w: World, t: Thread, op: Op)
    requires Clean(op, []) && w.frame.slot == NONE && Creates(op) && t in w.current
    ensures Framed(w, t, op) == w
  {
    FramedIs(w, t, op);
    CleanTrips(w, t, op, []);
    OkReturns(EglAt(w, t), Trips(w, t, op));
    assert w.current[t := w.current[t]] == w.current;
  }

  lemma CreateIs(w: World, t: Thread, op: Op, h: Handle, w': World)
    requires Defined(w) && t in w.threads && Creates(op) && Room(w) && Clean(op, []) && w.frame.slot == NONE
    requires GenHandle(w) == h && w' == CreatedAs(w, h, op) && Tidy(w')
    ensures Follows(w, Step(t, op, []), w')
  {
    CleanFrame(w, t, op);
    TidyRelease(w', t, []);
  }

  lemma CloseIs(w: World, t: Thread, h: Handle, ends: seq<Bracket>, w1: World)
    requires Defined(w) && t in w.threads && h in w.colorBuffers && w1 == Close(w, h)
    ensures Follows(w, Step(t, CloseColorBuffer(h), ends), Release(w1, t, ends))
  {
    CloseEffect(w, t, h);
  }

  lemma CloseEffect(w: World, t: Thread, h: Handle)
    requires Defined(w) && t in w.threads && h in w.colorBuffers
    ensures Effect(w, t, CloseColorBuffer(h)) == Close(w, h)
  {
  }

  lemma StartEffect(w: World, t: Thread)
    requires Defined(w)
    ensures Effect(w, t, StartThread) == AddThread(w, t)
  {
  }

  lemma StartIs(w: World, t: Thread)
    requires Defined(w) && Tidy(AddThread(w, t))
    ensures Follows(w, Step(t, StartThread, []), AddThread(w, t))
  {
    StartEffect(w, t);
    TidyRelease(AddThread(w, t), t, []);
  }

  lemma ExtendRun(worlds: seq<World>, steps: seq<Step>, step: Step, w': World)
    requires IsRun(worlds, steps) && Follows(worlds[|steps|], step, w')
    ensures IsRun(worlds + [w'], steps + [step])
  {
    forall i | 0 <= i < |steps| + 1
      ensures StepAt(worlds + [w'], steps + [step], i)
    {
      if i < |steps| {
        assert StepAt(worlds, steps, i);
      }
    }
  }

  lemma ExtendTwice(worlds: seq<World>, steps: seq<Step>, w: World, step1: Step, w1: World, step2: Step, w2: World)
    requires IsRun(worlds, steps) && worlds[|steps|] == w && Follows(w, step1, w1) && Follows(w1, step2, w2)
    ensures IsRun(worlds + [w1] + [w2], steps + [step1] + [step2])
  {
    ExtendRun(worlds, steps, step1, w1);
    ExtendRun(worlds + [w1], steps + [step1], step2, w2);
  }
}
