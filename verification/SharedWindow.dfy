/**
 * Both ways to lose agreement are reached: a run of six ordinary steps leads to a sound state in which
 * attaching a larger colour buffer to a window takes the pbuffer away from another thread; and after
 * it two half-refused brackets give an idle thread another thread's triple.
 */
module SharedWindows {
  import opened Worlds
  import opened WorldLaws
  import opened Agreement
  import opened Liveness
  import opened Runs
  import opened FrameSteps
  import opened RefCounts

  const STEPS := [
    Step(1, StartThread, []),
    Step(2, StartThread, []),
    Step(1, CreateContext(0, true, true), []),
    Step(1, CreateWindow(10, 10, true), []),
    Step(1, CreateColorBuffer(20, 20, true, OK), []),
    Step(2, BindContext(1, 2, 2, true, NO_GL, NO_GL), [])]

  const IDLE_THREADS := map[1 := IDLE, 2 := IDLE]
  const IDLE_TRIPLES := map[1 := NONE, 2 := NONE]
  const WINDOW := Surface(7, 10, 10, 10, 10, 0, 0, 0, Blit(0, 0, 0))

  const ONE_THREAD := START.(threads := map[1 := IDLE], current := map[1 := NONE])
  const TWO_THREADS := START.(threads := IDLE_THREADS, current := IDLE_TRIPLES)
  const WITH_CONTEXT := TWO_THREADS.(
    nextHandle := 1, contexts := map[1 := 5], ctxs := map[5 := Context(true)], unused := 6)
  const WITH_WINDOW := WITH_CONTEXT.(
    nextHandle := 2, windows := map[2 := 6], surfaces := map[6 := WINDOW], pbuffers := {7}, unused := 8)
  const WITH_BUFFER := WITH_WINDOW.(
    nextHandle := 3, colorBuffers := map[3 := BufferRef(8, 1)], buffers := map[8 := Buffer(20, 20)], unused := 9)
  const SHARED := WITH_BUFFER.(
    surfaces := map[6 := WINDOW.(readCtx := 5, drawCtx := 5)],
    threads := map[1 := IDLE, 2 := ThreadInfo(5, 6, 6, 0, 5)],
    current := map[1 := NONE, 2 := Triple(7, 7, 5)])

  const WORLDS := [START, ONE_THREAD, TWO_THREADS, WITH_CONTEXT, WITH_WINDOW, WITH_BUFFER, SHARED]

  lemma StartEffects()
    ensures AddThread(START, 1) == ONE_THREAD && AddThread(ONE_THREAD, 2) == TWO_THREADS
    ensures Tidy(ONE_THREAD) && Tidy(TWO_THREADS)
  {
  }

  lemma StartStep1()
    ensures Follows(START, Step(1, StartThread, []), ONE_THREAD)
  {
    StartEffects();
    StartIs(START, 1);
  }

  lemma StartStep2()
    ensures Follows(ONE_THREAD, Step(2, StartThread, []), TWO_THREADS)
  {
    StartEffects();
    StartIs(ONE_THREAD, 2);
  }

  lemma ContextHandle()
    ensures Worlds.GenHandle(TWO_THREADS) == 1 && Room(TWO_THREADS)
  {
    UnwrappedHandle(TWO_THREADS, 0);
    assert |TWO_THREADS.contexts| == 0 && |TWO_THREADS.windows| == 0;
  }

  lemma ContextEffect()
    ensures CreatedAs(TWO_THREADS, 1, CreateContext(0, true, true)) == WITH_CONTEXT
  {
  }

  lemma ContextDefined()
    ensures Defined(TWO_THREADS) && 1 in TWO_THREADS.threads
  {
  }

  lemma ContextTidy()
    ensures Tidy(WITH_CONTEXT)
  {
    assert WITH_CONTEXT.contexts[1] == 5;
  }

  lemma ContextStep()
    ensures Follows(TWO_THREADS, Step(1, CreateContext(0, true, true), []), WITH_CONTEXT)
  {
    ContextHandle();
    ContextEffect();
    ContextDefined();
    ContextTidy();
    CreateIs(TWO_THREADS, 1, CreateContext(0, true, true), 1, WITH_CONTEXT);
  }

  lemma WindowHandle()
    ensures Worlds.GenHandle(WITH_CONTEXT) == 2 && Room(WITH_CONTEXT)
  {
    UnwrappedHandle(WITH_CONTEXT, 1);
    assert |WITH_CONTEXT.contexts| == 1 && |WITH_CONTEXT.windows| == 0;
  }

  lemma WindowEffect()
    ensures CreatedAs(WITH_CONTEXT, 2, CreateWindow(10, 10, true)) == WITH_WINDOW
  {
  }

  lemma WindowDefined()
    ensures Defined(WITH_CONTEXT) && 1 in WITH_CONTEXT.threads
  {
  }

  lemma WindowTidy()
    ensures Tidy(WITH_WINDOW)
  {
    assert WITH_WINDOW.contexts[1] == 5 && WITH_WINDOW.windows[2] == 6;
  }

  lemma WindowStep()
    ensures Follows(WITH_CONTEXT, Step(1, CreateWindow(10, 10, true), []), WITH_WINDOW)
  {
    WindowHandle();
    WindowEffect();
    WindowDefined();
    WindowTidy();
    CreateIs(WITH_CONTEXT, 1, CreateWindow(10, 10, true), 2, WITH_WINDOW);
  }

  lemma BufferHandle()
    ensures Worlds.GenHandle(WITH_WINDOW) == 3 && Room(WITH_WINDOW)
  {
    UnwrappedHandle(WITH_WINDOW, 2);
    assert |WITH_WINDOW.contexts| == 1 && |WITH_WINDOW.windows| == 1;
  }

  lemma BufferEffect()
    ensures CreatedAs(WITH_WINDOW, 3, CreateColorBuffer(20, 20, true, OK)) == WITH_BUFFER
  {
  }

  lemma BufferDefined()
    ensures Defined(WITH_WINDOW) && 1 in WITH_WINDOW.threads
  {
  }

  lemma BufferTidy()
    ensures Tidy(WITH_BUFFER)
  {
    assert WITH_BUFFER.contexts[1] == 5 && WITH_BUFFER.windows[2] == 6 && WITH_BUFFER.colorBuffers[3].cb == 8;
  }

  lemma BufferStep()
    ensures Follows(WITH_WINDOW, Step(1, CreateColorBuffer(20, 20, true, OK), []), WITH_BUFFER)
  {
    BufferHandle();
    BufferEffect();
    BufferDefined();
    BufferTidy();
    CreateIs(WITH_WINDOW, 1, CreateColorBuffer(20, 20, true, OK), 3, WITH_BUFFER);
  }

  lemma BindResult()
    ensures Bind(WITH_BUFFER, 2, 5, 6, 6, NO_GL, NO_GL) == SHARED
  {
    var w := Bind(WITH_BUFFER, 2, 5, 6, 6, NO_GL, NO_GL);
    assert w.surfaces == SHARED.surfaces && w.threads == SHARED.threads && w.current == SHARED.current;
  }

  lemma BindEffect()
    ensures Defined(WITH_BUFFER) && 2 in WITH_BUFFER.threads
    ensures Effect(WITH_BUFFER, 2, BindContext(1, 2, 2, true, NO_GL, NO_GL)) == SHARED
  {
    BindResult();
  }

  lemma BindStep()
    ensures Follows(WITH_BUFFER, Step(2, BindContext(1, 2, 2, true, NO_GL, NO_GL), []), SHARED)
  {
    BindEffect();
    assert SHARED.contexts[1] == 5 && SHARED.windows[2] == 6 && SHARED.colorBuffers[3].cb == 8;
    TidyRelease(SHARED, 2, []);
  }

  lemma StepFollows(i: nat)
    requires i < 6
    ensures Follows(WORLDS[i], STEPS[i], WORLDS[i + 1])
  {
    match i
    case 0 => StartStep1();
    case 1 => StartStep2();
    case 2 => ContextStep();
    case 3 => WindowStep();
    case 4 => BufferStep();
    case _ => BindStep();
  }

  lemma StepsAreARun()
    ensures IsRun(WORLDS, STEPS)
  {
    forall i | 0 <= i < |STEPS|
      ensures StepAt(WORLDS, STEPS, i)
    {
      StepFollows(i);
    }
  }

  lemma StepsAreHarmless()
    ensures |STEPS| == 6 && |WORLDS| == 7 && forall i :: 0 <= i < 6 ==> HarmlessAt(WORLDS, STEPS, i)
  {
    forall i | 0 <= i < 6
      ensures HarmlessAt(WORLDS, STEPS, i)
    {
      PlainIsHarmless(WORLDS, STEPS, i);
    }
  }

  /** The run keeps agreement up to its end. */
  lemma RunUpToShared()
    ensures IsRun(WORLDS, STEPS) && WORLDS[6] == SHARED
    ensures Inv(SHARED) && Settled(SHARED) && CurrentIsLive(SHARED)
  {
    StepsAreARun();
    StepsAreHarmless();
    CleanRunAgrees(WORLDS, STEPS, 6);
  }

  const ATTACH := SetColorBuffer(2, 3, Resizing(true, true, true))

  lemma SharedBreaks()
    ensures Defined(SHARED) && Enabled(SHARED, 1, ATTACH) && ResizeBreaks(SHARED, 1, ATTACH)
    ensures TakesPbuffer(SHARED, 1, ATTACH)
  {
    assert BoundOn(SHARED, 2, 6) && UsedBy(SHARED, 2, 7);
  }

  /** The attach by thread 1 then leaves a destroyed pbuffer current on thread 2, although EGL refuses nothing. */
  lemma AgreementCanBreak()
    ensures IsRun(WORLDS, STEPS) && WORLDS[6] == SHARED && Inv(SHARED) && Settled(SHARED) && Enabled(SHARED, 1, ATTACH)
    ensures var w := Next(SHARED, 1, ATTACH, []);
            Inv(w) && !Settled(w) && !CurrentIsLive(w)
  {
    RunUpToShared();
    SharedBreaks();
    AgreementExactly(SHARED, 1, ATTACH, []);
    SettledIsTied(SHARED, 1, ATTACH, []);
    LivenessExactly(SHARED, 1, ATTACH, []);
  }

  // ---------------------------------------------------------------- a stale slot

  const HALF_DONE := Bracket(true, false)
  const UNGUARDED := Bracket(false, true)
  const UPDATE := UpdateColorBuffer(3, HALF_DONE)

  /** After an update by thread 2 that EGL lets in but not out. */
  const HALF := SHARED.(current := map[1 := NONE, 2 := OWN], frame := SHARED.frame.(slot := Triple(7, 7, 5)))

  /** After thread 1 closed the buffer, when EGL refuses its destructor's bind but not its unbind. */
  const STRAY := HALF.(colorBuffers := map[], buffers := map[], frame := SHARED.frame,
                       current := map[1 := Triple(7, 7, 5), 2 := OWN])

  lemma HalfFrame()
    ensures Framed(SHARED, 2, UPDATE) == HALF
  {
    FramedIs(SHARED, 2, UPDATE);
    OneTrip(EglAt(SHARED, 2), Trip(OWN, HALF_DONE));
    assert SHARED.current[2 := OWN] == HALF.current;
  }

  lemma HalfTidy()
    ensures Tidy(HALF) && Defined(HALF)
  {
    assert HALF.contexts[1] == 5 && HALF.windows[2] == 6 && HALF.colorBuffers[3].cb == 8;
  }

  lemma UpdateIs(w: World, t: Thread, cb: Handle, br: Bracket, w': World)
    requires Defined(w) && t in w.threads && w' == Framed(w, t, UpdateColorBuffer(cb, br))
    ensures Follows(w, Step(t, UpdateColorBuffer(cb, br), []), w')
  {
  }

  lemma HalfStep()
    ensures Follows(SHARED, Step(2, UPDATE, []), HALF)
  {
    HalfFrame();
    HalfTidy();
    RunUpToShared();
    UpdateIs(SHARED, 2, 3, HALF_DONE, HALF);
  }

  lemma StraySurfaces(w: World)
    requires w == HALF.(colorBuffers := map[])
    ensures SweepSurfaces(w) == w && ContextHeld(w, 5)
  {
    assert w.contexts[1] == 5 && w.windows[2] == 6;
  }

  lemma StrayRest(w: World)
    requires w.ctxs.Keys == {5} && ContextHeld(w, 5) && w.buffers.Keys == {8} && !BufferHeld(w, 8)
    ensures SweepRest(w) == w.(buffers := map[])
  {
    assert SweepRest(w).ctxs == w.ctxs && SweepRest(w).buffers == map[];
  }

  lemma StrayUnheld(w: World)
    requires w == HALF.(colorBuffers := map[])
    ensures w.ctxs.Keys == {5} && w.buffers.Keys == {8} && !BufferHeld(w, 8)
  {
  }

  lemma StraySweep(w: World)
    requires w == HALF.(colorBuffers := map[])
    ensures Sweep(w) == w.(buffers := map[]) && Dead(w) == {8}
  {
    StraySurfaces(w);
    StrayUnheld(w);
    StrayRest(w);
  }

  lemma StrayBracket(at: Egl)
    ensures Through(at, Destructors(1, [UNGUARDED])) == Egl(at.slot, NONE)
  {
    assert Destructors(1, [UNGUARDED]) == [Trip(OWN, UNGUARDED)];
    OneTrip(at, Trip(OWN, UNGUARDED));
  }

  lemma StrayCurrent()
    ensures HALF.current[1 := Triple(7, 7, 5)] == STRAY.current && HALF.frame.(slot := NONE) == STRAY.frame
  {
  }

  lemma StrayRelease(w: World)
    requires w == HALF.(colorBuffers := map[])
    ensures Release(w, 1, [UNGUARDED]) == STRAY
  {
    StraySweep(w);
    ReleaseIs(w, 1, [UNGUARDED]);
    StrayBracket(EglAt(w, 1));
    StrayCurrent();
  }

  lemma StrayStep()
    ensures Follows(HALF, Step(1, CloseColorBuffer(3), [UNGUARDED]), STRAY)
  {
    HalfTidy();
    var w := Close(HALF, 3);
    assert w == HALF.(colorBuffers := map[]);
    StrayRelease(w);
    CloseIs(HALF, 1, 3, [UNGUARDED], w);
  }

  lemma StrayIs()
    ensures STRAY.threads[1] == IDLE && STRAY.current[1] == Recorded(STRAY, STRAY.threads[2]) != NONE && !Tied(STRAY)
  {
    assert !TiedOn(STRAY, 1);
  }

  /** An idle thread ends with another thread's triple current: the slot outlives the operation that filled it. */
  lemma StaleSlotCanStray()
    ensures IsRun(WORLDS + [HALF] + [STRAY],
                  STEPS + [Step(2, UPDATE, [])] + [Step(1, CloseColorBuffer(3), [UNGUARDED])])
    ensures STRAY.threads[1] == IDLE && STRAY.current[1] == Recorded(STRAY, STRAY.threads[2]) != NONE && !Tied(STRAY)
  {
    StepsAreARun();
    HalfStep();
    StrayStep();
    ExtendTwice(WORLDS, STEPS, SHARED, Step(2, UPDATE, []), HALF, Step(1, CloseColorBuffer(3), [UNGUARDED]), STRAY);
    StrayIs();
  }
}
