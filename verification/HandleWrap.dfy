/**
 * The end of handle uniqueness is reached: a run of ordinary steps brings the handle counter to its
 * end while a client still holds colour buffer 1, and the next creation takes that handle away from it.
 */
module HandleWraps {
  import opened Bytes
  import opened Worlds
  import opened WorldLaws
  import opened Runs
  import opened RefCounts

  const CREATE := CreateColorBuffer(1, 1, true, OK)
  const PIXEL := Buffer(1, 1)

  /** Thread 1 is idle, and there are no contexts and windows. */
  ghost predicate Bare(w: World) {
    && w.contexts == map[] && w.windows == map[] && w.ctxs == map[] && w.surfaces == map[] && w.pbuffers == {}
    && w.threads == map[1 := IDLE] && w.current == map[1 := NONE] && w.frame == START.frame
  }

  /** Thread 1 holds colour buffer 1, and `n` handles were taken. */
  ghost predicate Held(w: World, n: Handle) {
    && Bare(w) && w.nextHandle == n && w.unused == 5 + n
    && w.colorBuffers == map[1 := BufferRef(5, 1)] && w.buffers == map[5 := PIXEL]
  }

  /** The same with one more colour buffer, under handle `n`. */
  ghost predicate HeldTwo(w: World, n: Handle) {
    && Bare(w) && w.nextHandle == n && w.unused == 5 + n && n > 1
    && w.colorBuffers == map[1 := BufferRef(5, 1), n := BufferRef(4 + n, 1)]
    && w.buffers == map[5 := PIXEL, 4 + n := PIXEL]
  }

  lemma HeldHandle(w: World, n: Handle)
    requires Held(w, n) && 1 <= n < TWO32 - 1
    ensures Worlds.GenHandle(w) == n + 1 && Room(w) && Defined(w)
  {
    UnwrappedHandle(w, n);
  }

  lemma CreateOne(w: World, n: Handle) returns (w': World)
    requires Held(w, n) && 1 <= n < TWO32 - 1
    ensures w' == CreatedAs(w, n + 1, CREATE) && HeldTwo(w', n + 1)
  {
    w' := CreatedAs(w, n + 1, CREATE);
  }

  lemma HeldTwoTidy(w: World, n: Handle)
    requires HeldTwo(w, n)
    ensures Tidy(w) && Defined(w)
  {
    assert w.colorBuffers[1].cb == 5 && w.colorBuffers[n].cb == 4 + n;
  }

  lemma CreateStep(w: World, n: Handle) returns (w': World)
    requires Held(w, n) && 1 <= n < TWO32 - 1
    ensures Follows(w, Step(1, CREATE, []), w') && HeldTwo(w', n + 1)
  {
    w' := CreateOne(w, n);
    HeldHandle(w, n);
    HeldTwoTidy(w', n + 1);
    CreateIs(w, 1, CREATE, n + 1, w');
  }

  /** Closing the second buffer destroys it and nothing else. */
  lemma SweptOne(w: World, n: Handle)
    requires HeldTwo(w.(colorBuffers := map[1 := BufferRef(5, 1), n := BufferRef(4 + n, 1)]), n)
    requires w.colorBuffers == map[1 := BufferRef(5, 1)]
    ensures Held(Sweep(w), n)
  {
    assert w.colorBuffers[1].cb == 5;
    assert BufferHeld(SweepSurfaces(w), 5) && !BufferHeld(SweepSurfaces(w), 4 + n);
    assert Sweep(w).buffers == map[5 := PIXEL];
  }

  lemma ReleasedOne(w: World, n: Handle)
    requires Held(Sweep(w), n) && w.frame == START.frame && w.current == map[1 := NONE]
    ensures Held(Release(w, 1, []), n)
  {
    CleanRelease(w, 1, []);
  }

  lemma ClosedOne(w: World, n: Handle)
    requires HeldTwo(w, n)
    ensures Close(w, n) == w.(colorBuffers := map[1 := BufferRef(5, 1)])
  {
    assert w.colorBuffers - {n} == map[1 := BufferRef(5, 1)];
  }

  lemma CloseStep(w: World, n: Handle) returns (w': World)
    requires HeldTwo(w, n)
    ensures Follows(w, Step(1, CloseColorBuffer(n), []), w') && Held(w', n)
  {
    var w1 := Close(w, n);
    w' := Release(w1, 1, []);
    HeldTwoTidy(w, n);
    ClosedOne(w, n);
    assert w1.(colorBuffers := w.colorBuffers) == w;
    SweptOne(w1, n);
    ReleasedOne(w1, n);
    CloseIs(w, 1, n, [], w1);
  }

  // ---------------------------------------------------------------- the run

  const STARTED := START.(threads := map[1 := IDLE], current := map[1 := NONE])

  lemma StartStep()
    ensures Follows(START, Step(1, StartThread, []), STARTED)
  {
    assert AddThread(START, 1) == STARTED;
    StartIs(START, 1);
  }

  lemma FirstHandle(w: World)
    requires w == STARTED
    ensures Worlds.GenHandle(w) == 1 && Room(w) && Defined(w)
  {
    UnwrappedHandle(w, 0);
  }

  lemma FirstEffect(w: World, w': World)
    requires w == STARTED && w' == CreatedAs(w, 1, CREATE)
    ensures Held(w', 1) && Tidy(w')
  {
    assert w'.colorBuffers[1].cb == 5;
  }

  lemma FirstStep(w: World) returns (w': World)
    requires w == STARTED
    ensures Follows(w, Step(1, CREATE, []), w') && Held(w', 1)
  {
    w' := CreatedAs(w, 1, CREATE);
    FirstHandle(w);
    FirstEffect(w, w');
    CreateIs(w, 1, CREATE, 1, w');
  }

  /** No step closes handle 1. */
  ghost predicate KeepsFirst(steps: seq<Step>) {
    forall i :: 0 <= i < |steps| ==> steps[i].op != CloseColorBuffer(1)
  }

  /** A run that ends in `w`, in which handle 1 is never closed. */
  ghost predicate Leads(worlds: seq<World>, steps: seq<Step>, w: World) {
    IsRun(worlds, steps) && worlds[|steps|] == w && KeepsFirst(steps)
  }

  lemma TwoMore(worlds: seq<World>, steps: seq<Step>, w: World, step1: Step, w1: World, step2: Step, w2: World)
    requires Leads(worlds, steps, w) && Follows(w, step1, w1) && Follows(w1, step2, w2)
    requires step1.op != CloseColorBuffer(1) && step2.op != CloseColorBuffer(1)
    ensures Leads(worlds + [w1] + [w2], steps + [step1] + [step2], w2)
  {
    ExtendTwice(worlds, steps, w, step1, w1, step2, w2);
  }

  lemma FirstRun() returns (worlds: seq<World>, steps: seq<Step>, w: World)
    ensures Leads(worlds, steps, w) && Held(w, 1)
  {
    var start, create := Step(1, StartThread, []), Step(1, CREATE, []);
    StartStep();
    w := FirstStep(STARTED);
    assert Leads([START], [], START);
    TwoMore([START], [], START, start, STARTED, create, w);
    worlds, steps := [START] + [STARTED] + [w], [] + [start] + [create];
  }

  lemma PairStep(w: World, n: Handle) returns (w1: World, w2: World)
    requires Held(w, n) && 1 <= n < TWO32 - 1
    ensures Follows(w, Step(1, CREATE, []), w1) && Follows(w1, Step(1, CloseColorBuffer(n + 1), []), w2)
    ensures Held(w2, n + 1)
  {
    w1 := CreateStep(w, n);
    w2 := CloseStep(w1, n + 1);
  }

  lemma PairRun(n: Handle, worlds: seq<World>, steps: seq<Step>, w: World)
    returns (worlds': seq<World>, steps': seq<Step>, w': World)
    requires 1 <= n < TWO32 - 1 && Leads(worlds, steps, w) && Held(w, n)
    ensures Leads(worlds', steps', w') && Held(w', n + 1)
  {
    var create, close := Step(1, CREATE, []), Step(1, CloseColorBuffer(n + 1), []);
    var w1;
    w1, w' := PairStep(w, n);
    TwoMore(worlds, steps, w, create, w1, close, w');
    worlds', steps' := worlds + [w1] + [w'], steps + [create] + [close];
  }

  /** Create and close, again and again: any value of the counter is reached with buffer 1 still held. */
  lemma {:induction false} HeldRun(n: Handle) returns (worlds: seq<World>, steps: seq<Step>, w: World)
    requires 1 <= n
    ensures Leads(worlds, steps, w) && Held(w, n)
  {
    if n == 1 {
      worlds, steps, w := FirstRun();
    } else {
      worlds, steps, w := HeldRun(n - 1);
      worlds, steps, w := PairRun(n - 1, worlds, steps, w);
    }
  }

  // ---------------------------------------------------------------- the wrap

  /** A creation takes the handle of a live buffer away from it. */
  ghost predicate Displaces(w: World, h: Handle, w': World) {
    && h in w.colorBuffers && w.colorBuffers[h].cb in w.buffers
    && h in w'.colorBuffers && w'.colorBuffers[h].cb != w.colorBuffers[h].cb && w.colorBuffers[h].cb !in w'.buffers
  }

  lemma SecondProbe(n: Handle, taken: set<Handle>)
    requires Candidate(n, 1) in taken && Candidate(n, 2) !in taken
    ensures Probe(n, taken, 1) == 2
  {
    assert Probe(n, taken, 2) == 2;
  }

  lemma WrappedProbe()
    ensures Candidate(TWO32 - 1, Probe(TWO32 - 1, {0}, 1)) == 1
  {
    assert Candidate(TWO32 - 1, 1) == 0 && Candidate(TWO32 - 1, 2) == 1;
    SecondProbe(TWO32 - 1, {0});
  }

  lemma HeldTables(w: World, n: Handle)
    requires Held(w, n)
    ensures Taken(w) == {0} && Room(w) && Defined(w)
  {
  }

  lemma WrappedHandle(w: World)
    requires Held(w, TWO32 - 1)
    ensures Worlds.GenHandle(w) == 1 && Room(w) && Defined(w)
  {
    HeldTables(w, TWO32 - 1);
    WrappedProbe();
  }

  lemma WrapEffect(w: World)
    requires Held(w, TWO32 - 1)
    ensures Defined(w) && Enabled(w, 1, CREATE) && Effect(w, 1, CREATE) == CreatedAs(w, 1, CREATE)
  {
    WrappedHandle(w);
    CleanFrame(w, 1, CREATE);
  }

  lemma WrapSweep(w: World, w1: World)
    requires Held(w, TWO32 - 1) && w1 == CreatedAs(w, 1, CREATE)
    ensures w1.colorBuffers == map[1 := BufferRef(TWO32 + 4, 1)] && 5 !in Sweep(w1).buffers
  {
    assert w1.colorBuffers[1].cb == TWO32 + 4 && !BufferHeld(SweepSurfaces(w1), 5);
  }

  lemma WrapRelease(w: World, w1: World)
    requires Held(w, TWO32 - 1) && w1 == CreatedAs(w, 1, CREATE)
    ensures Displaces(w, 1, Release(w1, 1, []))
  {
    WrapSweep(w, w1);
    assert Release(w1, 1, []).colorBuffers == w1.colorBuffers && Release(w1, 1, []).buffers == Sweep(w1).buffers;
  }

  lemma WrapDisplaces(w: World)
    requires Held(w, TWO32 - 1)
    ensures Defined(w) && Enabled(w, 1, CREATE) && Displaces(w, 1, Next(w, 1, CREATE, []))
  {
    WrapEffect(w);
    WrapRelease(w, CreatedAs(w, 1, CREATE));
  }

  /**
   * Handles stay unique exactly until the counter wraps: some run, in which handle 1 is never closed, is
   * followed by a creation that gives handle 1 to another buffer and destroys the one its holder has.
   */
  lemma WrapReusesColorBuffer() returns (worlds: seq<World>, steps: seq<Step>)
    ensures IsRun(worlds, steps) && KeepsFirst(steps)
    ensures var w := worlds[|steps|];
            Defined(w) && Enabled(w, 1, CREATE) && Displaces(w, 1, Next(w, 1, CREATE, []))
  {
    var w;
    worlds, steps, w := HeldRun(TWO32 - 1);
    WrapDisplaces(w);
  }
}
