/** Colour-buffer handles and their client reference counts over whole runs. */
module RefCounts {
  import opened Bytes
  import opened Worlds
  import opened WorldLaws
  import opened Runs

  /** The step makes an object and takes a new handle. */
  ghost predicate Generates(w: World, op: Op) {
    match op
    case CreateContext(share, _, ok) => (share == 0 || share in w.contexts) && ok
    case CreateWindow(_, _, ok) => ok
    case CreateColorBuffer(_, _, formatOk, br) => formatOk && br.bindOk
    case _ => false
  }

  /** How many handles the first `k` steps have taken. */
  ghost function Generated(worlds: seq<World>, steps: seq<Step>, k: nat): nat
    requires k <= |steps| && k <= |worlds|
  {
    if k == 0 then 0 else
      Generated(worlds, steps, k - 1) + if Generates(worlds[k - 1], steps[k - 1].op) then 1 else 0
  }

  /** The counter has not wrapped: it equals the number of handles taken, and every live handle is among them. */
  ghost predicate Unwrapped(w: World, generated: nat) {
    && w.nextHandle == generated
    && (forall h :: h in w.contexts ==> h <= generated)
    && (forall h :: h in w.windows ==> h <= generated)
    && (forall h :: h in w.colorBuffers ==> h <= generated)
  }

  /** Before the wrap `genHandle` counts up by one, past every live handle of all three tables. */
  lemma UnwrappedHandle(w: World, generated: nat)
    requires Unwrapped(w, generated) && generated < TWO32 - 1
    ensures GenHandle(w) == generated + 1
    ensures GenHandle(w) !in w.contexts && GenHandle(w) !in w.windows && GenHandle(w) !in w.colorBuffers
  {
    assert Candidate(w.nextHandle, 1) == generated + 1;
    assert Probe(w.nextHandle, Taken(w), 1) == 1;
  }

  // ---------------------------------------------------------------- how steps change the tables

  /** The handle tables of `w'` hold no handle that is not in `w`, except `h`. */
  ghost predicate GrowsBy(w: World, w': World, h: Handle) {
    && w'.contexts.Keys <= w.contexts.Keys + {h}
    && w'.windows.Keys <= w.windows.Keys + {h}
    && w'.colorBuffers.Keys <= w.colorBuffers.Keys + {h}
  }

  ghost predicate SameTables(w: World, w': World) {
    && w'.nextHandle == w.nextHandle && w'.contexts == w.contexts
    && w'.windows == w.windows && w'.colorBuffers == w.colorBuffers
  }

  lemma UnbindLeavesTables(w: World, t: Thread)
    requires Defined(w) && t in w.threads
    ensures SameTables(w, Unbind(w, t))
  {
  }

  lemma AttachLeavesTables(w: World, t: Thread, sid: Id, bid: Id, rz: Resizing)
    requires t in w.current && sid in w.surfaces && bid in w.buffers
    ensures SameTables(w, Attach(w, t, sid, bid, rz))
  {
  }

  lemma BracketsLeaveTables(w: World, t: Thread, frame: Frame, trips: seq<Trip>)
    ensures SameTables(w, Brought(w, t, frame, trips))
  {
  }

  lemma FramingLeavesTables(w: World, t: Thread, op: Op)
    ensures SameTables(w, Framed(w, t, op))
  {
    BracketsLeaveTables(w, t, Shown(w, op), Trips(w, t, op));
  }

  lemma FlushingLeavesTables(w: World, t: Thread, op: Op)
    requires op.FlushSurface?
    ensures SameTables(w, Flushed(Framed(w, t, op), t, op.surf, op.gl))
  {
    FramingLeavesTables(w, t, op);
  }

  ghost predicate Rebinding(op: Op) {
    op.BindContext? || op.ExitThread? || op.SetColorBuffer? || op.FlushSurface? || op.RemoveSubWindow?
  }

  lemma UnbindingLeavesTables(w: World, t: Thread, op: Op)
    requires Defined(w) && Enabled(w, t, op) && (op.BindContext? || op.ExitThread?)
    ensures SameTables(w, Effect(w, t, op))
  {
    UnbindLeavesTables(w, t);
  }

  lemma BindingLeavesTables(w: World, t: Thread, op: Op)
    requires Defined(w) && Enabled(w, t, op) && Rebinding(op)
    ensures SameTables(w, Effect(w, t, op))
  {
    if op.FlushSurface? {
      FlushingLeavesTables(w, t, op);
    } else if op.BindContext? || op.ExitThread? {
      UnbindingLeavesTables(w, t, op);
    }
  }

  lemma SweepLeavesTables(w: World)
    ensures SameTables(w, Sweep(w))
  {
  }

  lemma ReleaseLeavesTables(w: World, t: Thread, ends: seq<Bracket>)
    ensures SameTables(w, Release(w, t, ends))
  {
    SweepLeavesTables(w);
  }

  lemma FinishLeavesTables(w: World, t: Thread, op: Op)
    ensures SameTables(w, Finish(w, t, op))
  {
    if op.SetColorBuffer? && Finish(w, t, op) != w {
      AttachLeavesTables(w, t, w.windows[op.surf], w.colorBuffers[op.cb].cb, op.rz);
    }
  }

  /** What follows the effect of a step changes no table. */
  lemma EndLeavesTables(w: World, t: Thread, op: Op, ends: seq<Bracket>)
    ensures SameTables(w, Finish(Freed(w, t, op, ends), t, op))
  {
    ReleaseLeavesTables(w, t, ends);
    FinishLeavesTables(Freed(w, t, op, ends), t, op);
  }

  lemma CreationGrows(w: World, op: Op)
    ensures var w' := Created(w, op);
            if Generates(w, op) then w'.nextHandle == GenHandle(w) && GrowsBy(w, w', GenHandle(w)) else w' == w
  {
  }

  lemma RetabledGrows(w: World, t: Thread, op: Op, h: Handle)
    ensures GrowsBy(w, Retabled(w, t, op), h) && Retabled(w, t, op).nextHandle == w.nextHandle
  {
  }

  lemma CreatingGrows(w: World, t: Thread, op: Op)
    requires Creates(op)
    ensures var w' := Created(Framed(w, t, op), op);
            if Generates(w, op) then w'.nextHandle == GenHandle(w) && GrowsBy(w, w', GenHandle(w))
            else w'.nextHandle == w.nextHandle && GrowsBy(w, w', 0)
  {
    FramingLeavesTables(w, t, op);
    CreationGrows(Framed(w, t, op), op);
  }

  lemma RestGrows(w: World, t: Thread, op: Op)
    ensures var w' := Framed(Retabled(w, t, op), t, op);
            w'.nextHandle == w.nextHandle && GrowsBy(w, w', 0)
  {
    RetabledGrows(w, t, op, 0);
    FramingLeavesTables(Retabled(w, t, op), t, op);
  }

  lemma EffectGrows(w: World, t: Thread, op: Op)
    requires Defined(w) && Enabled(w, t, op)
    ensures var w' := Effect(w, t, op);
            if Generates(w, op) then w'.nextHandle == GenHandle(w) && GrowsBy(w, w', GenHandle(w))
            else w'.nextHandle == w.nextHandle && GrowsBy(w, w', 0)
  {
    if Creates(op) {
      CreatingGrows(w, t, op);
    } else if Rebinding(op) {
      BindingLeavesTables(w, t, op);
    } else {
      RestGrows(w, t, op);
    }
  }

  lemma StepGrows(worlds: seq<World>, steps: seq<Step>, i: nat)
    requires IsRun(worlds, steps) && i < |steps|
    ensures var w, w' := worlds[i], worlds[i + 1];
            if Generates(w, steps[i].op) then w'.nextHandle == GenHandle(w) && GrowsBy(w, w', GenHandle(w))
            else w'.nextHandle == w.nextHandle && GrowsBy(w, w', 0)
  {
    assert StepAt(worlds, steps, i);
    EffectGrows(worlds[i], steps[i].t, steps[i].op);
    EndLeavesTables(Effect(worlds[i], steps[i].t, steps[i].op), steps[i].t, steps[i].op, steps[i].ends);
  }

  lemma UnwrappedGrows(w: World, w': World, generated: nat, h: Handle, generated': nat)
    requires Unwrapped(w, generated) && GrowsBy(w, w', h) && h <= generated' && generated <= generated' == w'.nextHandle
    ensures Unwrapped(w', generated')
  {
  }

  lemma {:induction false} RunIsUnwrapped(worlds: seq<World>, steps: seq<Step>, k: nat)
    requires IsRun(worlds, steps) && k <= |steps| && Generated(worlds, steps, k) < TWO32
    ensures Unwrapped(worlds[k], Generated(worlds, steps, k))
  {
    if k > 0 {
      RunIsUnwrapped(worlds, steps, k - 1);
      var w, step, generated := worlds[k - 1], steps[k - 1], Generated(worlds, steps, k - 1);
      StepGrows(worlds, steps, k - 1);
      if Generates(w, step.op) {
        UnwrappedHandle(w, generated);
        UnwrappedGrows(w, worlds[k], generated, GenHandle(w), generated + 1);
      } else {
        UnwrappedGrows(w, worlds[k], generated, 0, generated);
      }
    }
  }

  /**
   * While fewer than 2^32 - 1 handles were taken, a new handle is new for all three tables, colour
   * buffers included.
   */
  lemma NewHandleIsFresh(worlds: seq<World>, steps: seq<Step>, k: nat)
    requires IsRun(worlds, steps) && k < |steps| && Generated(worlds, steps, k) < TWO32 - 1
    ensures var w := worlds[k];
            && GenHandle(w) == Generated(worlds, steps, k) + 1
            && GenHandle(w) !in w.contexts && GenHandle(w) !in w.windows && GenHandle(w) !in w.colorBuffers
  {
    RunIsUnwrapped(worlds, steps, k);
    UnwrappedHandle(worlds[k], Generated(worlds, steps, k));
  }

  // ---------------------------------------------------------------- reference counts

  /** Opens minus closes of handle `h` among the steps from `a` up to `k`, plus the creation's 1. */
  ghost function Balance(steps: seq<Step>, h: Handle, a: nat, k: nat): int
    requires a <= k <= |steps|
  {
    if k == a then 1 else
      Balance(steps, h, a, k - 1) + match steps[k - 1].op
                                    case OpenColorBuffer(h') => if h' == h then 1 else 0
                                    case CloseColorBuffer(h') => if h' == h then -1 else 0
                                    case _ => 0
  }

  /** The balance has not yet met 0: the close that balances the creation is still to come. */
  ghost predicate StillOpen(steps: seq<Step>, h: Handle, a: nat, k: nat)
    requires a <= k <= |steps|
  {
    forall j :: a <= j <= k ==> Balance(steps, h, a, j) > 0
  }

  ghost predicate Counted(w: World, h: Handle, open: bool, count: int) {
    if open then h in w.colorBuffers && w.colorBuffers[h].count == count else h !in w.colorBuffers
  }

  /** No open on the way takes the 32-bit count to its end. */
  ghost predicate CountFits(steps: seq<Step>, h: Handle, a: nat, k: nat)
    requires a <= k <= |steps|
  {
    forall j :: a <= j < k ==> Balance(steps, h, a, j) < TWO32 - 1
  }

  /** The count that a step leaves of one handle that it does not newly take. */
  ghost function Recount(op: Op, h: Handle, count: int): int {
    match op
    case OpenColorBuffer(h') => if h' == h then count + 1 else count
    case CloseColorBuffer(h') => if h' == h then count - 1 else count
    case _ => count
  }

  lemma OpenCount(w: World, h: Handle, h': Handle, count: int)
    requires Counted(w, h, true, count) && 0 < count < TWO32 - 1 && h' in w.colorBuffers
    ensures Counted(Open(w, h'), h, true, if h' == h then count + 1 else count)
  {
  }

  lemma CloseCount(w: World, h: Handle, h': Handle, count: int)
    requires Counted(w, h, true, count) && 0 < count < TWO32 - 1 && h' in w.colorBuffers
    ensures var count' := if h' == h then count - 1 else count;
            Counted(Close(w, h'), h, count' > 0, count')
  {
    assert (count + TWO32 - 1) % TWO32 == count - 1;
  }

  lemma RetabledCount(w: World, t: Thread, op: Op, h: Handle, count: int)
    requires Counted(w, h, true, count) && 0 < count < TWO32 - 1
    ensures Counted(Retabled(w, t, op), h, Recount(op, h, count) > 0, Recount(op, h, count))
  {
    match op {
      case OpenColorBuffer(h') => if h' in w.colorBuffers { OpenCount(w, h, h', count); }
      case CloseColorBuffer(h') => if h' in w.colorBuffers { CloseCount(w, h, h', count); }
      case _ =>
    }
  }

  lemma CreatingCount(w: World, t: Thread, op: Op, h: Handle, count: int)
    requires Creates(op) && (Generates(w, op) ==> GenHandle(w) != h) && Counted(w, h, true, count)
    ensures Counted(Created(Framed(w, t, op), op), h, true, count)
  {
    FramingLeavesTables(w, t, op);
  }

  lemma EffectCount(w: World, t: Thread, op: Op, h: Handle, count: int)
    requires Defined(w) && Enabled(w, t, op) && (Generates(w, op) ==> GenHandle(w) != h)
    requires Counted(w, h, true, count) && 0 < count < TWO32 - 1
    ensures Counted(Effect(w, t, op), h, Recount(op, h, count) > 0, Recount(op, h, count))
  {
    if Rebinding(op) {
      BindingLeavesTables(w, t, op);
    } else if Creates(op) {
      CreatingCount(w, t, op, h, count);
    } else {
      RetabledCount(w, t, op, h, count);
      FramingLeavesTables(Retabled(w, t, op), t, op);
    }
  }

  /** One step of a run, seen from one handle's entry. */
  lemma CountFollows(worlds: seq<World>, steps: seq<Step>, i: nat, h: Handle, open: bool, count: int)
    requires IsRun(worlds, steps) && i < |steps| && h != 0
    requires Generates(worlds[i], steps[i].op) ==> GenHandle(worlds[i]) != h
    requires Counted(worlds[i], h, open, count) && (open ==> 0 < count < TWO32 - 1)
    ensures var count' := Recount(steps[i].op, h, count);
            Counted(worlds[i + 1], h, open && count' > 0, count')
  {
    if open {
      assert StepAt(worlds, steps, i);
      EffectCount(worlds[i], steps[i].t, steps[i].op, h, count);
      EndLeavesTables(Effect(worlds[i], steps[i].t, steps[i].op), steps[i].t, steps[i].op, steps[i].ends);
    } else {
      StepGrows(worlds, steps, i);
    }
  }

  lemma NewCount(worlds: seq<World>, steps: seq<Step>, i: nat)
    requires IsRun(worlds, steps) && i < |steps| && steps[i].op.CreateColorBuffer? && Generates(worlds[i], steps[i].op)
    ensures Counted(worlds[i + 1], GenHandle(worlds[i]), true, 1)
  {
    assert StepAt(worlds, steps, i);
    FramingLeavesTables(worlds[i], steps[i].t, steps[i].op);
    EndLeavesTables(Effect(worlds[i], steps[i].t, steps[i].op), steps[i].t, steps[i].op, steps[i].ends);
  }

  lemma BalanceStep(steps: seq<Step>, h: Handle, a: nat, k: nat)
    requires a < k <= |steps|
    ensures Balance(steps, h, a, k) == Recount(steps[k - 1].op, h, Balance(steps, h, a, k - 1))
    ensures StillOpen(steps, h, a, k) <==> StillOpen(steps, h, a, k - 1) && Balance(steps, h, a, k) > 0
  {
  }

  /**
   * Before handles or counts wrap: a colour buffer made by step `a` is in the table exactly until the
   * close that balances its creation, and until then its count is 1 + opens - closes.
   */
  lemma {:induction false} CountIsBalance(worlds: seq<World>, steps: seq<Step>, a: nat, k: nat, h: Handle)
    requires IsRun(worlds, steps) && a < k <= |steps|
    requires Generated(worlds, steps, k) < TWO32 && CountFits(steps, h, a + 1, k)
    requires steps[a].op.CreateColorBuffer? && Generates(worlds[a], steps[a].op) && h == GenHandle(worlds[a])
    ensures Counted(worlds[k], h, StillOpen(steps, h, a + 1, k), Balance(steps, h, a + 1, k))
  {
    GeneratedGrows(worlds, steps, a + 1, k);
    NewHandleIsFresh(worlds, steps, a);
    if k == a + 1 {
      NewCount(worlds, steps, a);
    } else {
      GeneratedGrows(worlds, steps, k - 1, k);
      CountIsBalance(worlds, steps, a, k - 1, h);
      BalanceStep(steps, h, a + 1, k);
      if Generates(worlds[k - 1], steps[k - 1].op) {
        LaterHandleDiffers(worlds, steps, a, k - 1);
      }
      CountFollows(worlds, steps, k - 1, h, StillOpen(steps, h, a + 1, k - 1), Balance(steps, h, a + 1, k - 1));
    }
  }

  lemma LaterHandleDiffers(worlds: seq<World>, steps: seq<Step>, a: nat, b: nat)
    requires IsRun(worlds, steps) && a < b < |steps| && Generated(worlds, steps, b + 1) < TWO32
    requires Generates(worlds[a], steps[a].op) && Generates(worlds[b], steps[b].op)
    ensures GenHandle(worlds[a]) < GenHandle(worlds[b])
  {
    GeneratedGrows(worlds, steps, a + 1, b);
    NewHandleIsFresh(worlds, steps, a);
    NewHandleIsFresh(worlds, steps, b);
  }

  lemma {:induction false} GeneratedGrows(worlds: seq<World>, steps: seq<Step>, a: nat, k: nat)
    requires a <= k <= |steps| && k <= |worlds|
    ensures Generated(worlds, steps, a) <= Generated(worlds, steps, k)
  {
    if a < k {
      GeneratedGrows(worlds, steps, a, k - 1);
    }
  }
}
