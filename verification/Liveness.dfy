/** Nothing that was destroyed is current, whatever EGL answers, until a pbuffer is replaced under another thread. */
module Liveness {
  import opened Worlds
  import opened WorldLaws
  import opened Agreement

  /** The framebuffer's own pbuffer, or its window while there is one. */
  predicate OwnIsLive(w: World, cur: Triple) {
    cur == OWN || (w.frame.subWin && cur == SubWin(w.frame.made))
  }

  ghost predicate LiveOn(w: World, cur: Triple) {
    || OwnIsLive(w, cur)
    || (&& (cur.draw == 0 || cur.draw in w.pbuffers)
        && (cur.read == 0 || cur.read in w.pbuffers)
        && (cur.ctx == 0 || cur.ctx in w.ctxs))
  }

  /** No surface or context that was destroyed is current on any thread. */
  ghost predicate CurrentIsLive(w: World) {
    forall t :: t in w.current ==> LiveOn(w, w.current[t])
  }

  /**
   * What a thread may have current after refused calls: nothing, the framebuffer's live triples, or
   * what is recorded.
   */
  ghost predicate Ties(w: World, i: ThreadInfo, cur: Triple) {
    cur == NONE || OwnIsLive(w, cur) || cur == Recorded(w, i)
  }

  ghost predicate TiedOn(w: World, t: Thread) {
    t in w.threads && t in w.current && Ties(w, w.threads[t], w.current[t])
  }

  ghost predicate TiedOff(w: World, t: Thread) {
    forall u :: u in w.threads && u != t ==> TiedOn(w, u)
  }

  /** Weaker than agreement, and not lost when EGL refuses a call. */
  ghost predicate Tied(w: World) {
    forall t :: t in w.threads ==> TiedOn(w, t)
  }

  lemma TieIsLive(w: World, t: Thread)
    requires Refs(w) && Owned(w) && TiedOn(w, t)
    ensures LiveOn(w, w.current[t])
  {
    assert InfoRefs(w, w.threads[t]);
  }

  lemma TiedIsLive(w: World)
    requires Inv(w) && Tied(w)
    ensures CurrentIsLive(w)
  {
    forall t | t in w.current
      ensures LiveOn(w, w.current[t])
    {
      TieIsLive(w, t);
    }
  }

  // ---------------------------------------------------------------- brackets

  lemma {:induction false} ThroughConcat(at: Egl, a: seq<Trip>, b: seq<Trip>)
    ensures Through(at, a + b) == Through(Through(at, a), b)
    decreases |b|
  {
    if b == [] {
      assert a + b == a;
    } else {
      assert (a + b)[..|a + b| - 1] == a + b[..|b| - 1];
      ThroughConcat(at, a, b[..|b| - 1]);
    }
  }

  ghost predicate ToLive(w: World, trips: seq<Trip>) {
    forall i :: 0 <= i < |trips| ==> OwnIsLive(w, trips[i].to)
  }

  /** From a tied triple with a tied slot, brackets lead to a tied triple and leave a tied slot. */
  lemma {:induction false} ThroughTies(w: World, i: ThreadInfo, at: Egl, trips: seq<Trip>)
    requires ToLive(w, trips) && Ties(w, i, at.cur) && Ties(w, i, at.slot)
    ensures Ties(w, i, Through(at, trips).cur) && Ties(w, i, Through(at, trips).slot)
  {
    if trips != [] {
      ThroughTies(w, i, at, trips[..|trips| - 1]);
    }
  }

  /** The bracket restores without having saved. */
  predicate Restores(br: Bracket) { !br.bindOk && br.unbindOk }

  lemma {:induction false} ThroughSaves(w: World, i: ThreadInfo, at: Egl, trips: seq<Trip>)
    requires ToLive(w, trips) && Ties(w, i, at.cur) && forall k :: 0 <= k < |trips| ==> !Restores(trips[k].br)
    ensures Ties(w, i, Through(at, trips).cur)
  {
    if trips != [] {
      ThroughSaves(w, i, at, trips[..|trips| - 1]);
    }
  }

  lemma PostSaves(w: World, win: nat, onPost: bool, draw: Bracket, read: Bracket)
    requires w.frame.subWin && win == w.frame.made
    ensures var trips := PostTrips(win, onPost, draw, read);
            ToLive(w, trips) && forall k :: 0 <= k < |trips| ==> !Restores(trips[k].br)
  {
  }

  /** The window bracket of `setupSubWindow` saves before anything restores. */
  lemma SetupTies(w: World, i: ThreadInfo, at: Egl, win: Triple, inner: seq<Trip>, unbindOk: bool)
    requires Ties(w, i, at.cur) && OwnIsLive(w, win) && ToLive(w, inner)
    ensures var trips := [Trip(win, Bracket(true, false))] + inner + [Trip(win, Bracket(false, unbindOk))];
            Ties(w, i, Through(at, trips).cur)
  {
    var enter, leave := [Trip(win, Bracket(true, false))], [Trip(win, Bracket(false, unbindOk))];
    assert enter[..0] == [];
    assert Through(at, enter) == Egl(win, at.cur);
    ThroughConcat(at, enter, inner);
    ThroughConcat(at, enter + inner, leave);
    ThroughTies(w, i, Egl(win, at.cur), inner);
    ThroughTies(w, i, Through(Egl(win, at.cur), inner), leave);
  }

  lemma PostTies(w: World, t: Thread, op: Op, i: ThreadInfo, w': World)
    requires t in w.current && Ties(w', i, w.current[t]) && w'.frame.subWin == w.frame.subWin
    requires w'.frame.made == w.frame.made
    requires !op.SetupSubWindow?
    ensures Ties(w', i, Through(EglAt(w, t), Trips(w, t, op)).cur)
  {
    if op.Post? && w.frame.subWin {
      PostSaves(w', w.frame.made, w.frame.onPost, op.draw, op.read);
    }
    ThroughSaves(w', i, EglAt(w, t), Trips(w, t, op));
  }

  /** Whatever waits in the slot, a step's own brackets never put it on the caller. */
  lemma TripsTie(w: World, t: Thread, op: Op, i: ThreadInfo, w': World)
    requires t in w.current && Ties(w', i, w.current[t])
    requires w'.frame.subWin == Shown(w, op).subWin && w'.frame.made == Shown(w, op).made
    ensures Ties(w', i, Through(EglAt(w, t), Trips(w, t, op)).cur)
  {
    if !op.SetupSubWindow? {
      PostTies(w, t, op, i, w');
    } else if Trips(w, t, op) != [] {
      var win := w.frame.made + 1;
      var inner := if w.frame.lastPosted in w.colorBuffers then PostTrips(win, w.frame.onPost, op.draw, op.read)
                   else [];
      PostSaves(w', win, w.frame.onPost, op.draw, op.read);
      SetupTies(w', i, EglAt(w, t), SubWin(win), inner, op.outer.unbindOk);
    }
  }

  // ---------------------------------------------------------------- the effect of a step

  /** The window, if there is one, is still there. */
  ghost predicate KeepsWindow(w: World, w': World) {
    w.frame.subWin ==> w'.frame.subWin && w'.frame.made == w.frame.made
  }

  lemma LocalTies(w: World, w': World, t: Thread)
    requires Refs(w) && Shapes(w) && TiedOff(w, t) && Local(w, w', t) && KeepsWindow(w, w')
    ensures TiedOff(w', t)
  {
    forall u | u in w'.threads && u != t
      ensures TiedOn(w', u)
    {
      assert TiedOn(w, u);
      RecordedStays(w, w', w.threads[u]);
    }
  }

  lemma FramesTie(w: World, w': World, t: Thread, op: Op)
    requires Refs(w) && Shapes(w) && Tied(w) && Frames(w, w', t, Trips(w, t, op))
    requires w'.frame.subWin == Shown(w, op).subWin && w'.frame.made == Shown(w, op).made
    ensures Tied(w')
  {
    LocalTies(w, w', t);
    assert TiedOn(w, t);
    RecordedStays(w, w', w.threads[t]);
    TripsTie(w, t, op, w.threads[t], w');
  }

  lemma BroughtShows(w: World, t: Thread, frame: Frame, trips: seq<Trip>)
    ensures var w' := Brought(w, t, frame, trips);
            w'.frame == frame.(slot := w'.frame.slot)
  {
    if t in w.current && trips != [] {
      var at := Through(EglAt(w, t), trips);
      assert Brought(w, t, frame, trips) == WithEgl(w.(frame := frame), t, at);
    }
  }

  lemma FramedShows(w: World, t: Thread, op: Op)
    ensures Framed(w, t, op).frame == Shown(w, op).(slot := Framed(w, t, op).frame.slot)
  {
    BroughtShows(w, t, Shown(w, op), Trips(w, t, op));
  }

  lemma RestShows(w: World, t: Thread, op: Op)
    requires !Creates(op) && !op.FlushSurface? && !op.SetColorBuffer?
    ensures var w' := Framed(Retabled(w, t, op), t, op);
            w'.frame == Shown(w, op).(slot := w'.frame.slot)
  {
    FramedShows(Retabled(w, t, op), t, op);
  }

  lemma FramingShows(w: World, t: Thread, op: Op)
    requires Defined(w) && Enabled(w, t, op) && (Creates(op) || op.FlushSurface?)
    ensures Effect(w, t, op).frame == Shown(w, op).(slot := Effect(w, t, op).frame.slot)
  {
    FramedShows(w, t, op);
  }

  lemma EffectShows(w: World, t: Thread, op: Op)
    requires Defined(w) && Enabled(w, t, op) && !Binds(op) && !op.RemoveSubWindow?
    ensures Effect(w, t, op).frame == Shown(w, op).(slot := Effect(w, t, op).frame.slot)
  {
    if Creates(op) || op.FlushSurface? {
      FramingShows(w, t, op);
    } else if !op.SetColorBuffer? {
      RestShows(w, t, op);
    }
  }

  lemma UnbindTies(w: World, t: Thread)
    requires Refs(w) && Numbered(w) && Shapes(w) && Tied(w) && t in w.threads
    ensures Tied(Unbind(w, t))
  {
    UnbindRebinds(w, t);
    LocalTies(w, Unbind(w, t), t);
  }

  lemma BindTies(w: World, t: Thread, c: Id, d: Id, r: Id, drawGl: GlResults, readGl: GlResults)
    requires Refs(w) && Numbered(w) && Shapes(w) && Tied(w)
    requires t in w.threads && c in w.ctxs && d in w.surfaces && r in w.surfaces
    ensures Tied(Bind(w, t, c, d, r, drawGl, readGl))
  {
    var w' := Bind(w, t, c, d, r, drawGl, readGl);
    BindRebinds(w, t, c, d, r, drawGl, readGl);
    assert Rewritten(w.surfaces[d], w'.surfaces[d], c) && Rewritten(w.surfaces[r], w'.surfaces[r], c);
    LocalTies(w, w', t);
  }

  lemma BindingTies(w: World, t: Thread, op: Op)
    requires Refs(w) && Numbered(w) && Shapes(w) && Tied(w) && Enabled(w, t, op) && op.BindContext?
    ensures Tied(Effect(w, t, op)) && t in Effect(w, t, op).threads
  {
    if op.c == 0 && op.d == 0 && op.r == 0 {
      UnbindTies(w, t);
    } else if GoodHandles(w, op.c, op.d, op.r) {
      BindTies(w, t, w.contexts[op.c], w.windows[op.d], w.windows[op.r], op.drawGl, op.readGl);
    }
  }

  lemma IdleTies(w: World, t: Thread)
    requires Refs(w) && Numbered(w) && Shapes(w) && Tied(w) && t in w.threads
    ensures TiedOff(w.(threads := w.threads[t := IDLE]), t)
  {
    var w' := w.(threads := w.threads[t := IDLE]);
    assert w'.threads.Keys == w.threads.Keys;
    LocalTies(w, w', t);
  }

  lemma StartTies(w: World, t: Thread)
    requires Refs(w) && Numbered(w) && Shapes(w) && Tied(w) && t !in w.threads
    ensures Tied(AddThread(w, t))
  {
    assert AddThread(w, t).threads.Keys == w.threads.Keys + {t} && AddThread(w, t).current.Keys == w.current.Keys + {t};
    LocalTies(w, AddThread(w, t), t);
  }

  lemma EffectTies(w: World, t: Thread, op: Op)
    requires Inv(w) && Tied(w) && Enabled(w, t, op) && !op.ExitThread? && !op.RemoveSubWindow?
    ensures Tied(Effect(w, t, op)) && t in Effect(w, t, op).threads
  {
    if t !in w.threads {
      StartTies(w, t);
    } else if op.BindContext? {
      BindingTies(w, t, op);
    } else {
      FramingTies(w, t, op);
    }
  }

  lemma FramingTies(w: World, t: Thread, op: Op)
    requires Inv(w) && Tied(w) && Enabled(w, t, op) && !Binds(op) && !op.RemoveSubWindow? && t in w.threads
    ensures Tied(Effect(w, t, op)) && t in Effect(w, t, op).threads
  {
    EffectFrames(w, t, op);
    EffectShows(w, t, op);
    FramesTie(w, Effect(w, t, op), t, op);
  }

  lemma ExitTies(w: World, t: Thread, op: Op)
    requires Refs(w) && Numbered(w) && Shapes(w) && Tied(w) && Enabled(w, t, op) && op.ExitThread?
    ensures TiedOff(Effect(w, t, op), t) && t in Effect(w, t, op).current
  {
    if op.eglOk {
      UnbindTies(w, t);
    } else {
      IdleTies(w, t);
    }
  }

  // ---------------------------------------------------------------- destructors

  /** The destructors leave the caller with a triple that some earlier refusal left in the slot. */
  ghost predicate RestoresStale(w: World, t: Thread, ends: seq<Bracket>) {
    && t in w.threads && !Ties(w, w.threads[t], w.frame.slot)
    && Sighted(Sighting(false, true), false, Destructors(|Dead(w)|, ends)).cur
  }

  lemma {:induction false} ThroughTiesOr(w: World, i: ThreadInfo, at: Egl, trips: seq<Trip>, stale: Triple)
    requires ToLive(w, trips) && Ties(w, i, at.cur) && at.slot == stale
    ensures var end := Through(at, trips);
            (Ties(w, i, end.cur) || end.cur == stale) && (Ties(w, i, end.slot) || end.slot == stale)
  {
    if trips != [] {
      ThroughTiesOr(w, i, at, trips[..|trips| - 1], stale);
    }
  }

  /** And that is exactly when it is not tied any more. */
  lemma DestructorsTieExactly(w: World, t: Thread, ends: seq<Bracket>)
    requires TiedOn(w, t)
    ensures Ties(w, w.threads[t], Through(EglAt(w, t), Destructors(|Dead(w)|, ends)).cur) <==>
            !RestoresStale(w, t, ends)
  {
    var trips, at := Destructors(|Dead(w)|, ends), EglAt(w, t);
    DestructorsAre(|Dead(w)|, ends);
    if Ties(w, w.threads[t], at.slot) {
      ThroughTies(w, w.threads[t], at, trips);
    } else {
      ThroughTiesOr(w, w.threads[t], at, trips, at.slot);
      SightedIsThrough(at.slot, at, trips);
    }
  }

  lemma ReleaseTiesOthers(w: World, t: Thread, ends: seq<Bracket>)
    requires t in w.current && TiedOff(w, t)
    ensures TiedOff(Release(w, t, ends), t)
  {
    ReleaseIs(w, t, ends);
    forall u | u in w.threads && u != t
      ensures TiedOn(Release(w, t, ends), u)
    {
      assert TiedOn(w, u);
      SweepKeepsRecorded(w, u);
    }
  }

  lemma ReleaseTies(w: World, t: Thread, ends: seq<Bracket>)
    requires Tied(w) && t in w.threads && !RestoresStale(w, t, ends)
    ensures Tied(Release(w, t, ends))
  {
    ReleaseIs(w, t, ends);
    ReleaseTiesOthers(w, t, ends);
    SweepKeepsRecorded(w, t);
    DestructorsTieExactly(w, t, ends);
  }

  // ---------------------------------------------------------------- attaching

  ghost predicate UsedBy(w: World, u: Thread, egl: nat) {
    u in w.current && egl != 0 && (w.current[u].draw == egl || w.current[u].read == egl)
  }

  /** The resize destroys a pbuffer that another thread has current. */
  ghost predicate TakesPbuffer(w: World, t: Thread, op: Op)
    requires Defined(w)
  {
    ResizesIn(w, op) && exists u :: u != t && UsedBy(w, u, w.surfaces[w.windows[op.surf]].egl)
  }

  /**
   * Or one that the caller has current, once the old buffer's destructor is done, and that EGL does not
   * let it go of.
   */
  ghost predicate KeepsPbuffer(w: World, t: Thread, op: Op, ends: seq<Bracket>)
    requires Defined(w) && Enabled(w, t, op)
  {
    && ResizesIn(w, op) && !op.rz.releaseOk && !(op.rz.createOk && op.rz.rebindOk)
    && UsedBy(Release(Effect(w, t, op), t, ends), t, w.surfaces[w.windows[op.surf]].egl)
  }

  /** The removed window is current on another thread, or on the caller while EGL refuses its release. */
  ghost predicate TakesWindow(w: World, t: Thread, op: Op) {
    && op.RemoveSubWindow? && w.frame.subWin
    && exists u :: u in w.current && (u != t || !op.eglOk) && w.current[u] == SubWin(w.frame.made)
  }

  ghost predicate DestroysCurrent(w: World, t: Thread, op: Op, ends: seq<Bracket>)
    requires Defined(w) && Enabled(w, t, op)
  {
    TakesPbuffer(w, t, op) || KeepsPbuffer(w, t, op, ends) || TakesWindow(w, t, op)
  }

  lemma RemovingLeavesDangling(w: World, t: Thread, op: Op)
    requires Numbered(w) && t in w.threads && TakesWindow(w, t, op)
    ensures !CurrentIsLive(Removed(w, t, op.eglOk))
  {
    var w' := Removed(w, t, op.eglOk);
    var u :| u in w.current && (u != t || !op.eglOk) && w.current[u] == SubWin(w.frame.made);
    assert w'.current[u] == SubWin(w.frame.made) && !LiveOn(w', w'.current[u]);
  }

  lemma RemovingTies(w: World, t: Thread, op: Op)
    requires Refs(w) && Numbered(w) && Shapes(w) && Tied(w) && t in w.threads && op.RemoveSubWindow?
    requires !TakesWindow(w, t, op)
    ensures Tied(Removed(w, t, op.eglOk))
  {
    var w' := Removed(w, t, op.eglOk);
    forall u | u in w'.threads
      ensures TiedOn(w', u)
    {
      assert TiedOn(w, u);
      RecordedStays(w, w', w.threads[u]);
    }
  }

  /** The caller keeps the pbuffer it has current although a resize destroys it. */
  ghost predicate Stuck(w: World, t: Thread, sid: Id, bid: Id, rz: Resizing)
    requires sid in w.surfaces && bid in w.buffers
  {
    && Resizes(w.surfaces[sid], w.buffers[bid]) && UsedBy(w, t, w.surfaces[sid].egl)
    && !rz.releaseOk && !(rz.createOk && rz.rebindOk)
  }

  lemma AttachTiesCaller(w: World, t: Thread, sid: Id, bid: Id, rz: Resizing)
    requires Refs(w) && Numbered(w) && Owned(w) && Shapes(w) && TiedOn(w, t) && sid in w.surfaces && bid in w.buffers
    requires !Stuck(w, t, sid, bid, rz)
    ensures TiedOn(Attach(w, t, sid, bid, rz), t)
  {
    if AgreesOn(w, t) {
      AttachOnCaller(w, t, sid, bid, rz);
      BoundIsCurrent(w, t, sid);
    } else {
      AttachOnStray(w, t, sid, bid, rz);
    }
  }

  lemma AttachTiesOther(w: World, t: Thread, u: Thread, sid: Id, bid: Id, rz: Resizing)
    requires Refs(w) && Numbered(w) && Owned(w) && Shapes(w) && TiedOn(w, u) && t in w.threads && u != t
    requires sid in w.surfaces && bid in w.buffers
    requires !(Resizes(w.surfaces[sid], w.buffers[bid]) && UsedBy(w, u, w.surfaces[sid].egl))
    ensures TiedOn(Attach(w, t, sid, bid, rz), u)
  {
    if AgreesOn(w, u) {
      AttachOnOthers(w, t, u, sid, bid, rz);
      BoundIsCurrent(w, u, sid);
    } else {
      AttachRenames(w, t, sid, bid, rz);
    }
  }

  lemma AttachTies(w: World, t: Thread, sid: Id, bid: Id, rz: Resizing)
    requires Refs(w) && Numbered(w) && Owned(w) && Shapes(w) && Tied(w) && t in w.threads && sid in w.surfaces
    requires bid in w.buffers
    requires Resizes(w.surfaces[sid], w.buffers[bid]) ==> forall u :: u != t ==> !UsedBy(w, u, w.surfaces[sid].egl)
    requires !Stuck(w, t, sid, bid, rz)
    ensures Tied(Attach(w, t, sid, bid, rz))
  {
    var w' := Attach(w, t, sid, bid, rz);
    AttachRenames(w, t, sid, bid, rz);
    forall u | u in w'.threads
      ensures TiedOn(w', u)
    {
      if u == t {
        AttachTiesCaller(w, t, sid, bid, rz);
      } else {
        AttachTiesOther(w, t, u, sid, bid, rz);
      }
    }
  }

  /** The old pbuffer is gone after a resize, and stays current on the other thread or on a stuck caller. */
  lemma ResizeLeavesDangling(w: World, t: Thread, u: Thread, sid: Id, bid: Id, rz: Resizing)
    requires Numbered(w) && t in w.threads && sid in w.surfaces && bid in w.buffers
    requires Resizes(w.surfaces[sid], w.buffers[bid]) && UsedBy(w, u, w.surfaces[sid].egl)
    requires u != t || Stuck(w, t, sid, bid, rz)
    requires w.surfaces[sid].egl in w.pbuffers
    ensures var w' := Attach(w, t, sid, bid, rz);
            u in w'.current && w'.current[u] == w.current[u] && !LiveOn(w', w'.current[u])
  {
  }

  lemma FinishLeavesDangling(w: World, w2: World, t: Thread, op: Op, u: Thread)
    requires Defined(w) && ResizesIn(w, op)
    requires Neutral(w, w2, t, w.windows[op.surf], w.colorBuffers[op.cb].cb)
    requires Numbered(w2) && Owned(w2) && t in w2.threads && UsedBy(w2, u, w.surfaces[w.windows[op.surf]].egl)
    requires u != t || (!op.rz.releaseOk && !(op.rz.createOk && op.rz.rebindOk))
    ensures !CurrentIsLive(Finish(w2, t, op))
  {
    NeutralFinish(w, w2, t, op);
    ResizeLeavesDangling(w2, t, u, w.windows[op.surf], w.colorBuffers[op.cb].cb, op.rz);
  }

  lemma FinishTies(w: World, w2: World, t: Thread, op: Op)
    requires Defined(w) && op.SetColorBuffer? && op.surf in w.windows && op.cb in w.colorBuffers
    requires w.threads.Keys == w.current.Keys
    requires Neutral(w, w2, t, w.windows[op.surf], w.colorBuffers[op.cb].cb)
    requires Refs(w2) && Numbered(w2) && Owned(w2) && Shapes(w2) && Tied(w2) && t in w2.threads
    requires !TakesPbuffer(w, t, op) && !Stuck(w2, t, w.windows[op.surf], w.colorBuffers[op.cb].cb, op.rz)
    ensures Tied(Finish(w2, t, op))
  {
    var sid := w.windows[op.surf];
    assert forall u :: u != t && UsedBy(w2, u, w.surfaces[sid].egl) ==> UsedBy(w, u, w.surfaces[sid].egl);
    NeutralFinish(w, w2, t, op);
    AttachTies(w2, t, sid, w.colorBuffers[op.cb].cb, op.rz);
  }

  // ---------------------------------------------------------------- one step

  ghost predicate StaleIn(w: World, t: Thread, op: Op, ends: seq<Bracket>)
    requires Defined(w) && Enabled(w, t, op)
  {
    LetsGo(op) && !op.ExitThread? && RestoresStale(Effect(w, t, op), t, ends)
  }

  lemma DropTies(w: World, t: Thread)
    requires TiedOff(w, t)
    ensures Tied(DropThread(w, t))
  {
    forall u | u in DropThread(w, t).threads
      ensures TiedOn(DropThread(w, t), u)
    {
      assert TiedOn(w, u);
    }
  }

  lemma FreedTies(w: World, t: Thread, op: Op, ends: seq<Bracket>)
    requires Inv(w) && Tied(w) && Enabled(w, t, op) && !op.ExitThread? && !op.RemoveSubWindow?
    requires !StaleIn(w, t, op, ends)
    ensures Tied(Freed(Effect(w, t, op), t, op, ends)) && t in Effect(w, t, op).threads
  {
    EffectTies(w, t, op);
    if LetsGo(op) {
      ReleaseTies(Effect(w, t, op), t, ends);
    }
  }

  lemma ExitingTies(w: World, t: Thread, op: Op, ends: seq<Bracket>)
    requires Refs(w) && Numbered(w) && Shapes(w) && Tied(w) && Enabled(w, t, op) && op.ExitThread?
    ensures Tied(Next(w, t, op, ends))
  {
    ExitTies(w, t, op);
    ReleaseTiesOthers(Effect(w, t, op), t, ends);
    DropTies(Release(Effect(w, t, op), t, ends), t);
  }

  lemma AttachingTies(w: World, t: Thread, op: Op, ends: seq<Bracket>)
    requires Inv(w) && Tied(w) && Enabled(w, t, op) && !StaleIn(w, t, op, ends)
    requires op.SetColorBuffer? && op.surf in w.windows && op.cb in w.colorBuffers && !DestroysCurrent(w, t, op, ends)
    ensures Tied(Next(w, t, op, ends))
  {
    var w2 := Release(Effect(w, t, op), t, ends);
    FreedKeeps(w, t, op, ends);
    FreedTies(w, t, op, ends);
    DetachIsNeutral(w, t, op, ends);
    NotStuck(w, w2, t, op);
    FinishTies(w, w2, t, op);
  }

  lemma NotStuck(w: World, w2: World, t: Thread, op: Op)
    requires Defined(w) && op.SetColorBuffer? && op.surf in w.windows && op.cb in w.colorBuffers
    requires Neutral(w, w2, t, w.windows[op.surf], w.colorBuffers[op.cb].cb)
    ensures Stuck(w2, t, w.windows[op.surf], w.colorBuffers[op.cb].cb, op.rz) <==>
              && ResizesIn(w, op) && !op.rz.releaseOk && !(op.rz.createOk && op.rz.rebindOk)
              && UsedBy(w2, t, w.surfaces[w.windows[op.surf]].egl)
  {
  }

  lemma AttachingLeavesDangling(w: World, t: Thread, op: Op, ends: seq<Bracket>)
    requires Inv(w) && Enabled(w, t, op) && (TakesPbuffer(w, t, op) || KeepsPbuffer(w, t, op, ends))
    ensures !CurrentIsLive(Next(w, t, op, ends))
  {
    var w2 := Release(Effect(w, t, op), t, ends);
    FreedKeeps(w, t, op, ends);
    DetachIsNeutral(w, t, op, ends);
    if TakesPbuffer(w, t, op) {
      var u :| u != t && UsedBy(w, u, w.surfaces[w.windows[op.surf]].egl);
      FinishLeavesDangling(w, w2, t, op, u);
    } else {
      FinishLeavesDangling(w, w2, t, op, t);
    }
  }

  lemma StepLeavesDangling(w: World, t: Thread, op: Op, ends: seq<Bracket>)
    requires Inv(w) && Enabled(w, t, op) && DestroysCurrent(w, t, op, ends)
    ensures !CurrentIsLive(Next(w, t, op, ends))
  {
    if TakesWindow(w, t, op) {
      RemovingLeavesDangling(w, t, op);
    } else {
      AttachingLeavesDangling(w, t, op, ends);
    }
  }

  lemma StepTies(w: World, t: Thread, op: Op, ends: seq<Bracket>)
    requires Inv(w) && Tied(w) && Enabled(w, t, op) && !StaleIn(w, t, op, ends) && !DestroysCurrent(w, t, op, ends)
    ensures Tied(Next(w, t, op, ends))
  {
    if op.SetColorBuffer? && op.surf in w.windows && op.cb in w.colorBuffers {
      AttachingTies(w, t, op, ends);
    } else if op.ExitThread? {
      ExitingTies(w, t, op, ends);
    } else if op.RemoveSubWindow? {
      RemovingTies(w, t, op);
    } else {
      FreedTies(w, t, op, ends);
      FinishIsIdle(w, t, op, ends);
    }
  }

  /**
   * Whatever EGL answers, and also where agreement is already lost: a step leaves something destroyed
   * current if and only if it replaces a pbuffer that another thread has current, or that EGL keeps the
   * caller from letting go of, or removes a window in the same way.
   */
  lemma LivenessExactly(w: World, t: Thread, op: Op, ends: seq<Bracket>)
    requires Inv(w) && Tied(w) && Enabled(w, t, op) && !StaleIn(w, t, op, ends)
    ensures !DestroysCurrent(w, t, op, ends) ==> Tied(Next(w, t, op, ends))
    ensures CurrentIsLive(Next(w, t, op, ends)) <==> !DestroysCurrent(w, t, op, ends)
  {
    if DestroysCurrent(w, t, op, ends) {
      StepLeavesDangling(w, t, op, ends);
    } else {
      StepTies(w, t, op, ends);
      NextKeepsInv(w, t, op, ends);
      TiedIsLive(Next(w, t, op, ends));
    }
  }

  lemma WalkOne(idle: bool, trip: Trip)
    ensures Walk(idle, Home, [trip]) == Moved(idle, Home, trip.br)
  {
    assert [trip][..0] == [];
  }

  lemma StartedNear(w: World, t: Thread, op: Op)
    requires Defined(w) && Enabled(w, t, op) && LetsGo(op)
    ensures Started(w, t, op) != Gone
  {
    if op.CreateColorBuffer? {
      WalkOne(IdleAfter(w, t, op), Trip(OWN, Checked(op.br)));
    }
  }

  lemma SlotTies(w: World, t: Thread, op: Op)
    requires Inv(w) && Settled(w) && Enabled(w, t, op) && LetsGo(op) && !op.ExitThread?
    ensures var w1 := Effect(w, t, op);
            t in w1.threads && Ties(w1, w1.threads[t], w1.frame.slot)
  {
    EffectReaches(w, t, op);
    StartedNear(w, t, op);
  }

  /** A settled state is tied, and nothing stale can be restored in it. */
  lemma SettledIsTied(w: World, t: Thread, op: Op, ends: seq<Bracket>)
    requires Inv(w) && Settled(w) && Enabled(w, t, op)
    ensures Tied(w) && !StaleIn(w, t, op, ends)
  {
    forall u | u in w.threads
      ensures TiedOn(w, u)
    {
      assert AgreesOn(w, u);
    }
    if LetsGo(op) && !op.ExitThread? {
      SlotTies(w, t, op);
    }
  }
}
