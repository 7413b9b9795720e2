/** EGL's current triples against the thread infos, over every run of any number of threads. */
module Agreement {
  import opened Worlds
  import opened WorldLaws

  ghost function EglOf(w: World, s: Id): nat {
    if s in w.surfaces then w.surfaces[s].egl else 0
  }

  /** The EGL triple that a thread's info stands for. */
  ghost function Recorded(w: World, i: ThreadInfo): Triple {
    if i.ctx == 0 then NONE else Triple(EglOf(w, i.draw), EglOf(w, i.read), i.ctx)
  }

  ghost predicate AgreesOn(w: World, t: Thread) {
    t in w.threads && t in w.current && w.current[t] == Recorded(w, w.threads[t])
  }

  /** On every thread but `t`, what EGL has current is what the thread info records. */
  ghost predicate AgreesOff(w: World, t: Thread) {
    forall u :: u in w.threads && u != t ==> AgreesOn(w, u)
  }

  ghost predicate Agrees(w: World) {
    forall t :: t in w.threads ==> AgreesOn(w, t)
  }

  /** Agreement everywhere, and no triple waits in the framebuffer's slot. */
  ghost predicate Settled(w: World) {
    Agrees(w) && w.frame.slot == NONE
  }

  // ---------------------------------------------------------------- brackets

  /** A thread's triple is current, or waits in the slot, or is in neither place. */
  datatype Place = Home | Away | Gone

  /** One bracket, by EGL's answers alone; an idle thread's triple is none, which an emptied slot gives back. */
  function Moved(idle: bool, p: Place, br: Bracket): Place {
    match (br.bindOk, br.unbindOk)
    case (false, false) => p
    case (true, true) => if p == Home then Home else if idle then Away else Gone
    case (true, false) => if p == Home then Away else Gone
    case (false, true) => if p == Away then Home else if !idle then Gone else if p == Home then Home else Away
  }

  function Walk(idle: bool, p: Place, trips: seq<Trip>): Place {
    if trips == [] then p else Moved(idle, Walk(idle, p, trips[..|trips| - 1]), trips[|trips| - 1].br)
  }

  /** `at` is where the place says, seen from the triple `x`. */
  ghost predicate AtPlace(x: Triple, p: Place, at: Egl) {
    match p
    case Home => at == Egl(x, NONE)
    case Away => IsOwn(at.cur) && at.slot == x
    case Gone => (IsOwn(at.cur) || at.cur == NONE != x) && (IsOwn(at.slot) || at.slot == NONE != x)
  }

  ghost predicate ToOwn(trips: seq<Trip>) {
    forall i :: 0 <= i < |trips| ==> IsOwn(trips[i].to)
  }

  lemma {:induction false} WalkIsThrough(x: Triple, p: Place, at: Egl, trips: seq<Trip>)
    requires !IsOwn(x) && ToOwn(trips) && AtPlace(x, p, at)
    ensures AtPlace(x, Walk(x == NONE, p, trips), Through(at, trips))
  {
    if trips != [] {
      WalkIsThrough(x, p, at, trips[..|trips| - 1]);
    }
  }

  /** Brackets bring the caller back to `x` and leave the slot empty exactly if they end at home. */
  lemma BracketsReturnExactly(x: Triple, p: Place, at: Egl, trips: seq<Trip>)
    requires !IsOwn(x) && ToOwn(trips) && AtPlace(x, p, at)
    ensures var end := Through(at, trips);
            && (end == Egl(x, NONE) <==> Walk(x == NONE, p, trips) == Home)
            && (end.cur == x ==> end.slot == NONE) && (end.cur == x || IsOwn(end.cur) || end.cur == NONE)
  {
    WalkIsThrough(x, p, at, trips);
  }

  /** For one bracket: it was entered and not left, or it was left without being entered while something was current. */
  lemma OneBracket(idle: bool, trip: Trip)
    ensures Walk(idle, Home, [trip]) == Home <==>
              !(trip.br.bindOk && !trip.br.unbindOk) && (idle || !(!trip.br.bindOk && trip.br.unbindOk))
  {
    assert [trip][..0] == [];
  }

  /** Whether one particular triple is current, and whether it is in the slot. */
  datatype Sighting = Sighting(cur: bool, slot: bool)

  /** The same after more brackets, by EGL's answers alone; `none` says that the triple looked for is none. */
  function Sighted(at: Sighting, none: bool, trips: seq<Trip>): Sighting {
    if trips == [] then at else
      var at1, br := Sighted(at, none, trips[..|trips| - 1]), trips[|trips| - 1].br;
      match (br.bindOk, br.unbindOk)
      case (false, false) => at1
      case (true, true) => Sighting(at1.cur, none)
      case (true, false) => Sighting(false, at1.cur)
      case (false, true) => Sighting(at1.slot, none)
  }

  lemma {:induction false} SightedIsThrough(v: Triple, at: Egl, trips: seq<Trip>)
    requires forall i :: 0 <= i < |trips| ==> trips[i].to != v
    ensures var end := Through(at, trips);
            Sighted(Sighting(at.cur == v, at.slot == v), v == NONE, trips) == Sighting(end.cur == v, end.slot == v)
  {
    if trips != [] {
      SightedIsThrough(v, at, trips[..|trips| - 1]);
    }
  }

  // ---------------------------------------------------------------- how agreement breaks

  ghost predicate BoundOn(w: World, t: Thread, s: Id) {
    t in w.threads && (w.threads[t].draw == s || w.threads[t].read == s)
  }

  /** `setColorBuffer` has to replace the pbuffer of the window's surface. */
  ghost predicate ResizesIn(w: World, op: Op)
    requires Defined(w)
  {
    && op.SetColorBuffer? && op.surf in w.windows && op.cb in w.colorBuffers
    && Resizes(w.surfaces[w.windows[op.surf]], w.buffers[w.colorBuffers[op.cb].cb])
  }

  /** The surface is bound by another thread, or by the caller while EGL refuses the new pbuffer or the rebind. */
  ghost predicate ResizeBreaks(w: World, t: Thread, op: Op)
    requires Defined(w)
  {
    && ResizesIn(w, op)
    && var s := w.windows[op.surf];
       (exists u :: u != t && BoundOn(w, u, s)) || (BoundOn(w, t, s) && !(op.rz.createOk && op.rz.rebindOk))
  }

  /** The thread has nothing bound once the step has had its effect. */
  ghost predicate IdleAfter(w: World, t: Thread, op: Op)
    requires Defined(w) && Enabled(w, t, op)
  {
    var w1 := Effect(w, t, op);
    t in w1.threads && w1.threads[t].ctx == 0
  }

  /** Where EGL's answers to the step's own calls leave the caller; `removeSubWindow` takes its triple away. */
  ghost function Started(w: World, t: Thread, op: Op): Place
    requires Defined(w) && Enabled(w, t, op)
  {
    if !op.RemoveSubWindow? then Walk(IdleAfter(w, t, op), Home, Trips(w, t, op))
    else if w.frame.subWin && op.eglOk && w.threads[t].ctx != 0 then Gone else Home
  }

  /** How many colour buffers the step destroys. */
  ghost function Deaths(w: World, t: Thread, op: Op): nat
    requires Defined(w) && Enabled(w, t, op)
  {
    if LetsGo(op) then |Dead(Effect(w, t, op))| else 0
  }

  /** Where the answers to the destructors it triggers leave it then. */
  ghost function Ended(w: World, t: Thread, op: Op, ends: seq<Bracket>): Place
    requires Defined(w) && Enabled(w, t, op)
  {
    Walk(IdleAfter(w, t, op), Started(w, t, op), Destructors(Deaths(w, t, op), ends))
  }

  /** The destructors of an exiting thread leave a triple in the slot. */
  ghost predicate LeavesTriple(w: World, t: Thread, op: Op, ends: seq<Bracket>)
    requires Defined(w) && Enabled(w, t, op) && op.ExitThread?
  {
    var nothing := Sighting(op.eglOk || w.threads[t].ctx == 0, true);
    !Sighted(nothing, true, Destructors(Deaths(w, t, op), ends)).slot
  }

  /** The ways to unsettle a state: a resize under a binding, a bound caller's `removeSubWindow`, half-done brackets. */
  ghost predicate Breaks(w: World, t: Thread, op: Op, ends: seq<Bracket>)
    requires Defined(w) && Enabled(w, t, op)
  {
    if op.ExitThread? then LeavesTriple(w, t, op, ends)
    else Ended(w, t, op, ends) != Home || ResizeBreaks(w, t, op)
  }

  // ---------------------------------------------------------------- the effect of a step

  ghost predicate KeepsEgl(w: World, w': World) {
    forall s :: s in w.surfaces ==> s in w'.surfaces && w'.surfaces[s].egl == w.surfaces[s].egl
  }

  /** `w'` differs from `w` in no EGL name, and only in the thread `t`. */
  ghost predicate Local(w: World, w': World, t: Thread) {
    && KeepsEgl(w, w') && w'.threads.Keys == w'.current.Keys && t in w'.threads
    && (forall u :: u in w'.threads && u != t ==>
          u in w.threads && u in w.current && w'.threads[u] == w.threads[u] && w'.current[u] == w.current[u])
  }

  lemma RecordedStays(w: World, w': World, i: ThreadInfo)
    requires InfoRefs(w, i) && InfoShape(w, i) && KeepsEgl(w, w')
    ensures Recorded(w', i) == Recorded(w, i)
  {
  }

  lemma LocalAgrees(w: World, w': World, t: Thread)
    requires Refs(w) && Shapes(w) && AgreesOff(w, t) && Local(w, w', t)
    ensures AgreesOff(w', t)
  {
    forall u | u in w'.threads && u != t
      ensures AgreesOn(w', u)
    {
      assert AgreesOn(w, u);
      RecordedStays(w, w', w.threads[u]);
    }
  }

  /** A step of `t` that does not change its binding, only where the brackets `trips` leave it. */
  ghost predicate Frames(w: World, w': World, t: Thread, trips: seq<Trip>) {
    && Local(w, w', t) && t in w.threads && t in w.current && w'.threads == w.threads
    && EglAt(w', t) == Through(EglAt(w, t), trips)
  }

  lemma BroughtIs(w: World, t: Thread, frame: Frame, trips: seq<Trip>)
    requires t in w.current && frame.slot == w.frame.slot
    ensures var w', at := Brought(w, t, frame, trips), Through(EglAt(w, t), trips);
            && w' == w.(current := w.current[t := at.cur], frame := frame.(slot := at.slot))
  {
    assert w.current[t := w.current[t]] == w.current;
  }

  lemma FramedIs(w: World, t: Thread, op: Op)
    requires t in w.current
    ensures var at := Through(EglAt(w, t), Trips(w, t, op));
            Framed(w, t, op) == w.(current := w.current[t := at.cur], frame := Shown(w, op).(slot := at.slot))
  {
    BroughtIs(w, t, Shown(w, op), Trips(w, t, op));
  }

  lemma FrameFrames(w: World, w': World, t: Thread, trips: seq<Trip>)
    requires w.threads.Keys == w.current.Keys && t in w.threads && w' == w.(current := w'.current, frame := w'.frame)
    requires w'.current == w.current[t := Through(EglAt(w, t), trips).cur]
    requires w'.frame.slot == Through(EglAt(w, t), trips).slot
    ensures Frames(w, w', t, trips)
  {
    assert w'.current.Keys == w.current.Keys;
  }

  lemma FramedFrames(w: World, t: Thread, op: Op)
    requires w.threads.Keys == w.current.Keys && t in w.threads
    ensures Frames(w, Framed(w, t, op), t, Trips(w, t, op))
  {
    FramedIs(w, t, op);
    FrameFrames(w, Framed(w, t, op), t, Trips(w, t, op));
  }

  lemma CreatedFrames(w: World, w1: World, t: Thread, op: Op, trips: seq<Trip>)
    requires Numbered(w1) && Frames(w, w1, t, trips)
    ensures Frames(w, Created(w1, op), t, trips)
  {
  }

  lemma FlushedFrames(w: World, w1: World, t: Thread, surf: Handle, gl: GlResults, trips: seq<Trip>)
    requires Frames(w, w1, t, trips)
    ensures Frames(w, Flushed(w1, t, surf, gl), t, trips)
  {
  }

  ghost predicate Binds(op: Op) { op.BindContext? || op.ExitThread? }

  lemma CreatingFrames(w: World, t: Thread, op: Op)
    requires Inv(w) && t in w.threads
    ensures Frames(w, Created(Framed(w, t, op), op), t, Trips(w, t, op))
  {
    FramedFrames(w, t, op);
    FramingKeeps(w, t, op);
    CreatedFrames(w, Framed(w, t, op), t, op, Trips(w, t, op));
  }

  lemma FlushingFrames(w: World, t: Thread, op: Op)
    requires w.threads.Keys == w.current.Keys && t in w.threads && op.FlushSurface?
    ensures Frames(w, Flushed(Framed(w, t, op), t, op.surf, op.gl), t, Trips(w, t, op))
  {
    FramedFrames(w, t, op);
    FlushedFrames(w, Framed(w, t, op), t, op.surf, op.gl, Trips(w, t, op));
  }

  lemma RetabledFrames(w: World, t: Thread, op: Op)
    requires w.threads.Keys == w.current.Keys && t in w.threads && !Creates(op) && !Binds(op) && !op.RemoveSubWindow?
    ensures Frames(w, Framed(Retabled(w, t, op), t, op), t, Trips(w, t, op))
  {
    FramedFrames(Retabled(w, t, op), t, op);
  }

  lemma DetachFrames(w: World, t: Thread, sid: Id)
    requires w.threads.Keys == w.current.Keys && t in w.threads && sid in w.surfaces
    ensures Frames(w, Detach(w, sid), t, []) && Frames(w, w, t, [])
  {
  }

  lemma DetachingFrames(w: World, t: Thread, op: Op)
    requires Defined(w) && w.threads.Keys == w.current.Keys && t in w.threads && op.SetColorBuffer?
    ensures Frames(w, Effect(w, t, op), t, Trips(w, t, op))
  {
    if op.surf in w.windows {
      DetachFrames(w, t, w.windows[op.surf]);
    }
  }

  /** The steps that bind and unbind nothing, seen from EGL. */
  lemma EffectFrames(w: World, t: Thread, op: Op)
    requires Inv(w) && Enabled(w, t, op) && !Binds(op) && !op.RemoveSubWindow? && t in w.threads
    ensures Frames(w, Effect(w, t, op), t, Trips(w, t, op))
  {
    if Creates(op) {
      CreatingFrames(w, t, op);
    } else if op.FlushSurface? {
      FlushingFrames(w, t, op);
    } else if op.SetColorBuffer? {
      DetachingFrames(w, t, op);
    } else {
      RetabledFrames(w, t, op);
    }
  }

  /** Other threads still agree, and the caller is at place `p`, seen from what is now recorded for it. */
  ghost predicate Reached(w: World, t: Thread, p: Place) {
    AgreesOff(w, t) && t in w.threads && t in w.current && AtPlace(Recorded(w, w.threads[t]), p, EglAt(w, t))
  }

  lemma RecordedIsNotOwn(w: World, i: ThreadInfo)
    requires Numbered(w) && InfoRefs(w, i)
    ensures !IsOwn(Recorded(w, i))
  {
  }

  lemma FramesReach(w: World, w': World, t: Thread, trips: seq<Trip>)
    requires Refs(w) && Numbered(w) && Shapes(w) && Settled(w) && Frames(w, w', t, trips) && ToOwn(trips)
    ensures Reached(w', t, Walk(w.threads[t].ctx == 0, Home, trips))
  {
    var x := Recorded(w, w.threads[t]);
    LocalAgrees(w, w', t);
    assert AgreesOn(w, t);
    RecordedStays(w, w', w.threads[t]);
    RecordedIsNotOwn(w, w.threads[t]);
    WalkIsThrough(x, Home, Egl(x, NONE), trips);
  }

  lemma UnbindReaches(w: World, t: Thread)
    requires Refs(w) && Numbered(w) && Shapes(w) && Settled(w) && t in w.threads
    ensures Reached(Unbind(w, t), t, Home)
  {
    UnbindRebinds(w, t);
    LocalAgrees(w, Unbind(w, t), t);
  }

  lemma BindReaches(w: World, t: Thread, c: Id, d: Id, r: Id, drawGl: GlResults, readGl: GlResults)
    requires Refs(w) && Numbered(w) && Shapes(w) && Settled(w)
    requires t in w.threads && c in w.ctxs && d in w.surfaces && r in w.surfaces
    ensures Reached(Bind(w, t, c, d, r, drawGl, readGl), t, Home)
  {
    var w' := Bind(w, t, c, d, r, drawGl, readGl);
    BindRebinds(w, t, c, d, r, drawGl, readGl);
    assert Rewritten(w.surfaces[d], w'.surfaces[d], c) && Rewritten(w.surfaces[r], w'.surfaces[r], c);
    LocalAgrees(w, w', t);
  }

  lemma BindingReaches(w: World, t: Thread, op: Op)
    requires Inv(w) && Settled(w) && Enabled(w, t, op) && op.BindContext?
    ensures Reached(Effect(w, t, op), t, Home) && Started(w, t, op) == Home
  {
    assert AgreesOn(w, t);
    var w' := BindingIs(w, t, op);
    if w' == w {
    } else if op.c == 0 && op.d == 0 && op.r == 0 {
      UnbindReaches(w, t);
    } else {
      BindReaches(w, t, w.contexts[op.c], w.windows[op.d], w.windows[op.r], op.drawGl, op.readGl);
    }
  }

  lemma StartReaches(w: World, t: Thread)
    requires Refs(w) && Numbered(w) && Shapes(w) && Settled(w) && t !in w.threads
    ensures Reached(AddThread(w, t), t, Home)
  {
    var w' := AddThread(w, t);
    assert w'.threads.Keys == w.threads.Keys + {t} && w'.current.Keys == w.current.Keys + {t};
    LocalAgrees(w, w', t);
  }

  lemma RemovingReaches(w: World, t: Thread, eglOk: bool)
    requires Refs(w) && Numbered(w) && Shapes(w) && Settled(w) && t in w.threads
    ensures Reached(Removed(w, t, eglOk), t, if w.frame.subWin && eglOk && w.threads[t].ctx != 0 then Gone else Home)
  {
    var w' := Removed(w, t, eglOk);
    assert w'.current.Keys == w.current.Keys;
    LocalAgrees(w, w', t);
    assert AgreesOn(w, t);
    RecordedStays(w, w', w.threads[t]);
  }

  lemma FramingReaches(w: World, t: Thread, op: Op)
    requires Inv(w) && Settled(w) && Enabled(w, t, op) && !Binds(op) && !op.RemoveSubWindow? && t in w.threads
    ensures Reached(Effect(w, t, op), t, Started(w, t, op))
  {
    EffectFrames(w, t, op);
    TripsAreWhole(w, t, op);
    FramesReach(w, Effect(w, t, op), t, Trips(w, t, op));
  }

  lemma StartingIs(w: World, t: Thread, op: Op)
    requires Defined(w) && Enabled(w, t, op) && t !in w.threads
    ensures Effect(w, t, op) == AddThread(w, t) && Started(w, t, op) == Home
  {
  }

  lemma RemovingIs(w: World, t: Thread, op: Op)
    requires Defined(w) && Enabled(w, t, op) && op.RemoveSubWindow?
    ensures Effect(w, t, op) == Removed(w, t, op.eglOk)
    ensures Started(w, t, op) == if w.frame.subWin && op.eglOk && w.threads[t].ctx != 0 then Gone else Home
  {
  }

  lemma EffectReaches(w: World, t: Thread, op: Op)
    requires Inv(w) && Settled(w) && Enabled(w, t, op) && !op.ExitThread?
    ensures Reached(Effect(w, t, op), t, Started(w, t, op))
  {
    if t !in w.threads {
      StartingIs(w, t, op);
      StartReaches(w, t);
    } else if op.RemoveSubWindow? {
      RemovingIs(w, t, op);
      RemovingReaches(w, t, op.eglOk);
    } else if op.BindContext? {
      BindingReaches(w, t, op);
    } else {
      FramingReaches(w, t, op);
    }
  }

  /** Such a state is settled exactly at home. */
  lemma HomeIsSettled(w: World, t: Thread, p: Place)
    requires Refs(w) && Numbered(w) && Reached(w, t, p)
    ensures (Settled(w) <==> p == Home) && (Settled(w) <==> AgreesOn(w, t))
    ensures AgreesOn(w, t) || IsOwn(w.current[t]) || w.current[t] == NONE
  {
    RecordedIsNotOwn(w, w.threads[t]);
  }

  // ---------------------------------------------------------------- destructors

  lemma SweepKeepsRecorded(w: World, t: Thread)
    requires t in w.threads
    ensures Recorded(Sweep(w), w.threads[t]) == Recorded(w, w.threads[t])
  {
    var w', i := Sweep(w), w.threads[t];
    assert EglOf(w', i.draw) == EglOf(w, i.draw) && EglOf(w', i.read) == EglOf(w, i.read);
  }

  /** Destructors change no other thread's triple, and the caller's as their brackets do. */
  lemma ReleaseIs(w: World, t: Thread, ends: seq<Bracket>)
    requires t in w.current
    ensures var at := Through(EglAt(w, t), Destructors(|Dead(w)|, ends));
            Release(w, t, ends) == Sweep(w).(current := w.current[t := at.cur], frame := w.frame.(slot := at.slot))
  {
    assert w.current[t := w.current[t]] == w.current;
  }

  lemma ReleaseKeepsOthers(w: World, t: Thread, ends: seq<Bracket>)
    requires t in w.current && AgreesOff(w, t)
    ensures AgreesOff(Release(w, t, ends), t)
  {
    ReleaseIs(w, t, ends);
    forall u | u in w.threads && u != t
      ensures AgreesOn(Release(w, t, ends), u)
    {
      assert AgreesOn(w, u);
      SweepKeepsRecorded(w, u);
    }
  }

  lemma ReleaseKeepsRecorded(w: World, t: Thread, ends: seq<Bracket>)
    requires t in w.threads && t in w.current
    ensures var w' := Release(w, t, ends);
            && w'.threads == w.threads && t in w'.current && Recorded(w', w.threads[t]) == Recorded(w, w.threads[t])
            && EglAt(w', t) == Through(EglAt(w, t), Destructors(|Dead(w)|, ends))
  {
    ReleaseIs(w, t, ends);
    SweepKeepsRecorded(w, t);
  }

  /** The destructors move the caller on as their brackets say. */
  lemma ReleaseReaches(w: World, t: Thread, p: Place, ends: seq<Bracket>)
    requires Refs(w) && Numbered(w) && Reached(w, t, p)
    ensures Reached(Release(w, t, ends), t, Walk(w.threads[t].ctx == 0, p, Destructors(|Dead(w)|, ends)))
  {
    ReleaseKeepsOthers(w, t, ends);
    ReleaseKeepsRecorded(w, t, ends);
    RecordedIsNotOwn(w, w.threads[t]);
    DestructorsAre(|Dead(w)|, ends);
    WalkIsThrough(Recorded(w, w.threads[t]), p, EglAt(w, t), Destructors(|Dead(w)|, ends));
  }

  // ---------------------------------------------------------------- attaching

  /** Under agreement a bound surface has a pbuffer, and that pbuffer is current exactly where it is bound. */
  lemma BoundIsCurrent(w: World, t: Thread, s: Id)
    requires Refs(w) && Numbered(w) && Owned(w) && Shapes(w) && AgreesOn(w, t) && s in w.surfaces
    ensures BoundOn(w, t, s) ==> w.surfaces[s].egl != 0 && w.threads[t].ctx != 0
    ensures w.surfaces[s].egl != 0 ==> (w.current[t].draw == w.surfaces[s].egl <==> w.threads[t].draw == s)
    ensures w.surfaces[s].egl != 0 ==> (w.current[t].read == w.surfaces[s].egl <==> w.threads[t].read == s)
  {
    assert InfoShape(w, w.threads[t]) && InfoRefs(w, w.threads[t]) && AllOrNone(w.current[t]);
  }

  /** `w'` differs from `w` in the EGL name of one surface and in the caller's current triple. */
  ghost predicate Renames(w: World, w': World, t: Thread, sid: Id, egl: nat) {
    && w'.threads == w.threads && w'.surfaces.Keys == w.surfaces.Keys && w'.current.Keys == w.current.Keys
    && w'.frame == w.frame
    && (forall s :: s in w.surfaces ==> w'.surfaces[s].egl == if s == sid then egl else w.surfaces[s].egl)
    && (forall u :: u in w.current && u != t ==> w'.current[u] == w.current[u])
  }

  lemma AttachRenames(w: World, t: Thread, sid: Id, bid: Id, rz: Resizing)
    requires t in w.current && sid in w.surfaces && bid in w.buffers
    ensures Renames(w, Attach(w, t, sid, bid, rz), t, sid,
                    if !Resizes(w.surfaces[sid], w.buffers[bid]) then w.surfaces[sid].egl
                    else if rz.createOk then w.unused else 0)
  {
  }

  /** Another thread that has the renamed surface bound loses agreement, and no other thread does. */
  lemma RenameOnOthers(w: World, w': World, t: Thread, u: Thread, sid: Id, egl: nat)
    requires Refs(w) && Numbered(w) && Owned(w) && Shapes(w) && AgreesOn(w, u)
    requires u != t && sid in w.surfaces && Renames(w, w', t, sid, egl)
    ensures AgreesOn(w', u) <==> egl == w.surfaces[sid].egl || !BoundOn(w, u, sid)
  {
    BoundIsCurrent(w, u, sid);
    assert InfoShape(w, w.threads[u]) && InfoRefs(w, w.threads[u]);
  }

  lemma AttachOnOthers(w: World, t: Thread, u: Thread, sid: Id, bid: Id, rz: Resizing)
    requires Refs(w) && Numbered(w) && Owned(w) && Shapes(w) && AgreesOn(w, u)
    requires t in w.threads && u != t && sid in w.surfaces && bid in w.buffers
    ensures AgreesOn(Attach(w, t, sid, bid, rz), u) <==>
              !(Resizes(w.surfaces[sid], w.buffers[bid]) && BoundOn(w, u, sid))
  {
    var egl := if !Resizes(w.surfaces[sid], w.buffers[bid]) then w.surfaces[sid].egl
               else if rz.createOk then w.unused else 0;
    AttachRenames(w, t, sid, bid, rz);
    RenameOnOthers(w, Attach(w, t, sid, bid, rz), t, u, sid, egl);
    BoundIsCurrent(w, u, sid);
  }

  lemma AttachOnCaller(w: World, t: Thread, sid: Id, bid: Id, rz: Resizing)
    requires Refs(w) && Numbered(w) && Owned(w) && Shapes(w) && AgreesOn(w, t)
    requires sid in w.surfaces && bid in w.buffers
    ensures AgreesOn(Attach(w, t, sid, bid, rz), t) <==>
              !(Resizes(w.surfaces[sid], w.buffers[bid]) && BoundOn(w, t, sid) && !(rz.createOk && rz.rebindOk))
  {
    BoundIsCurrent(w, t, sid);
  }

  /** A caller that a bracket has already left on the framebuffer's triple, or on none, is not rebound. */
  lemma AttachOnStray(w: World, t: Thread, sid: Id, bid: Id, rz: Resizing)
    requires Refs(w) && Numbered(w) && Owned(w) && Shapes(w) && t in w.threads && sid in w.surfaces && bid in w.buffers
    requires IsOwn(w.current[t]) || w.current[t] == NONE
    ensures Attach(w, t, sid, bid, rz).current[t] == w.current[t]
    ensures !AgreesOn(w, t) ==> !AgreesOn(Attach(w, t, sid, bid, rz), t)
  {
    assert InfoRefs(w, w.threads[t]);
  }

  lemma AttachSettlesExactly(w: World, t: Thread, sid: Id, bid: Id, rz: Resizing)
    requires Refs(w) && Numbered(w) && Owned(w) && Shapes(w) && AgreesOff(w, t) && (Settled(w) <==> AgreesOn(w, t))
    requires t in w.threads && sid in w.surfaces && bid in w.buffers
    requires AgreesOn(w, t) || IsOwn(w.current[t]) || w.current[t] == NONE
    ensures Settled(Attach(w, t, sid, bid, rz)) <==>
              Settled(w) && !(Resizes(w.surfaces[sid], w.buffers[bid]) &&
                              (|| (exists u :: u != t && BoundOn(w, u, sid))
                               || (BoundOn(w, t, sid) && !(rz.createOk && rz.rebindOk))))
  {
    var w' := Attach(w, t, sid, bid, rz);
    AttachRenames(w, t, sid, bid, rz);
    if AgreesOn(w, t) {
      AttachOnCaller(w, t, sid, bid, rz);
      forall u | u in w.threads && u != t
        ensures AgreesOn(w', u) <==> !(Resizes(w.surfaces[sid], w.buffers[bid]) && BoundOn(w, u, sid))
      {
        AttachOnOthers(w, t, u, sid, bid, rz);
      }
    } else {
      AttachOnStray(w, t, sid, bid, rz);
    }
  }

  /** Between letting go of the old buffer and attaching the new one, nothing that decides about the resize changes. */
  ghost predicate Neutral(w: World, w2: World, t: Thread, s: Id, b: Id) {
    && w2.windows == w.windows && w2.colorBuffers == w.colorBuffers && w2.threads == w.threads
    && s in w.surfaces && b in w.buffers && s in w2.surfaces && b in w2.buffers && t in w2.current
    && w2.surfaces[s] == w.surfaces[s].(attached := 0) && w2.buffers[b] == w.buffers[b]
    && (forall u :: u in w.current && u != t ==> u in w2.current && w2.current[u] == w.current[u])
  }

  lemma ReleaseIsNeutral(w: World, t: Thread, surf: Handle, cb: Handle, ends: seq<Bracket>)
    requires Defined(w) && t in w.current && surf in w.windows && cb in w.colorBuffers
    ensures Neutral(w, Release(Detach(w, w.windows[surf]), t, ends), t, w.windows[surf], w.colorBuffers[cb].cb)
  {
    var w1 := Detach(w, w.windows[surf]);
    ReleaseIs(w1, t, ends);
    assert SurfaceHeld(w1, w.windows[surf]) && BufferHeld(SweepSurfaces(w1), w.colorBuffers[cb].cb);
  }

  lemma DetachIsNeutral(w: World, t: Thread, op: Op, ends: seq<Bracket>)
    requires Defined(w) && Enabled(w, t, op) && op.SetColorBuffer? && op.surf in w.windows && op.cb in w.colorBuffers
    ensures Neutral(w, Release(Effect(w, t, op), t, ends), t, w.windows[op.surf], w.colorBuffers[op.cb].cb)
  {
    ReleaseIsNeutral(w, t, op.surf, op.cb, ends);
  }

  lemma FreedReaches(w: World, t: Thread, op: Op, ends: seq<Bracket>)
    requires Inv(w) && Settled(w) && Enabled(w, t, op) && !op.ExitThread?
    ensures Reached(Freed(Effect(w, t, op), t, op, ends), t, Ended(w, t, op, ends))
  {
    EffectReaches(w, t, op);
    EffectKeeps(w, t, op);
    if LetsGo(op) {
      ReleaseReaches(Effect(w, t, op), t, Started(w, t, op), ends);
    }
  }

  lemma FreedKeeps(w: World, t: Thread, op: Op, ends: seq<Bracket>)
    requires Inv(w) && Enabled(w, t, op)
    ensures Inv(Freed(Effect(w, t, op), t, op, ends))
  {
    EffectKeeps(w, t, op);
    ReleaseKeeps(Effect(w, t, op), t, ends);
  }

  /** The state after the destructors, for every step of a thread that stays. */
  lemma FreedSettlesExactly(w: World, t: Thread, op: Op, ends: seq<Bracket>)
    requires Inv(w) && Settled(w) && Enabled(w, t, op) && !op.ExitThread?
    ensures var w2 := Freed(Effect(w, t, op), t, op, ends);
            && Inv(w2) && AgreesOff(w2, t) && t in w2.threads && t in w2.current
            && (Settled(w2) <==> Ended(w, t, op, ends) == Home) && (Settled(w2) <==> AgreesOn(w2, t))
            && (AgreesOn(w2, t) || IsOwn(w2.current[t]) || w2.current[t] == NONE)
  {
    FreedKeeps(w, t, op, ends);
    FreedReaches(w, t, op, ends);
    HomeIsSettled(Freed(Effect(w, t, op), t, op, ends), t, Ended(w, t, op, ends));
  }

  lemma NeutralResize(w: World, w2: World, t: Thread, op: Op)
    requires Defined(w) && op.SetColorBuffer? && op.surf in w.windows && op.cb in w.colorBuffers
    requires Neutral(w, w2, t, w.windows[op.surf], w.colorBuffers[op.cb].cb)
    ensures var s, b := w.windows[op.surf], w.colorBuffers[op.cb].cb;
            ResizeBreaks(w, t, op) <==>
              && Resizes(w2.surfaces[s], w2.buffers[b])
              && (|| (exists u :: u != t && BoundOn(w2, u, s))
                  || (BoundOn(w2, t, s) && !(op.rz.createOk && op.rz.rebindOk)))
  {
    assert forall u :: BoundOn(w2, u, w.windows[op.surf]) <==> BoundOn(w, u, w.windows[op.surf]);
  }

  lemma NeutralFinish(w: World, w2: World, t: Thread, op: Op)
    requires Defined(w) && op.SetColorBuffer? && op.surf in w.windows && op.cb in w.colorBuffers
    requires Neutral(w, w2, t, w.windows[op.surf], w.colorBuffers[op.cb].cb)
    ensures Finish(w2, t, op) == Attach(w2, t, w.windows[op.surf], w.colorBuffers[op.cb].cb, op.rz)
  {
  }

  lemma FinishSettlesExactly(w: World, w2: World, t: Thread, op: Op)
    requires Defined(w) && op.SetColorBuffer? && op.surf in w.windows && op.cb in w.colorBuffers
    requires Neutral(w, w2, t, w.windows[op.surf], w.colorBuffers[op.cb].cb)
    requires Refs(w2) && Numbered(w2) && Owned(w2) && Shapes(w2) && AgreesOff(w2, t)
    requires (Settled(w2) <==> AgreesOn(w2, t))
    requires t in w2.threads && (AgreesOn(w2, t) || IsOwn(w2.current[t]) || w2.current[t] == NONE)
    ensures Settled(Finish(w2, t, op)) <==> Settled(w2) && !ResizeBreaks(w, t, op)
  {
    NeutralFinish(w, w2, t, op);
    NeutralResize(w, w2, t, op);
    AttachSettlesExactly(w2, t, w.windows[op.surf], w.colorBuffers[op.cb].cb, op.rz);
  }

  lemma AttachingSettlesExactly(w: World, t: Thread, op: Op, ends: seq<Bracket>)
    requires Inv(w) && Settled(w) && Enabled(w, t, op) && op.SetColorBuffer? && op.surf in w.windows
    requires op.cb in w.colorBuffers
    ensures Settled(Next(w, t, op, ends)) <==> Ended(w, t, op, ends) == Home && !ResizeBreaks(w, t, op)
  {
    FreedSettlesExactly(w, t, op, ends);
    DetachIsNeutral(w, t, op, ends);
    FinishSettlesExactly(w, Release(Effect(w, t, op), t, ends), t, op);
  }

  // ---------------------------------------------------------------- one step

  lemma ExitKeepsOthers(w: World, t: Thread, op: Op)
    requires Refs(w) && Numbered(w) && Shapes(w) && Settled(w) && Enabled(w, t, op) && op.ExitThread?
    ensures var w1 := Effect(w, t, op);
            && AgreesOff(w1, t) && w1.frame == w.frame && t in w1.current
            && (w1.current[t] == NONE <==> op.eglOk || w.threads[t].ctx == 0)
  {
    assert AgreesOn(w, t);
    if op.eglOk {
      UnbindReaches(w, t);
    } else {
      IdleAgrees(w, t);
    }
  }

  lemma IdleAgrees(w: World, t: Thread)
    requires Refs(w) && Numbered(w) && Shapes(w) && Settled(w) && t in w.threads
    ensures AgreesOff(w.(threads := w.threads[t := IDLE]), t)
  {
    var w' := w.(threads := w.threads[t := IDLE]);
    assert w'.threads.Keys == w.threads.Keys;
    LocalAgrees(w, w', t);
  }

  lemma ExitSettlesExactly(w: World, t: Thread, ends: seq<Bracket>)
    requires AgreesOff(w, t) && t in w.current && w.frame.slot == NONE
    ensures Settled(DropThread(Release(w, t, ends), t)) <==>
              Sighted(Sighting(w.current[t] == NONE, true), true, Destructors(|Dead(w)|, ends)).slot
  {
    ReleaseIs(w, t, ends);
    ReleaseKeepsOthers(w, t, ends);
    DropKeepsOthers(Release(w, t, ends), t);
    DestructorsAre(|Dead(w)|, ends);
    SightedIsThrough(NONE, EglAt(w, t), Destructors(|Dead(w)|, ends));
  }

  lemma DropKeepsOthers(w: World, t: Thread)
    requires AgreesOff(w, t)
    ensures Agrees(DropThread(w, t))
  {
    forall u | u in DropThread(w, t).threads
      ensures AgreesOn(DropThread(w, t), u)
    {
      assert AgreesOn(w, u);
    }
  }

  /** A step keeps a settled state settled if and only if it is none of these. */
  lemma AgreementExactly(w: World, t: Thread, op: Op, ends: seq<Bracket>)
    requires Inv(w) && Settled(w) && Enabled(w, t, op)
    ensures Inv(Next(w, t, op, ends)) && (Settled(Next(w, t, op, ends)) <==> !Breaks(w, t, op, ends))
  {
    NextKeepsInv(w, t, op, ends);
    if op.ExitThread? {
      ExitKeepsOthers(w, t, op);
      ExitSettlesExactly(Effect(w, t, op), t, ends);
    } else if op.SetColorBuffer? && op.surf in w.windows && op.cb in w.colorBuffers {
      AttachingSettlesExactly(w, t, op, ends);
    } else {
      FreedSettlesExactly(w, t, op, ends);
      FinishIsIdle(w, t, op, ends);
    }
  }

  lemma FinishIsIdle(w: World, t: Thread, op: Op, ends: seq<Bracket>)
    requires Inv(w) && Enabled(w, t, op) && !op.ExitThread?
    requires !(op.SetColorBuffer? && op.surf in w.windows && op.cb in w.colorBuffers)
    ensures Next(w, t, op, ends) == Freed(Effect(w, t, op), t, op, ends)
  {
  }
}
