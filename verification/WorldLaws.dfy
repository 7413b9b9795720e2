/** What every step of every thread keeps, whatever EGL answers. */
module WorldLaws {
  import opened Worlds
  import opened Handles

  // ---------------------------------------------------------------- invariants

  ghost predicate SurfaceRefs(w: World, s: Surface) {
    && (s.readCtx == 0 || s.readCtx in w.ctxs)
    && (s.drawCtx == 0 || s.drawCtx in w.ctxs)
    && (s.attached == 0 || s.attached in w.buffers)
  }

  /** No pointer dangles. */
  ghost predicate Refs(w: World) {
    Defined(w) && forall s :: s in w.surfaces ==> SurfaceRefs(w, w.surfaces[s])
  }

  /** Names are given out in order, from the first one that is not the framebuffer's own. */
  ghost predicate Numbered(w: World) {
    && 4 < w.unused && w.threads.Keys == w.current.Keys
    && (forall c :: c in w.ctxs ==> 4 < c < w.unused)
    && (forall s :: s in w.surfaces ==> 4 < s < w.unused)
    && (forall b :: b in w.buffers ==> 4 < b < w.unused)
    && (forall e :: e in w.pbuffers ==> 4 < e < w.unused)
  }

  ghost predicate Owns(surfaces: map<Id, Surface>, s: Id, e: nat) {
    s in surfaces && surfaces[s].egl == e
  }

  ghost predicate PbuffersOwned(surfaces: map<Id, Surface>, pbuffers: set<nat>) {
    && (forall s :: s in surfaces && surfaces[s].egl != 0 ==> surfaces[s].egl in pbuffers)
    && (forall e :: e in pbuffers ==> exists s :: Owns(surfaces, s, e))
    && (forall s, s' :: s in surfaces && s' in surfaces && surfaces[s].egl == surfaces[s'].egl != 0 ==> s == s')
  }

  /** Every pbuffer that exists belongs to exactly one live surface: none is leaked, none is shared. */
  ghost predicate Owned(w: World) {
    PbuffersOwned(w.surfaces, w.pbuffers)
  }

  /** Handle 0 is never used, and no handle is both a context and a window. */
  ghost predicate Tables(w: World) {
    0 !in w.contexts && 0 !in w.windows && 0 !in w.colorBuffers && w.contexts.Keys !! w.windows.Keys
  }

  /** Bound all or not at all; the decoder of the bound context's API holds that context's data. */
  ghost predicate InfoShape(w: World, i: ThreadInfo) {
    if i.ctx == 0 then i == IDLE
    else i.draw != 0 && i.read != 0 && i.ctx in w.ctxs && (if w.ctxs[i.ctx].isGL2 then i.gl2Data else i.glData) == i.ctx
  }

  ghost predicate Shapes(w: World) {
    && (forall t :: t in w.threads ==> InfoShape(w, w.threads[t]))
    && (forall t :: t in w.current ==> AllOrNone(w.current[t])) && AllOrNone(w.frame.slot)
  }

  ghost predicate SurfaceOk(w: World, s: Surface) {
    && (s.blit.fbo == 0 <==> s.blit.tex == 0) && (s.blit.fbo == 0 <==> s.blit.image == 0)
    && (s.attached != 0 && s.attached in w.buffers ==> w.buffers[s.attached] == Buffer(s.width, s.height))
    && (s.egl != 0 ==> s.pbufWidth == s.width && s.pbufHeight == s.height)
    && s.pbufWidth > 0 && s.pbufHeight > 0
  }

  /** With positive sizes: blit parts all or none, attached buffer and pbuffer of the surface's size. */
  ghost predicate SurfacesOk(w: World) {
    && (forall s :: s in w.surfaces ==> SurfaceOk(w, w.surfaces[s]))
    && (forall b :: b in w.buffers ==> w.buffers[b].width > 0 && w.buffers[b].height > 0)
  }

  ghost predicate Inv(w: World) {
    Refs(w) && Numbered(w) && Owned(w) && Tables(w) && Shapes(w)
  }

  // ---------------------------------------------------------------- the sweep keeps them

  lemma SweepKeepsRefs(w: World)
    requires Refs(w)
    ensures Refs(Sweep(w))
  {
  }

  lemma SweepKeepsOwned(w: World)
    requires Refs(w) && Numbered(w) && Owned(w)
    ensures Owned(Sweep(w))
  {
    var w' := Sweep(w);
    forall e | e in w'.pbuffers
      ensures exists s :: Owns(w'.surfaces, s, e)
    {
      var s :| Owns(w.surfaces, s, e);
      assert Owns(w'.surfaces, s, e);
    }
  }

  lemma SweepKeepsRest(w: World)
    requires Refs(w) && Numbered(w) && Tables(w) && Shapes(w)
    ensures Numbered(Sweep(w)) && Tables(Sweep(w)) && Shapes(Sweep(w))
  {
    SweepKeepsRefs(w);
  }

  lemma SweepKeepsSurfaces(w: World)
    requires Refs(w) && SurfacesOk(w)
    ensures SurfacesOk(Sweep(w))
  {
    SweepKeepsRefs(w);
  }

  // ---------------------------------------------------------------- the steps keep them

  /** Binding a surface changes its stored contexts and its blit parts, nothing else. */
  ghost predicate Rewritten(s: Surface, s': Surface, ctx: Id) {
    && s' == s.(readCtx := s'.readCtx, drawCtx := s'.drawCtx, blit := s'.blit)
    && s'.readCtx in {s.readCtx, ctx} && s'.drawCtx in {s.drawCtx, ctx}
    && (s'.blit == s.blit || exists gl :: s'.blit == NewBlit(gl))
  }

  lemma BindSurfacesRewrites(surfaces: map<Id, Surface>, ctx: Id, d: Id, r: Id, drawGl: GlResults, readGl: GlResults)
    requires d in surfaces && r in surfaces
    ensures var surfaces' := BindSurfaces(surfaces, ctx, d, r, drawGl, readGl);
            && surfaces'.Keys == surfaces.Keys
            && forall s :: s in surfaces ==> Rewritten(surfaces[s], surfaces'[s], ctx)
  {
  }

  /** A step that rewrites surfaces this way, with a live context or none, and the threads' bindings. */
  ghost predicate Rebinds(w: World, w': World, ctx: Id) {
    && (ctx == 0 || ctx in w.ctxs)
    && w'.contexts == w.contexts && w'.windows == w.windows && w'.colorBuffers == w.colorBuffers
    && w'.ctxs == w.ctxs && w'.buffers == w.buffers && w'.pbuffers == w.pbuffers && w'.unused == w.unused
    && w'.surfaces.Keys == w.surfaces.Keys
    && (forall s :: s in w.surfaces ==> Rewritten(w.surfaces[s], w'.surfaces[s], ctx))
    && w'.threads.Keys == w'.current.Keys
    && (forall t :: t in w'.threads ==> InfoRefs(w, w'.threads[t]))
  }

  lemma RebindKeepsRefs(w: World, w': World, ctx: Id)
    requires Refs(w) && Numbered(w) && Rebinds(w, w', ctx)
    ensures Refs(w') && Numbered(w')
  {
  }

  lemma RebindKeepsOwned(w: World, w': World, ctx: Id)
    requires Owned(w) && Rebinds(w, w', ctx)
    ensures Owned(w')
  {
    forall e | e in w'.pbuffers
      ensures exists s :: Owns(w'.surfaces, s, e)
    {
      var s :| Owns(w.surfaces, s, e);
      assert Owns(w'.surfaces, s, e);
    }
  }

  lemma RebindKeepsSurfaces(w: World, w': World, ctx: Id)
    requires SurfacesOk(w) && Rebinds(w, w', ctx)
    ensures SurfacesOk(w')
  {
  }

  lemma UnbindRewrites(w: World, t: Thread)
    requires Defined(w) && t in w.threads
    ensures Unbind(w, t).surfaces.Keys == w.surfaces.Keys
    ensures forall s :: s in w.surfaces ==> Rewritten(w.surfaces[s], Unbind(w, t).surfaces[s], 0)
  {
    var i := w.threads[t];
    if i.draw != 0 && i.read != 0 {
      BindSurfacesRewrites(w.surfaces, 0, i.draw, i.read, NO_GL, NO_GL);
    }
  }

  lemma UnbindRebinds(w: World, t: Thread)
    requires Defined(w) && w.threads.Keys == w.current.Keys && t in w.threads
    ensures Rebinds(w, Unbind(w, t), 0)
  {
    UnbindRewrites(w, t);
    assert w.threads[t := IDLE].Keys == w.threads.Keys && w.current[t := NONE].Keys == w.current.Keys;
  }

  lemma UnbindKeepsShapes(w: World, t: Thread)
    requires Refs(w) && Shapes(w) && t in w.threads
    ensures Shapes(Unbind(w, t))
  {
  }

  lemma BindRebinds(w: World, t: Thread, c: Id, d: Id, r: Id, drawGl: GlResults, readGl: GlResults)
    requires Defined(w) && w.threads.Keys == w.current.Keys && t in w.threads && c in w.ctxs && d in w.surfaces
    requires r in w.surfaces
    ensures Rebinds(w, Bind(w, t, c, d, r, drawGl, readGl), c)
  {
    BindSurfacesRewrites(w.surfaces, c, d, r, drawGl, readGl);
  }

  lemma BindKeepsShapes(w: World, t: Thread, c: Id, d: Id, r: Id, drawGl: GlResults, readGl: GlResults)
    requires Refs(w) && Numbered(w) && Shapes(w) && t in w.threads && c in w.ctxs && d in w.surfaces && r in w.surfaces
    requires AllOrNone(Triple(w.surfaces[d].egl, w.surfaces[r].egl, c))
    ensures Shapes(Bind(w, t, c, d, r, drawGl, readGl))
  {
  }

  lemma RebindKeeps(w: World, w': World, ctx: Id)
    requires Inv(w) && Rebinds(w, w', ctx) && Shapes(w')
    ensures Inv(w') && (SurfacesOk(w) ==> SurfacesOk(w'))
  {
    RebindKeepsRefs(w, w', ctx);
    RebindKeepsOwned(w, w', ctx);
    if SurfacesOk(w) {
      RebindKeepsSurfaces(w, w', ctx);
    }
  }

  // Attaching a colour buffer

  /** The new version of the one surface that `Attach` changes. */
  ghost predicate Replaces(w: World, w': World, sid: Id, s': Surface) {
    && sid in w.surfaces && w'.surfaces == w.surfaces[sid := s']
    && w' == w.(surfaces := w'.surfaces, pbuffers := w'.pbuffers, current := w'.current, unused := w'.unused)
    && w'.unused >= w.unused && w'.current.Keys == w.current.Keys
    && s'.readCtx == w.surfaces[sid].readCtx && s'.drawCtx == w.surfaces[sid].drawCtx && s'.blit == w.surfaces[sid].blit
    && s'.attached in w.buffers && w.buffers[s'.attached] == Buffer(s'.width, s'.height)
    && (|| (s'.egl == w.surfaces[sid].egl && w'.pbuffers == w.pbuffers)
        || (s'.egl == 0 && w'.pbuffers == w.pbuffers - {w.surfaces[sid].egl})
        || (s'.egl == w.unused < w'.unused && w'.pbuffers == w.pbuffers - {w.surfaces[sid].egl} + {w.unused}))
  }

  lemma AttachReplaces(w: World, t: Thread, sid: Id, bid: Id, rz: Resizing)
    requires t in w.current && sid in w.surfaces && bid in w.buffers
    ensures var w' := Attach(w, t, sid, bid, rz);
            Replaces(w, w', sid, w'.surfaces[sid])
  {
  }

  lemma ReplaceKeepsRefs(w: World, w': World, sid: Id, s': Surface)
    requires Refs(w) && Numbered(w) && Replaces(w, w', sid, s')
    ensures Refs(w') && Numbered(w')
  {
  }

  lemma ReplaceKeepsOwned(w: World, w': World, sid: Id, s': Surface)
    requires Owned(w) && Numbered(w) && Replaces(w, w', sid, s')
    ensures Owned(w')
  {
    forall e | e in w'.pbuffers
      ensures exists s :: Owns(w'.surfaces, s, e)
    {
      if e == s'.egl {
        assert Owns(w'.surfaces, sid, e);
      } else {
        var s :| Owns(w.surfaces, s, e);
        assert Owns(w'.surfaces, s, e);
      }
    }
  }

  lemma AttachKeepsShapes(w: World, t: Thread, sid: Id, bid: Id, rz: Resizing)
    requires Shapes(w) && Numbered(w) && t in w.threads && sid in w.surfaces && bid in w.buffers
    ensures Shapes(Attach(w, t, sid, bid, rz))
  {
    assert AllOrNone(w.current[t]);
  }

  lemma AttachKeepsSurfaces(w: World, t: Thread, sid: Id, bid: Id, rz: Resizing)
    requires SurfacesOk(w) && t in w.current && sid in w.surfaces && bid in w.buffers
    ensures SurfacesOk(Attach(w, t, sid, bid, rz))
  {
    assert SurfaceOk(w, w.surfaces[sid]);
  }

  lemma AttachKeeps(w: World, t: Thread, sid: Id, bid: Id, rz: Resizing)
    requires Inv(w) && t in w.threads && sid in w.surfaces && bid in w.buffers
    ensures var w' := Attach(w, t, sid, bid, rz);
            Inv(w') && (SurfacesOk(w) ==> SurfacesOk(w'))
  {
    var w' := Attach(w, t, sid, bid, rz);
    AttachReplaces(w, t, sid, bid, rz);
    ReplaceKeepsRefs(w, w', sid, w'.surfaces[sid]);
    ReplaceKeepsOwned(w, w', sid, w'.surfaces[sid]);
    AttachKeepsShapes(w, t, sid, bid, rz);
    if SurfacesOk(w) {
      AttachKeepsSurfaces(w, t, sid, bid, rz);
    }
  }

  // New objects, under a handle that is not taken

  lemma AddContextKeepsRefs(w: World, h: Handle, isGL2: bool)
    requires Refs(w) && Numbered(w)
    ensures Refs(AddContext(w, h, isGL2)) && Numbered(AddContext(w, h, isGL2))
  {
  }

  lemma AddContextKeepsSurfaces(w: World, h: Handle, isGL2: bool)
    requires SurfacesOk(w) && Refs(w) && Numbered(w)
    ensures SurfacesOk(AddContext(w, h, isGL2))
  {
  }

  lemma AddContextKeeps(w: World, h: Handle, isGL2: bool)
    requires Inv(w) && h !in Taken(w)
    ensures Inv(AddContext(w, h, isGL2))
  {
    AddContextKeepsRefs(w, h, isGL2);
  }

  lemma AddColorBufferKeepsRefs(w: World, h: Handle, width: nat, height: nat)
    requires Refs(w) && Numbered(w)
    ensures Refs(AddColorBuffer(w, h, width, height)) && Numbered(AddColorBuffer(w, h, width, height))
  {
  }

  lemma AddColorBufferKeepsSurfaces(w: World, h: Handle, width: nat, height: nat)
    requires SurfacesOk(w) && Refs(w) && Numbered(w) && width > 0 && height > 0
    ensures SurfacesOk(AddColorBuffer(w, h, width, height))
  {
  }

  lemma AddColorBufferKeeps(w: World, h: Handle, width: nat, height: nat)
    requires Inv(w) && h !in Taken(w)
    ensures Inv(AddColorBuffer(w, h, width, height))
  {
    AddColorBufferKeepsRefs(w, h, width, height);
  }

  lemma AddWindowKeepsRefs(w: World, h: Handle, width: nat, height: nat)
    requires Refs(w) && Numbered(w)
    ensures Refs(AddWindow(w, h, width, height)) && Numbered(AddWindow(w, h, width, height))
  {
  }

  lemma AddWindowKeepsSurfaces(w: World, h: Handle, width: nat, height: nat)
    requires SurfacesOk(w) && Refs(w) && Numbered(w) && width > 0 && height > 0
    ensures SurfacesOk(AddWindow(w, h, width, height))
  {
  }

  lemma AddWindowKeepsOwned(w: World, h: Handle, width: nat, height: nat)
    requires Numbered(w) && Owned(w)
    ensures Owned(AddWindow(w, h, width, height))
  {
    var w' := AddWindow(w, h, width, height);
    forall e | e in w'.pbuffers
      ensures exists s :: Owns(w'.surfaces, s, e)
    {
      if e in w.pbuffers {
        var s :| Owns(w.surfaces, s, e);
        assert Owns(w'.surfaces, s, e);
      } else {
        assert Owns(w'.surfaces, w.unused, e);
      }
    }
  }

  lemma AddWindowKeeps(w: World, h: Handle, width: nat, height: nat)
    requires Inv(w) && h !in Taken(w)
    ensures Inv(AddWindow(w, h, width, height))
  {
    AddWindowKeepsRefs(w, h, width, height);
    AddWindowKeepsOwned(w, h, width, height);
  }

  /** Handles went away, or counts changed. */
  ghost predicate ShrinksTables(w: World, w': World) {
    && w'.contexts.Keys <= w.contexts.Keys && (forall h :: h in w'.contexts ==> w'.contexts[h] == w.contexts[h])
    && w'.windows.Keys <= w.windows.Keys && (forall h :: h in w'.windows ==> w'.windows[h] == w.windows[h])
    && w'.colorBuffers.Keys <= w.colorBuffers.Keys
    && (forall h :: h in w'.colorBuffers ==> w'.colorBuffers[h].cb == w.colorBuffers[h].cb)
  }

  /** Threads went away or idle, and what they have current stays whole. */
  ghost predicate ShrinksThreads(w: World, w': World) {
    && w'.threads.Keys == w'.current.Keys
    && (forall t :: t in w'.threads ==> w'.threads[t] == IDLE || (t in w.threads && w'.threads[t] == w.threads[t]))
    && (forall t :: t in w'.current ==> AllOrNone(w'.current[t]))
  }

  ghost predicate Shrinks(w: World, w': World) {
    && w'.ctxs == w.ctxs && w'.surfaces == w.surfaces && w'.buffers == w.buffers
    && w'.pbuffers == w.pbuffers && w'.unused == w.unused
    && AllOrNone(w'.frame.slot) && ShrinksTables(w, w') && ShrinksThreads(w, w')
  }

  lemma ShrinkKeepsRefs(w: World, w': World)
    requires Refs(w) && Numbered(w) && Shrinks(w, w')
    ensures Refs(w') && Numbered(w')
  {
  }

  lemma ShrinkKeeps(w: World, w': World)
    requires Inv(w) && Shrinks(w, w')
    ensures Inv(w') && (SurfacesOk(w) ==> SurfacesOk(w'))
  {
    ShrinkKeepsRefs(w, w');
  }

  // ---------------------------------------------------------------- brackets

  lemma {:induction false} ThroughIsWhole(at: Egl, trips: seq<Trip>)
    requires AllOrNone(at.cur) && AllOrNone(at.slot)
    requires forall i :: 0 <= i < |trips| ==> AllOrNone(trips[i].to)
    ensures AllOrNone(Through(at, trips).cur) && AllOrNone(Through(at, trips).slot)
  {
    if trips != [] {
      ThroughIsWhole(at, trips[..|trips| - 1]);
    }
  }

  lemma {:induction false} DestructorsAre(n: nat, ends: seq<Bracket>)
    ensures |Destructors(n, ends)| == n
    ensures forall i :: 0 <= i < n ==> Destructors(n, ends)[i] == Trip(OWN, Answer(ends, i))
  {
    if n > 0 {
      DestructorsAre(n - 1, ends);
    }
  }

  lemma TripsAreWhole(w: World, t: Thread, op: Op)
    ensures forall i :: 0 <= i < |Trips(w, t, op)| ==> IsOwn(Trips(w, t, op)[i].to)
  {
  }

  lemma WithEglShrinks(w: World, t: Thread, at: Egl)
    requires w.threads.Keys == w.current.Keys && Shapes(w) && t in w.current && AllOrNone(at.cur) && AllOrNone(at.slot)
    ensures Shrinks(w, WithEgl(w, t, at))
  {
    assert WithEgl(w, t, at).current.Keys == w.current.Keys;
  }

  lemma FrameShrinks(w: World, w': World)
    requires w.threads.Keys == w.current.Keys && Shapes(w) && w' == w.(frame := w'.frame) && AllOrNone(w'.frame.slot)
    ensures Shrinks(w, w') && Shapes(w')
  {
  }

  lemma BroughtKeeps(w: World, t: Thread, frame: Frame, trips: seq<Trip>)
    requires Inv(w) && AllOrNone(frame.slot) && forall i :: 0 <= i < |trips| ==> AllOrNone(trips[i].to)
    ensures var w' := Brought(w, t, frame, trips);
            Inv(w') && (SurfacesOk(w) ==> SurfacesOk(w'))
  {
    var w1 := w.(frame := frame);
    FrameShrinks(w, w1);
    ShrinkKeeps(w, w1);
    if t in w.current {
      ThroughIsWhole(EglAt(w, t), trips);
      WithEglShrinks(w1, t, Through(EglAt(w, t), trips));
      ShrinkKeeps(w1, WithEgl(w1, t, Through(EglAt(w, t), trips)));
    }
  }

  lemma FramingKeeps(w: World, t: Thread, op: Op)
    requires Inv(w)
    ensures Inv(Framed(w, t, op)) && (SurfacesOk(w) ==> SurfacesOk(Framed(w, t, op)))
  {
    TripsAreWhole(w, t, op);
    BroughtKeeps(w, t, Shown(w, op), Trips(w, t, op));
  }

  // ---------------------------------------------------------------- one step

  ghost predicate Enabled(w: World, t: Thread, op: Op) {
    && (op.StartThread? || t in w.threads)
    && (Creates(op) ==> Room(w))
  }

  ghost predicate PositiveSizes(op: Op) {
    op.CreateWindow? || op.CreateColorBuffer? ==> op.width > 0 && op.height > 0
  }

  lemma CreationKeeps(w: World, h: Handle, op: Op)
    requires Inv(w) && h !in Taken(w)
    ensures Inv(CreatedAs(w, h, op))
  {
    match op {
      case CreateContext(share, isGL2, ok) => AddContextKeeps(w, h, isGL2);
      case CreateWindow(width, height, ok) => AddWindowKeeps(w, h, width, height);
      case CreateColorBuffer(width, height, formatOk, br) => AddColorBufferKeeps(w, h, width, height);
      case _ =>
    }
  }

  lemma CreationKeepsSurfaces(w: World, h: Handle, op: Op)
    requires Refs(w) && Numbered(w) && SurfacesOk(w) && PositiveSizes(op)
    ensures SurfacesOk(CreatedAs(w, h, op))
  {
    match op {
      case CreateContext(share, isGL2, ok) => AddContextKeepsSurfaces(w, h, isGL2);
      case CreateWindow(width, height, ok) => AddWindowKeepsSurfaces(w, h, width, height);
      case CreateColorBuffer(width, height, formatOk, br) => AddColorBufferKeepsSurfaces(w, h, width, height);
      case _ =>
    }
  }

  lemma CreatingKeeps(w: World, op: Op)
    requires Inv(w) && Room(w)
    ensures Inv(Created(w, op)) && (SurfacesOk(w) && PositiveSizes(op) ==> SurfacesOk(Created(w, op)))
  {
    GenHandleIsFree(w);
    CreationKeeps(w, GenHandle(w), op);
    if SurfacesOk(w) && PositiveSizes(op) {
      CreationKeepsSurfaces(w, GenHandle(w), op);
    }
  }

  lemma UnbindKeeps(w: World, t: Thread)
    requires Inv(w) && t in w.threads
    ensures Inv(Unbind(w, t)) && (SurfacesOk(w) ==> SurfacesOk(Unbind(w, t)))
  {
    UnbindRebinds(w, t);
    UnbindKeepsShapes(w, t);
    RebindKeeps(w, Unbind(w, t), 0);
  }

  lemma BindKeeps(w: World, t: Thread, c: Id, d: Id, r: Id, drawGl: GlResults, readGl: GlResults)
    requires Inv(w) && t in w.threads && c in w.ctxs && d in w.surfaces && r in w.surfaces
    ensures var w' := Bind(w, t, c, d, r, drawGl, readGl);
            AllOrNone(w'.current[t]) ==> Inv(w') && (SurfacesOk(w) ==> SurfacesOk(w'))
  {
    var w' := Bind(w, t, c, d, r, drawGl, readGl);
    if AllOrNone(w'.current[t]) {
      BindRebinds(w, t, c, d, r, drawGl, readGl);
      BindKeepsShapes(w, t, c, d, r, drawGl, readGl);
      RebindKeeps(w, w', c);
    }
  }

  /** What a bind step can do: nothing, an unbind, or a bind after which a whole triple is current. */
  lemma BindingIs(w: World, t: Thread, op: Op) returns (w': World)
    requires Defined(w) && Enabled(w, t, op) && op.BindContext?
    ensures w' == Effect(w, t, op)
    ensures w' == w || if op.c == 0 && op.d == 0 && op.r == 0 then w' == Unbind(w, t) else
              && GoodHandles(w, op.c, op.d, op.r) && t in w'.current && AllOrNone(w'.current[t])
              && w' == Bind(w, t, w.contexts[op.c], w.windows[op.d], w.windows[op.r], op.drawGl, op.readGl)
  {
    w' := Effect(w, t, op);
  }

  lemma BindingKeeps(w: World, t: Thread, op: Op)
    requires Inv(w) && Enabled(w, t, op) && op.BindContext?
    ensures Inv(Effect(w, t, op)) && (SurfacesOk(w) ==> SurfacesOk(Effect(w, t, op)))
  {
    var w' := BindingIs(w, t, op);
    if w' == w {
    } else if op.c == 0 && op.d == 0 && op.r == 0 {
      UnbindKeeps(w, t);
    } else {
      BindKeeps(w, t, w.contexts[op.c], w.windows[op.d], w.windows[op.r], op.drawGl, op.readGl);
    }
  }

  lemma IdleShrinks(w: World, w': World, t: Thread)
    requires w.threads.Keys == w.current.Keys && Shapes(w) && t in w.threads
    requires w' == w.(threads := w.threads[t := IDLE])
    ensures Shrinks(w, w')
  {
    assert w'.threads.Keys == w.threads.Keys;
  }

  lemma ExitKeeps(w: World, t: Thread, op: Op)
    requires Inv(w) && Enabled(w, t, op) && op.ExitThread?
    ensures Inv(Effect(w, t, op)) && (SurfacesOk(w) ==> SurfacesOk(Effect(w, t, op)))
  {
    if op.eglOk {
      UnbindKeeps(w, t);
    } else {
      IdleShrinks(w, Effect(w, t, op), t);
      ShrinkKeeps(w, Effect(w, t, op));
    }
  }

  lemma DetachKeepsRefs(w: World, sid: Id)
    requires Refs(w) && Numbered(w) && Tables(w) && Shapes(w) && sid in w.surfaces
    ensures var w' := Detach(w, sid);
            Refs(w') && Numbered(w') && Tables(w') && Shapes(w')
  {
  }

  lemma DetachKeepsSurfaces(w: World, sid: Id)
    requires SurfacesOk(w) && sid in w.surfaces
    ensures SurfacesOk(Detach(w, sid))
  {
  }

  lemma DetachKeeps(w: World, sid: Id)
    requires Inv(w) && sid in w.surfaces
    ensures Inv(Detach(w, sid)) && (SurfacesOk(w) ==> SurfacesOk(Detach(w, sid)))
  {
    DetachKeepsRefs(w, sid);
    DetachKeepsOwned(w, sid);
    if SurfacesOk(w) {
      DetachKeepsSurfaces(w, sid);
    }
  }

  lemma DetachKeepsOwned(w: World, sid: Id)
    requires Owned(w) && sid in w.surfaces
    ensures Owned(Detach(w, sid))
  {
    var w' := Detach(w, sid);
    forall e | e in w'.pbuffers
      ensures exists s :: Owns(w'.surfaces, s, e)
    {
      var s :| Owns(w.surfaces, s, e);
      assert Owns(w'.surfaces, s, e);
    }
  }

  lemma FlushingRebinds(w: World, t: Thread, surf: Handle, gl: GlResults)
    requires Refs(w) && Numbered(w) && Shapes(w)
    ensures Rebinds(w, Flushed(w, t, surf, gl), 0) && Shapes(Flushed(w, t, surf, gl))
  {
  }

  lemma FlushingKeeps(w: World, t: Thread, surf: Handle, gl: GlResults)
    requires Inv(w)
    ensures var w' := Flushed(w, t, surf, gl);
            Inv(w') && (SurfacesOk(w) ==> SurfacesOk(w'))
  {
    FlushingRebinds(w, t, surf, gl);
    RebindKeeps(w, Flushed(w, t, surf, gl), 0);
  }

  lemma AddThreadShrinks(w: World, w': World, t: Thread)
    requires w.threads.Keys == w.current.Keys && Shapes(w)
    requires w'.threads == w.threads[t := IDLE] && w'.current == w.current[t := NONE]
    ensures ShrinksThreads(w, w')
  {
    assert w'.threads.Keys == w.threads.Keys + {t} && w'.current.Keys == w.current.Keys + {t};
  }

  lemma RecountShrinks(w: World, h: Handle)
    requires w.threads.Keys == w.current.Keys && Shapes(w) && h in w.colorBuffers
    ensures Shrinks(w, Open(w, h)) && Shrinks(w, Close(w, h))
  {
  }

  lemma DropHandleShrinks(w: World, h: Handle)
    requires w.threads.Keys == w.current.Keys && Shapes(w)
    ensures Shrinks(w, w.(contexts := w.contexts - {h})) && Shrinks(w, w.(windows := w.windows - {h})) && Shrinks(w, w)
  {
  }

  lemma RetabledShrinks(w: World, t: Thread, op: Op)
    requires w.threads.Keys == w.current.Keys && Shapes(w)
    ensures Shrinks(w, Retabled(w, t, op))
  {
    DropHandleShrinks(w, 0);
    match op {
      case StartThread => if t !in w.threads { AddThreadShrinks(w, AddThread(w, t), t); }
      case DestroyContext(h) => DropHandleShrinks(w, h);
      case DestroyWindow(h) => DropHandleShrinks(w, h);
      case OpenColorBuffer(h) => if h in w.colorBuffers { RecountShrinks(w, h); }
      case CloseColorBuffer(h) => if h in w.colorBuffers { RecountShrinks(w, h); }
      case _ =>
    }
  }

  lemma TableChangeKeeps(w: World, t: Thread, op: Op)
    requires Inv(w)
    ensures Inv(Retabled(w, t, op)) && (SurfacesOk(w) ==> SurfacesOk(Retabled(w, t, op)))
  {
    RetabledShrinks(w, t, op);
    ShrinkKeeps(w, Retabled(w, t, op));
  }

  lemma DetachingIs(w: World, t: Thread, op: Op) returns (w': World)
    requires Defined(w) && Enabled(w, t, op) && op.SetColorBuffer?
    ensures w' == Effect(w, t, op)
    ensures w' == w || (op.surf in w.windows && w' == Detach(w, w.windows[op.surf]))
  {
    w' := Effect(w, t, op);
  }

  lemma DetachingKeeps(w: World, t: Thread, op: Op)
    requires Inv(w) && Enabled(w, t, op) && op.SetColorBuffer?
    ensures Inv(Effect(w, t, op)) && (SurfacesOk(w) ==> SurfacesOk(Effect(w, t, op)))
  {
    var w' := DetachingIs(w, t, op);
    if w' != w {
      DetachKeeps(w, w.windows[op.surf]);
    }
  }

  lemma PointingKeeps(w: World, t: Thread, op: Op)
    requires Inv(w) && Enabled(w, t, op) && (op.BindContext? || op.ExitThread? || op.SetColorBuffer?)
    ensures Inv(Effect(w, t, op)) && (SurfacesOk(w) ==> SurfacesOk(Effect(w, t, op)))
  {
    if op.BindContext? {
      BindingKeeps(w, t, op);
    } else if op.ExitThread? {
      ExitKeeps(w, t, op);
    } else {
      DetachingKeeps(w, t, op);
    }
  }

  lemma EglShrinks(w: World, w': World)
    requires w.threads.Keys == w.current.Keys == w'.current.Keys && w' == w.(current := w'.current, frame := w'.frame)
    requires AllOrNone(w'.frame.slot) && forall u :: u in w'.current ==> AllOrNone(w'.current[u])
    ensures Shrinks(w, w')
  {
  }

  lemma RemovingShrinks(w: World, t: Thread, eglOk: bool)
    requires w.threads.Keys == w.current.Keys && Shapes(w) && t in w.current
    ensures Shrinks(w, Removed(w, t, eglOk))
  {
    var w' := Removed(w, t, eglOk);
    if w'.current == w.current {
      EglShrinks(w, w');
    } else {
      assert w'.current == w.current[t := NONE] && w'.current.Keys == w.current.Keys;
      EglShrinks(w, w');
    }
  }

  lemma RemovingKeeps(w: World, t: Thread, eglOk: bool)
    requires Inv(w) && t in w.current
    ensures Inv(Removed(w, t, eglOk)) && (SurfacesOk(w) ==> SurfacesOk(Removed(w, t, eglOk)))
  {
    RemovingShrinks(w, t, eglOk);
    ShrinkKeeps(w, Removed(w, t, eglOk));
  }

  lemma CreatingEffectKeeps(w: World, t: Thread, op: Op)
    requires Inv(w) && Enabled(w, t, op) && Creates(op)
    ensures Inv(Effect(w, t, op)) && (SurfacesOk(w) && PositiveSizes(op) ==> SurfacesOk(Effect(w, t, op)))
  {
    FramingKeeps(w, t, op);
    CreatingKeeps(Framed(w, t, op), op);
  }

  lemma FlushedFrameKeeps(w: World, t: Thread, op: Op)
    requires Inv(w) && op.FlushSurface?
    ensures var w' := Flushed(Framed(w, t, op), t, op.surf, op.gl);
            Inv(w') && (SurfacesOk(w) ==> SurfacesOk(w'))
  {
    FramingKeeps(w, t, op);
    FlushingKeeps(Framed(w, t, op), t, op.surf, op.gl);
  }

  lemma EffectKeeps(w: World, t: Thread, op: Op)
    requires Inv(w) && Enabled(w, t, op)
    ensures Inv(Effect(w, t, op))
    ensures SurfacesOk(w) && PositiveSizes(op) ==> SurfacesOk(Effect(w, t, op))
  {
    if Creates(op) {
      CreatingEffectKeeps(w, t, op);
    } else if op.BindContext? || op.ExitThread? || op.SetColorBuffer? {
      PointingKeeps(w, t, op);
    } else if op.FlushSurface? {
      FlushedFrameKeeps(w, t, op);
    } else if op.RemoveSubWindow? {
      RemovingKeeps(w, t, op.eglOk);
    } else {
      TableChangeKeeps(w, t, op);
      FramingKeeps(Retabled(w, t, op), t, op);
    }
  }

  lemma SweepKeeps(w: World)
    requires Inv(w)
    ensures Inv(Sweep(w)) && (SurfacesOk(w) ==> SurfacesOk(Sweep(w)))
  {
    SweepKeepsRefs(w);
    SweepKeepsOwned(w);
    SweepKeepsRest(w);
    if SurfacesOk(w) {
      SweepKeepsSurfaces(w);
    }
  }

  lemma ReleaseKeeps(w: World, t: Thread, ends: seq<Bracket>)
    requires Inv(w)
    ensures Inv(Release(w, t, ends)) && (SurfacesOk(w) ==> SurfacesOk(Release(w, t, ends)))
  {
    SweepKeeps(w);
    if t in w.current {
      var trips := Destructors(|Dead(w)|, ends);
      DestructorsAre(|Dead(w)|, ends);
      ThroughIsWhole(EglAt(w, t), trips);
      WithEglShrinks(Sweep(w), t, Through(EglAt(w, t), trips));
      ShrinkKeeps(Sweep(w), WithEgl(Sweep(w), t, Through(EglAt(w, t), trips)));
    }
  }

  lemma DropKeeps(w: World, t: Thread)
    requires Inv(w)
    ensures Inv(DropThread(w, t)) && (SurfacesOk(w) ==> SurfacesOk(DropThread(w, t)))
  {
    ShrinkKeeps(w, DropThread(w, t));
  }

  lemma FinishKeeps(w: World, t: Thread, op: Op)
    requires Inv(w)
    ensures Inv(Finish(w, t, op)) && (SurfacesOk(w) ==> SurfacesOk(Finish(w, t, op)))
  {
    if op.ExitThread? {
      DropKeeps(w, t);
    } else if op.SetColorBuffer? && t in w.current && op.surf in w.windows && op.cb in w.colorBuffers {
      AttachKeeps(w, t, w.windows[op.surf], w.colorBuffers[op.cb].cb, op.rz);
    }
  }

  lemma NextKeepsInv(w: World, t: Thread, op: Op, ends: seq<Bracket>)
    requires Inv(w) && Enabled(w, t, op)
    ensures Inv(Next(w, t, op, ends))
    ensures SurfacesOk(w) && PositiveSizes(op) ==> SurfacesOk(Next(w, t, op, ends))
  {
    EffectKeeps(w, t, op);
    ReleaseKeeps(Effect(w, t, op), t, ends);
    FinishKeeps(Freed(Effect(w, t, op), t, op, ends), t, op);
  }
}
