/**
 * `FrameBuffer` as an object with fields, method by method: what each locked method does to the
 * fields, one EGL call after the other, against the atomic step it stands for. EGL may refuse any call,
 * and the slot may hold what an earlier refusal left there.
 */
module FrameBuffers {
  import opened Bytes
  import opened Worlds
  import opened Handles
  import opened WorldLaws
  import opened Agreement
  import opened Liveness
  import opened Runs
  import opened FrameSteps

  class FrameBuffer {
    var nextHandle: Handle
    var contexts: map<Handle, Id>
    var windows: map<Handle, Id>
    var colorBuffers: map<Handle, BufferRef>
    var ctxs: map<Id, Context>
    var surfaces: map<Id, Surface>
    var buffers: map<Id, Buffer>
    var pbuffers: set<nat>
    var threads: map<Thread, ThreadInfo>
    var current: map<Thread, Triple>
    var unused: nat
    var prev: Triple            // m_prevDrawSurf, m_prevReadSurf, m_prevContext
    var subWin: bool
    var made: nat
    var lastPosted: Handle
    var onPost: bool

    function View(): World
      reads this
    {
      World(nextHandle, contexts, windows, colorBuffers, ctxs, surfaces, buffers, pbuffers, threads, current, unused,
            Frame(prev, subWin, made, lastPosted, onPost))
    }

    constructor ()
      ensures View() == START
    {
      nextHandle, contexts, windows, colorBuffers := 0, map[], map[], map[];
      ctxs, surfaces, buffers, pbuffers := map[], map[], map[], {};
      threads, current, unused := map[], map[], 5;
      prev, subWin, made, lastPosted, onPost := NONE, false, 0, 0, false;
    }

    // -------------------------------------------------------------- handles

    /** Counts up, with 32-bit wrap-around, to a handle that is not 0, a context or a window. */
    method GenHandle() returns (id: Handle, ghost tries: nat)
      requires Room(View())
      modifies this`nextHandle
      ensures id == Worlds.GenHandle(old(View())) == nextHandle
      ensures id != 0 && id !in contexts && id !in windows
      ensures tries <= |contexts| + |windows| + 2
    {
      GenHandleIsFree(View());
      id, tries := CountUp(Taken(View()), Probe(nextHandle, Taken(View()), 1));
    }

    /** The `do`/`while` loop; `k` is how many candidates it goes through. */
    method CountUp(ghost taken: set<Handle>, ghost k: nat) returns (id: Handle, ghost tries: nat)
      requires taken == {0} + contexts.Keys + windows.Keys
      requires k == Probe(nextHandle, taken, 1) <= TWO32 && Candidate(nextHandle, k) !in taken
      modifies this`nextHandle
      ensures id == nextHandle == Candidate(old(nextHandle), k) && tries == k
    {
      ghost var n := nextHandle;
      tries := 0;
      var again := true;
      id := nextHandle;
      while again
        invariant id == nextHandle == Candidate(n, tries)
        invariant if again then Probe(n, taken, tries + 1) == k else tries == k
        decreases TWO32 - tries, again
      {
        ProbeStep(n, taken, tries + 1, k);
        CandidateNext(n, tries);
        nextHandle := (nextHandle + 1) % TWO32;
        id := nextHandle;
        tries := tries + 1;
        again := id == 0 || id in contexts || id in windows;
      }
    }

    // -------------------------------------------------------------- the bracket

    method BindLocked(t: Thread, ok: bool) returns (bound: bool)
      requires t in current
      modifies this`current, this`prev
      ensures bound == ok
      ensures if ok then current == old(current)[t := OWN] && prev == old(current[t])
              else current == old(current) && prev == old(prev)
    {
      var was := current[t];
      if !ok {
        return false;
      }
      current := current[t := OWN];
      prev := was;
      return true;
    }

    method BindSubwinLocked(t: Thread, ok: bool) returns (bound: bool)
      requires t in current
      modifies this`current, this`prev
      ensures bound == ok
      ensures if ok then current == old(current)[t := SubWin(made)] && prev == old(current[t])
              else current == old(current) && prev == old(prev)
    {
      var was := current[t];
      if !ok {
        return false;
      }
      current := current[t := SubWin(made)];
      prev := was;
      return true;
    }

    method UnbindLocked(t: Thread, ok: bool) returns (unbound: bool)
      requires t in current
      modifies this`current, this`prev
      ensures unbound == ok
      ensures if ok then current == old(current)[t := old(prev)] && prev == NONE
              else current == old(current) && prev == old(prev)
    {
      if !ok {
        return false;
      }
      current := current[t := prev];
      prev := NONE;
      return true;
    }

    /** A whole bracket that is given up when the framebuffer's context cannot be bound. */
    method InBracket(t: Thread, br: Bracket) returns (bound: bool)
      requires t in current
      modifies this`current, this`prev
      ensures bound == br.bindOk && t in current
      ensures Egl(current[t], prev) == Bracketed(old(EglAt(View(), t)), OWN, Checked(br))
      ensures current == old(current)[t := current[t]]
    {
      bound := BindLocked(t, br.bindOk);
      if bound {
        var _ := UnbindLocked(t, br.unbindOk);
      }
    }

    /**
     * `~ColorBuffer`: the bracket around the deletion of its GL objects ignores both results, whatever
     * the slot holds.
     */
    method DestroyColorBuffer(t: Thread, br: Bracket)
      requires t in current
      modifies this`current, this`prev
      ensures current == old(current)[t := if br.bindOk && !br.unbindOk then OWN
                                           else if !br.bindOk && br.unbindOk then old(prev) else old(current[t])]
      ensures prev == if br.unbindOk then NONE else if br.bindOk then old(current[t]) else old(prev)
    {
      var _ := BindLocked(t, br.bindOk);
      var _ := UnbindLocked(t, br.unbindOk);
    }

    // -------------------------------------------------------------- smart pointers

    /** Destroys what nobody points to any more, colour buffers last and each with its bracket. */
    method Collect(t: Thread, ends: seq<Bracket>)
      requires t in current
      modifies this`surfaces, this`pbuffers, this`ctxs, this`buffers, this`current, this`prev
      ensures View() == Release(old(View()), t, ends)
    {
      DestroyUnowned(t, ends);
      ReleaseIs(old(View()), t, ends);
    }

    method DestroyUnowned(t: Thread, ends: seq<Bracket>)
      requires t in current
      modifies this`surfaces, this`pbuffers, this`ctxs, this`buffers, this`current, this`prev
      ensures var w := Sweep(old(View()));
              surfaces == w.surfaces && pbuffers == w.pbuffers && ctxs == w.ctxs && buffers == w.buffers
      ensures t in current && current == old(current)[t := current[t]]
      ensures EglAt(View(), t) == Through(old(EglAt(View(), t)), Destructors(|Dead(old(View()))|, ends))
    {
      var w := Sweep(View());
      var dead := buffers.Keys - w.buffers.Keys;
      surfaces, pbuffers, ctxs, buffers := w.surfaces, w.pbuffers, w.ctxs, w.buffers;
      RunDestructors(t, dead, ends);
    }

    method RunDestructors(t: Thread, dead: set<Id>, ends: seq<Bracket>)
      requires t in current
      modifies this`current, this`prev
      ensures t in current && EglAt(View(), t) == Through(old(EglAt(View(), t)), Destructors(|dead|, ends))
      ensures current == old(current)[t := current[t]]
    {
      var left, i := dead, 0;
      while left != {}
        invariant left <= dead && |left| + i == |dead| && t in current && current == old(current)[t := current[t]]
        invariant EglAt(View(), t) == Through(old(EglAt(View(), t)), Destructors(i, ends))
        decreases |left|
      {
        var b :| b in left;
        left := left - {b};
        NextDestructor(old(EglAt(View(), t)), i, ends);
        DestroyColorBuffer(t, Answer(ends, i));
        i := i + 1;
      }
    }

    // -------------------------------------------------------------- creating

    /** `ColorBuffer::create`: the bracket is left early when the framebuffer context cannot be bound. */
    method NewBuffer(t: Thread, width: nat, height: nat, formatOk: bool, br: Bracket) returns (cb: Id)
      requires t in current && 0 < unused
      modifies this`current, this`prev, this`buffers, this`unused
      ensures t in current && current == old(current)[t := current[t]]
      ensures EglAt(View(), t) == if formatOk then Bracketed(old(EglAt(View(), t)), OWN, Checked(br))
                                  else old(EglAt(View(), t))
      ensures if formatOk && br.bindOk
              then cb == old(unused) && buffers == old(buffers)[cb := Buffer(width, height)] && unused == cb + 1
              else cb == 0 && buffers == old(buffers) && unused == old(unused)
    {
      cb := 0;
      if !formatOk {
        return;
      }
      var bound := InBracket(t, br);
      if bound {
        cb := unused;
        buffers, unused := buffers[cb := Buffer(width, height)], unused + 1;
      }
    }

    /** The new buffer under its handle; where the handle is that of a live buffer, that one is let go. */
    method AddColorBuffer(t: Thread, width: nat, height: nat, formatOk: bool, br: Bracket) returns (ret: Handle)
      requires t in current && Room(View()) && 0 < unused
      modifies this`nextHandle, this`colorBuffers, this`current, this`prev, this`buffers, this`unused
      ensures t in current && current == old(current)[t := current[t]]
      ensures EglAt(View(), t) == if formatOk then Bracketed(old(EglAt(View(), t)), OWN, Checked(br))
                                  else old(EglAt(View(), t))
      ensures if formatOk && br.bindOk
              then && ret == nextHandle == Worlds.GenHandle(old(View())) && unused == old(unused) + 1
                   && colorBuffers == old(colorBuffers)[ret := BufferRef(old(unused), 1)]
                   && buffers == old(buffers)[old(unused) := Buffer(width, height)]
              else && ret == 0 && nextHandle == old(nextHandle) && unused == old(unused)
                   && colorBuffers == old(colorBuffers) && buffers == old(buffers)
    {
      ret := 0;
      var cb := NewBuffer(t, width, height, formatOk, br);
      if cb != 0 {
        ghost var tries;
        ret, tries := GenHandle();
        colorBuffers := colorBuffers[ret := BufferRef(cb, 1)];
      }
    }

    method MakeColorBuffer(t: Thread, width: nat, height: nat, formatOk: bool, br: Bracket) returns (ret: Handle)
      requires Defined(View()) && t in threads && Room(View()) && 0 < unused
      modifies this`nextHandle, this`colorBuffers, this`current, this`prev, this`buffers, this`unused
      ensures View() == Effect(old(View()), t, Op.CreateColorBuffer(width, height, formatOk, br)) && t in current
      ensures ret == if formatOk && br.bindOk then Worlds.GenHandle(old(View())) else 0
    {
      ret := AddColorBuffer(t, width, height, formatOk, br);
      CreationIs(old(View()), View(), t, Op.CreateColorBuffer(width, height, formatOk, br));
    }

    method CreateColorBuffer(t: Thread, width: nat, height: nat, formatOk: bool, br: Bracket, ends: seq<Bracket>)
      returns (ret: Handle)
      requires Defined(View()) && t in threads && Room(View()) && 0 < unused
      modifies this
      ensures View() == Next(old(View()), t, Op.CreateColorBuffer(width, height, formatOk, br), ends)
      ensures ret == if formatOk && br.bindOk then Worlds.GenHandle(old(View())) else 0
    {
      ret := MakeColorBuffer(t, width, height, formatOk, br);
      Collect(t, ends);
    }

    method CreateRenderContext(t: Thread, share: Handle, isGL2: bool, ok: bool) returns (ret: Handle)
      requires Room(View())
      modifies this`nextHandle, this`contexts, this`ctxs, this`unused
      ensures if (share == 0 || share in old(contexts)) && ok
              then && ret == nextHandle == Worlds.GenHandle(old(View()))
                   && contexts == old(contexts)[ret := old(unused)]
                   && ctxs == old(ctxs)[old(unused) := Context(isGL2)] && unused == old(unused) + 1
              else ret == 0 && View() == old(View())
    {
      ret := 0;
      if share != 0 && share !in contexts {
        return;
      }
      if ok {
        ghost var tries;
        ret, tries := GenHandle();
        contexts, ctxs, unused := contexts[ret := unused], ctxs[unused := Context(isGL2)], unused + 1;
      }
    }

    method CreateWindowSurface(t: Thread, width: nat, height: nat, ok: bool) returns (ret: Handle)
      requires Room(View())
      modifies this`nextHandle, this`windows, this`surfaces, this`pbuffers, this`unused
      ensures if ok
              then && ret == nextHandle == Worlds.GenHandle(old(View())) && windows == old(windows)[ret := old(unused)]
                   && surfaces == old(surfaces)[
                        old(unused) := Surface(old(unused) + 1, width, height, width, height, 0, 0, 0, Blit(0, 0, 0))]
                   && pbuffers == old(pbuffers) + {old(unused) + 1} && unused == old(unused) + 2
              else ret == 0 && View() == old(View())
    {
      ret := 0;
      if ok {
        ghost var tries;
        ret, tries := GenHandle();
        windows, pbuffers := windows[ret := unused], pbuffers + {unused + 1};
        surfaces := surfaces[unused := Surface(unused + 1, width, height, width, height, 0, 0, 0, Blit(0, 0, 0))];
        unused := unused + 2;
      }
    }

    // -------------------------------------------------------------- opening, closing, destroying

    method OpenColorBuffer(t: Thread, h: Handle) returns (stat: int)
      modifies this`colorBuffers
      ensures View() == Retabled(old(View()), t, Op.OpenColorBuffer(h))
      ensures stat == if h in old(colorBuffers) then 0 else -1
    {
      if h !in colorBuffers {
        return -1;
      }
      var ref := colorBuffers[h];
      colorBuffers := colorBuffers[h := ref.(count := (ref.count + 1) % TWO32)];
      return 0;
    }

    /** Counts down, and at 0 drops the entry. */
    method CountDown(t: Thread, h: Handle)
      modifies this`colorBuffers
      ensures View() == Retabled(old(View()), t, Op.CloseColorBuffer(h))
    {
      if h in colorBuffers {
        var ref := colorBuffers[h];
        ref := ref.(count := (ref.count + TWO32 - 1) % TWO32);
        colorBuffers := colorBuffers[h := ref];
        if ref.count == 0 {
          colorBuffers := colorBuffers - {h};
        }
      }
    }

    /** With the destructor, if the entry held the last pointer to the buffer. */
    method CloseColorBuffer(t: Thread, h: Handle, ends: seq<Bracket>)
      requires Defined(View()) && t in threads
      modifies this`colorBuffers, this`surfaces, this`pbuffers, this`ctxs, this`buffers, this`current, this`prev
      ensures View() == Next(old(View()), t, Op.CloseColorBuffer(h), ends)
    {
      PlainNext(View(), t, Op.CloseColorBuffer(h), ends);
      CountDown(t, h);
      Collect(t, ends);
    }

    method Erase(t: Thread, op: Op)
      requires op.DestroyContext? || op.DestroyWindow?
      modifies this`contexts, this`windows
      ensures View() == Retabled(old(View()), t, op)
    {
      if op.DestroyContext? {
        contexts := contexts - {op.h};
      } else {
        windows := windows - {op.h};
      }
    }

    method DestroyRenderContext(t: Thread, h: Handle, ends: seq<Bracket>)
      requires Defined(View()) && t in threads
      modifies this
      ensures View() == Next(old(View()), t, Op.DestroyContext(h), ends)
    {
      PlainNext(View(), t, Op.DestroyContext(h), ends);
      Erase(t, Op.DestroyContext(h));
      Collect(t, ends);
    }

    method DestroyWindowSurface(t: Thread, h: Handle, ends: seq<Bracket>)
      requires Defined(View()) && t in threads
      modifies this
      ensures View() == Next(old(View()), t, Op.DestroyWindow(h), ends)
    {
      PlainNext(View(), t, Op.DestroyWindow(h), ends);
      Erase(t, Op.DestroyWindow(h));
      Collect(t, ends);
    }

    // -------------------------------------------------------------- binding

    /** `WindowSurface::bind`, then `bind_fbo` with what the GL calls return. */
    method BindSurface(s: Id, ctx: Id, asDraw: bool, asRead: bool, gl: GlResults)
      requires s in surfaces
      modifies this`surfaces
      ensures var was := old(surfaces[s]);
              var bound := was.(drawCtx := if asDraw then ctx else was.drawCtx,
                                readCtx := if asRead then ctx else was.readCtx);
              surfaces == old(surfaces)[s := BindFbo(bound, ctx, gl)]
    {
      var surface := surfaces[s];
      if asRead {
        surface := surface.(readCtx := ctx);
      }
      if asDraw {
        surface := surface.(drawCtx := ctx);
      }
      if ctx != 0 && surface.blit.fbo == 0 && surface.attached != 0 {
        var blit := CreateFbo(surface.blit, gl);
        surface := surface.(blit := blit);
      }
      surfaces := surfaces[s := surface];
    }

    /** `create_fbo_api1/2`: texture, image, framebuffer, completeness; each failure resets what was set before it. */
    static method CreateFbo(blit: Blit, gl: GlResults) returns (blit': Blit)
      requires blit.fbo == 0
      ensures (blit'.fbo == 0 <==> blit'.tex == 0) && (blit'.fbo == 0 <==> blit'.image == 0)
      ensures blit'.fbo != 0 <==> gl.tex != 0 && gl.image != 0 && gl.fbo != 0 && gl.complete
      ensures blit' == NewBlit(gl)
    {
      blit' := blit.(tex := gl.tex);
      blit' := blit'.(image := if blit'.tex == 0 then 0 else gl.image);
      if blit'.image == 0 {
        blit' := blit'.(tex := 0);
        return;
      }
      blit' := blit'.(fbo := gl.fbo);
      if blit'.fbo == 0 {
        blit' := blit'.(image := 0);
        blit' := blit'.(tex := 0);
        return;
      }
      if !gl.complete {
        blit' := blit'.(fbo := 0);
        blit' := blit'.(image := 0);
        blit' := blit'.(tex := 0);
      }
    }

    /**
     * `bindContext` after the handles were looked up: EGL first, then the thread info, the decoders and
     * the surfaces.
     */
    method BindObjects(t: Thread, ctx: Id, draw: Id, read: Id, drawGl: GlResults, readGl: GlResults)
      requires t in threads && t in current && ctx in ctxs && draw in surfaces && read in surfaces
      modifies this`current, this`threads, this`surfaces
      ensures View() == Bind(old(View()), t, ctx, draw, read, drawGl, readGl)
    {
      current := current[t := Triple(surfaces[draw].egl, surfaces[read].egl, ctx)];
      var tinfo := threads[t].(ctx := ctx, draw := draw, read := read);
      if ctxs[ctx].isGL2 {
        tinfo := tinfo.(gl2Data := ctx);
      } else {
        tinfo := tinfo.(glData := ctx);
      }
      threads := threads[t := tinfo];
      if draw != read {
        BindSurface(draw, ctx, true, false, drawGl);
        BindSurface(read, ctx, false, true, readGl);
      } else {
        BindSurface(draw, ctx, true, true, drawGl);
      }
    }

    method UnbindObjects(t: Thread)
      requires t in threads && t in current
      requires var i := threads[t]; i.draw != 0 && i.read != 0 ==> i.draw in surfaces && i.read in surfaces
      modifies this`current, this`threads, this`surfaces
      ensures View() == Unbind(old(View()), t)
    {
      current := current[t := NONE];
      var tinfo := threads[t];
      threads := threads[t := IDLE];
      var gl := NO_GL;
      if tinfo.draw != 0 && tinfo.read != 0 {
        if tinfo.draw != tinfo.read {
          BindSurface(tinfo.draw, 0, true, false, gl);
          BindSurface(tinfo.read, 0, false, true, gl);
        } else {
          BindSurface(tinfo.draw, 0, true, true, gl);
        }
      }
    }

    /** `bindContext` up to the end of its last statement, when the old surfaces and context are let go. */
    method Rebind(t: Thread, c: Handle, d: Handle, r: Handle, eglOk: bool, drawGl: GlResults, readGl: GlResults)
      returns (ok: bool)
      requires Defined(View()) && t in threads
      modifies this`current, this`threads, this`surfaces
      ensures View() == Effect(old(View()), t, Op.BindContext(c, d, r, eglOk, drawGl, readGl))
      ensures !ok ==> View() == old(View())
    {
      if c == 0 && d == 0 && r == 0 {
        ok := eglOk;
        if ok {
          UnbindObjects(t);
        }
        return;
      }
      if c !in contexts || d !in windows || r !in windows {
        return false;
      }
      var ctx, draw, read := contexts[c], windows[d], windows[r];
      ok := eglOk && AllOrNone(Triple(surfaces[draw].egl, surfaces[read].egl, ctx));
      if ok {
        BindObjects(t, ctx, draw, read, drawGl, readGl);
      }
    }

    /** With the destructors that the old bindings' release triggers; an unknown handle or a refusal binds nothing. */
    method BindContext(t: Thread, c: Handle, d: Handle, r: Handle, eglOk: bool, drawGl: GlResults, readGl: GlResults,
                       ends: seq<Bracket>)
      returns (ok: bool)
      requires Defined(View()) && t in threads
      modifies this
      ensures View() == Next(old(View()), t, Op.BindContext(c, d, r, eglOk, drawGl, readGl), ends)
      ensures !ok ==> threads == old(threads)
    {
      ok := Rebind(t, c, d, r, eglOk, drawGl, readGl);
      BindStays(old(View()), t, Op.BindContext(c, d, r, eglOk, drawGl, readGl));
      Collect(t, ends);
    }

    /** The final unbind, or what the end of a thread info does without it. */
    method LetGo(t: Thread, eglOk: bool)
      requires Defined(View()) && t in threads
      modifies this`current, this`threads, this`surfaces
      ensures View() == Effect(old(View()), t, Op.ExitThread(eglOk)) && t in current
    {
      if eglOk {
        UnbindObjects(t);
      } else {
        threads := threads[t := IDLE];
      }
      ExitStays(old(View()), t, Op.ExitThread(eglOk));
    }

    /** The end of a render thread: the release of what it had bound, and then it is gone. */
    method ExitThread(t: Thread, eglOk: bool, ends: seq<Bracket>)
      requires Defined(View()) && t in threads
      modifies this
      ensures View() == Next(old(View()), t, Op.ExitThread(eglOk), ends)
    {
      LetGo(t, eglOk);
      Collect(t, ends);
      threads, current := threads - {t}, current - {t};
    }

    method StartThread(t: Thread)
      modifies this`threads, this`current
      ensures View() == AddThread(old(View()), t)
    {
      if t !in threads {
        threads, current := threads[t := IDLE], current[t := NONE];
      }
    }

    // -------------------------------------------------------------- attaching and resizing

    /**
     * Releases the caller if it has the pbuffer current, destroys that, makes another, and binds it
     * instead; the results of the release and of the rebind are not looked at.
     */
    method ResizePbuffer(t: Thread, sid: Id, width: nat, height: nat, rz: Resizing) returns (ok: bool)
      requires t in current && sid in surfaces && 0 !in pbuffers
      modifies this`surfaces, this`pbuffers, this`current, this`unused
      ensures var s := old(surfaces[sid]);
              var same := s.egl != 0 && s.pbufWidth == width && s.pbufHeight == height;
              var cur := old(current[t]);
              var bound := s.egl != 0 && (cur.draw == s.egl || cur.read == s.egl);
              && ok == (same || rz.createOk)
              && (same ==> && surfaces == old(surfaces) && pbuffers == old(pbuffers)
                           && current == old(current) && unused == old(unused))
              && (!same ==>
                    && pbuffers == old(pbuffers) - {s.egl} + (if rz.createOk then {old(unused)} else {})
                    && unused == old(unused) + (if rz.createOk then 1 else 0)
                    && surfaces == old(surfaces)[
                         sid := if !rz.createOk then s.(egl := 0)
                                else s.(egl := old(unused), pbufWidth := width, pbufHeight := height)]
                    && current == (if !bound then old(current)
                                   else old(current)[t := Resized(cur, s.egl, old(unused), rz)]))
    {
      var s := surfaces[sid];
      if s.egl != 0 && s.pbufWidth == width && s.pbufHeight == height {
        return true;
      }
      var was, prevPbuf := current[t], s.egl;
      var needRebind := s.egl != 0 && (was.draw == s.egl || was.read == s.egl);
      if needRebind && rz.releaseOk {
        current := current[t := NONE];
      }
      if s.egl != 0 {
        pbuffers := pbuffers - {s.egl};
        s := s.(egl := 0);
      }
      if !rz.createOk {
        surfaces := surfaces[sid := s];
        assert needRebind && !rz.releaseOk ==> current[t := was] == current;
        return false;
      }
      s := s.(egl := unused, pbufWidth := width, pbufHeight := height);
      surfaces, pbuffers, unused := surfaces[sid := s], pbuffers + {unused}, unused + 1;
      if needRebind && rz.rebindOk {
        current := current[t := was.(draw := if was.draw == prevPbuf then s.egl else was.draw,
                                     read := if was.read == prevPbuf then s.egl else was.read)];
      }
      assert needRebind && !rz.releaseOk && !rz.rebindOk ==> current[t := was] == current;
      return true;
    }

    /** `WindowSurface::setColorBuffer` once the pointer to the old buffer is released. */
    method AttachBuffer(t: Thread, sid: Id, cb: Id, rz: Resizing)
      requires t in current && sid in surfaces && cb in buffers && 0 !in pbuffers
      modifies this`surfaces, this`pbuffers, this`current, this`unused
      ensures View() == Attach(old(View()), t, sid, cb, rz)
    {
      AttachCalls(t, sid, cb, rz);
      AttachIs(old(View()), View(), t, sid, cb, rz);
    }

    method AttachCalls(t: Thread, sid: Id, cb: Id, rz: Resizing)
      requires t in current && sid in surfaces && cb in buffers && 0 !in pbuffers
      modifies this`surfaces, this`pbuffers, this`current, this`unused
      ensures sid in surfaces && surfaces == old(surfaces)[sid := surfaces[sid]]
      ensures var s, b, cur := old(surfaces[sid]), buffers[cb], old(current[t]);
              var s1 := s.(attached := cb, width := b.width, height := b.height);
              var bound := s.egl != 0 && (cur.draw == s.egl || cur.read == s.egl);
              if !Resizes(s, b) then
                surfaces[sid] == s1 && pbuffers == old(pbuffers) && current == old(current) && unused == old(unused)
              else
                && surfaces[sid] == (if !rz.createOk then s1.(egl := 0)
                                     else s1.(egl := old(unused), pbufWidth := b.width, pbufHeight := b.height))
                && pbuffers == old(pbuffers) - {s.egl} + (if rz.createOk then {old(unused)} else {})
                && unused == old(unused) + (if rz.createOk then 1 else 0)
                && current == (if bound then old(current)[t := Resized(cur, s.egl, old(unused), rz)] else old(current))
    {
      surfaces := surfaces[sid := surfaces[sid].(attached := cb)];
      var width, height := buffers[cb].width, buffers[cb].height;
      if width != surfaces[sid].width || height != surfaces[sid].height {
        if surfaces[sid].pbufWidth != 0 && surfaces[sid].pbufHeight != 0 {
          var _ := ResizePbuffer(t, sid, width, height, rz);
        }
        surfaces := surfaces[sid := surfaces[sid].(width := width, height := height)];
      }
      assert surfaces == old(surfaces)[sid := surfaces[sid]];
    }

    /** The window's surface lets go of the buffer it had. */
    method DetachBuffer(t: Thread, surf: Handle, cb: Handle, rz: Resizing) returns (ok: bool)
      requires Defined(View()) && t in threads
      modifies this`surfaces
      ensures View() == Effect(old(View()), t, SetColorBuffer(surf, cb, rz))
      ensures ok == (surf in windows && cb in colorBuffers)
    {
      ok := surf in windows && cb in colorBuffers;
      if ok {
        surfaces := surfaces[windows[surf] := surfaces[windows[surf]].(attached := 0)];
      }
    }

    method AttachNew(t: Thread, surf: Handle, cb: Handle, rz: Resizing)
      requires Refs(View()) && Numbered(View()) && t in threads
      modifies this`surfaces, this`pbuffers, this`current, this`unused
      ensures View() == Finish(old(View()), t, SetColorBuffer(surf, cb, rz))
    {
      if surf in windows && cb in colorBuffers {
        AttachBuffer(t, windows[surf], colorBuffers[cb].cb, rz);
      }
    }

    /** Lets go of the old buffer and runs its destructor. */
    method ReleaseBuffer(t: Thread, surf: Handle, cb: Handle, rz: Resizing, ends: seq<Bracket>) returns (ok: bool)
      requires Inv(View()) && t in threads
      modifies this`surfaces, this`pbuffers, this`ctxs, this`buffers, this`current, this`prev
      ensures View() == Release(Effect(old(View()), t, SetColorBuffer(surf, cb, rz)), t, ends)
      ensures ok == (surf in windows && cb in colorBuffers)
    {
      ok := DetachBuffer(t, surf, cb, rz);
      Collect(t, ends);
    }

    /** The destructor of the old buffer runs before the pbuffer is looked at. */
    method SetWindowSurfaceColorBuffer(t: Thread, surf: Handle, cb: Handle, rz: Resizing, ends: seq<Bracket>)
      returns (ok: bool)
      requires Inv(View()) && t in threads
      modifies this
      ensures View() == Next(old(View()), t, SetColorBuffer(surf, cb, rz), ends)
      ensures ok == (surf in old(windows) && cb in old(colorBuffers))
    {
      AttachFollows(View(), t, SetColorBuffer(surf, cb, rz), ends);
      ok := ReleaseBuffer(t, surf, cb, rz, ends);
      AttachNew(t, surf, cb, rz);
    }

    // -------------------------------------------------------------- work inside a bracket

    /** The caller's triple survives unless only the unbind fails, whatever the slot held. */
    method UpdateColorBuffer(t: Thread, h: Handle, br: Bracket) returns (ok: bool)
      requires t in current
      modifies this`current, this`prev
      ensures ok == (h in colorBuffers) && t in current && current == old(current)[t := current[t]]
      ensures EglAt(View(), t) == if ok then Bracketed(old(EglAt(View(), t)), OWN, Checked(br))
                                  else old(EglAt(View(), t))
      ensures (br.bindOk ==> br.unbindOk) ==> current == old(current)
    {
      ok := h in colorBuffers;
      if ok {
        var _ := InBracket(t, br);
      }
    }

    /** Flushing a window: one bracket, and while surfaces are consistent `bind_fbo` makes no new framebuffer. */
    method FlushWindowSurface(t: Thread, h: Handle, br: Bracket, gl: GlResults) returns (ok: bool)
      requires Defined(View()) && t in threads
      modifies this`current, this`prev, this`surfaces
      ensures t in current && current == old(current)[t := current[t]]
      ensures EglAt(View(), t) == if !Blits(old(View()), t, h) then old(EglAt(View(), t))
                                  else Bracketed(old(EglAt(View(), t)), OWN, Checked(br))
      ensures surfaces == Flushed(old(View()), t, h, gl).surfaces
      ensures SurfacesOk(old(View())) ==> surfaces == old(surfaces)
      ensures ok <==> h in windows && var s := old(surfaces[windows[h]]);
                      s.attached == 0 || (s.width != 0 && s.height != 0 && s.blit.image != 0)
    {
      if h !in windows || surfaces[windows[h]].attached == 0 {
        return h in windows;
      }
      var sid := windows[h];
      var s := surfaces[sid];
      if s.width == 0 || s.height == 0 || s.blit.image == 0 {
        return false;
      }
      assert SurfacesOk(View()) ==> SurfaceOk(View(), s);
      if threads[t].ctx != 0 {
        var _ := InBracket(t, br);
        if s.blit.fbo == 0 {
          var blit := CreateFbo(s.blit, gl);
          surfaces := surfaces[sid := s.(blit := blit)];
        }
      }
      return true;
    }

    /** The window's bracket, then the read-back's if a callback is set. */
    method Post(t: Thread, h: Handle, draw: Bracket, read: Bracket) returns (ok: bool)
      requires t in current
      modifies this`current, this`prev, this`lastPosted
      ensures ok == (h in colorBuffers && subWin ==> draw.bindOk)
      ensures lastPosted == if h in colorBuffers then h else old(lastPosted)
      ensures t in current && current == old(current)[t := current[t]]
      ensures EglAt(View(), t) == if !(h in colorBuffers && subWin) then old(EglAt(View(), t))
                                  else Through(old(EglAt(View(), t)), PostTrips(made, onPost, draw, read))
    {
      ok := true;
      if h in colorBuffers {
        lastPosted := h;
        if subWin {
          PostThrough(EglAt(View(), t), made, onPost, draw, read);
          ok := BindSubwinLocked(t, draw.bindOk);
          if ok {
            var _ := UnbindLocked(t, draw.unbindOk);
            if onPost {
              var _ := InBracket(t, read);
            }
          }
        }
      }
    }

    /** The post of the last buffer inside the window bracket, and the bracket's end. */
    method PostInside(t: Thread, unbindOk: bool, draw: Bracket, read: Bracket)
      requires t in current && subWin
      modifies this`current, this`prev, this`lastPosted
      ensures lastPosted == old(lastPosted) && t in current && current == old(current)[t := current[t]]
      ensures var posted := if lastPosted in colorBuffers then PostTrips(made, onPost, draw, read) else [];
              var inside := Through(old(EglAt(View(), t)), posted);
              EglAt(View(), t) == if unbindOk then Egl(inside.slot, NONE) else inside
    {
      var _ := Post(t, lastPosted, draw, read);
      var _ := UnbindLocked(t, unbindOk);
    }

    /** Posts the last buffer inside its own bracket; there is one slot for both. */
    method SetupSubWindow(t: Thread, windowOk: bool, outer: Bracket, draw: Bracket, read: Bracket) returns (ok: bool)
      requires t in current
      modifies this`current, this`prev, this`lastPosted, this`subWin, this`made
      ensures ok == (!old(subWin) && windowOk && outer.bindOk)
      ensures subWin == (old(subWin) || windowOk) && lastPosted == old(lastPosted)
      ensures made == old(made) + (if !old(subWin) && windowOk then 1 else 0)
      ensures t in current && current == old(current)[t := current[t]]
      ensures !ok ==> EglAt(View(), t) == old(EglAt(View(), t))
      ensures ok ==> var posted := if lastPosted in colorBuffers then PostTrips(made, onPost, draw, read) else [];
                     var inside := Through(Egl(SubWin(made), old(current[t])), posted);
                     EglAt(View(), t) == if outer.unbindOk then Egl(inside.slot, NONE) else inside
    {
      ok := false;
      if !subWin && windowOk {
        subWin, made := true, made + 1;
        ok := BindSubwinLocked(t, outer.bindOk);
        if ok {
          PostInside(t, outer.unbindOk, draw, read);
        }
      }
    }

    /** Unbinds the caller, without a look at what it has bound or at EGL's answer, and destroys the window. */
    method RemoveSubWindow(t: Thread, eglOk: bool) returns (removed: bool)
      modifies this`current, this`subWin
      ensures removed == old(subWin) && View() == Removed(old(View()), t, eglOk)
    {
      removed := subWin;
      if removed {
        if eglOk {
          current := current[t := NONE];
        }
        subWin := false;
      }
    }

    method SetPostCallback(on: bool)
      modifies this`onPost
      ensures View() == old(View()).(frame := old(View()).frame.(onPost := on))
    {
      onPost := on;
    }

    // -------------------------------------------------------------- any locked operation

    /** Updates and flushes. */
    method DrawBuffer(t: Thread, op: Op)
      requires Defined(View()) && t in threads && (op.UpdateColorBuffer? || op.FlushSurface?)
      modifies this`current, this`prev, this`surfaces
      ensures t in current && current == old(current)[t := current[t]]
      ensures EglAt(View(), t) == Through(old(EglAt(View(), t)), Trips(old(View()), t, op))
      ensures surfaces == if op.FlushSurface? then Flushed(old(View()), t, op.surf, op.gl).surfaces else old(surfaces)
    {
      OneTrip(EglAt(View(), t), Trip(OWN, Checked(op.br)));
      if op.UpdateColorBuffer? {
        var _ := UpdateColorBuffer(t, op.cb, op.br);
      } else {
        var _ := FlushWindowSurface(t, op.surf, op.br, op.gl);
      }
    }

    method DrawPost(t: Thread, op: Op)
      requires t in current && op.Post?
      modifies this`current, this`prev, this`lastPosted
      ensures t in current && current == old(current)[t := current[t]]
      ensures EglAt(View(), t) == Through(old(EglAt(View(), t)), Trips(old(View()), t, op))
      ensures View().frame == Shown(old(View()), op).(slot := prev)
    {
      var _ := Post(t, op.cb, op.draw, op.read);
    }

    method DrawSetup(t: Thread, op: Op)
      requires t in current && op.SetupSubWindow?
      modifies this`current, this`prev, this`lastPosted, this`subWin, this`made
      ensures t in current && current == old(current)[t := current[t]]
      ensures EglAt(View(), t) == Through(old(EglAt(View(), t)), Trips(old(View()), t, op))
      ensures View().frame == Shown(old(View()), op).(slot := prev)
    {
      ghost var posted := if lastPosted in colorBuffers then PostTrips(made + 1, onPost, op.draw, op.read) else [];
      SetupThrough(EglAt(View(), t), SubWin(made + 1), posted, op.outer.unbindOk);
      var _ := SetupSubWindow(t, op.windowOk, op.outer, op.draw, op.read);
    }

    method UpdateOrFlush(t: Thread, op: Op)
      requires Defined(View()) && t in threads && (op.UpdateColorBuffer? || op.FlushSurface?)
      modifies this`current, this`prev, this`surfaces
      ensures View() == Effect(old(View()), t, op)
    {
      DrawBuffer(t, op);
      DrawIs(old(View()), View(), t, op);
    }

    method Show(t: Thread, op: Op)
      requires Defined(View()) && t in threads && (op.Post? || op.SetupSubWindow?)
      modifies this`current, this`prev, this`lastPosted, this`subWin, this`made
      ensures View() == Effect(old(View()), t, op)
    {
      if op.Post? {
        DrawPost(t, op);
      } else {
        DrawSetup(t, op);
      }
      DrawIs(old(View()), View(), t, op);
    }

    /** The operations that change the tables and let go of nothing. */
    method Register(t: Thread, op: Op)
      requires Plainly(op) && !LetsGo(op)
      modifies this`threads, this`current, this`colorBuffers
      ensures View() == Retabled(old(View()), t, op)
    {
      match op {
        case StartThread => StartThread(t);
        case OpenColorBuffer(h) => var _ := OpenColorBuffer(t, h);
        case BindToTexture(_) =>
      }
    }

    method MakeContext(t: Thread, op: Op)
      requires Room(View()) && op.CreateContext?
      modifies this`nextHandle, this`contexts, this`ctxs, this`unused
      ensures View() == CreatedAs(old(View()), Worlds.GenHandle(old(View())), op)
    {
      var _ := CreateRenderContext(t, op.share, op.isGL2, op.ok);
    }

    method MakeWindow(t: Thread, op: Op)
      requires Room(View()) && op.CreateWindow?
      modifies this`nextHandle, this`windows, this`surfaces, this`pbuffers, this`unused
      ensures View() == CreatedAs(old(View()), Worlds.GenHandle(old(View())), op)
    {
      var _ := CreateWindowSurface(t, op.width, op.height, op.ok);
    }

    /** The operations that let go of no pointer. */
    method Keep(t: Thread, op: Op)
      requires Defined(View()) && Enabled(View(), t, op) && !LetsGo(op)
      modifies this
      ensures View() == Effect(old(View()), t, op)
    {
      if op.UpdateColorBuffer? || op.FlushSurface? {
        UpdateOrFlush(t, op);
      } else if op.Post? || op.SetupSubWindow? {
        Show(t, op);
      } else if op.CreateContext? {
        MakeIs(View(), t, op);
        MakeContext(t, op);
      } else if op.CreateWindow? {
        MakeIs(View(), t, op);
        MakeWindow(t, op);
      } else if Plainly(op) {
        PlainEffect(View(), t, op);
        Register(t, op);
      } else if op.RemoveSubWindow? {
        var _ := RemoveSubWindow(t, op.eglOk);
      } else {
        CallbackIs(View(), t, op);
        SetPostCallback(op.on);
      }
    }

    /** Every operation, with the destructors it triggers, is its atomic step. */
    method Execute(t: Thread, op: Op, ends: seq<Bracket>)
      requires Inv(View()) && Enabled(View(), t, op)
      modifies this
      ensures View() == Next(old(View()), t, op, ends)
    {
      if LetsGo(op) {
        LetGoOf(t, op, ends);
      } else {
        KeptIs(View(), t, op, ends);
        Keep(t, op);
      }
    }

    /** The operations that may destroy something. */
    method LetGoOf(t: Thread, op: Op, ends: seq<Bracket>)
      requires Inv(View()) && Enabled(View(), t, op) && LetsGo(op)
      modifies this
      ensures View() == Next(old(View()), t, op, ends)
    {
      match op {
        case ExitThread(eglOk) => ExitThread(t, eglOk, ends);
        case CreateColorBuffer(width, height, formatOk, br) =>
          var _ := CreateColorBuffer(t, width, height, formatOk, br, ends);
        case DestroyContext(h) => DestroyRenderContext(t, h, ends);
        case DestroyWindow(h) => DestroyWindowSurface(t, h, ends);
        case CloseColorBuffer(h) => CloseColorBuffer(t, h, ends);
        case BindContext(c, d, r, eglOk, drawGl, readGl) =>
          var _ := BindContext(t, c, d, r, eglOk, drawGl, readGl, ends);
        case SetColorBuffer(surf, cb, rz) =>
          var _ := SetWindowSurfaceColorBuffer(t, surf, cb, rz, ends);
      }
    }
  }

  /**
   * Any sequence of operations by any threads, with any answers from EGL, on the object: it is in the
   * state of the run, and so has what runs have.
   */
  method Serve(ghost worlds: seq<World>, steps: seq<Step>) returns (fb: FrameBuffer)
    requires IsRun(worlds, steps)
    ensures fresh(fb) && fb.View() == worlds[|steps|] && Inv(fb.View())
    ensures UnbrokenUpTo(worlds, steps, |steps|) ==> Settled(fb.View()) && CurrentIsLive(fb.View())
    ensures SafeUpTo(worlds, steps, |steps|) ==> CurrentIsLive(fb.View())
    ensures (forall i :: 0 <= i < |steps| ==> Clean(steps[i].op, steps[i].ends)) ==> fb.prev == NONE
  {
    fb := Replay(worlds, steps);
    RunKeepsInv(worlds, steps, |steps|);
    if UnbrokenUpTo(worlds, steps, |steps|) {
      RunAgrees(worlds, steps, |steps|);
    }
    if SafeUpTo(worlds, steps, |steps|) {
      RunIsLive(worlds, steps, |steps|);
    }
    if forall i :: 0 <= i < |steps| ==> Clean(steps[i].op, steps[i].ends) {
      RunEmptiesSlot(worlds, steps, |steps|);
    }
  }

  method Replay(ghost worlds: seq<World>, steps: seq<Step>) returns (fb: FrameBuffer)
    requires IsRun(worlds, steps)
    ensures fresh(fb) && fb.View() == worlds[|steps|]
  {
    fb := new FrameBuffer();
    for i := 0 to |steps|
      invariant fresh(fb) && fb.View() == worlds[i]
    {
      RunKeepsInv(worlds, steps, i);
      assert StepAt(worlds, steps, i);
      fb.Execute(steps[i].t, steps[i].op, steps[i].ends);
    }
  }
}
