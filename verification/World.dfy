/**
 * The renderer's shared state as one value: the three handle tables, the objects behind them, and
 * what every render thread has bound, both in its thread info and in EGL. Each method that
 * `FrameBuffer` runs under its lock is one atomic step of some thread.
 */
module Worlds {
  import opened Bytes

  type Handle = h: nat | h < 0x1_0000_0000
  type Thread = nat
  type Id = nat      // an object behind a smart pointer; 0 is NULL. A context's id is also its EGL name.

  /**
   * EGL's current draw surface, read surface and context of one thread; 0 is "none". The framebuffer's
   * window surface is number 3, made anew each time; `win` says which one it is.
   */
  datatype Triple = Triple(draw: nat, read: nat, ctx: nat, win: nat := 0)

  const NONE := Triple(0, 0, 0)

  /** The framebuffer's own pbuffer and context, and its `win`-th window surface: names below `START.unused`. */
  const OWN := Triple(1, 1, 2)
  function SubWin(win: nat): Triple { Triple(3, 3, 4, win) }

  /** The framebuffer's own triples. */
  predicate IsOwn(cur: Triple) { cur == OWN || cur == SubWin(cur.win) }

  datatype Context = Context(isGL2: bool)

  datatype Blit = Blit(fbo: nat, tex: nat, image: nat)

  datatype Surface = Surface(egl: nat, width: nat, height: nat, pbufWidth: nat, pbufHeight: nat,
                             attached: Id, readCtx: Id, drawCtx: Id, blit: Blit)

  datatype Buffer = Buffer(width: nat, height: nat)

  datatype BufferRef = BufferRef(cb: Id, count: nat)

  /** `RenderThreadInfo`: the bound objects and, per decoder, the context whose data it holds. */
  datatype ThreadInfo = ThreadInfo(ctx: Id, draw: Id, read: Id, glData: Id, gl2Data: Id)

  const IDLE := ThreadInfo(0, 0, 0, 0, 0)

  /** The framebuffer's own state: the saved EGL triple, its window, what it shows and whether it reads back. */
  datatype Frame = Frame(
    slot: Triple,                      // m_prevDrawSurf, m_prevReadSurf, m_prevContext
    subWin: bool,
    made: nat,                         // windows so far; the last one is there while `subWin` holds
    lastPosted: Handle,
    onPost: bool)

  datatype World = World(
    nextHandle: Handle,
    contexts: map<Handle, Id>,
    windows: map<Handle, Id>,
    colorBuffers: map<Handle, BufferRef>,
    ctxs: map<Id, Context>,            // the live RenderContext objects
    surfaces: map<Id, Surface>,        // the live WindowSurface objects
    buffers: map<Id, Buffer>,          // the live ColorBuffer objects
    pbuffers: set<nat>,                // the EGL pbuffer surfaces that exist
    threads: map<Thread, ThreadInfo>,
    current: map<Thread, Triple>,
    unused: nat,                       // ids and EGL names from here on are unused
    frame: Frame)

  const START := World(0, map[], map[], map[], map[], map[], map[], {}, map[], map[], 5,
                       Frame(NONE, false, 0, 0, false))

  // ---------------------------------------------------------------- handles

  /** The `i`-th value of the counter after `n`. */
  function Candidate(n: Handle, i: nat): Handle {
    (n + i) % TWO32
  }

  /** The distance from `n` to the first candidate, counting up with wrap-around, that is not taken. */
  function Probe(n: Handle, taken: set<Handle>, j: nat): nat
    decreases TWO32 - j
  {
    if j >= TWO32 || Candidate(n, j) !in taken then j else Probe(n, taken, j + 1)
  }

  function Taken(w: World): set<Handle> {
    {0} + w.contexts.Keys + w.windows.Keys
  }

  /** `genHandle`: the colour-buffer table is not consulted. */
  function GenHandle(w: World): Handle {
    Candidate(w.nextHandle, Probe(w.nextHandle, Taken(w), 1))
  }

  /** Some 32-bit handle is neither 0 nor a context nor a window; otherwise `genHandle` does not end. */
  predicate Room(w: World) {
    |w.contexts| + |w.windows| < TWO32 - 1
  }

  // ---------------------------------------------------------------- smart pointers

  predicate SurfaceHeld(w: World, s: Id) {
    || (exists h :: h in w.windows && w.windows[h] == s)
    || (exists t :: t in w.threads && (w.threads[t].draw == s || w.threads[t].read == s))
  }

  predicate ContextHeld(w: World, c: Id) {
    || (exists h :: h in w.contexts && w.contexts[h] == c)
    || (exists t :: t in w.threads && w.threads[t].ctx == c)
    || (exists s :: s in w.surfaces && (w.surfaces[s].readCtx == c || w.surfaces[s].drawCtx == c))
  }

  predicate BufferHeld(w: World, b: Id) {
    || (exists h :: h in w.colorBuffers && w.colorBuffers[h].cb == b)
    || (exists s :: s in w.surfaces && w.surfaces[s].attached == b)
  }

  /** Surfaces that nobody points to any more are destroyed, and their pbuffers with them. */
  function SweepSurfaces(w: World): World {
    w.(surfaces := map s | s in w.surfaces && SurfaceHeld(w, s) :: w.surfaces[s],
       pbuffers := w.pbuffers - set s | s in w.surfaces && !SurfaceHeld(w, s) :: w.surfaces[s].egl)
  }

  /** Then the contexts and colour buffers that this leaves without an owner. */
  function SweepRest(w: World): World {
    w.(ctxs := map c | c in w.ctxs && ContextHeld(w, c) :: w.ctxs[c],
       buffers := map b | b in w.buffers && BufferHeld(w, b) :: w.buffers[b])
  }

  function Sweep(w: World): World {
    SweepRest(SweepSurfaces(w))
  }

  // ---------------------------------------------------------------- EGL

  /** EGL's answers to the two `eglMakeCurrent` calls around a piece of the framebuffer's own work. */
  datatype Bracket = Bracket(bindOk: bool, unbindOk: bool)

  /** What one thread has current, and the framebuffer's single slot for the triple to go back to. */
  datatype Egl = Egl(cur: Triple, slot: Triple)

  /** Saves the current triple and makes `to` current, then restores what is saved; a refused call changes nothing. */
  function Bracketed(at: Egl, to: Triple, br: Bracket): Egl {
    var at1 := if br.bindOk then Egl(to, at.cur) else at;
    if br.unbindOk then Egl(at1.slot, NONE) else at1
  }

  /** Work that is given up when it cannot bind does not unbind either. */
  function Checked(br: Bracket): Bracket {
    if br.bindOk then br else Bracket(false, false)
  }

  datatype Trip = Trip(to: Triple, br: Bracket)

  /** One bracket after the other. */
  function Through(at: Egl, trips: seq<Trip>): Egl {
    if trips == [] then at else
      var last := trips[|trips| - 1];
      Bracketed(Through(at, trips[..|trips| - 1]), last.to, last.br)
  }

  /** The answers to the `i`-th destructor of a step; unless stated otherwise EGL agrees. */
  function Answer(ends: seq<Bracket>, i: nat): Bracket {
    if i < |ends| then ends[i] else Bracket(true, true)
  }

  /** The brackets of `n` colour buffers' destructors, which ignore both results. */
  function Destructors(n: nat, ends: seq<Bracket>): seq<Trip> {
    if n == 0 then [] else Destructors(n - 1, ends) + [Trip(OWN, Answer(ends, n - 1))]
  }

  /** `post` of a live buffer: the window's bracket, then the read-back's if a callback is set. */
  function PostTrips(win: nat, onPost: bool, draw: Bracket, read: Bracket): seq<Trip> {
    if !draw.bindOk then [] else [Trip(SubWin(win), draw)] + if onPost then [Trip(OWN, Checked(read))] else []
  }

  function EglAt(w: World, t: Thread): Egl
    requires t in w.current
  {
    Egl(w.current[t], w.frame.slot)
  }

  function WithEgl(w: World, t: Thread, at: Egl): World {
    w.(current := w.current[t := at.cur], frame := w.frame.(slot := at.slot))
  }

  /** Thread `t` goes through the brackets while the framebuffer's own state becomes `frame`. */
  function Brought(w: World, t: Thread, frame: Frame, trips: seq<Trip>): World {
    if t !in w.current || trips == [] then w.(frame := frame)
    else WithEgl(w.(frame := frame), t, Through(EglAt(w, t), trips))
  }

  /** Section 3.7.3 of EGL 1.4: a context comes with two surfaces, and without one there are none. */
  predicate AllOrNone(t: Triple) {
    (t.draw == 0 <==> t.ctx == 0) && (t.read == 0 <==> t.ctx == 0)
  }

  // ---------------------------------------------------------------- surfaces

  /** What the GL and EGL calls that build a blit framebuffer return. */
  datatype GlResults = GlResults(tex: nat, image: nat, fbo: nat, complete: bool)

  const NO_GL := GlResults(0, 0, 0, false)

  /** `create_fbo_api1/2` on a surface without framebuffer; an image of texture 0 cannot be made. */
  function NewBlit(gl: GlResults): Blit {
    if gl.tex == 0 || gl.image == 0 || gl.fbo == 0 || !gl.complete then Blit(0, 0, 0)
    else Blit(gl.fbo, gl.tex, gl.image)
  }

  function BindFbo(s: Surface, ctx: Id, gl: GlResults): Surface {
    if ctx == 0 || s.blit.fbo != 0 || s.attached == 0 then s else s.(blit := NewBlit(gl))
  }

  /** `setColorBuffer` and `resizePbuffer` replace the pbuffer. */
  predicate Resizes(s: Surface, b: Buffer) {
    && (b.width != s.width || b.height != s.height)
    && s.pbufWidth != 0 && s.pbufHeight != 0
    && !(s.egl != 0 && s.pbufWidth == b.width && s.pbufHeight == b.height)
  }

  // ---------------------------------------------------------------- the steps

  /** EGL's answers in `resizePbuffer`: to the release of a bound caller, the new pbuffer, and the rebind. */
  datatype Resizing = Resizing(releaseOk: bool, createOk: bool, rebindOk: bool)

  datatype Op =
    | StartThread
    | ExitThread(eglOk: bool)
    | CreateContext(share: Handle, isGL2: bool, ok: bool)
    | CreateWindow(width: nat, height: nat, ok: bool)
    | CreateColorBuffer(width: nat, height: nat, formatOk: bool, br: Bracket)
    | DestroyContext(h: Handle)
    | DestroyWindow(h: Handle)
    | OpenColorBuffer(h: Handle)
    | CloseColorBuffer(h: Handle)
    | BindContext(c: Handle, d: Handle, r: Handle, eglOk: bool, drawGl: GlResults, readGl: GlResults)
    | SetColorBuffer(surf: Handle, cb: Handle, rz: Resizing)
    | FlushSurface(surf: Handle, br: Bracket, gl: GlResults)
    | UpdateColorBuffer(cb: Handle, br: Bracket)
    | BindToTexture(cb: Handle)
    | Post(cb: Handle, draw: Bracket, read: Bracket)
    | SetupSubWindow(windowOk: bool, outer: Bracket, draw: Bracket, read: Bracket)
    | RemoveSubWindow(eglOk: bool)
    | SetPostCallback(on: bool)

  predicate GoodHandles(w: World, c: Handle, d: Handle, r: Handle) {
    c in w.contexts && d in w.windows && r in w.windows
  }

  /** The thread info and decoder data after a bind; the decoder of the other API keeps what it had. */
  function BoundInfo(w: World, was: ThreadInfo, ctx: Id, draw: Id, read: Id): ThreadInfo
    requires ctx in w.ctxs
  {
    if w.ctxs[ctx].isGL2 then ThreadInfo(ctx, draw, read, was.glData, ctx)
    else ThreadInfo(ctx, draw, read, ctx, was.gl2Data)
  }

  /** `WindowSurface::bind` on the draw and the read surface. */
  function BindSurfaces(surfaces: map<Id, Surface>, ctx: Id, d: Id, r: Id, drawGl: GlResults,
                        readGl: GlResults): map<Id, Surface>
    requires d in surfaces && r in surfaces
  {
    if d == r then
      surfaces[d := BindFbo(surfaces[d].(readCtx := ctx, drawCtx := ctx), ctx, drawGl)]
    else
      var surfaces1 := surfaces[d := BindFbo(surfaces[d].(drawCtx := ctx), ctx, drawGl)];
      surfaces1[r := BindFbo(surfaces1[r].(readCtx := ctx), ctx, readGl)]
  }

  function Unbind(w: World, t: Thread): World
    requires t in w.threads
    requires var i := w.threads[t]; i.draw != 0 && i.read != 0 ==> i.draw in w.surfaces && i.read in w.surfaces
  {
    var i := w.threads[t];
    w.(threads := w.threads[t := IDLE], current := w.current[t := NONE],
       surfaces := if i.draw != 0 && i.read != 0
                   then BindSurfaces(w.surfaces, 0, i.draw, i.read, NO_GL, NO_GL)
                   else w.surfaces)
  }

  function Bind(w: World, t: Thread, c: Id, d: Id, r: Id, drawGl: GlResults, readGl: GlResults): World
    requires t in w.threads && c in w.ctxs && d in w.surfaces && r in w.surfaces
  {
    w.(threads := w.threads[t := BoundInfo(w, w.threads[t], c, d, r)],
       current := w.current[t := Triple(w.surfaces[d].egl, w.surfaces[r].egl, c)],
       surfaces := BindSurfaces(w.surfaces, c, d, r, drawGl, readGl))
  }

  /** The caller's EGL triple after its surface `egl` was replaced by `egl'`. */
  function Rebound(cur: Triple, egl: nat, egl': nat): Triple {
    cur.(draw := if cur.draw == egl then egl' else cur.draw, read := if cur.read == egl then egl' else cur.read)
  }

  /** What a caller has current that had `egl` current while `egl'`, or nothing, was put in its place. */
  function Resized(cur: Triple, egl: nat, egl': nat, rz: Resizing): Triple {
    if rz.createOk && rz.rebindOk then Rebound(cur, egl, egl') else if rz.releaseOk then NONE else cur
  }

  function Attach(w: World, t: Thread, sid: Id, bid: Id, rz: Resizing): World
    requires t in w.current && sid in w.surfaces && bid in w.buffers
  {
    var s, b := w.surfaces[sid], w.buffers[bid];
    var resized := s.(attached := bid, width := b.width, height := b.height);
    if !Resizes(s, b) then
      w.(surfaces := w.surfaces[sid := resized])
    else
      var cur := w.current[t];
      var bound := s.egl != 0 && (cur.draw == s.egl || cur.read == s.egl);
      var current := if bound then w.current[t := Resized(cur, s.egl, w.unused, rz)] else w.current;
      if rz.createOk then
        w.(surfaces := w.surfaces[sid := resized.(egl := w.unused, pbufWidth := b.width, pbufHeight := b.height)],
           pbuffers := w.pbuffers - {s.egl} + {w.unused}, current := current, unused := w.unused + 1)
      else
        w.(surfaces := w.surfaces[sid := resized.(egl := 0)], pbuffers := w.pbuffers - {s.egl}, current := current)
  }

  /** The handle tables point to live objects; this is all a step needs to be defined. */
  ghost predicate Defined(w: World) {
    && (forall h :: h in w.contexts ==> w.contexts[h] in w.ctxs)
    && (forall h :: h in w.windows ==> w.windows[h] in w.surfaces)
    && (forall h :: h in w.colorBuffers ==> w.colorBuffers[h].cb in w.buffers)
    && (forall t :: t in w.threads ==> t in w.current && InfoRefs(w, w.threads[t]))
  }

  ghost predicate InfoRefs(w: World, i: ThreadInfo) {
    && (i.ctx == 0 || i.ctx in w.ctxs)
    && (i.draw == 0 || i.draw in w.surfaces)
    && (i.read == 0 || i.read in w.surfaces)
  }

  function AddThread(w: World, t: Thread): World {
    if t in w.threads then w else w.(threads := w.threads[t := IDLE], current := w.current[t := NONE])
  }

  function DropThread(w: World, t: Thread): World {
    w.(threads := w.threads - {t}, current := w.current - {t})
  }

  function AddContext(w: World, h: Handle, isGL2: bool): World {
    w.(nextHandle := h, contexts := w.contexts[h := w.unused],
       ctxs := w.ctxs[w.unused := Context(isGL2)], unused := w.unused + 1)
  }

  function AddWindow(w: World, h: Handle, width: nat, height: nat): World {
    w.(nextHandle := h, windows := w.windows[h := w.unused],
       surfaces := w.surfaces[w.unused := Surface(w.unused + 1, width, height, width, height, 0, 0, 0, Blit(0, 0, 0))],
       pbuffers := w.pbuffers + {w.unused + 1}, unused := w.unused + 2)
  }

  function AddColorBuffer(w: World, h: Handle, width: nat, height: nat): World {
    w.(nextHandle := h, colorBuffers := w.colorBuffers[h := BufferRef(w.unused, 1)],
       buffers := w.buffers[w.unused := Buffer(width, height)], unused := w.unused + 1)
  }

  /** The count is a `uint32_t`. */
  function Open(w: World, h: Handle): World
    requires h in w.colorBuffers
  {
    var ref := w.colorBuffers[h];
    w.(colorBuffers := w.colorBuffers[h := ref.(count := (ref.count + 1) % TWO32)])
  }

  function Close(w: World, h: Handle): World
    requires h in w.colorBuffers
  {
    var ref := w.colorBuffers[h];
    var count := (ref.count + TWO32 - 1) % TWO32;
    w.(colorBuffers := if count == 0 then w.colorBuffers - {h} else w.colorBuffers[h := ref.(count := count)])
  }

  /** The steps that start a thread, drop a handle, recount one, or leave the world as it is. */
  function Retabled(w: World, t: Thread, op: Op): World {
    match op
    case StartThread => AddThread(w, t)
    case DestroyContext(h) => w.(contexts := w.contexts - {h})
    case DestroyWindow(h) => w.(windows := w.windows - {h})
    case OpenColorBuffer(h) => if h in w.colorBuffers then Open(w, h) else w
    case CloseColorBuffer(h) => if h in w.colorBuffers then Close(w, h) else w
    case _ => w
  }

  /** The steps that make a new object and give it the handle `h`. */
  function CreatedAs(w: World, h: Handle, op: Op): World {
    match op
    case CreateContext(share, isGL2, ok) =>
      if (share != 0 && share !in w.contexts) || !ok then w else AddContext(w, h, isGL2)
    case CreateWindow(width, height, ok) => if ok then AddWindow(w, h, width, height) else w
    case CreateColorBuffer(width, height, formatOk, br) =>
      if formatOk && br.bindOk then AddColorBuffer(w, h, width, height) else w
    case _ => w
  }

  function Created(w: World, op: Op): World {
    CreatedAs(w, GenHandle(w), op)
  }

  predicate Creates(op: Op) {
    op.CreateContext? || op.CreateWindow? || op.CreateColorBuffer?
  }

  /** `blitToColorBuffer` gets as far as the blit. */
  predicate Blits(w: World, t: Thread, surf: Handle) {
    && surf in w.windows && w.windows[surf] in w.surfaces && t in w.threads && w.threads[t].ctx != 0
    && var s := w.surfaces[w.windows[surf]];
       s.attached != 0 && s.width != 0 && s.height != 0 && s.blit.image != 0
  }

  /** The brackets a step goes through itself; `setupSubWindow` posts the last buffer inside its own. */
  function Trips(w: World, t: Thread, op: Op): seq<Trip> {
    match op
    case CreateColorBuffer(_, _, formatOk, br) => if formatOk then [Trip(OWN, Checked(br))] else []
    case UpdateColorBuffer(cb, br) => if cb in w.colorBuffers then [Trip(OWN, Checked(br))] else []
    case FlushSurface(surf, br, _) => if Blits(w, t, surf) then [Trip(OWN, Checked(br))] else []
    case Post(cb, draw, read) =>
      if cb in w.colorBuffers && w.frame.subWin then PostTrips(w.frame.made, w.frame.onPost, draw, read) else []
    case SetupSubWindow(windowOk, outer, draw, read) =>
      if w.frame.subWin || !windowOk || !outer.bindOk then [] else
        var win := w.frame.made + 1;
        [Trip(SubWin(win), Bracket(true, false))]
        + (if w.frame.lastPosted in w.colorBuffers then PostTrips(win, w.frame.onPost, draw, read) else [])
        + [Trip(SubWin(win), Bracket(false, outer.unbindOk))]
    case _ => []
  }

  /** What a step does to the framebuffer's own state, apart from EGL. */
  function Shown(w: World, op: Op): Frame {
    match op
    case Post(cb, _, _) => if cb in w.colorBuffers then w.frame.(lastPosted := cb) else w.frame
    case SetupSubWindow(windowOk, _, _, _) =>
      if w.frame.subWin || !windowOk then w.frame else w.frame.(subWin := true, made := w.frame.made + 1)
    case SetPostCallback(on) => w.frame.(onPost := on)
    case _ => w.frame
  }

  function Framed(w: World, t: Thread, op: Op): World {
    Brought(w, t, Shown(w, op), Trips(w, t, op))
  }

  /** `bind_fbo` after the blit makes a framebuffer if there is none. */
  function Flushed(w: World, t: Thread, surf: Handle, gl: GlResults): World {
    if Blits(w, t, surf) && w.surfaces[w.windows[surf]].blit.fbo == 0
    then w.(surfaces := w.surfaces[w.windows[surf] := w.surfaces[w.windows[surf]].(blit := NewBlit(gl))])
    else w
  }

  /** `m_attachedColorBuffer` lets go of what it pointed to. */
  function Detach(w: World, sid: Id): World
    requires sid in w.surfaces
  {
    w.(surfaces := w.surfaces[sid := w.surfaces[sid].(attached := 0)])
  }

  /** `removeSubWindow` unbinds the caller, whatever it has current, and destroys the window surface. */
  function Removed(w: World, t: Thread, eglOk: bool): World {
    if !w.frame.subWin then w else
      w.(frame := w.frame.(subWin := false), current := if eglOk then w.current[t := NONE] else w.current)
  }

  /** The change a step makes before unowned objects are destroyed. */
  ghost function Effect(w: World, t: Thread, op: Op): World
    requires Defined(w) && (op.StartThread? || t in w.threads)
  {
    match op
    case ExitThread(eglOk) => if eglOk then Unbind(w, t) else w.(threads := w.threads[t := IDLE])
    case BindContext(c, d, r, eglOk, drawGl, readGl) =>
      if c == 0 && d == 0 && r == 0 then
        if eglOk then Unbind(w, t) else w
      else if !GoodHandles(w, c, d, r) then w
      else
        var w1 := Bind(w, t, w.contexts[c], w.windows[d], w.windows[r], drawGl, readGl);
        if eglOk && AllOrNone(w1.current[t]) then w1 else w
    case RemoveSubWindow(eglOk) => Removed(w, t, eglOk)
    case SetColorBuffer(surf, cb, _) =>
      if surf !in w.windows || cb !in w.colorBuffers then w else Detach(w, w.windows[surf])
    case FlushSurface(surf, _, gl) => Flushed(Framed(w, t, op), t, surf, gl)
    case _ => if Creates(op) then Created(Framed(w, t, op), op) else Framed(Retabled(w, t, op), t, op)
  }

  /** The colour buffers that nobody points to. */
  function Dead(w: World): set<Id> {
    w.buffers.Keys - Sweep(w).buffers.Keys
  }

  /** Unowned objects are destroyed, and each colour buffer's destructor goes through its bracket. */
  function Release(w: World, t: Thread, ends: seq<Bracket>): World {
    if t !in w.current || Dead(w) == {} then Sweep(w)
    else WithEgl(Sweep(w), t, Through(EglAt(w, t), Destructors(|Dead(w)|, ends)))
  }

  /** The steps that let go of pointers, and may destroy what those pointed to. */
  predicate LetsGo(op: Op) {
    || op.ExitThread? || op.BindContext? || op.CreateColorBuffer? || op.CloseColorBuffer?
    || op.DestroyContext? || op.DestroyWindow? || op.SetColorBuffer?
  }

  function Freed(w: World, t: Thread, op: Op, ends: seq<Bracket>): World {
    if LetsGo(op) then Release(w, t, ends) else w
  }

  /** What is left to do then: the new buffer is attached and the pbuffer resized; the thread is gone. */
  function Finish(w: World, t: Thread, op: Op): World {
    match op
    case ExitThread(_) => DropThread(w, t)
    case SetColorBuffer(surf, cb, rz) =>
      if && t in w.current && surf in w.windows && w.windows[surf] in w.surfaces
         && cb in w.colorBuffers && w.colorBuffers[cb].cb in w.buffers
      then Attach(w, t, w.windows[surf], w.colorBuffers[cb].cb, rz)
      else w
    case _ => w
  }

  ghost function Next(w: World, t: Thread, op: Op, ends: seq<Bracket>): World
    requires Defined(w) && (op.StartThread? || t in w.threads)
  {
    Finish(Freed(Effect(w, t, op), t, op, ends), t, op)
  }
}
