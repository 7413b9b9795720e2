/** The steps of the framebuffer written out call by call, and that they are the atomic ones. */
module FrameSteps {
  import opened Worlds
  import opened WorldLaws
  import opened Agreement
  import opened Liveness

  // ---------------------------------------------------------------- brackets, call by call

  lemma OneTrip(at: Egl, trip: Trip)
    ensures Through(at, [trip]) == Bracketed(at, trip.to, trip.br)
  {
    assert [trip][..0] == [];
  }

  lemma PostThrough(at: Egl, win: nat, onPost: bool, draw: Bracket, read: Bracket)
    ensures Through(at, PostTrips(win, onPost, draw, read)) ==
              if !draw.bindOk then at
              else if onPost then Bracketed(Bracketed(at, SubWin(win), draw), OWN, Checked(read))
              else Bracketed(at, SubWin(win), draw)
  {
    if draw.bindOk {
      OneTrip(at, Trip(SubWin(win), draw));
      ThroughConcat(at, [Trip(SubWin(win), draw)], if onPost then [Trip(OWN, Checked(read))] else []);
      OneTrip(Bracketed(at, SubWin(win), draw), Trip(OWN, Checked(read)));
    }
  }

  lemma SetupThrough(at: Egl, win: Triple, inner: seq<Trip>, unbindOk: bool)
    ensures var inside := Through(Egl(win, at.cur), inner);
            Through(at, [Trip(win, Bracket(true, false))] + inner + [Trip(win, Bracket(false, unbindOk))]) ==
              if unbindOk then Egl(inside.slot, NONE) else inside
  {
    var enter, leave := Trip(win, Bracket(true, false)), Trip(win, Bracket(false, unbindOk));
    OneTrip(at, enter);
    ThroughConcat(at, [enter], inner);
    ThroughConcat(at, [enter] + inner, [leave]);
    OneTrip(Through(Egl(win, at.cur), inner), leave);
  }

  lemma NextDestructor(at: Egl, i: nat, ends: seq<Bracket>)
    ensures Through(at, Destructors(i + 1, ends)) == Bracketed(Through(at, Destructors(i, ends)), OWN, Answer(ends, i))
  {
    var before, trip := Destructors(i, ends), Trip(OWN, Answer(ends, i));
    assert (before + [trip])[..|before|] == before;
  }

  /** What an object has to have done to its fields for the effect of a creation. */
  ghost predicate CreatedTo(w: World, w': World, t: Thread, op: Op)
    requires op.CreateColorBuffer?
  {
    && t in w.current && t in w'.current
    && EglAt(w', t) == (if op.formatOk then Bracketed(EglAt(w, t), OWN, Checked(op.br)) else EglAt(w, t))
    && w' == w.(nextHandle := w'.nextHandle, unused := w'.unused,
                colorBuffers := w'.colorBuffers, buffers := w'.buffers,
                current := w.current[t := w'.current[t]], frame := w.frame.(slot := w'.frame.slot))
    && if op.formatOk && op.br.bindOk
       then && w'.nextHandle == Worlds.GenHandle(w) && w'.unused == w.unused + 1
            && w'.colorBuffers == w.colorBuffers[w'.nextHandle := BufferRef(w.unused, 1)]
            && w'.buffers == w.buffers[w.unused := Buffer(op.width, op.height)]
       else && w'.nextHandle == w.nextHandle && w'.unused == w.unused
            && w'.colorBuffers == w.colorBuffers && w'.buffers == w.buffers
  }

  lemma CreationIs(w: World, w': World, t: Thread, op: Op)
    requires Defined(w) && t in w.threads && op.CreateColorBuffer? && CreatedTo(w, w', t, op)
    ensures w' == Effect(w, t, op)
  {
    OneTrip(EglAt(w, t), Trip(OWN, Checked(op.br)));
    FramedIs(w, t, op);
  }

  /** The steps that change only the tables. */
  predicate Plainly(op: Op) {
    || op.CloseColorBuffer? || op.DestroyContext? || op.DestroyWindow? || op.OpenColorBuffer?
    || op.StartThread? || op.BindToTexture?
  }

  lemma PlainFrame(w: World, t: Thread, op: Op)
    requires Plainly(op)
    ensures Framed(w, t, op) == w
  {
  }

  lemma PlainRetabled(w: World, t: Thread, op: Op)
    requires Plainly(op) && (op.StartThread? || t in w.threads) && w.threads.Keys <= w.current.Keys
    ensures t in Retabled(w, t, op).current
  {
  }

  lemma PlainEffect(w: World, t: Thread, op: Op)
    requires Defined(w) && Enabled(w, t, op) && Plainly(op)
    ensures Effect(w, t, op) == Retabled(w, t, op) && t in Effect(w, t, op).current
  {
    PlainFrame(Retabled(w, t, op), t, op);
    PlainRetabled(w, t, op);
  }

  lemma PlainNext(w: World, t: Thread, op: Op, ends: seq<Bracket>)
    requires Defined(w) && Enabled(w, t, op) && Plainly(op) && LetsGo(op)
    ensures Next(w, t, op, ends) == Release(Retabled(w, t, op), t, ends) && t in Retabled(w, t, op).current
  {
    PlainEffect(w, t, op);
  }

  lemma ExitStays(w: World, t: Thread, op: Op)
    requires Defined(w) && t in w.threads && op.ExitThread?
    ensures t in Effect(w, t, op).current
  {
  }

  lemma BindStays(w: World, t: Thread, op: Op)
    requires Defined(w) && t in w.threads && op.BindContext?
    ensures t in Effect(w, t, op).current
  {
  }

  lemma AttachIs(w: World, w': World, t: Thread, sid: Id, bid: Id, rz: Resizing)
    requires t in w.current && sid in w.surfaces && bid in w.buffers && sid in w'.surfaces
    requires w' == w.(surfaces := w.surfaces[sid := w'.surfaces[sid]],
                      pbuffers := w'.pbuffers, current := w'.current, unused := w'.unused)
    requires var s, b := w.surfaces[sid], w.buffers[bid];
             var s1 := s.(attached := bid, width := b.width, height := b.height);
             var cur := w.current[t];
             var bound := s.egl != 0 && (cur.draw == s.egl || cur.read == s.egl);
             if !Resizes(s, b) then
               w'.surfaces[sid] == s1 && w'.pbuffers == w.pbuffers && w'.current == w.current && w'.unused == w.unused
             else
               && w'.surfaces[sid] == (if !rz.createOk then s1.(egl := 0)
                                       else s1.(egl := w.unused, pbufWidth := b.width, pbufHeight := b.height))
               && w'.pbuffers == w.pbuffers - {s.egl} + (if rz.createOk then {w.unused} else {})
               && w'.unused == w.unused + (if rz.createOk then 1 else 0)
               && w'.current == (if bound then w.current[t := Resized(cur, s.egl, w.unused, rz)] else w.current)
    ensures w' == Attach(w, t, sid, bid, rz)
  {
  }

  lemma ReleaseKeepsTables(w: World, t: Thread, ends: seq<Bracket>)
    ensures var w' := Release(w, t, ends);
            w'.threads == w.threads && w'.windows == w.windows && w'.colorBuffers == w.colorBuffers
  {
    if t in w.current {
      ReleaseIs(w, t, ends);
    }
  }

  lemma DetachingKeepsTables(w: World, t: Thread, op: Op)
    requires Defined(w) && Enabled(w, t, op) && op.SetColorBuffer?
    ensures var w' := Effect(w, t, op);
            w'.threads == w.threads && w'.windows == w.windows && w'.colorBuffers == w.colorBuffers
  {
  }

  /** The state in which the new buffer is attached. */
  lemma AttachFollows(w: World, t: Thread, op: Op, ends: seq<Bracket>)
    requires Inv(w) && Enabled(w, t, op) && op.SetColorBuffer?
    ensures var w2 := Release(Effect(w, t, op), t, ends);
            && Refs(w2) && Numbered(w2) && t in w2.threads && Next(w, t, op, ends) == Finish(w2, t, op)
            && w2.windows == w.windows && w2.colorBuffers == w.colorBuffers
  {
    FreedKeeps(w, t, op, ends);
    DetachingKeepsTables(w, t, op);
    ReleaseKeepsTables(Effect(w, t, op), t, ends);
  }

  /** The steps that go through brackets and let go of nothing. */
  predicate Draws(op: Op) { op.UpdateColorBuffer? || op.FlushSurface? || op.Post? || op.SetupSubWindow? }

  predicate MakesObject(op: Op) { op.CreateContext? || op.CreateWindow? }

  lemma FlushedLater(w: World, w': World, t: Thread, surf: Handle, gl: GlResults)
    requires w' == w.(current := w'.current, frame := w'.frame)
    ensures Flushed(w', t, surf, gl) == w'.(surfaces := Flushed(w, t, surf, gl).surfaces)
  {
  }

  /** What an object has to have done to its fields for the effect of such a step. */
  ghost predicate DrawnTo(w: World, w': World, t: Thread, op: Op) {
    && t in w.current && t in w'.current && EglAt(w', t) == Through(EglAt(w, t), Trips(w, t, op))
    && w' == w.(surfaces := w'.surfaces, current := w.current[t := w'.current[t]],
                frame := Shown(w, op).(slot := w'.frame.slot))
    && w'.surfaces == if op.FlushSurface? then Flushed(w, t, op.surf, op.gl).surfaces else w.surfaces
  }

  lemma DrawIs(w: World, w': World, t: Thread, op: Op)
    requires Defined(w) && t in w.threads && Draws(op) && DrawnTo(w, w', t, op)
    ensures w' == Effect(w, t, op)
  {
    FramedIs(w, t, op);
    if op.FlushSurface? {
      FlushedLater(w, Framed(w, t, op), t, op.surf, op.gl);
    }
  }

  lemma CallbackIs(w: World, t: Thread, op: Op)
    requires Defined(w) && Enabled(w, t, op) && op.SetPostCallback?
    ensures Effect(w, t, op) == w.(frame := w.frame.(onPost := op.on)) && t in w.current
  {
  }

  lemma MakeIs(w: World, t: Thread, op: Op)
    requires Defined(w) && t in w.threads && MakesObject(op)
    ensures Effect(w, t, op) == CreatedAs(w, Worlds.GenHandle(w), op) && t in Effect(w, t, op).current
  {
  }

  /** A step that lets go of nothing is its effect. */
  lemma KeptIs(w: World, t: Thread, op: Op, ends: seq<Bracket>)
    requires Defined(w) && Enabled(w, t, op) && !LetsGo(op)
    ensures Next(w, t, op, ends) == Effect(w, t, op)
  {
  }
}
