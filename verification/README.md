# A verified model of the host GL renderer

The host renderer of an Android emulator takes a byte stream of GL commands from each guest
connection, reassembles it into packets, dispatches them to three decoders, writes replies, and keeps
a table of contexts, window surfaces and colour buffers that all render threads share. This project
models that core in Dafny and proves what it keeps over every stream, every run and every interleaving.
`dafny verify dfyconfig.toml` checks it.

| file | what it models |
|---|---|
| `Bytes.dfy`, `Framing.dfy` | little-endian words; the packet framing and the trace that a byte stream must dispatch |
| `RenderThread.dfy` | the read buffer, the decoders' framing loop, their rotation, a render thread's whole run |
| `ReplyStream.dfy` | the reply buffer shared by `IOStream` and `SocketStream` |
| `World.dfy`, `Handles.dfy` | the shared state as a value, each locked method as one atomic step with EGL's answers to its calls; `genHandle` |
| `WorldLaws.dfy` | what every step keeps |
| `Agreement.dfy`, `Liveness.dfy`, `Runs.dfy` | EGL's current triples against the thread infos and the framebuffer's save slot: exact conditions per step, and what holds over every run |
| `SharedWindow.dfy`, `HandleWrap.dfy` | runs that reach the exceptions |
| `RefCounts.dfy` | handles before the wrap, and client reference counts |
| `FrameSteps.dfy`, `FrameBuffer.dfy` | `FrameBuffer` as an object whose methods go through their EGL calls one by one, each against its atomic step, and a whole sequence of them against a run |
| `LazyInstance.dfy` | lazy construction by compare-and-swap, all interleavings |
| `Configs.dfy`, `Packing.dfy`, `ContextData.dfy`, `Arguments.dfy` | configuration choice, vertex and string packing, pointer data, argument layout |

What the environment decides is a parameter: how the socket cuts the stream, what each `send` accepts,
whether an allocation is granted, whether an EGL call succeeds, what GL name generators return.

Five properties one would expect are false of the code. Each has its exact condition.

- **A framing loop ends**, except when it comes to a packet it knows whose length field is 0, which it then
  dispatches forever, or 2^31 and more, on which the position moves backwards. `LoopEndsExactly` is the
  equivalence for less than 2 GiB, where the second cannot happen; `Sane` says that a stream reaches no such packet.
- **EGL agrees with the thread infos** after every step, with three exceptions. One is `setColorBuffer` replacing
  the pbuffer of a surface that another thread has bound, or that the caller has bound while EGL refuses the new
  pbuffer or the rebind. The second is `removeSubWindow`, which unbinds a bound caller and does not tell its info.
  The third is a bracket (`bind_locked` ... `unbind_locked`, in creation, update, flush, post, window setup and
  every `~ColorBuffer`) that EGL lets in but not out, or in a destructor out but not in. `AgreementExactly` is the
  equivalence, over EGL's answers alone; `AgreementCanBreak` and `StaleSlotCanStray` are runs that end in the first
  and the third.
- **Nothing destroyed is current** unless a pbuffer or the window is destroyed that another thread has current, or
  that the caller has current and EGL refuses to release (the code ignores that answer), or the destructors of a
  step leave the caller with a triple that an earlier refusal left in the slot. `LivenessExactly` and
  `DestructorsTieExactly` are the equivalences, `RunIsLive` is the run, whatever else EGL refuses.
- **`setupSubWindow` restores the caller's EGL triple** unless a live buffer was posted before and the
  caller had something current: it posts inside its own bracket, and there is one slot for both.
  `SetupReturnsExactly` gives the equivalence for every combination of EGL's answers.
- **The length of packed shader strings** is the computed one, whatever the destination held before, exactly when
  no explicit length exceeds its string (`SourceLenExactly`).

Also, `int allocLen` in `IOStream::alloc` truncates: a region is covered exactly when its length is below
2^31 or its low word is negative as an `int` (`AllocLenCovers`), and colour-buffer handles are fresh until
the handle counter wraps and not after (`NewHandleIsFresh`, `WrapReusesColorBuffer`).

## Model

| member | source | states |
|---|---|---|
| `Framing.OwnerIsUnique` | host-opengl-render/gl_opcodes.h:6-297 | the opcode ranges 1024-1314, 2048-2255 and 10000-10025 are disjoint: a whole packet is taken by one decoder at most, its owner |
| `Framing.TraceOfSplit` | host-opengl-render/RenderThread.cpp:85-147 | parsing a stream equals parsing any prefix of it and then the remainder together with what that left buffered |
| `Framing.NothingLost` | host-opengl-render/RenderThread.cpp:113-145 | dispatched packets in order, followed by the buffered rest, are exactly the stream |
| `Framing.RestIsBlocked` | host-opengl-render/GLDecoder.cpp:196-199 | what stays buffered starts with no whole packet of a known opcode |
| `Framing.TraceOfPackets` | host-opengl-render/GLDecoder.cpp:186-200 | any list of well-formed packets and an undispatchable tail dispatches exactly those packets, once each, in order, under their owners |
| `Framing.UnknownBlocksForever` | host-opengl-render/GL2Decoder.cpp:3095-3104 | after an unknown opcode nothing more is dispatched and no later byte is dropped |
| `Framing.FedTraceIsTrace` | host-opengl-render/RenderThread.cpp:85-147 | feeding a stream in pieces dispatches the trace of the whole |
| `Framing.ChunkingIndependence` | host-opengl-render/RenderThread.cpp:85-147 | two ways of cutting the same stream dispatch the same commands |
| `Framing.ZeroLengthNeverMoves` | host-opengl-render/GLDecoder.cpp:196-208 | a known opcode with length field 0 keeps a framing loop at its position through any number of iterations, wherever in the buffer it is |
| `Framing.LoopEndsExactly` | host-opengl-render/GLDecoder.cpp:186-208 | below 2 GiB a decoder's framing loop, started anywhere, ends if and only if the packets it takes from there include none of length 0 |
| `Framing.SaneExactly` | host-opengl-render/RenderThread.cpp:113-145 | below 2 GiB the condition under which a thread's run is specified says exactly that no decoder's loop hangs, on the buffer or on what any number of its packets leave of it |
| `Framing.DecodeIsPrefixOfTrace` | host-opengl-render/GL2Decoder.cpp:106-120 | one decoder's call dispatches a prefix of the trace, leaves the rest of the trace intact and stops at a packet it does not take |
| `Framing.RestIsShort` | host-opengl-render/ReadBuffer.cpp:42-60 | with known opcodes and packets of at most `limit` bytes, fewer than `limit` bytes stay buffered |
| `ReadBuffers.ReadBuffer.constructor` | host-opengl-render/ReadBuffer.cpp:23-30 | an empty buffer of the given size |
| `ReadBuffers.ReadBuffer.Slide` | host-opengl-render/ReadBuffer.cpp:39-41 | the pending bytes are moved to the front unchanged |
| `ReadBuffers.ReadBuffer.MakeRoom` | host-opengl-render/ReadBuffer.cpp:43-60 | only a full buffer is reallocated, at twice its size and with its bytes; fails exactly when the allocator refuses |
| `ReadBuffers.ReadBuffer.GetData` | host-opengl-render/ReadBuffer.cpp:37-67 | received bytes are appended to the pending ones; -1, with nothing lost, exactly when nothing came or no room could be made |
| `ReadBuffers.ReadBuffer.Consume` | host-opengl-render/ReadBuffer.cpp:69-74 | drops a prefix of the pending bytes |
| `RenderThreads.Decode` | host-opengl-render/GL2Decoder.cpp:106-120 | the framing loop consumes and dispatches what the specification of one decoder says |
| `RenderThreads.Turn` | host-opengl-render/RenderThread.cpp:117-124 | one decoder's turn moves a prefix of the trace from the buffer to the dispatched commands; no progress means it takes nothing |
| `RenderThreads.Drain` | host-opengl-render/RenderThread.cpp:113-145 | the rotation ends, has dispatched the whole trace of the buffer, and leaves its rest |
| `RenderThreads.Receive` | host-opengl-render/RenderThread.cpp:87-111 | the dump file gets exactly the bytes just read |
| `RenderThreads.Pass` | host-opengl-render/RenderThread.cpp:85-147 | one pass keeps: commands so far are the trace, and the buffer the rest, of everything received |
| `RenderThreads.Run` | host-opengl-render/RenderThread.cpp:64-147 | for every stream, cut and buffer size: the trace is that of the bytes received, the dump is those bytes, the rest is buffered; with bounded packets the buffer stays within max(initial, 2(P-1)) and only the socket ends the run |
| `ReplyStreams.AllocLenCovers` | host-opengl-render/IOStream.h:53-67 | a new buffer covers the request, so the free count does not underflow, exactly for lengths below 2^31 or with a negative low word |
| `ReplyStreams.SocketStream.constructor` | host-opengl-render/SocketStream.cpp:32-46 | no buffer, nothing pending, nothing sent, both sizes as given |
| `ReplyStreams.SocketStream.WriteFully` | host-opengl-render/SocketStream.cpp:92-112 | through short writes and interruptions all bytes are sent in order; otherwise a prefix, and only on a dead socket or hard error |
| `ReplyStreams.SocketStream.AllocBuffer` | host-opengl-render/SocketStream.cpp:65-85 | the buffer delivered has at least the asked size, although the recorded size may be smaller than the real one |
| `ReplyStreams.SocketStream.Flush` | host-opengl-render/IOStream.h:71-79 | pending bytes move to the wire; fails only on a dead socket or hard error |
| `ReplyStreams.SocketStream.Alloc` | host-opengl-render/IOStream.h:44-69 | the new region starts where the pending bytes end and lies inside the real buffer; sent and pending bytes before it are unchanged, also when the call fails for lack of memory |
| `ReplyStreams.SocketStream.Fill` | host-opengl-render/GL2Decoder.cpp:868-880 | writing a region changes that region only |
| `ReplyStreams.SocketStream.FillParts` | host-opengl-render/GL2Decoder.cpp:868-876 | the parts of a reply with several outputs partition its region |
| `ReplyStreams.SocketStream.Reply` | host-opengl-render/GL2Decoder.cpp:857-883 | sent followed by pending grows by exactly the reply's parts, or not at all |
| `ReplyStreams.Session` | host-opengl-render/IOStream.h:44-79 | over any calls, short writes and interruptions: sent followed by pending is the calls' output in order; a session ending in a flush has sent it all |
| `LazyInstances.NextKeepsInv` | host-opengl-render/lazy_instance.cpp:71-90 | every step of every thread keeps: before, during (one winner) and after construction, with the log of each |
| `LazyInstances.RunKeepsInv` | host-opengl-render/lazy_instance.cpp:71-90 | so does every schedule of any number of threads |
| `LazyInstances.ConstructedOnce` | host-opengl-render/lazy_instance.h:145-152 | in every interleaving the log is a prefix of: one true, one construction, one store of DONE; then only false returns |
| `LazyInstances.AtMostOneTrue` | host-opengl-render/lazy_instance.cpp:76-78 | at most one call returns true |
| `LazyInstances.FalseOnlyAfterDone` | host-opengl-render/lazy_instance.cpp:80-85 | a call returns false only after DONE was stored |
| `LazyInstances.DoneIsFinal` | host-opengl-render/lazy_instance.cpp:88-90 | the state never leaves DONE |
| `LazyInstances.WinnerPublishes` | host-opengl-render/lazy_instance.cpp:76-90 | in every schedule the winner's first step constructs, its second stores DONE, and DONE stays, however the other threads' steps fall in between |
| `Handles.GenHandleIsFree` | host-opengl-render/FrameBuffer.cpp:479-489 | while a handle is free, at most contexts + windows + 2 candidates, and the result is not 0 and in neither table |
| `Handles.RoomExactly` | host-opengl-render/FrameBuffer.cpp:482-486 | the condition for the search to end says exactly that some handle is free |
| `WorldLaws.AttachKeeps` | host-opengl-render/WindowSurface.cpp:101-122 | attaching and resizing keep all invariants, whatever EGL answers to the release, the creation and the rebind |
| `WorldLaws.BindKeeps` | host-opengl-render/FrameBuffer.cpp:704-749 | binding keeps all invariants |
| `WorldLaws.UnbindKeeps` | host-opengl-render/FrameBuffer.cpp:717-739 | unbinding keeps all invariants |
| `WorldLaws.ReleaseKeeps` | host-opengl-render/ColorBuffer.cpp:91-111 | so do the destructors a step triggers, whatever EGL answers their brackets and whatever the slot holds |
| `WorldLaws.NextKeepsInv` | host-opengl-render/FrameBuffer.cpp:409-883 | every step of any thread, with its destructors, keeps: no dangling pointer, every pbuffer owned by one live surface, disjoint tables without 0, threads bound all or not at all with the right decoder data; with positive sizes also consistent surfaces |
| `Runs.RunKeepsInv` | host-opengl-render/FrameBuffer.cpp:409-883 | these invariants hold in every state of every multi-threaded run, for every answer of EGL to every call |
| `Runs.RunKeepsSurfaces` | host-opengl-render/WindowSurface.cpp:101-122 | on every run with positive sizes: framebuffer, texture and image all or none; attached buffer and pbuffer of the surface's size |
| `Agreement.BracketsReturnExactly` | host-opengl-render/FrameBuffer.cpp:757-812 | wherever earlier refusals have left the caller, brackets bring its triple back and empty the slot if and only if EGL's answers alone, followed bracket by bracket, end at home |
| `Agreement.OneBracket` | host-opengl-render/ColorBuffer.cpp:91-111 | for one bracket: unless it was entered and not left, or left without being entered while something was current |
| `Agreement.SightedIsThrough` | host-opengl-render/FrameBuffer.cpp:757-812 | for any one triple, whether it is current and whether it is saved after any brackets follows from the same two bits before and EGL's answers alone |
| `Agreement.AgreementExactly` | host-opengl-render/FrameBuffer.cpp:409-883 | a step keeps EGL, the thread infos and an empty slot in agreement if and only if its brackets end at home, it is no `removeSubWindow` of a bound caller and no resize of a surface bound elsewhere, or bound here with a refused pbuffer or rebind; an exit does if and only if the answers to its destructors, by the two-bit walk, leave nothing saved |
| `Liveness.TiedIsLive` | host-opengl-render/FrameBuffer.cpp:704-731 | where every thread has current nothing, the framebuffer's own triples or what its info records, nothing destroyed is current |
| `Liveness.DestructorsTieExactly` | host-opengl-render/ColorBuffer.cpp:91-111 | from a state whose caller is tied to nothing, the framebuffer's own or its recorded triple, destructors leave it so unless the slot holds another triple and EGL's answers bring that one out last |
| `Liveness.LivenessExactly` | host-opengl-render/WindowSurface.cpp:199-220 | from such a state, agreeing or not, and whatever EGL answers, a step leaves something destroyed current if and only if it destroys a pbuffer or window that another thread has current, or that the caller has current with the release refused and no rebind |
| `Runs.RunAgrees` | host-opengl-render/FrameBuffer.cpp:409-883 | on every run without a breaking step each thread's EGL triple is the recorded one, the slot is empty and nothing destroyed is current |
| `Runs.RunIsLive` | host-opengl-render/WindowSurface.cpp:190-220 | whatever EGL refuses on the way, nothing destroyed is current on a run whose steps destroy nothing current in that way and leave no caller with a stale slot's triple |
| `Runs.SetupReturnsExactly` | host-opengl-render/FrameBuffer.cpp:409-456 | for every combination of EGL's answers, when the brackets nested in `setupSubWindow` bring the caller back |
| `Runs.CleanBreaksExactly` | host-opengl-render/FrameBuffer.cpp:409-883 | while EGL refuses no bracket, only the resize, the nested post of a bound caller and its `removeSubWindow` break agreement |
| `Runs.CleanRunAgrees` | host-opengl-render/FrameBuffer.cpp:409-883 | on every run of which no bracket is refused and no step is one of these three, EGL agrees with the infos, the slot is empty and nothing destroyed is current |
| `Runs.CleanKeepsTriples` | host-opengl-render/FrameBuffer.cpp:757-812 | then a step that is not about bindings leaves every thread's triple as it was |
| `Runs.RunEmptiesSlot` | host-opengl-render/FrameBuffer.cpp:757-812 | and the save slot is empty between the operations of every such run |
| `SharedWindows.AgreementCanBreak` | host-opengl-render/FrameBuffer.cpp:597-619 | a run of six steps reaches an agreeing state from which one attach, with EGL refusing nothing, leaves another thread with a destroyed surface current |
| `SharedWindows.StaleSlotCanStray` | host-opengl-render/FrameBuffer.cpp:801-812 | two refusals later an idle thread has another thread's triple current |
| `RefCounts.NewHandleIsFresh` | host-opengl-render/FrameBuffer.cpp:479-505 | while fewer than 2^32 - 1 handles were taken, a new handle is their number plus one and in none of the three tables |
| `RefCounts.RunIsUnwrapped` | host-opengl-render/FrameBuffer.cpp:479-542 | until the wrap the counter is the number of handles taken and bounds every live handle |
| `HandleWraps.HeldRun` | host-opengl-render/FrameBuffer.cpp:479-505 | by create and close, a run reaches any value of the handle counter with buffer 1 still held |
| `HandleWraps.WrapReusesColorBuffer` | host-opengl-render/FrameBuffer.cpp:484-502 | a run that never closes handle 1 reaches the end of the counter, and the next creation gives handle 1 to another buffer and destroys its holder's |
| `RefCounts.CountIsBalance` | host-opengl-render/FrameBuffer.cpp:556-581 | before handles or the 32-bit count wrap, a colour buffer stays in the table exactly until the close that balances its creation, with count 1 + opens - closes |
| `FrameBuffers.FrameBuffer.constructor` | host-opengl-render/FrameBuffer.cpp:361-386 | the starting state, with the save slot empty |
| `FrameBuffers.FrameBuffer.GenHandle` | host-opengl-render/FrameBuffer.cpp:479-489 | the loop returns the specified handle within the bound |
| `FrameBuffers.FrameBuffer.CountUp` | host-opengl-render/FrameBuffer.cpp:482-486 | the loop goes through exactly the rejected candidates |
| `FrameBuffers.FrameBuffer.BindLocked` | host-opengl-render/FrameBuffer.cpp:757-773 | saves the caller's triple only when the framebuffer's own became current |
| `FrameBuffers.FrameBuffer.BindSubwinLocked` | host-opengl-render/FrameBuffer.cpp:775-799 | the same for the window surface |
| `FrameBuffers.FrameBuffer.UnbindLocked` | host-opengl-render/FrameBuffer.cpp:801-812 | restores the saved triple and empties the slot, or changes nothing |
| `FrameBuffers.FrameBuffer.InBracket` | host-opengl-render/ColorBuffer.cpp:113-122 | a bracket that is given up when it cannot bind: what is current and saved afterwards, for any answers and any slot |
| `FrameBuffers.FrameBuffer.DestroyColorBuffer` | host-opengl-render/ColorBuffer.cpp:91-111 | the bracket that ignores both results, for any slot: refused at the bind but not at the unbind, it makes current whatever the slot held |
| `FrameBuffers.FrameBuffer.Collect` | host-opengl-render/ColorBuffer.cpp:91-111 | unowned objects go, and each colour buffer's bracket changes the caller's triple and the slot in turn, with its own answers |
| `FrameBuffers.FrameBuffer.RunDestructors` | host-opengl-render/ColorBuffer.cpp:91-111 | any number of destructors are that many brackets one after the other |
| `FrameBuffers.FrameBuffer.NewBuffer` | host-opengl-render/ColorBuffer.cpp:12-80 | no object on a bad format or failed bind; the caller's triple is lost only if just the unbind fails |
| `FrameBuffers.FrameBuffer.CreateColorBuffer` | host-opengl-render/FrameBuffer.cpp:491-505 | is the atomic creation step, with its bracket, for any slot; at the wrap also with the destructor of the buffer it displaces |
| `FrameBuffers.FrameBuffer.CreateRenderContext` | host-opengl-render/FrameBuffer.cpp:507-528 | a new context under a free handle; 0 and no change on a bad share handle or a refusal |
| `FrameBuffers.FrameBuffer.CreateWindowSurface` | host-opengl-render/FrameBuffer.cpp:530-542 | a new surface with its own pbuffer under a free handle; 0 and no change on a refusal |
| `FrameBuffers.FrameBuffer.OpenColorBuffer` | host-opengl-render/FrameBuffer.cpp:556-567 | is the atomic open step; -1 and no change on a bad handle |
| `FrameBuffers.FrameBuffer.CountDown` | host-opengl-render/FrameBuffer.cpp:569-581 | the 32-bit decrement, and the erase at zero |
| `FrameBuffers.FrameBuffer.CloseColorBuffer` | host-opengl-render/FrameBuffer.cpp:569-581 | is the atomic close step with the destructor it may trigger; no change on a bad handle |
| `FrameBuffers.FrameBuffer.DestroyRenderContext` | host-opengl-render/FrameBuffer.cpp:544-548 | is the atomic step, with what its last pointer held |
| `FrameBuffers.FrameBuffer.DestroyWindowSurface` | host-opengl-render/FrameBuffer.cpp:550-554 | is the atomic step, with the surface, its pbuffer and its buffer if those were the last pointers |
| `FrameBuffers.FrameBuffer.BindSurface` | host-opengl-render/WindowSurface.cpp:130-147 | stores the context for draw, read or both, and makes a framebuffer if there is none |
| `FrameBuffers.FrameBuffer.CreateFbo` | host-opengl-render/WindowSurface.cpp:290-356 | whichever call fails, what is reset by then leaves texture, image and framebuffer all or none; all exactly if every call succeeds |
| `FrameBuffers.FrameBuffer.BindObjects` | host-opengl-render/FrameBuffer.cpp:704-749 | EGL, thread info, decoder data and surfaces end as the bind step says |
| `FrameBuffers.FrameBuffer.UnbindObjects` | host-opengl-render/FrameBuffer.cpp:704-749 | EGL, thread info, decoder data and surfaces end as the unbind step says |
| `FrameBuffers.FrameBuffer.Rebind` | host-opengl-render/FrameBuffer.cpp:664-752 | is the effect of the bind step; a bad handle or refusal changes nothing |
| `FrameBuffers.FrameBuffer.BindContext` | host-opengl-render/FrameBuffer.cpp:664-752 | is the whole atomic bind step, with the destructors that the old bindings' release triggers |
| `FrameBuffers.FrameBuffer.StartThread` | host-opengl-render/ThreadInfo.cpp:32-34 | a new thread is idle, in its info and in EGL |
| `FrameBuffers.FrameBuffer.ExitThread` | host-opengl-render/RenderThread.cpp:153-159 | is the atomic exit: the final unbind or the loss of the info, the destructors, and the thread is gone |
| `FrameBuffers.FrameBuffer.ResizePbuffer` | host-opengl-render/WindowSurface.cpp:190-250 | one pbuffer replaced by another; a caller that had the old one ends on the new one if EGL creates and binds it, on nothing if it only released the old one, and otherwise still on the destroyed one |
| `FrameBuffers.FrameBuffer.AttachBuffer` | host-opengl-render/WindowSurface.cpp:101-122 | is the atomic attach, with the release answer that the code ignores |
| `FrameBuffers.FrameBuffer.SetWindowSurfaceColorBuffer` | host-opengl-render/FrameBuffer.cpp:597-619 | is the atomic step: the old buffer's destructor, then the attach and resize; false and no rebinding on bad handles |
| `FrameBuffers.FrameBuffer.UpdateColorBuffer` | host-opengl-render/FrameBuffer.cpp:621-636 | one bracket on a live buffer, for any slot; the caller's triple is lost only if just the unbind fails |
| `FrameBuffers.FrameBuffer.FlushWindowSurface` | host-opengl-render/WindowSurface.cpp:149-188 | the same, with a bracket only if the blit happens; consistent surfaces are not changed |
| `FrameBuffers.FrameBuffer.Post` | host-opengl-render/FrameBuffer.cpp:814-883 | what is current and what is saved after the window's bracket and, with a callback, the read-back's; the caller's triple is kept when no unbind fails |
| `FrameBuffers.FrameBuffer.SetupSubWindow` | host-opengl-render/FrameBuffer.cpp:409-456 | what is current and saved after the nested brackets, for any answers and any slot |
| `FrameBuffers.FrameBuffer.RemoveSubWindow` | host-opengl-render/FrameBuffer.cpp:458-477 | with a window: the caller is unbound if EGL agrees, its info stays, and the window is gone; without one nothing happens |
| `FrameBuffers.FrameBuffer.Execute` | host-opengl-render/FrameBuffer.cpp:409-883 | every locked operation on the object, with the destructors it triggers, is its atomic step, for every answer of EGL |
| `FrameBuffers.Serve` | host-opengl-render/FrameBuffer.cpp:361-883 | an object that serves any sequence of operations of any threads is in the state of that run: sound always, settled and live if no step breaks, live if none is unsafe, slot empty if no bracket is refused |
| `Configs.InitConfigList` | host-opengl-render/FBConfig.cpp:93-122 | the table is the configurations with pbuffer support and nonzero red, green and blue, in order |
| `Configs.ChooseConfig` | host-opengl-render/FBConfig.cpp:223-243 | the matched ids' table indices in order, cut to the output size, and only counted without output |
| `Configs.FindId` | host-opengl-render/FBConfig.cpp:228-238 | the first table index with the id |
| `Configs.ChosenAreMatched` | host-opengl-render/FBConfig.cpp:220-243 | with unique ids and the forced pbuffer bit honoured, the chosen entries are the matched configurations less those with a zero colour size |
| `Configs.RewrittenLaws` | host-opengl-render/FBConfig.cpp:171-202 | the rewritten list asks for a pbuffer, only for pbuffers, and keeps all other pairs in order |
| `Configs.ForceInPlace` | host-opengl-render/FBConfig.cpp:178-188 | every surface type in the caller's list becomes a pbuffer, and whether there was one is reported |
| `Configs.RewriteAttribs` | host-opengl-render/FBConfig.cpp:173-202 | for every terminated list or null, the new array is the rewritten pairs and a terminator, with no slot to spare |
| `Packing.GatherAt` | host-opengl-render/glUtils.cpp:342-346 | byte o of element c of the result is byte o at c times the stride |
| `Packing.PackedGather` | host-opengl-render/glUtils.cpp:339-341 | with no gaps the gather is the plain copy |
| `Packing.PackPointerData` | host-opengl-render/glUtils.cpp:332-348 | both branches write the gather and leave the rest; past the data less than one element is written, and nothing where elements are packed or fill it evenly |
| `Packing.WritePackPointerData` | host-opengl-render/glUtils.cpp:350-367 | the stream variant emits the same bytes |
| `Packing.SourceLenExactly` | host-opengl-render/glUtils.cpp:438-472 | on any destination, the first NUL of the packed result is at the computed length if and only if every explicit length fits its string |
| `Packing.PackedIsLayout` | host-opengl-render/glUtils.cpp:438-455 | where all lengths fit, or the destination was zeroed, the result is the strings' bytes one after the other, NULs where a length exceeds its string, a terminator, and what was there before |
| `Packing.CalcShaderSourceLen` | host-opengl-render/glUtils.cpp:458-472 | the loop sums the explicit or measured lengths |
| `Packing.PackOne` | host-opengl-render/glUtils.cpp:443-453 | one string is appended at the first NUL from `p` on, whatever the destination holds; `p` moves by its length, also past the new end |
| `Packing.PackStrings` | host-opengl-render/glUtils.cpp:438-455 | on any destination in which the strings end, each is appended at the first NUL from where the lengths before it put `p`; as a C string it is as long as computed exactly if all lengths fit |
| `ContextData.TexCoordLocations` | host-opengl-render/GLDecoderContextData.h:27-42 | texture units have distinct locations, those of 0 to 7 the texture locations; a unit hits another array's location exactly if it is -4 to -1, 8 or 9, and unit 8 hits the matrix indices |
| `ContextData.GLDecoderContextData.Alloc` | host-opengl-render/FixedBuffer.h:33-46 | a buffer that is long enough is kept, a shorter one replaced |
| `ContextData.GLDecoderContextData.StorePointerData` | host-opengl-render/GLDecoderContextData.h:54-59 | the location's buffer starts with the data and does not shrink; other locations keep theirs |
| `ContextData.GLDecoderContextData.StoreTexCoords` | host-opengl-render/GLDecoder.cpp:121-130 | units 0 to 7 leave the data of all other arrays alone, and unit 8 replaces the matrix indices |
| `ContextData.GLDecoderContextData.Replay` | host-opengl-render/GLDecoderContextData.h:54-63 | after any stores each location's buffer starts with the last data stored there, at the greatest size ever stored there |
| `Arguments.ArgumentAt` | host-opengl-render/GL2Decoder.cpp:1627 | every argument of a packet is found, whole and inside it, at the offset computed from the lengths before it |
| `Arguments.ShaderBinaryArguments` | host-opengl-render/GL2Decoder.cpp:1622-1630 | the nested offset expressions of this call, and of `glMultiDrawElementsEXT`, read exactly the encoded arguments |
| `Arguments.PerfMonitorCountersArguments` | host-opengl-render/GL2Decoder.cpp:2484 | the same for `glGetPerfMonitorCountersAMD` |
| `Arguments.RoundTrips` | host-opengl-render/GL2Decoder.cpp:2458 | encoding and then decoding gives the arguments back, in both layouts |
| `Arguments.PacketIsWellFormed` | host-opengl-render/GL2Decoder.cpp:116-120 | such a packet with a known opcode is accepted whole by the framing |

## Left out

- RenderThreads.Run: streams that are not `Sane`, on which a decoder never returns or leaves the buffer.
- ReadBuffers.ReadBuffer.GetData: buffers of 2^63 bytes and more, where the code's overflow guard would shrink the buffer; no allocator grants them.
- ReplyStreams.SocketStream.Alloc: regions whose length the `int` truncates below the request, after which `m_free` wraps; `AllocLenCovers` gives the exact lengths.
- ReplyStreams.SocketStream.FillParts: the `memset` of 4 bytes at the start of each part, which reaches past parts shorter than 4 bytes.
- Packing.PackPointerData: element size 0 (an unknown type), with which the strided loop never ends.
- Liveness.LivenessExactly: steps whose destructors leave the caller with a stale slot's triple, which may be live or not; `DestructorsTieExactly` says exactly which these are, and `StaleSlotCanStray` is a run that gets there.
- Reference counting itself is assumed: an object goes when nobody points to it any more. It goes after the pointers of a step have changed, all such objects together, surfaces before colour buffers, and not pointer by pointer; objects are entries of maps and not heap objects, so aliasing is by identity number.
- EGL names and object addresses are never reused; EGL resources are surfaces and contexts only.
- The data pointer that a decoder keeps for the API that is not current, which may outlive its context.
- The roughly 500 GL calls behind the opcodes, which are opaque events, and all pixels, matrices and frame statistics.
- GL objects inside `ColorBuffer` (textures, framebuffer, image) and their leaks.
- `RenderServer` and its thread set, the socket, window and library-loading code, `finalize`, and the forwarding functions of `RenderControl.cpp`.
- Weak memory: the loads and stores of `LazyInstances` are sequentially consistent.
- `host-qemu`: not part of this model.
