/** The clipboard backends as the facade and the example programs see them:
    each can be constructed or not, and a constructed context reads and
    writes one stored string. The backend crates themselves (Wayland, X11,
    Win32, Cocoa) are not part of this model; their behaviour on a given
    host is an input, a `Slot` per backend. */
module Provider {
  import opened Wrappers

  /** The context types the sources name. */
  datatype Backend =
    | WaylandCtx       // wayland_clipboard::WaylandClipboardContext
    | X11ClipboardCtx  // x11_clipboard::X11ClipboardContext<Clipboard>
    | X11PrimaryCtx    // x11_clipboard::X11ClipboardContext<Primary>
    | MacOSCtx         // macos_clipboard::MacOSClipboardContext
    | WindowsCtx       // windows_clipboard::WindowsClipboardContext

  /** The target the crate is compiled for: the `#[cfg]` and `cfg!` tests
      become a value. `Bsd` stands for every other Unix that is neither
      macOS, Android nor Emscripten. */
  datatype Os = Linux | Bsd | MacOS | Windows

  /** An opaque error as carried by `anyhow::Error`. */
  datatype Error = Error(reason: string)

  /** How one backend behaves on the host: whether `new()` fails and with
      what, whether a read or a write on a live context fails, and the text
      the backend currently holds. */
  datatype Slot = Slot(
    initFault: Option<Error>,
    readFault: Option<Error>,
    writeFault: Option<Error>,
    contents: string)

  /** The host as a map from backend to its slot; a backend missing from the
      map is one whose library finds nothing to connect to. */
  type Host = map<Backend, Slot>

  const Unreachable: Error := Error("backend not available")

  /** A live handle, the value `new()` returns on success. */
  datatype Context = Context(backend: Backend)

  function SlotOf(h: Host, b: Backend): Slot {
    if b in h then h[b] else Slot(Some(Unreachable), None, None, "")
  }

  /** The part of a slot that no clipboard operation changes. */
  function Behaviour(s: Slot): (Option<Error>, Option<Error>, Option<Error>) {
    (s.initFault, s.readFault, s.writeFault)
  }

  predicate Opens(h: Host, b: Backend) {
    SlotOf(h, b).initFault.None?
  }

  /** `ClipboardContext`, the platform's default context type
      (src/lib.rs:83-101): the X11 Clipboard selection on Linux and the
      other Unixes, the native context on macOS and Windows. */
  function ClipboardContext(os: Os): Backend {
    match os
    case Linux => X11ClipboardCtx
    case Bsd => X11ClipboardCtx
    case MacOS => MacOSCtx
    case Windows => WindowsCtx
  }

  /** `<backend>::new()` */
  function New(h: Host, b: Backend): (r: Result<Context, Error>)
    ensures r.Success? <==> Opens(h, b)
    ensures r.Success? ==> r.value == Context(b)
  {
    match SlotOf(h, b).initFault
    case None => Success(Context(b))
    case Some(e) => Failure(e)
  }

  /** `ctx.get_contents()`: reading never changes the host. */
  function ContextGet(h: Host, ctx: Context): Result<string, Error> {
    match SlotOf(h, ctx.backend).readFault
    case Some(e) => Failure(e)
    case None => Success(SlotOf(h, ctx.backend).contents)
  }

  /** `ctx.set_contents(data)`: on success the context's own backend holds
      `data`; nothing else on the host changes, and a failed write changes
      nothing at all. */
  function ContextSet(h: Host, ctx: Context, data: string): (r: (Outcome<Error>, Host))
    ensures r.0.Pass? <==> SlotOf(h, ctx.backend).writeFault.None?
    ensures r.0.Fail? ==> r.0.error == SlotOf(h, ctx.backend).writeFault.value && r.1 == h
    ensures r.0.Pass? ==> SlotOf(r.1, ctx.backend).contents == data
    ensures forall b :: Behaviour(SlotOf(r.1, b)) == Behaviour(SlotOf(h, b))
    ensures forall b :: b != ctx.backend ==> SlotOf(r.1, b) == SlotOf(h, b)
  {
    var s := SlotOf(h, ctx.backend);
    match s.writeFault
    case Some(e) => (Fail(e), h)
    case None => (Pass, h[ctx.backend := s.(contents := data)])
  }

  /** The unit test `test_clipboard` (src/lib.rs:188-193): on one context,
      a successful `set_contents(s)` followed by `get_contents()` yields `s`
      whenever the backend's read does not fail. */
  lemma ContextRoundTrip(h: Host, ctx: Context, data: string)
    requires ContextSet(h, ctx, data).0.Pass?
    requires SlotOf(h, ctx.backend).readFault.None?
    ensures ContextGet(ContextSet(h, ctx, data).1, ctx) == Success(data)
  {
  }
}
