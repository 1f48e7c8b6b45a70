/** The convenience functions `get_contents` and `set_contents` of
    src/lib.rs. On Linux and the other Unixes they construct a Wayland
    context first and fall back to `ClipboardContext` (X11) only when that
    construction fails; on macOS and Windows there is a single context.
    Each function constructs at most two contexts and performs exactly one
    read or write on the one it obtains. */
module Facade {
  import opened Wrappers
  import opened Provider

  /** The targets on which the Wayland-first variants are compiled
      (src/lib.rs:110-118, 155-158). */
  predicate TriesWaylandFirst(os: Os) {
    os == Linux || os == Bsd
  }

  /** The contexts the facade may construct, in the order it tries them. */
  function Order(os: Os): seq<Backend> {
    if TriesWaylandFirst(os) then [WaylandCtx, ClipboardContext(os)] else [ClipboardContext(os)]
  }

  /** The constructions the facade attempted, and the context it obtained
      or the error of its last construction. */
  datatype Opened = Opened(tried: seq<Backend>, ctx: Result<Context, Error>)

  /** The `match ... new()` head shared by both facade functions
      (src/lib.rs:120-123, 160-163, 138, 184): the first context of `Order`
      that constructs is used; the error of a failed fallback construction
      propagates by `?`, the Wayland error is dropped. */
  function Open(os: Os, h: Host): (o: Opened)
    ensures 1 <= |o.tried| <= |Order(os)| && o.tried == Order(os)[..|o.tried|]
    ensures forall i :: 0 <= i < |o.tried| - 1 ==> !Opens(h, o.tried[i])
    ensures o.ctx.Success? ==> o.ctx.value == Context(o.tried[|o.tried| - 1]) && Opens(h, o.ctx.value.backend)
    ensures o.ctx.Failure? ==>
              o.tried == Order(os) && !Opens(h, o.tried[|o.tried| - 1])
              && o.ctx.error == SlotOf(h, o.tried[|o.tried| - 1]).initFault.value
  {
    if TriesWaylandFirst(os) then
      match New(h, WaylandCtx)
      case Success(ctx) => Opened([WaylandCtx], Success(ctx))
      case Failure(_) => Opened([WaylandCtx, ClipboardContext(os)], New(h, ClipboardContext(os)))
    else
      Opened([ClipboardContext(os)], New(h, ClipboardContext(os)))
  }

  /** One facade call: the constructions it attempted, the backend that
      served it (if any), what it returned, and the host afterwards. */
  datatype Call<R> = Call(tried: seq<Backend>, used: Option<Backend>, result: R, after: Host)

  /** `get_contents()` (src/lib.rs:119-127 and 137-140). */
  function GetContents(os: Os, h: Host): (c: Call<Result<string, Error>>)
    ensures c.after == h
    ensures c.used.Some? ==>
              c.used.value in c.tried && Opens(h, c.used.value)
              && c.result == ContextGet(h, Context(c.used.value))
    ensures c.used.None? ==> c.result.Failure? && forall b :: b in c.tried ==> !Opens(h, b)
  {
    var o := Open(os, h);
    match o.ctx
    case Success(ctx) => Call(o.tried, Some(ctx.backend), ContextGet(h, ctx), h)
    case Failure(e) => Call(o.tried, None, Failure(e), h)
  }

  /** `set_contents(data)` (src/lib.rs:159-167 and 183-186): `data` goes,
      unchanged, to the one backend that served the call, and no other
      backend changes. */
  function SetContents(os: Os, h: Host, data: string): (c: Call<Outcome<Error>>)
    ensures c.used.Some? ==>
              c.used.value in c.tried && Opens(h, c.used.value)
              && (c.result, c.after) == ContextSet(h, Context(c.used.value), data)
    ensures c.used.None? ==> c.result.Fail? && c.after == h && forall b :: b in c.tried ==> !Opens(h, b)
    ensures forall b :: c.used != Some(b) ==> SlotOf(c.after, b) == SlotOf(h, b)
  {
    var o := Open(os, h);
    match o.ctx
    case Success(ctx) =>
      var (r, h') := ContextSet(h, ctx, data);
      Call(o.tried, Some(ctx.backend), r, h')
    case Failure(e) => Call(o.tried, None, Fail(e), h)
  }

  /** Both facade functions resolve the same backend on the same host. */
  lemma SameResolution(os: Os, h: Host, data: string)
    ensures SetContents(os, h, data).tried == GetContents(os, h).tried
    ensures SetContents(os, h, data).used == GetContents(os, h).used
  {
  }

  /** Wayland constructs: its context alone is used, whatever its read or
      write then returns; no X11 context is constructed
      (src/lib.rs:120-121, 160-161). */
  lemma WaylandWins(os: Os, h: Host, data: string)
    requires TriesWaylandFirst(os) && Opens(h, WaylandCtx)
    ensures GetContents(os, h).tried == [WaylandCtx]
    ensures GetContents(os, h).used == Some(WaylandCtx)
    ensures GetContents(os, h).result == ContextGet(h, Context(WaylandCtx))
    ensures SetContents(os, h, data).tried == [WaylandCtx]
    ensures (SetContents(os, h, data).result, SetContents(os, h, data).after)
            == ContextSet(h, Context(WaylandCtx), data)
  {
  }

  /** A read or write failure on a constructed Wayland context is returned
      as it is: there is no fallback to X11 (src/lib.rs:121, 161). */
  lemma NoFallbackAfterWaylandFault(os: Os, h: Host, data: string)
    requires TriesWaylandFirst(os) && Opens(h, WaylandCtx)
    ensures SlotOf(h, WaylandCtx).readFault.Some? ==>
              GetContents(os, h).result == Failure(SlotOf(h, WaylandCtx).readFault.value)
    ensures SlotOf(h, WaylandCtx).writeFault.Some? ==>
              SetContents(os, h, data).result == Fail(SlotOf(h, WaylandCtx).writeFault.value)
              && SetContents(os, h, data).after == h
  {
  }

  /** Wayland fails to construct: the X11 `ClipboardContext` is constructed
      next and, when it constructs, serves the call (src/lib.rs:122-125,
      162-165). */
  lemma FallsBackToX11(os: Os, h: Host, data: string)
    requires TriesWaylandFirst(os) && !Opens(h, WaylandCtx)
    ensures GetContents(os, h).tried == [WaylandCtx, X11ClipboardCtx]
    ensures SetContents(os, h, data).tried == [WaylandCtx, X11ClipboardCtx]
    ensures Opens(h, X11ClipboardCtx) ==>
              GetContents(os, h).used == Some(X11ClipboardCtx)
              && GetContents(os, h).result == ContextGet(h, Context(X11ClipboardCtx))
              && (SetContents(os, h, data).result, SetContents(os, h, data).after)
                 == ContextSet(h, Context(X11ClipboardCtx), data)
  {
  }

  /** Both constructions fail: the X11 construction error is returned and
      the Wayland one is discarded (src/lib.rs:122-123, 162-163). */
  lemma BothFail(os: Os, h: Host, data: string)
    requires TriesWaylandFirst(os) && !Opens(h, WaylandCtx) && !Opens(h, X11ClipboardCtx)
    ensures GetContents(os, h).used.None? && SetContents(os, h, data).used.None?
    ensures GetContents(os, h).result == Failure(SlotOf(h, X11ClipboardCtx).initFault.value)
    ensures SetContents(os, h, data).result == Fail(SlotOf(h, X11ClipboardCtx).initFault.value)
    ensures SetContents(os, h, data).after == h
  {
  }

  /** On macOS and Windows exactly one context is constructed and its
      construction error propagates (src/lib.rs:137-140, 183-186). */
  lemma SingleContext(os: Os, h: Host, data: string)
    requires os == MacOS || os == Windows
    ensures GetContents(os, h).tried == [ClipboardContext(os)]
    ensures SetContents(os, h, data).tried == [ClipboardContext(os)]
    ensures !Opens(h, ClipboardContext(os)) ==>
              GetContents(os, h).result == Failure(SlotOf(h, ClipboardContext(os)).initFault.value)
              && SetContents(os, h, data).result == Fail(SlotOf(h, ClipboardContext(os)).initFault.value)
  {
  }

  /** Resolution looks only at how the backends behave, never at what they
      hold, so a write cannot change which backend later calls use. */
  lemma OpenIgnoresContents(os: Os, h: Host, h': Host)
    requires forall b :: Behaviour(SlotOf(h, b)) == Behaviour(SlotOf(h', b))
    ensures Open(os, h) == Open(os, h')
  {
  }

  /** The documented example (src/lib.rs:107-108): a successful
      `set_contents(s)` followed by `get_contents()` on the same host returns
      `s`, from the same backend, provided that backend's read succeeds. */
  lemma FacadeRoundTrip(os: Os, h: Host, data: string)
    requires SetContents(os, h, data).result.Pass?
    requires SlotOf(h, SetContents(os, h, data).used.value).readFault.None?
    ensures GetContents(os, SetContents(os, h, data).after).used == SetContents(os, h, data).used
    ensures GetContents(os, SetContents(os, h, data).after).result == Success(data)
  {
  }
}
