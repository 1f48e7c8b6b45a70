/** The `t-paste` example program (examples/t-paste.rs): print the
    clipboard, either through the native `ClipboardContext` or, under WSL
    as the program judges it, through a PowerShell child process whose
    output loses one trailing line terminator. The child process is not
    run: what `Command::output()` returns is an input. */
module Paste {
  import opened Wrappers
  import opened Provider
  import opened WslDetect
  import opened TrailingTerminator

  /** `exitcode::OSFILE`, EX_OSFILE of sysexits: "an operating system file
      does not exist or cannot be opened". */
  const OSFILE: int := 72

  datatype Route = NativeContext | PowerShellBridge

  /** The branch condition `cfg!(windows) || !is_wsl1`
      (examples/t-paste.rs:14). */
  function PasteRoute(os: Os, env: Env): Route {
    if os == Windows || !IsWsl1(env) then NativeContext else PowerShellBridge
  }

  /** What `Command::new("powershell.exe")...output()` gives back: the
      error when the child cannot be spawned or its output cannot be
      collected, or the child's standard output, already decoded. */
  datatype BridgeOutput = OutputFailed(error: Error) | Ran(stdout: string)

  /** How a run ends: the text printed, a panic from `unwrap()` carrying
      its error, or `process::exit` with a code. */
  datatype PasteRun = Printed(text: string) | Panicked(error: Error) | Exited(code: int)

  /** `main` (examples/t-paste.rs:8-37). */
  function Paste(os: Os, env: Env, h: Host, bridge: BridgeOutput): (r: PasteRun)
    ensures r.Exited? <==> PasteRoute(os, env) == PowerShellBridge && bridge.OutputFailed?
    ensures r.Exited? ==> r.code == OSFILE
    ensures r.Panicked? ==> PasteRoute(os, env) == NativeContext
  {
    match PasteRoute(os, env)
    case NativeContext =>
      (match New(h, ClipboardContext(os))
       case Failure(e) => Panicked(e)
       case Success(ctx) =>
         match ContextGet(h, ctx)
         case Failure(e) => Panicked(e)
         case Success(s) => Printed(s))
    case PowerShellBridge =>
      match bridge
      case OutputFailed(_) => Exited(OSFILE)
      case Ran(out) => Printed(Trim(out))
  }

  /** The native context is used exactly on Windows or under WSL2; every
      other run, WSL1 or not WSL at all, takes the PowerShell bridge
      (examples/t-paste.rs:14-18). */
  lemma PasteRouteIff(os: Os, env: Env)
    ensures PasteRoute(os, env) == NativeContext <==> os == Windows || IsWsl2(env)
    ensures PasteRoute(os, env) == NativeContext <==> os == Windows || Classify(env) == Wsl2
  {
  }

  /** A Linux or macOS run with no WSL marker at all still takes the bridge,
      because `is_wsl1` is only the negation of `is_wsl2`. */
  lemma NativeRunTakesBridge(os: Os, env: Env)
    requires os != Windows && Classify(env) == Native
    ensures PasteRoute(os, env) == PowerShellBridge
  {
  }

  /** The native branch prints what `ClipboardContext` holds, and panics
      with the construction or read error otherwise
      (examples/t-paste.rs:15-17). */
  lemma NativeBranch(os: Os, env: Env, h: Host, bridge: BridgeOutput)
    requires PasteRoute(os, env) == NativeContext
    ensures !Opens(h, ClipboardContext(os)) ==>
              Paste(os, env, h, bridge) == Panicked(SlotOf(h, ClipboardContext(os)).initFault.value)
    ensures Opens(h, ClipboardContext(os)) ==>
              Paste(os, env, h, bridge) == match ContextGet(h, Context(ClipboardContext(os)))
                                           case Success(s) => Printed(s)
                                           case Failure(e) => Panicked(e)
  {
  }

  /** A bridge whose `output()` fails, because the child cannot be spawned
      or its output cannot be read, ends the run with OSFILE
      (examples/t-paste.rs:29-30). OSFILE differs from success (0) and from
      a generic failure (1). */
  lemma OutputFailureExitsOsFile(os: Os, env: Env, h: Host, e: Error)
    requires PasteRoute(os, env) == PowerShellBridge
    ensures Paste(os, env, h, OutputFailed(e)) == Exited(OSFILE)
  {
  }

  /** The bridge prints its output with one trailing line terminator
      removed, and a clipboard text the shell printed with its "\r\n"
      comes back exactly (examples/t-paste.rs:31-35). */
  lemma {:induction false} BridgeBranch(os: Os, env: Env, h: Host, out: string, x: string)
    requires PasteRoute(os, env) == PowerShellBridge
    ensures Paste(os, env, h, Ran(out)) == Printed(StripOneTerminator(out))
    ensures Paste(os, env, h, Ran(x + "\r\n")) == Printed(x)
  {
    TrimIsStrip(out);
    ShellTerminatorRoundTrip(x);
  }
}
