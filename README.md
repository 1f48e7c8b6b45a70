# cli-clipboard: backend selection and text post-processing

A Dafny model of the decision logic of `cli-clipboard`, a Rust crate that
reads and writes the desktop clipboard. It covers three parts:

- **The library facade** (`src/lib.rs`). On Linux and the other Unixes,
  `get_contents` and `set_contents` construct a Wayland context first. Only
  when that construction fails do they construct `ClipboardContext` (the X11
  Clipboard selection) and use it. On macOS and Windows there is a single
  context.
- **The `t-paste` example program.** It derives `is_wsl`, `is_wsl2` and
  `is_wsl1` from three environment variables. It then reads either through
  the native context or through a `powershell.exe` child. The child's output
  loses one trailing line terminator through the regex `\r?\n?$`.
- **The `t-clip` example program.** Outside WSL on Linux, it writes one
  string to every backend that constructs, in the order Wayland, X11
  Clipboard, X11 Primary. Under WSL it pipes the string's UTF-8 bytes to a
  `powershell.exe` child. On other targets it writes through the single
  `ClipboardContext`.

The backends are abstract. On a given host, each backend (`Provider.Slot`)
has four properties:

- whether `new()` fails, and with which error;
- whether a read on a live context fails;
- whether a write on a live context fails;
- the text it currently holds.

The compile target (`#[cfg]`, `cfg!`) is an `Os` value. The process
environment is a map. The outcomes of spawning and waiting on PowerShell
are inputs. A panic from `unwrap()` or `expect()` is a result value, and so
is a call to `process::exit`.

Files:

- `wrappers.dfy`: the Option, Result and Outcome types.
- `provider.dfy`: the backends, the host and one context's operations.
- `facade.dfy`: the library's `get_contents` and `set_contents`.
- `wsl.dfy`: WSL detection.
- `trim.dfy`: the regex trim.
- `paste.dfy`: the `t-paste` program.
- `utf8.dfy`: the UTF-8 encoding of `as_bytes()`.
- `clip.dfy`: the `t-clip` program.

Points of the code that the model keeps as written:

- `src/lib.rs` tries only Wayland and then `ClipboardContext`. It never
  tries X11 Primary. When both constructions fail it returns the X11
  construction error alone and drops the Wayland one.
- `examples/t-paste.rs:12` sets `is_wsl1 = !is_wsl2`. With no WSL marker,
  `is_wsl1` therefore holds, so a run on Linux or macOS takes the PowerShell
  branch. The model keeps this behaviour (`Paste.NativeRunTakesBridge`,
  `WslDetect.EmptyEnvIsWsl1`).
- The library facade does no WSL detection. That is done only in the
  example programs.

## Model

| member | source | states |
|---|---|---|
| `Provider.ContextSet` | src/lib.rs:161-164 | `set_contents` on a context: the write fails exactly when the backend refuses it, and then changes nothing. On success only that backend's text becomes `data`. No backend's behaviour changes. |
| `Provider.ContextRoundTrip` | src/lib.rs:188-193 | On one context, a successful `set_contents(s)` followed by `get_contents()` returns `s` when the read succeeds. |
| `Facade.Open` | src/lib.rs:120-123 | The facade constructs contexts in the order Wayland, then `ClipboardContext` (only `ClipboardContext` on macOS and Windows). It stops at the first that constructs, and every earlier one failed. If none constructs, every context in the order was tried and the error is the last construction's error. |
| `Facade.GetContents` | src/lib.rs:119-140 | Reading leaves the host unchanged. The result is the read of a context that constructed, or a failure when every context tried failed to construct. |
| `Facade.SetContents` | src/lib.rs:159-186 | `data` goes unchanged to exactly the one backend that constructed and was chosen. Every other backend is untouched. When nothing constructs, the call fails and the host is unchanged. |
| `Facade.SameResolution` | src/lib.rs:159-167 | `set_contents` tries and uses the same contexts as `get_contents` on the same host. |
| `Facade.WaylandWins` | src/lib.rs:120-121 | When Wayland constructs, only Wayland is constructed and its read or write result is returned as is. No X11 context is constructed. |
| `Facade.NoFallbackAfterWaylandFault` | src/lib.rs:121 | A read or write failure on a constructed Wayland context is the call's result. There is no fallback to X11. |
| `Facade.FallsBackToX11` | src/lib.rs:122-125 | When Wayland fails to construct, the X11 `ClipboardContext` is constructed next. If it constructs, it serves the call. |
| `Facade.BothFail` | src/lib.rs:122-123 | When both constructions fail, the result is the X11 construction error (the Wayland error is dropped) and the host is unchanged. |
| `Facade.SingleContext` | src/lib.rs:137-140 | On macOS and Windows exactly one context is constructed, and its construction error is the result. |
| `Facade.OpenIgnoresContents` | src/lib.rs:120-123 | Which contexts are tried, and which one is used, depend only on whether backends construct. The text they hold plays no part. |
| `Facade.FacadeRoundTrip` | src/lib.rs:107-108 | After a successful `set_contents(s)`, `get_contents()` uses the same backend and returns `s`, provided that backend's read succeeds. |
| `WslDetect.IsWslIff` | examples/t-paste.rs:10 | `is_wsl` holds exactly when `IS_WSL` or `WSL_DISTRO_NAME` has a Unicode value, that is, when the run is not classified native. |
| `WslDetect.IsWsl2Iff` | examples/t-paste.rs:11 | `is_wsl2` holds exactly for the WSL2 classification. `WSL_INTEROP` without a distro marker never yields it. |
| `WslDetect.IsWsl1CoversNative` | examples/t-paste.rs:12 | `is_wsl1` holds for native runs as well as WSL1 runs, that is, for every classification except WSL2. |
| `WslDetect.EmptyEnvIsWsl1` | examples/t-paste.rs:12 | An empty environment is classified native, and `is_wsl1` still holds for it. |
| `TrailingTerminator.LeftmostFrom` | examples/t-paste.rs:33-34 | The regex search returns the leftmost position where `\r?\n?$` matches. It always finds one. |
| `TrailingTerminator.PatternAtMeans` | examples/t-paste.rs:33 | `\r?\n?$` matches at a position exactly when the rest of the text is "", "\r", "\n" or "\r\n". |
| `TrailingTerminator.Trim` | examples/t-paste.rs:34 | `replace(&output, "")` returns a prefix of its input that is at most two characters shorter. The dropped tail is a single line terminator or nothing. |
| `TrailingTerminator.TrimIsStrip` | examples/t-paste.rs:32-34 | The regex replacement equals "drop a trailing \r\n, else one trailing \n or \r, else nothing", for every text. |
| `TrailingTerminator.TrimUnchangedIff` | examples/t-paste.rs:33-34 | The trim changes the text exactly when the text ends in \r or \n. |
| `TrailingTerminator.ShellTerminatorRoundTrip` | examples/t-paste.rs:32 | Appending "\r\n" (or "\r") and trimming gives the text back. Of two trailing "\n" only one is removed. |
| `TrailingTerminator.LfRoundTripIff` | examples/t-paste.rs:33 | Appending "\n" and trimming gives the text back exactly when the text does not end in "\r". |
| `TrailingTerminator.TrimExamples` | examples/t-paste.rs:32-34 | "hello\r\n" becomes "hello", "hello\n\n" becomes "hello\n", and "hello" is unchanged. |
| `Paste.Paste` | examples/t-paste.rs:8-37 | The program exits exactly when it takes the bridge and the spawn fails, and then its code is OSFILE. It panics only on the native branch. |
| `Paste.PasteRouteIff` | examples/t-paste.rs:14-18 | The native context is used exactly on Windows or under WSL2. Every other run takes the PowerShell bridge. |
| `Paste.NativeRunTakesBridge` | examples/t-paste.rs:12-14 | A non-Windows run with no WSL marker takes the bridge. |
| `Paste.NativeBranch` | examples/t-paste.rs:15-17 | The native branch prints the text of `ClipboardContext`, or panics with the construction or read error. |
| `Paste.OutputFailureExitsOsFile` | examples/t-paste.rs:29-30 | When `output()` fails, because `powershell.exe` cannot be spawned or its output cannot be read, the run exits with OSFILE (72). |
| `Paste.BridgeBranch` | examples/t-paste.rs:31-35 | The bridge prints its output with one line terminator stripped. A text the shell printed followed by "\r\n" comes back exactly. |
| `Utf8.EncodeScalar` | examples/t-clip.rs:67 | One character encodes to one to four bytes. It takes one byte, equal to the character, exactly when the character is ASCII. |
| `Utf8.Encode` | examples/t-clip.rs:67 | A text of n characters encodes to between n and 4n bytes. |
| `Utf8.DecodeEncodeScalar` | examples/t-clip.rs:67 | Decoding the front of an encoded character gives the character back and consumes exactly its bytes. |
| `Utf8.DecodeEncode` | examples/t-clip.rs:67 | Decoding the UTF-8 bytes of any text gives the text back. |
| `Utf8.AsciiIsIdentity` | examples/t-clip.rs:67 | An ASCII text encodes to one byte per character, each equal to the character's code. |
| `Clip.Attempt` | examples/t-clip.rs:29-35 | One block fails exactly when the backend constructs but refuses the write. A construction failure leaves the host unchanged. A constructed backend that accepts the write holds `data`. Nothing else changes. |
| `Clip.FanOut` | examples/t-clip.rs:27-54 | The loop over the candidate list produces exactly the attempts, host and outcome of the block-by-block fan-out. |
| `Clip.WriteEachKeepsBehaviour` | examples/t-clip.rs:28-54 | The fan-out changes what backends hold, never whether they construct, read or write. |
| `Clip.WriteEachAttempts` | examples/t-clip.rs:29-53 | Attempts follow the candidate order. A run that finishes attempted every candidate. Only a write failure on a constructed backend ends it early, with that write's error. |
| `Clip.WriteEachUntouched` | examples/t-clip.rs:32-34 | A backend that was never attempted, or that failed to construct, keeps its slot. |
| `Clip.WriteEachReachesAll` | examples/t-clip.rs:28-54 | When no constructed backend refuses the write, every candidate is attempted whatever happened to the earlier ones, and every candidate that constructs holds the string. |
| `Clip.WriteEachStopsAtFirstBlock` | examples/t-clip.rs:31-49 | The first candidate that constructs but refuses the write ends the run. Its error is the outcome and no later candidate is attempted. |
| `Clip.Clip` | examples/t-clip.rs:13-74 | Off Linux, a construction failure panics with the construction error and a refused write panics with the write error, both leaving the host unchanged. Otherwise the host is exactly the result of one `set_contents` on `ClipboardContext`. On Linux outside WSL, the result is the fan-out over Wayland, X11 Clipboard and X11 Primary. Under WSL no backend changes, and the string's UTF-8 bytes go to PowerShell unless spawning or waiting fails. |
| `Clip.ClipWslIgnoresInterop` | examples/t-clip.rs:24 | This program's `is_wsl` ignores `WSL_INTEROP`, so WSL1 and WSL2 both take the bridge. |
| `Clip.PipedPayload` | examples/t-clip.rs:64-68 | The 13 bytes piped to PowerShell are the codes of "Hello, world!", and they decode back to it. |

## Left out

- The daemon, fork, duration-limited hold and poll-and-exit behaviour. None of it is in the modelled files.
- The backend modules (`wayland_clipboard`, `x11_clipboard`, `windows_clipboard`, `macos_clipboard`, `nop_clipboard`, `common::ClipboardProvider`) are not part of this model. Each backend is an abstract slot, and `clear()` is not used by the modelled code. The Linux `ClipboardContext` alias is taken to select the X11 Clipboard selection.
- Whether an unset clipboard reads as an error or as an empty string depends on the backend. It is folded into the slot's read fault and stored text.
- Android and Emscripten targets. `src/lib.rs` defines no facade functions for them. On Android `ClipboardContext` is `NopClipboardContext` (src/lib.rs:92-93), and `Os` has no value for either target, so the `t-paste` and `t-clip` programs built for them are left out as well.
- Running `powershell.exe`, its pipes, and the helper thread that writes its standard input. Their outcomes are inputs. A failure inside the helper thread panics only that thread, and the model does not represent it. What PowerShell does with the bytes, and the Windows clipboard it sets, are not modelled.
- `String::from_utf8_lossy` on the child's output. The trim works on already decoded text.
- Reading the real process environment. It is passed in as a map.
- Printing to standard output and standard error, including the text of the error messages.
- `examples/t-paste_x11.rs` and `examples/hello_world.rs`. They only construct contexts and print.
