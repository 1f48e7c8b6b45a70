/** The `t-clip` example program (examples/t-clip.rs): copy a fixed string.
    On Linux outside WSL it writes the string to every backend that
    constructs, Wayland, then the X11 Clipboard selection, then the X11
    Primary selection; under WSL it pipes the string's UTF-8 bytes to a
    PowerShell child instead; on other targets it writes through the one
    `ClipboardContext`. */
module Clip {
  import opened Wrappers
  import opened Provider
  import opened WslDetect
  import opened Utf8

  /** `the_string` (examples/t-clip.rs:14). */
  const TheString: string := "Hello, world!"

  /** The Linux write order (examples/t-clip.rs:29, 38, 47). */
  const LinuxCandidates: seq<Backend> := [WaylandCtx, X11ClipboardCtx, X11PrimaryCtx]

  /** A backend that constructs but refuses the write: its `unwrap()`
      panics and ends the run. */
  predicate Blocks(h: Host, b: Backend) {
    Opens(h, b) && SlotOf(h, b).writeFault.Some?
  }

  /** The result of the fan-out: the constructions attempted, the host
      afterwards, and success or the write error that panicked. */
  datatype Fanned = Fanned(attempted: seq<Backend>, after: Host, outcome: Outcome<Error>)

  function Prepend(a: seq<Backend>, f: Fanned): Fanned {
    f.(attempted := a + f.attempted)
  }

  /** One block of examples/t-clip.rs:28-54: construct the backend; on
      failure report it and carry on; on success write `data`, whose
      `unwrap()` panics if the write fails. */
  function Attempt(h: Host, b: Backend, data: string): (r: (Host, Outcome<Error>))
    ensures r.1.Fail? <==> Blocks(h, b)
    ensures r.1.Fail? ==> r.1.error == SlotOf(h, b).writeFault.value && r.0 == h
    ensures Opens(h, b) && r.1.Pass? ==> SlotOf(r.0, b).contents == data
    ensures forall b' :: Behaviour(SlotOf(r.0, b')) == Behaviour(SlotOf(h, b'))
    ensures forall b' :: b' != b || !Opens(h, b) ==> SlotOf(r.0, b') == SlotOf(h, b')
  {
    match New(h, b)
    case Failure(_) => (h, Pass)
    case Success(ctx) =>
      var (o, h') := ContextSet(h, ctx, data);
      (h', o)
  }

  /** The fan-out over `cands`, one block per candidate, until a write
      panics. */
  function WriteEach(h: Host, cands: seq<Backend>, data: string): Fanned
    decreases |cands|
  {
    if cands == [] then Fanned([], h, Pass)
    else
      var (h', r) := Attempt(h, cands[0], data);
      if r.Fail? then Fanned([cands[0]], h', r)
      else Prepend([cands[0]], WriteEach(h', cands[1..], data))
  }

  /** The three blocks of examples/t-clip.rs:28-54 as a walk over the
      candidate list that updates the host step by step. */
  method FanOut(h: Host, cands: seq<Backend>, data: string) returns (f: Fanned)
    ensures f == WriteEach(h, cands, data)
  {
    var cur := h;
    var attempted: seq<Backend> := [];
    var outcome: Outcome<Error> := Pass;
    var i := 0;
    while i < |cands| && outcome.Pass?
      invariant 0 <= i <= |cands|
      invariant outcome.Pass? ==> WriteEach(h, cands, data) == Prepend(attempted, WriteEach(cur, cands[i..], data))
      invariant outcome.Fail? ==> WriteEach(h, cands, data) == Fanned(attempted, cur, outcome)
    {
      var b := cands[i];
      var (h', r) := Attempt(cur, b, data);
      StepOnce(cur, cands[i..], data, attempted);
      assert cands[i..][1..] == cands[i + 1..];
      cur, outcome := h', r;
      attempted := attempted + [b];
      i := i + 1;
    }
    if outcome.Pass? {
      assert cands[i..] == [];
      assert attempted + [] == attempted;
    }
    f := Fanned(attempted, cur, outcome);
  }

  /** One step of the walk: the first block either ends the fan-out or
      moves one candidate from the list to the attempts. */
  lemma StepOnce(h: Host, cands: seq<Backend>, data: string, done: seq<Backend>)
    requires cands != []
    ensures var (h', r) := Attempt(h, cands[0], data);
            && (r.Fail? ==> Prepend(done, WriteEach(h, cands, data)) == Fanned(done + [cands[0]], h', r))
            && (r.Pass? ==> Prepend(done, WriteEach(h, cands, data))
                            == Prepend(done + [cands[0]], WriteEach(h', cands[1..], data)))
  {
  }

  /** The fan-out changes what backends hold, never how they behave. */
  lemma {:induction false} WriteEachKeepsBehaviour(h: Host, cands: seq<Backend>, data: string)
    ensures forall b :: Behaviour(SlotOf(WriteEach(h, cands, data).after, b)) == Behaviour(SlotOf(h, b))
    decreases |cands|
  {
    if cands != [] {
      var (h', r) := Attempt(h, cands[0], data);
      if r.Pass? {
        WriteEachKeepsBehaviour(h', cands[1..], data);
      }
    }
  }

  /** The attempts follow the candidate order, and only a failed write on
      a constructed context ends the run early, with that write's error: a
      construction failure never does. */
  lemma {:induction false} WriteEachAttempts(h: Host, cands: seq<Backend>, data: string)
    ensures WriteEach(h, cands, data).attempted <= cands
    ensures WriteEach(h, cands, data).outcome.Pass? ==> WriteEach(h, cands, data).attempted == cands
    ensures WriteEach(h, cands, data).outcome.Fail? ==>
              var a := WriteEach(h, cands, data).attempted;
              |a| >= 1 && Blocks(h, a[|a| - 1])
              && WriteEach(h, cands, data).outcome.error == SlotOf(h, a[|a| - 1]).writeFault.value
    decreases |cands|
  {
    if cands != [] {
      var b := cands[0];
      assert cands == [b] + cands[1..];
      var (h', r) := Attempt(h, b, data);
      if r.Pass? {
        WriteEachAttempts(h', cands[1..], data);
        var f := WriteEach(h', cands[1..], data);
        if f.outcome.Fail? {
          var last := f.attempted[|f.attempted| - 1];
          assert Behaviour(SlotOf(h', last)) == Behaviour(SlotOf(h, last));
          assert ([b] + f.attempted)[|f.attempted|] == last;
        }
      }
    }
  }

  /** Backends the fan-out never attempted, and backends that do not
      construct, keep their slot. */
  lemma {:induction false} WriteEachUntouched(h: Host, cands: seq<Backend>, data: string, b: Backend)
    requires b !in WriteEach(h, cands, data).attempted || !Opens(h, b)
    ensures SlotOf(WriteEach(h, cands, data).after, b) == SlotOf(h, b)
    decreases |cands|
  {
    if cands != [] {
      var (h', r) := Attempt(h, cands[0], data);
      if r.Pass? {
        assert Behaviour(SlotOf(h', b)) == Behaviour(SlotOf(h, b));
        WriteEachUntouched(h', cands[1..], data, b);
      }
    }
  }

  /** When no constructed backend refuses the write, every candidate is
      attempted, whatever happened to the earlier ones, and every candidate
      that constructs ends up holding `data` (examples/t-clip.rs:28-54). */
  lemma {:induction false} WriteEachReachesAll(h: Host, cands: seq<Backend>, data: string)
    requires forall b :: b in cands ==> !Blocks(h, b)
    ensures WriteEach(h, cands, data).outcome.Pass?
    ensures WriteEach(h, cands, data).attempted == cands
    ensures forall b :: b in cands && Opens(h, b) ==> SlotOf(WriteEach(h, cands, data).after, b).contents == data
    decreases |cands|
  {
    if cands != [] {
      var b := cands[0];
      assert b in cands;
      assert cands == [b] + cands[1..];
      var (h', r) := Attempt(h, b, data);
      assert forall b' :: Opens(h', b') == Opens(h, b') && Blocks(h', b') == Blocks(h, b') by {
        forall b' ensures Opens(h', b') == Opens(h, b') && Blocks(h', b') == Blocks(h, b') {
          assert Behaviour(SlotOf(h', b')) == Behaviour(SlotOf(h, b'));
        }
      }
      WriteEachReachesAll(h', cands[1..], data);
      if b !in cands[1..] {
        WriteEachUntouched(h', cands[1..], data, b);
      }
    }
  }

  /** The first candidate that constructs but refuses the write ends the
      run: its write error is the outcome and no later candidate is
      attempted (the `unwrap()` of examples/t-clip.rs:31, 40, 49). */
  lemma {:induction false} WriteEachStopsAtFirstBlock(h: Host, cands: seq<Backend>, data: string, k: nat)
    requires k < |cands| && Blocks(h, cands[k])
    requires forall j :: 0 <= j < k ==> !Blocks(h, cands[j])
    ensures WriteEach(h, cands, data).outcome == Fail(SlotOf(h, cands[k]).writeFault.value)
    ensures WriteEach(h, cands, data).attempted == cands[..k + 1]
    decreases k
  {
    var b := cands[0];
    if k > 0 {
      var (h', r) := Attempt(h, b, data);
      assert forall j :: 0 <= j < k - 1 ==> cands[1..][j] == cands[j + 1];
      forall b' ensures Blocks(h', b') == Blocks(h, b') && SlotOf(h', b').writeFault == SlotOf(h, b').writeFault {
        assert Behaviour(SlotOf(h', b')) == Behaviour(SlotOf(h, b'));
      }
      WriteEachStopsAtFirstBlock(h', cands[1..], data, k - 1);
      assert [b] + cands[1..][..k] == cands[..k + 1];
    }
  }

  /** How a run ends: the string copied, a panic from `unwrap()` or
      `expect()` carrying its error, or the bytes piped to PowerShell's
      standard input. */
  datatype ClipRun = Copied | Panicked(error: Error) | Piped(stdin: seq<Byte>)

  /** `main` (examples/t-clip.rs:13-74). The PowerShell child is not run:
      `spawnFault` is the error of `spawn()` and `waitFault` that of
      `wait_with_output()`, if any; each `expect` turns its error into a
      panic. */
  method Clip(os: Os, env: Env, h: Host, spawnFault: Option<Error>, waitFault: Option<Error>)
    returns (run: ClipRun, after: Host)
    ensures os != Linux ==>
              var b := ClipboardContext(os);
              (run.Copied? <==> Opens(h, b) && SlotOf(h, b).writeFault.None?)
              && (run.Copied? ==> (Pass, after) == ContextSet(h, Context(b), TheString)
                                  && SlotOf(after, b).contents == TheString)
              && (!run.Copied? ==> after == h && run.Panicked?
                                   && run.error == if Opens(h, b) then SlotOf(h, b).writeFault.value
                                                   else SlotOf(h, b).initFault.value)
              && forall b' :: b' != b ==> SlotOf(after, b') == SlotOf(h, b')
    ensures os == Linux && IsWsl(env) ==>
              after == h
              && run == if spawnFault.Some? then Panicked(spawnFault.value)
                        else if waitFault.Some? then Panicked(waitFault.value)
                        else Piped(Encode(TheString))
    ensures os == Linux && !IsWsl(env) ==>
              var f := WriteEach(h, LinuxCandidates, TheString);
              after == f.after && run == if f.outcome.Pass? then Copied else Panicked(f.outcome.error)
  {
    if os != Linux {
      var b := ClipboardContext(os);
      match New(h, b) {
        case Failure(e) =>
          run, after := Panicked(e), h;
        case Success(ctx) =>
          var (r, h') := ContextSet(h, ctx, TheString);
          if r.Pass? {
            run, after := Copied, h';
          } else {
            run, after := Panicked(r.error), h;
          }
      }
    } else if !IsWsl(env) {
      var f := FanOut(h, LinuxCandidates, TheString);
      after := f.after;
      run := if f.outcome.Pass? then Copied else Panicked(f.outcome.error);
    } else {
      after := h;
      if spawnFault.Some? {
        run := Panicked(spawnFault.value);
      } else if waitFault.Some? {
        run := Panicked(waitFault.value);
      } else {
        run := Piped(Encode(TheString));
      }
    }
  }

  /** `is_wsl` in this program does not look at `WSL_INTEROP`: WSL1 and
      WSL2 alike take the bridge (examples/t-clip.rs:24). */
  lemma ClipWslIgnoresInterop(env: Env)
    ensures IsWsl(env) <==> Classify(env) == Wsl1 || Classify(env) == Wsl2
    ensures IsWsl(env) == IsWsl(env[InteropVar := NotUnicode])
  {
  }

  /** The bytes piped to PowerShell are the string's own characters, one
      byte each, and decode back to it (examples/t-clip.rs:67). */
  lemma PipedPayload()
    ensures |Encode(TheString)| == |TheString| == 13
    ensures forall i :: 0 <= i < |TheString| ==> Encode(TheString)[i] as int == TheString[i] as int
    ensures Decode(Encode(TheString)) == Some(TheString)
  {
    var s := TheString;
    assert |s| == 13;
    assert forall i :: 0 <= i < |s| ==> (s[i] as int) < 0x80;
    AsciiIsIdentity(s);
    DecodeEncode(s);
  }
}
