/** WSL detection as both example programs do it
    (examples/t-paste.rs:10-12, examples/t-clip.rs:24): three environment
    variables, each tested with `std::env::var(name).is_ok()`. The
    environment is an input instead of the process's own. */
module WslDetect {

  /** What `std::env::var` finds under a name: a Unicode value, or a value
      that is set but not valid Unicode (for which `var` returns `Err`). */
  datatype EnvValue = Unicode(text: string) | NotUnicode

  type Env = map<string, EnvValue>

  const IsWslVar: string := "IS_WSL"
  const DistroVar: string := "WSL_DISTRO_NAME"
  const InteropVar: string := "WSL_INTEROP"

  /** `std::env::var(name).is_ok()` */
  predicate VarOk(env: Env, name: string) {
    name in env && env[name].Unicode?
  }

  /** `is_wsl` (examples/t-paste.rs:10, examples/t-clip.rs:24). */
  predicate IsWsl(env: Env) {
    VarOk(env, IsWslVar) || VarOk(env, DistroVar)
  }

  /** `is_wsl2` (examples/t-paste.rs:11). */
  predicate IsWsl2(env: Env) {
    IsWsl(env) && VarOk(env, InteropVar)
  }

  /** `is_wsl1` (examples/t-paste.rs:12): the negation of `is_wsl2`, not
      "WSL without interop". */
  predicate IsWsl1(env: Env) {
    !IsWsl2(env)
  }

  /** The Native/WSL1/WSL2 split of the WSL issue cited at
      examples/t-paste.rs:9: no distro marker means a native run; a marker
      with interop means WSL2; a marker without interop means WSL1. */
  datatype Classification = Native | Wsl1 | Wsl2

  function Classify(env: Env): Classification {
    if !(VarOk(env, IsWslVar) || VarOk(env, DistroVar)) then Native
    else if VarOk(env, InteropVar) then Wsl2
    else Wsl1
  }

  /** `is_wsl` holds exactly when `IS_WSL` or `WSL_DISTRO_NAME` reads as a
      Unicode value; a set but non-Unicode value does not count. */
  lemma IsWslIff(env: Env)
    ensures IsWsl(env) <==>
              (IsWslVar in env && env[IsWslVar].Unicode?) || (DistroVar in env && env[DistroVar].Unicode?)
    ensures IsWsl(env) <==> Classify(env) != Native
  {
  }

  /** `is_wsl2` agrees with the WSL2 classification, and `WSL_INTEROP` on its
      own never makes a run WSL2. */
  lemma IsWsl2Iff(env: Env)
    ensures IsWsl2(env) <==> Classify(env) == Wsl2
    ensures IsWsl2(env) ==> IsWsl(env) && VarOk(env, InteropVar)
    ensures !IsWsl(env) ==> !IsWsl2(env)
  {
  }

  /** `is_wsl1` is true of native runs as well as of WSL1: it covers every
      classification except WSL2. */
  lemma IsWsl1CoversNative(env: Env)
    ensures IsWsl1(env) <==> Classify(env) == Native || Classify(env) == Wsl1
    ensures Classify(env) == Native ==> IsWsl1(env)
  {
  }

  /** A concrete witness of the previous lemma: an empty environment is
      classified native, yet `is_wsl1` holds. */
  lemma EmptyEnvIsWsl1()
    ensures Classify(map[]) == Native && IsWsl1(map[])
  {
  }
}
