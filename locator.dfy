/**
 * `find_ffmpeg`: the directory that holds the FFmpeg executable, found by an
 * ordered rule — an explicit directory (no fallback), else the directory of
 * the search-path hit, else on Windows the first installed conventional
 * location, else nothing.
 */
module Locator {
  import opened Wrappers
  import opened Paths
  import opened Environment

  /** The executable name: `ffmpeg.exe` exactly when the host is Windows. */
  function ExeName(windows: bool): (name: string)
    ensures windows <==> name == "ffmpeg.exe"
    ensures !windows <==> name == "ffmpeg"
    ensures name != [] && NoSep(windows, name)
  {
    if windows then "ffmpeg.exe" else "ffmpeg"
  }

  /** `has_ffmpeg(dir)`: the executable is a file inside `dir`. */
  predicate HasFfmpeg(env: Env, dir: string) {
    IsFile(env, Join(env.windows, dir, ExeName(env.windows)))
  }

  /** The test applied to an explicit directory and to each conventional location. */
  predicate Installed(env: Env, dir: string) {
    IsDir(env, dir) && HasFfmpeg(env, dir)
  }

  /** The conventional Windows install locations, in the order they are tried. */
  const Guesses: seq<string> := [
    "C:\\ffmpeg\\bin",
    "C:\\Program Files\\ffmpeg\\bin",
    "C:\\Program Files (x86)\\ffmpeg\\bin"
  ]

  /** The search-path answer for the platform's executable name. */
  function PathLookup(env: Env): (r: Option<string>)
    ensures r.Some? <==> ExeName(env.windows) in env.pathHits
    ensures r.Some? ==> r.value == env.pathHits[ExeName(env.windows)]
  {
    Which(env, ExeName(env.windows))
  }

  /** The search path has no usable hit (`if which:` is false). */
  predicate NoPathHit(env: Env) {
    !Truthy(PathLookup(env))
  }

  /** The first entry of `gs` that is installed, scanning in order. */
  function FirstInstalled(env: Env, gs: seq<string>): (r: Option<string>)
    ensures r.Some? ==> r.value in gs && Installed(env, r.value)
    ensures r.None? <==> forall i :: 0 <= i < |gs| ==> !Installed(env, gs[i])
  {
    if gs == [] then None
    else if Installed(env, gs[0]) then Some(gs[0])
    else FirstInstalled(env, gs[1..])
  }

  /** First match wins: an installed entry with none installed before it is the answer. */
  lemma {:induction false} FirstInstalledIsFirst(env: Env, gs: seq<string>, i: nat)
    requires i < |gs| && Installed(env, gs[i])
    requires forall j :: 0 <= j < i ==> !Installed(env, gs[j])
    ensures FirstInstalled(env, gs) == Some(gs[i])
  {
    if i > 0 {
      assert !Installed(env, gs[0]);
      FirstInstalledIsFirst(env, gs[1..], i - 1);
    }
  }

  /** `find_ffmpeg(custom_dir)` */
  function FindFfmpeg(env: Env, customDir: Option<string>): (r: Option<string>)
    ensures r.Some? ==> r.value != ""
    ensures Truthy(customDir) ==> (r.Some? <==> Installed(env, customDir.value))
    ensures Truthy(customDir) && r.Some? ==> r == customDir
    ensures !Truthy(customDir) && r.Some? ==>
      (Truthy(PathLookup(env)) && r == Some(Parent(env.windows, PathLookup(env).value))) ||
      (NoPathHit(env) && env.windows && r.value in Guesses && Installed(env, r.value))
  {
    if Truthy(customDir) then
      if Installed(env, customDir.value) then customDir else None
    else
      var which := PathLookup(env);
      if Truthy(which) then Some(Parent(env.windows, which.value))
      else if env.windows then FirstInstalled(env, Guesses)
      else None
  }

  /** An explicit directory fails closed: what the search path holds is never consulted. */
  lemma CustomDirIgnoresSearchPath(env: Env, dir: string, hits: map<string, string>)
    requires dir != ""
    ensures FindFfmpeg(env.(pathHits := hits), Some(dir)) == FindFfmpeg(env, Some(dir))
    ensures FindFfmpeg(env, Some(dir)) == if Installed(env, dir) then Some(dir) else None
  {
  }

  /** An empty explicit directory is falsy, so it behaves as if none were given. */
  lemma EmptyCustomDirIsAbsent(env: Env)
    ensures FindFfmpeg(env, Some("")) == FindFfmpeg(env, None)
  {
  }

  /** With no explicit directory, a search-path hit yields its parent directory. */
  lemma PathHitGivesParent(env: Env, customDir: Option<string>)
    requires !Truthy(customDir) && Truthy(PathLookup(env))
    ensures FindFfmpeg(env, customDir) == Some(Parent(env.windows, PathLookup(env).value))
  {
  }

  /** A hit `dir/ffmpeg` (or `dir\ffmpeg.exe`) yields exactly `dir`. */
  lemma PathHitInDirectory(env: Env, customDir: Option<string>, dir: string)
    requires !Truthy(customDir)
    requires dir != [] && !IsSep(env.windows, dir[|dir| - 1])
    requires PathLookup(env) == Some(Join(env.windows, dir, ExeName(env.windows)))
    ensures FindFfmpeg(env, customDir) == Some(dir)
  {
    ParentOfJoin(env.windows, dir, ExeName(env.windows));
  }

  /**
   * On Windows without a search-path hit, the answer is the first installed
   * conventional location, in list order, and nothing when none is installed.
   */
  lemma WindowsFirstGuessWins(env: Env, customDir: Option<string>, i: nat)
    requires env.windows && !Truthy(customDir) && NoPathHit(env)
    requires i < |Guesses| && Installed(env, Guesses[i])
    requires forall j :: 0 <= j < i ==> !Installed(env, Guesses[j])
    ensures FindFfmpeg(env, customDir) == Some(Guesses[i])
  {
    FirstInstalledIsFirst(env, Guesses, i);
  }

  /** Elsewhere than Windows there is no fallback after the search path. */
  lemma NoFallbackOffWindows(env: Env, customDir: Option<string>)
    requires !env.windows && !Truthy(customDir) && NoPathHit(env)
    ensures FindFfmpeg(env, customDir) == None
  {
  }
}
