/**
 * The host as the program observes it: which paths are directories, which
 * are files (with the lines a text read of each yields), the answer of the
 * executable search path for each command name, and whether the host is
 * Windows (`os.name == "nt"`).
 */
module Environment {
  import opened Wrappers

  datatype Env = Env(
    windows: bool,
    dirs: set<string>,
    files: map<string, seq<string>>,
    pathHits: map<string, string>)

  /** `os.path.isdir(p)` */
  predicate IsDir(env: Env, p: string) {
    p in env.dirs
  }

  /** `os.path.isfile(p)` */
  predicate IsFile(env: Env, p: string) {
    p in env.files
  }

  /** `os.path.exists(p)` */
  predicate Exists(env: Env, p: string) {
    IsDir(env, p) || IsFile(env, p)
  }

  /** `shutil.which(name)`: the resolved executable, if the search path has one. */
  function Which(env: Env, name: string): (r: Option<string>)
    ensures r.Some? <==> name in env.pathHits
    ensures r.Some? ==> r.value == env.pathHits[name]
  {
    if name in env.pathHits then Some(env.pathHits[name]) else None
  }

  /**
   * `Path(p).mkdir(parents=True, exist_ok=True)`: afterwards `p` is a
   * directory and nothing else has changed; it fails (None) when a file
   * already occupies `p`, and an existing directory is left as it is.
   */
  function Mkdir(env: Env, p: string): (r: Option<Env>)
    ensures r.None? <==> IsFile(env, p)
    ensures r.Some? ==> IsDir(r.value, p) && r.value.dirs - {p} == env.dirs - {p}
    ensures r.Some? ==> r.value.(dirs := env.dirs) == env
    ensures IsDir(env, p) && !IsFile(env, p) ==> r == Some(env)
  {
    if IsFile(env, p) then None
    else
      assert IsDir(env, p) ==> env.dirs + {p} == env.dirs;
      Some(env.(dirs := env.dirs + {p}))
  }

  /** The live host: only its directories change while the program runs. */
  class Host {
    const windows: bool
    var dirs: set<string>
    const files: map<string, seq<string>>
    const pathHits: map<string, string>

    function State(): Env
      reads this
    {
      Env(windows, dirs, files, pathHits)
    }

    constructor (env: Env)
      ensures State() == env
    {
      windows, dirs, files, pathHits := env.windows, env.dirs, env.files, env.pathHits;
    }

    /** Creates directory `p` in place; `ok` is false when mkdir would raise. */
    method MakeDirectory(p: string) returns (ok: bool)
      modifies this
      ensures ok <==> Mkdir(old(State()), p).Some?
      ensures ok ==> State() == Mkdir(old(State()), p).value
      ensures !ok ==> State() == old(State())
    {
      ok := p !in files;
      if ok {
        dirs := dirs + {p};
      }
    }
  }
}
