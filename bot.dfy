/**
 * `main`: collect the URLs, stop early on the first failed precondition
 * (URL file missing, no URLs, output directory, FFmpeg, cookie file — in
 * that order), build the option record and hand both to the engine.
 */
module Bot {
  import opened Wrappers
  import opened Text
  import opened Environment
  import opened Locator
  import opened UrlFile
  import opened Profiles

  /** The parsed command line. */
  datatype Args = Args(
    urls: seq<string>,
    file: Option<string>,
    out: string,
    cookies: Option<string>,
    ffmpeg: Option<string>,
    audioOnly: bool)

  datatype Failure =
    | UrlFileMissing(path: string)
    | NoUrls
    | OutputDirError(path: string)
    | FfmpegMissing
    | CookiesMissing(path: string)

  /** How a run ends: an early exit, or one call of the engine with these URLs and options. */
  datatype Outcome = Exit(failure: Failure) | Download(urls: seq<string>, options: Options)

  /** The outcome together with the host as the run leaves it. */
  datatype Final = Final(outcome: Outcome, env: Env)

  /**
   * The exit status: 1 for every early exit, 0 once the engine has been
   * called, since the engine's own result is discarded.
   */
  function ExitStatus(o: Outcome): (code: int)
    ensures code == 0 <==> o.Download?
    ensures code == 1 <==> o.Exit?
  {
    match o
    case Exit(_) => 1
    case Download(_, _) => 0
  }

  /** The URLs the `--file` option contributes (none when it is not given or not a file). */
  function FileUrls(args: Args, env: Env): seq<string> {
    if Truthy(args.file) && IsFile(env, args.file.value) then NonBlankLines(env.files[args.file.value]) else []
  }

  /** What one run of `main` does on a host in state `env`. */
  function MainSpec(args: Args, env: Env): (r: Final)
    ensures r.env == env || Mkdir(env, args.out) == Some(r.env)
    ensures r.outcome.Download? ==> Mkdir(env, args.out) == Some(r.env)
  {
    if Truthy(args.file) && !IsFile(env, args.file.value) then
      Final(Exit(UrlFileMissing(args.file.value)), env)
    else
      var urls := args.urls + FileUrls(args, env);
      if urls == [] then Final(Exit(NoUrls), env)
      else match Mkdir(env, args.out)
        case None => Final(Exit(OutputDirError(args.out)), env)
        case Some(env') =>
          var dir := FindFfmpeg(env', args.ffmpeg);
          if dir.None? || dir.value == "" then Final(Exit(FfmpegMissing), env')
          else
            var options := BuildOptions(args.audioOnly, env'.windows, args.out, dir.value);
            if Truthy(args.cookies) && !Exists(env', args.cookies.value) then
              Final(Exit(CookiesMissing(args.cookies.value)), env')
            else if Truthy(args.cookies) then
              Final(Download(urls, options.(cookiefile := args.cookies)), env')
            else
              Final(Download(urls, options), env')
  }

  /**
   * What a run that reaches the engine guarantees: the command-line URLs
   * followed by the file's, never none; the output directory exists; the
   * FFmpeg directory is the one the locator finds on that host; the profile
   * is the one `--audio-only` asks for; and a cookie file is set exactly when
   * one was given, and then it exists.
   */
  lemma DownloadGuarantees(args: Args, env: Env)
    requires MainSpec(args, env).outcome.Download?
    ensures var r := MainSpec(args, env);
      r.outcome.urls == args.urls + FileUrls(args, env) && r.outcome.urls != [] &&
      IsDir(r.env, args.out)
    ensures var r := MainSpec(args, env);
      FindFfmpeg(r.env, args.ffmpeg) == Some(r.outcome.options.ffmpegLocation) &&
      SharedSettings(r.outcome.options, r.outcome.options.ffmpegLocation) &&
      (args.audioOnly <==> IsAudioProfile(r.outcome.options, env.windows, args.out)) &&
      (!args.audioOnly <==> IsVideoProfile(r.outcome.options, env.windows, args.out))
    ensures var r := MainSpec(args, env);
      r.outcome.options.cookiefile == (if Truthy(args.cookies) then args.cookies else None) &&
      (Truthy(args.cookies) ==> Exists(r.env, args.cookies.value))
  {
  }

  /** A missing URL file ends the run first, whatever else holds, and changes nothing. */
  lemma UrlFileMissingExitsFirst(args: Args, env: Env)
    requires Truthy(args.file) && !IsFile(env, args.file.value)
    ensures MainSpec(args, env) == Final(Exit(UrlFileMissing(args.file.value)), env)
    ensures ExitStatus(MainSpec(args, env).outcome) == 1
  {
  }

  /**
   * No URLs at all — no command-line URL and only blank lines in the file —
   * ends the run before the output directory is created or FFmpeg is sought.
   */
  lemma NoUrlsExitsBeforeAnyWork(args: Args, env: Env)
    requires !Truthy(args.file) || IsFile(env, args.file.value)
    requires args.urls == []
    requires Truthy(args.file) ==> forall i :: 0 <= i < |env.files[args.file.value]| ==> AllSpace(env.files[args.file.value][i])
    ensures MainSpec(args, env) == Final(Exit(NoUrls), env)
  {
    if Truthy(args.file) {
      NonBlankLinesEmptyIffBlank(env.files[args.file.value]);
    }
  }

  /** With URLs, a file in the way of the output directory ends the run (mkdir raises). */
  lemma OutputDirBlockedExits(args: Args, env: Env)
    requires !Truthy(args.file) || IsFile(env, args.file.value)
    requires args.urls + FileUrls(args, env) != []
    requires IsFile(env, args.out)
    ensures MainSpec(args, env) == Final(Exit(OutputDirError(args.out)), env)
  {
  }

  /**
   * FFmpeg is sought only after the output directory exists, and when it is
   * not found the run ends with no option record built.
   */
  lemma FfmpegMissingExits(args: Args, env: Env)
    requires !Truthy(args.file) || IsFile(env, args.file.value)
    requires args.urls + FileUrls(args, env) != []
    requires !IsFile(env, args.out)
    requires FindFfmpeg(Mkdir(env, args.out).value, args.ffmpeg).None?
    ensures MainSpec(args, env).outcome == Exit(FfmpegMissing)
    ensures IsDir(MainSpec(args, env).env, args.out)
  {
  }

  /** A cookie file that was given but does not exist ends the run after FFmpeg was found. */
  lemma CookiesMissingExits(args: Args, env: Env)
    requires !Truthy(args.file) || IsFile(env, args.file.value)
    requires args.urls + FileUrls(args, env) != []
    requires !IsFile(env, args.out)
    requires FindFfmpeg(Mkdir(env, args.out).value, args.ffmpeg).Some?
    requires Truthy(args.cookies) && !Exists(Mkdir(env, args.out).value, args.cookies.value)
    ensures MainSpec(args, env).outcome == Exit(CookiesMissing(args.cookies.value))
  {
  }

  /**
   * When every precondition holds the engine is called once, with the
   * command-line URLs followed by the file's, and the run exits 0.
   */
  lemma AllPreconditionsMetDownloads(args: Args, env: Env)
    requires !Truthy(args.file) || IsFile(env, args.file.value)
    requires args.urls + FileUrls(args, env) != []
    requires !IsFile(env, args.out)
    requires FindFfmpeg(Mkdir(env, args.out).value, args.ffmpeg).Some?
    requires Truthy(args.cookies) ==> Exists(Mkdir(env, args.out).value, args.cookies.value)
    ensures MainSpec(args, env).outcome.Download?
    ensures MainSpec(args, env).outcome.urls == args.urls + FileUrls(args, env)
    ensures ExitStatus(MainSpec(args, env).outcome) == 0
  {
  }

  /**
   * One URL, `--out out1`, FFmpeg at /usr/bin/ffmpeg on the search path of a
   * non-Windows host: out1 is created and the engine gets the video profile
   * with FFmpeg's directory and that one URL.
   */
  lemma SingleUrlOnSearchPath()
    ensures
      var env := Env(false, {}, map["/usr/bin/ffmpeg" := []], map["ffmpeg" := "/usr/bin/ffmpeg"]);
      var args := Args(["https://example/video1"], None, "out1", None, None, false);
      MainSpec(args, env) ==
        Final(Download(["https://example/video1"], VideoOptions(false, "out1", "/usr/bin")),
              env.(dirs := {"out1"}))
  {
    var env := Env(false, {}, map["/usr/bin/ffmpeg" := []], map["ffmpeg" := "/usr/bin/ffmpeg"]);
    var args := Args(["https://example/video1"], None, "out1", None, None, false);
    var env' := env.(dirs := {"out1"});
    assert !IsFile(env, "out1");
    assert env.dirs + {"out1"} == {"out1"};
    assert Mkdir(env, "out1") == Some(env');
    assert Paths.Join(false, "/usr/bin", "ffmpeg") == "/usr/bin/ffmpeg";
    PathHitInDirectory(env', None, "/usr/bin");
    assert FindFfmpeg(env', None) == Some("/usr/bin");
    assert FileUrls(args, env) == [];
    assert BuildOptions(false, false, "out1", "/usr/bin") == VideoOptions(false, "out1", "/usr/bin");
    assert args.urls + FileUrls(args, env) == ["https://example/video1"];
    assert MainSpec(args, env) ==
      Final(Download(["https://example/video1"], VideoOptions(false, "out1", "/usr/bin")), env');
  }

  /** `main`, run against the live host. */
  method Run(host: Host, args: Args) returns (outcome: Outcome)
    modifies host
    ensures outcome == MainSpec(args, old(host.State())).outcome
    ensures host.State() == MainSpec(args, old(host.State())).env
  {
    ghost var env := host.State();
    var urls := args.urls;
    if Truthy(args.file) {
      if args.file.value !in host.files {
        return Exit(UrlFileMissing(args.file.value));
      }
      var fromFile := LoadUrls(host.files[args.file.value]);
      urls := urls + fromFile;
    }
    assert urls == args.urls + FileUrls(args, env);
    if urls == [] {
      return Exit(NoUrls);
    }

    var created := host.MakeDirectory(args.out);
    if !created {
      return Exit(OutputDirError(args.out));
    }
    ghost var env' := host.State();
    assert Mkdir(env, args.out) == Some(env');

    var dir := FindFfmpeg(host.State(), args.ffmpeg);
    if dir.None? || dir.value == "" {
      return Exit(FfmpegMissing);
    }

    var options := BuildOptions(args.audioOnly, host.windows, args.out, dir.value);

    if Truthy(args.cookies) {
      if !Exists(host.State(), args.cookies.value) {
        return Exit(CookiesMissing(args.cookies.value));
      }
      options := options.(cookiefile := args.cookies);
    }
    return Download(urls, options);
  }
}
