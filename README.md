# ytdl_bot — a Dafny model of its own logic

`ytdl_bot.py` is a command-line front end to the `yt_dlp` download engine. It
collects URLs from the command line and from an optional text file, makes
sure the output directory exists, locates the FFmpeg executable, builds one of
two option records (audio-only or merged video+audio), adds an optional cookie
file, and hands everything to the engine in one call.

This project models the three pieces of that script which are its own logic,
over an abstract host (`Environment.Env`): a set of directories, a map from
file paths to the lines a text read of each yields, a map from command names
to what the executable search path resolves them to, and a flag for Windows.

- `Locator` — `find_ffmpeg` and its inner `has_ffmpeg`: an explicit directory
  fails closed, else the parent of the search-path hit, else (Windows only) the
  first installed conventional location, else nothing.
- `UrlFile` — `load_urls_from_file`: a loop that strips every line and keeps
  the non-blank ones in order (`LoadUrls`), proved equal to the specification
  function `NonBlankLines`.
- `Bot` — `main`: the ordered early exits (URL file missing, no URLs, output
  directory, FFmpeg missing, cookie file missing), the option record and the
  cookie entry. `MainSpec` is the specification; `Run` is the step-by-step
  method against a `Host` object whose directory set `mkdir` changes in place.

Supporting modules: `Text` (Python's `str.strip()` with the exact `str.isspace()`
character set), `Paths` (`os.path.join` and `Path(p).parent`), `Profiles` (the
two `ydl_opts` records, with the format, sort and template strings kept
verbatim as opaque constants) and `Wrappers` (`Option`, and the truthiness
test the script applies to optional strings).

Two behaviours of the code are worth stating plainly:
the engine's return value is discarded (`ytdl_bot.py:189-190`), so a run that
reaches the engine always exits 0 (`Bot.ExitStatus`); and a failure to create
the output directory is not a handled error but an uncaught `FileExistsError`,
which still ends the process with status 1 (`Bot.OutputDirError`).

## Model

| member | source | states |
|---|---|---|
| `Text.IsSpace` | ytdl_bot.py:69 | the characters `str.isspace()` accepts and `strip()` removes: tab to carriage return, the file, group, record and unit separators, space, U+0085, U+00A0, U+1680, U+2000 to U+200A, U+2028, U+2029, U+202F, U+205F and U+3000 |
| `Text.SkipSpace` | ytdl_bot.py:69 | the scan from the front stops at the first non-whitespace character or at the end |
| `Text.SkipSpacePassesSpace` | ytdl_bot.py:69 | every character the front scan passes over is whitespace |
| `Text.BackSpace` | ytdl_bot.py:69 | the scan from the back stops just after the last non-whitespace character, or at the front bound |
| `Text.BackSpacePassesSpace` | ytdl_bot.py:69 | every character the back scan passes over is whitespace |
| `Text.Strip` | ytdl_bot.py:69 | `line.strip()` has no whitespace at either end and is no longer than the line |
| `Text.StripSlice` | ytdl_bot.py:69 | `line.strip()` is a slice of the line with only whitespace outside it and none at either of its ends |
| `Text.StripIsUniqueSlice` | ytdl_bot.py:69 | any slice with only whitespace outside it and none at its ends is exactly what `strip()` returns (reference definition) |
| `Text.StripEmptyIffBlank` | ytdl_bot.py:69-70 | a line strips to the empty string exactly when all its characters are whitespace |
| `Text.StripOfStripped` | ytdl_bot.py:69 | a string with no whitespace at either end strips to itself |
| `Text.StripIdempotent` | ytdl_bot.py:69 | stripping a stripped string changes nothing |
| `Paths.Join` | ytdl_bot.py:38 | `os.path.join(dir, name)` ends with `name` and, for a relative `name`, starts with `dir` |
| `Paths.LastSep` | ytdl_bot.py:49 | the index of the last separator, with no separator after it, or -1 when there is none |
| `Paths.TrimSeps` | ytdl_bot.py:49 | the longest prefix not ending in a separator, with only separators cut off |
| `Paths.Parent` | ytdl_bot.py:49 | the parent of `p` without pathlib's normalisation: never empty and, when `p` has a separator, a prefix of `p` (everything before its last component, trailing separators cut off) |
| `Paths.ParentOfJoin` | ytdl_bot.py:49 | the parent of `dir` joined with a one-component name is `dir` again |
| `Environment.Which` | ytdl_bot.py:47 | the search path answers exactly for the command names it resolves, and with the path it resolves them to |
| `Environment.Mkdir` | ytdl_bot.py:111-112 | `mkdir(parents=True, exist_ok=True)` fails exactly when a file occupies the path; otherwise the path is a directory afterwards, nothing else changes, and an existing directory is left as it is |
| `Environment.Host.MakeDirectory` | ytdl_bot.py:111-112 | the in-place mkdir on the live host leaves it in the state `Mkdir` describes, or unchanged when it fails |
| `Locator.ExeName` | ytdl_bot.py:37 | the name looked for is `ffmpeg.exe` exactly on Windows and `ffmpeg` exactly elsewhere, a single path component |
| `Locator.HasFfmpeg` | ytdl_bot.py:36-38 | `has_ffmpeg(dir)` holds exactly when the platform's executable name joined onto `dir` is a file |
| `Locator.Installed` | ytdl_bot.py:42 | a directory qualifies exactly when it is a directory and `has_ffmpeg` holds of it; the same test is applied to each conventional location at ytdl_bot.py:59 |
| `Locator.PathLookup` | ytdl_bot.py:47 | the search path is asked for the platform's executable name and answers exactly when it resolves that name, with the path it resolves it to |
| `Locator.FirstInstalled` | ytdl_bot.py:58-60 | the scan returns an installed entry of the list, and nothing exactly when no entry is installed |
| `Locator.FirstInstalledIsFirst` | ytdl_bot.py:58-60 | first match wins: an installed entry with none installed before it is the one returned |
| `Locator.FindFfmpeg` | ytdl_bot.py:28-62 | never returns an empty string; with an explicit directory returns it exactly when it is an installed directory and nothing otherwise; without one, anything returned is the parent of the search-path hit or, on Windows with no hit, an installed conventional location |
| `Locator.CustomDirIgnoresSearchPath` | ytdl_bot.py:41-44 | an explicit directory fails closed: the answer does not depend on the search path at all |
| `Locator.EmptyCustomDirIsAbsent` | ytdl_bot.py:41 | `--ffmpeg ""` is falsy and behaves as if no directory were given |
| `Locator.PathHitGivesParent` | ytdl_bot.py:46-49 | with no explicit directory, a search-path hit yields the parent directory of the resolved executable |
| `Locator.PathHitInDirectory` | ytdl_bot.py:36-49 | a hit of the form `dir` joined with the executable name yields exactly `dir` |
| `Locator.WindowsFirstGuessWins` | ytdl_bot.py:52-60 | on Windows with no search-path hit, the first installed conventional location in list order is returned |
| `Locator.NoFallbackOffWindows` | ytdl_bot.py:52-62 | off Windows with no search-path hit, nothing is returned |
| `UrlFile.Kept` | ytdl_bot.py:69-71 | one line contributes at most one URL |
| `UrlFile.CollectAtMostOne` | ytdl_bot.py:68-71 | when each line yields at most one item, there are no more items than lines |
| `UrlFile.CollectAppend` | ytdl_bot.py:68-71 | the items of two consecutive stretches of lines are concatenated in order |
| `UrlFile.CollectAround` | ytdl_bot.py:68-71 | the items of a file are those of the lines before a given line, then that line's, then those of the lines after it |
| `UrlFile.NonBlankLines` | ytdl_bot.py:65-72 | at most one URL per line |
| `UrlFile.NonBlankLinesAreClean` | ytdl_bot.py:69-71 | every URL returned is non-empty with no whitespace at either end |
| `UrlFile.NonBlankLinesAppend` | ytdl_bot.py:68-71 | file order is kept: the URLs of consecutive stretches of lines are concatenated |
| `UrlFile.NonBlankLineIsKept` | ytdl_bot.py:69-71 | a non-blank line contributes its stripped form, after the URLs of the lines before it and before those of the lines after it |
| `UrlFile.KeptComesFromLine` | ytdl_bot.py:69-71 | every URL returned is the stripped form of some line |
| `UrlFile.NonBlankLinesEmptyIffBlank` | ytdl_bot.py:68-71 | nothing is returned exactly when every line is blank |
| `UrlFile.LoadUrls` | ytdl_bot.py:65-72 | the append loop over the lines computes `NonBlankLines` |
| `Profiles.AudioOptions` | ytdl_bot.py:127-145 | the audio-only option record, key by key (its properties are stated by `Profiles.BuildOptions`) |
| `Profiles.VideoOptions` | ytdl_bot.py:148-171 | the video option record, key by key (its properties are stated by `Profiles.BuildOptions`) |
| `Profiles.BuildOptions` | ytdl_bot.py:124-171 | both profiles share retries 10, fragment retries 10, 10 MiB chunks, the located FFmpeg directory, whole playlists and skip-failed-downloads, and set no cookie file; `--audio-only` selects exactly the audio profile (m4a audio format, one m4a extraction step, no sort, merge or parallel fragments), otherwise exactly the video profile (merged format, sort order, mp4 merge, mp4 remux, 5 fragments); the output template lies under the output directory |
| `Bot.ExitStatus` | ytdl_bot.py:95-190 | status 1 for every early exit, 0 once the engine was called |
| `Bot.FileUrls` | ytdl_bot.py:100-104 | the URLs of the `--file` option: the file's non-blank stripped lines when it is given and is a file, none otherwise |
| `Bot.MainSpec` | ytdl_bot.py:95-190 | the only host change a run can make is creating the output directory, and a run that reaches the engine has made it |
| `Bot.DownloadGuarantees` | ytdl_bot.py:99-190 | a download happens only with the command-line URLs followed by the file URLs, never with none, after the output directory exists, with the FFmpeg directory the locator returns on that host, the profile `--audio-only` asks for, and a cookie file set exactly when one was given, and then only when it exists |
| `Bot.UrlFileMissingExitsFirst` | ytdl_bot.py:99-103 | a URL file that is not a file ends the run first with status 1 and changes nothing |
| `Bot.NoUrlsExitsBeforeAnyWork` | ytdl_bot.py:106-112 | with no command-line URL and only blank file lines the run ends with no URLs before the output directory is created or FFmpeg is sought |
| `Bot.OutputDirBlockedExits` | ytdl_bot.py:110-112 | a file in place of the output directory ends the run and changes nothing |
| `Bot.FfmpegMissingExits` | ytdl_bot.py:114-122 | FFmpeg not found on the host with the output directory created ends the run with no options built, the directory left in place |
| `Bot.CookiesMissingExits` | ytdl_bot.py:173-177 | a given cookie file that does not exist ends the run |
| `Bot.AllPreconditionsMetDownloads` | ytdl_bot.py:99-190 | when every precondition holds the engine is called with the command-line URLs followed by the file URLs and the run exits 0 |
| `Bot.SingleUrlOnSearchPath` | ytdl_bot.py:95-190 | one URL with `--out out1` and FFmpeg at `/usr/bin/ffmpeg`: `out1` is created and the engine gets that URL and the video profile with FFmpeg directory `/usr/bin` |
| `Bot.Run` | ytdl_bot.py:95-190 | the step-by-step `main` on the live host returns the outcome and leaves the host in the state `MainSpec` gives |

## Left out

- `build_args` (ytdl_bot.py:79-88): argument parsing is library code; `Bot.Args` is its result, including the `downloads` default for `--out`.
- The engine call `YoutubeDL(...).download(urls)` (ytdl_bot.py:189-190): network, format negotiation, retries, fragments and muxing happen in a foreign library; the model records the call as `Download(urls, options)` and does not model exceptions it may raise.
- The `print` diagnostics (ytdl_bot.py:102, 107, 117-121, 180-186): output text only.
- Reading the URL file: `open` with UTF-8 decoding and the split into lines are I/O; a file is given as the sequence of lines its text read yields, and neither decoding errors nor read failures of a file that exists (a `PermissionError` from `open`, ytdl_bot.py:67, which ends the run with status 1) are modelled: an existing file is always read.
- `shutil.which`: its walk over PATH (and PATHEXT on Windows) is replaced by a given map from command name to resolved path.
- The filesystem names each entry by one spelling: Windows case-insensitivity, `dir` versus `dir/`, and symbolic links are not modelled.
- `Environment.Mkdir`: intermediate directories created by `parents=True` are not recorded, and OS errors other than a file occupying the path (permissions, a file among the parents) are not modelled.
- `Paths.Parent`: pathlib normalises the path before taking its parent, and the model does not: a run of separators inside the path is kept (`/usr//bin/ffmpeg` gives `/usr//bin`, not `/usr/bin`), `.` components are kept (`./bin/ffmpeg` gives `./bin`, not `bin`), and on Windows `/` is not rewritten to `\` (`C:/x\ffmpeg.exe` gives `C:/x`, not `C:\x`). Such a search-path hit makes `Locator.FindFfmpeg` return a directory spelled differently from Python's, though naming the same place; normalising would need pathlib's full parsing of drives, roots and components.
- `Paths.Join`, `Paths.Parent`: Windows drive letters (`C:name`, `C:\name`) and UNC shares are treated as ordinary components, a leading `//` is not kept, and a trailing separator on the path itself is not removed before taking the parent.
- `Profiles.BuildOptions`: the output template joins the output directory as given; pathlib's normalisation of it (collapsing repeated separators, dropping `.` components, `""` read as `.`) is not modelled.
- The meaning of the `outtmpl`, `format` and `format_sort` strings belongs to the engine; they are kept as opaque constants.
