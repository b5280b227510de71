/**
 * The two option records handed to the download engine: an audio-only
 * profile and a merged video+audio profile. The template, format and sort
 * strings are opaque to this program and appear here verbatim.
 */
module Profiles {
  import opened Wrappers
  import opened Paths

  datatype Postprocessor =
    | ExtractAudio(preferredCodec: string, preferredQuality: string)  // key "FFmpegExtractAudio"
    | VideoRemuxer(preferedFormat: string)                            // key "FFmpegVideoRemuxer"

  /** The `ydl_opts` dictionary; an absent key is None. */
  datatype Options = Options(
    outtmpl: string,
    format: string,
    formatSort: Option<seq<string>>,
    mergeOutputFormat: Option<string>,
    postprocessors: seq<Postprocessor>,
    concurrentFragmentDownloads: Option<nat>,
    ffmpegLocation: string,
    retries: nat,
    fragmentRetries: nat,
    httpChunkSize: nat,
    noplaylist: bool,
    ignoreErrors: string,
    quiet: bool,
    noWarnings: bool,
    cookiefile: Option<string>)

  const AudioTemplate: string := "%(title).200B [%(id)s].%(ext)s"
  const VideoTemplate: string := "%(title).200B [%(id)s] [%(resolution)s] [%(fps)sfps].%(ext)s"
  const AudioFormat: string := "bestaudio[ext=m4a]/bestaudio/best"
  const VideoFormat: string := "((bestvideo[ext=mp4]/bestvideo)+bestaudio[ext=m4a]/(bestvideo+bestaudio)/best)"
  const FormatSort: seq<string> := [
    "res:4320", "res:2160", "res:1440", "res:1080", "res",
    "fps", "vcodec:av01", "vcodec:vp9", "vcodec:h264"
  ]
  const Retries: nat := 10
  const ChunkSize: nat := 10 * 1024 * 1024
  const VideoFragments: nat := 5

  /** The settings both profiles carry: bounded retries, 10 MiB chunks, the located FFmpeg, whole playlists, skip failed items. */
  predicate SharedSettings(o: Options, ffmpegDir: string) {
    o.retries == 10 && o.fragmentRetries == 10 && o.httpChunkSize == 10485760 &&
    o.ffmpegLocation == ffmpegDir && !o.noplaylist && o.ignoreErrors == "only_download" &&
    !o.quiet && !o.noWarnings
  }

  /** Audio streams only, extracted to m4a at best quality; no sorting, merging or parallel fragments. */
  predicate IsAudioProfile(o: Options, windows: bool, outDir: string) {
    o.outtmpl == Join(windows, outDir, AudioTemplate) &&
    o.format == "bestaudio[ext=m4a]/bestaudio/best" &&
    o.postprocessors == [ExtractAudio("m4a", "0")] &&
    o.formatSort == None && o.mergeOutputFormat == None && o.concurrentFragmentDownloads == None
  }

  /** Merged video+audio, sorted by resolution, frame rate and codec, merged and remuxed into mp4, 5 fragments at a time. */
  predicate IsVideoProfile(o: Options, windows: bool, outDir: string) {
    o.outtmpl == Join(windows, outDir, VideoTemplate) &&
    o.format == "((bestvideo[ext=mp4]/bestvideo)+bestaudio[ext=m4a]/(bestvideo+bestaudio)/best)" &&
    o.formatSort == Some(["res:4320", "res:2160", "res:1440", "res:1080", "res",
                          "fps", "vcodec:av01", "vcodec:vp9", "vcodec:h264"]) &&
    o.mergeOutputFormat == Some("mp4") &&
    o.postprocessors == [VideoRemuxer("mp4")] &&
    o.concurrentFragmentDownloads == Some(5)
  }

  function AudioOptions(windows: bool, outDir: string, ffmpegDir: string): Options {
    Options(
      outtmpl := Join(windows, outDir, AudioTemplate),
      format := AudioFormat,
      formatSort := None,
      mergeOutputFormat := None,
      postprocessors := [ExtractAudio("m4a", "0")],
      concurrentFragmentDownloads := None,
      ffmpegLocation := ffmpegDir,
      retries := Retries,
      fragmentRetries := Retries,
      httpChunkSize := ChunkSize,
      noplaylist := false,
      ignoreErrors := "only_download",
      quiet := false,
      noWarnings := false,
      cookiefile := None)
  }

  function VideoOptions(windows: bool, outDir: string, ffmpegDir: string): Options {
    Options(
      outtmpl := Join(windows, outDir, VideoTemplate),
      format := VideoFormat,
      formatSort := Some(FormatSort),
      mergeOutputFormat := Some("mp4"),
      postprocessors := [VideoRemuxer("mp4")],
      concurrentFragmentDownloads := Some(VideoFragments),
      ffmpegLocation := ffmpegDir,
      retries := Retries,
      fragmentRetries := Retries,
      httpChunkSize := ChunkSize,
      noplaylist := false,
      ignoreErrors := "only_download",
      quiet := false,
      noWarnings := false,
      cookiefile := None)
  }

  /**
   * The profile `--audio-only` selects. Either way the output template lies
   * inside the output directory and no cookie file is set yet.
   */
  function BuildOptions(audioOnly: bool, windows: bool, outDir: string, ffmpegDir: string): (o: Options)
    ensures SharedSettings(o, ffmpegDir) && o.cookiefile == None
    ensures IsAudioProfile(o, windows, outDir) <==> audioOnly
    ensures IsVideoProfile(o, windows, outDir) <==> !audioOnly
    ensures |outDir| <= |o.outtmpl| && o.outtmpl[..|outDir|] == outDir
  {
    if audioOnly then AudioOptions(windows, outDir, ffmpegDir) else VideoOptions(windows, outDir, ffmpegDir)
  }
}
