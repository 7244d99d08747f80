/**
 * The options `handle_download` passes to the extraction library, chosen by
 * the action named in the button payload.
 */
module Formats {
  import opened Wrappers
  import opened Text

  datatype Postprocessor =
    | ExtractAudio(preferredCodec: string, preferredQuality: string)  // FFmpegExtractAudio
    | ConvertVideo(preferredFormat: string)                           // FFmpegVideoConvertor

  /** The options that vary between requests (`quiet` and `ffmpeg_location` never do). */
  datatype FetchOptions = FetchOptions(
    outputTemplate: string,
    format: string,
    mergeOutputFormat: Option<string>,
    postprocessors: seq<Postprocessor>,
    postprocessorArgs: seq<string>,
    cookies: bool)

  const AudioAction: string := "audio"
  const VideoCodec: string := "libx264"
  const AudioCodec: string := "aac"

  /** `".mp3" if action == "audio" else ".mp4"`. */
  function Extension(action: string): string
  {
    if action == AudioAction then ".mp3" else ".mp4"
  }

  /** `action.replace("video", "")`: the height in a video action's name. */
  function Resolution(action: string): string
  {
    Replace(action, "video", "")
  }

  /** The container the first postprocessor produces. */
  function Container(o: FetchOptions): string
    requires |o.postprocessors| > 0
  {
    match o.postprocessors[0]
    case ExtractAudio(codec, _) => codec
    case ConvertVideo(format) => format
  }

  /**
   * The options for one download into `fileId` + extension; the audio action
   * extracts mp3, every other action fetches video up to its height.
   */
  function OptionsFor(action: string, fileId: string, cookies: bool): (o: FetchOptions)
    ensures o.outputTemplate == fileId + Extension(action)
    ensures o.cookies == cookies
    ensures |o.postprocessors| == 1 && Extension(action) == "." + Container(o)
    ensures o.mergeOutputFormat.Some? <==> action != AudioAction
  {
    var output := fileId + Extension(action);
    if action == AudioAction then
      FetchOptions(output, "bestaudio[filesize>1M]", None,
                   [ExtractAudio("mp3", "192")], [], cookies)
    else
      FetchOptions(output, "bestvideo[height<=" + Resolution(action) + "]+bestaudio/best", Some("mp4"),
                   [ConvertVideo("mp4")],
                   ["-c:v", VideoCodec, "-c:a", AudioCodec, "-movflags", "+faststart"], cookies)
  }

  /** The height in `"video" + h` is `h`, for any `h` without a 'v'. */
  lemma {:induction false} ResolutionOfVideo(h: string)
    requires 'v' !in h
    ensures Resolution("video" + h) == h
  {
    var s := "video" + h;
    assert StartsWith(s, "video");
    assert s[5..] == h;
    MissingLeadNotContained(h, "video");
    ReplaceAbsent(h, "video", "");
  }

  /** The audio action: best audio above 1 MB, extracted to mp3 at quality 192, no merging. */
  lemma AudioOptions(fileId: string, cookies: bool)
    ensures OptionsFor("audio", fileId, cookies)
         == FetchOptions(fileId + ".mp3", "bestaudio[filesize>1M]", None,
                         [ExtractAudio("mp3", "192")], [], cookies)
  {
  }

  /**
   * A video action `"video" + h`: best video at most `h` high with best
   * audio, merged and converted to mp4, re-encoded with libx264/aac and
   * `+faststart`.
   */
  lemma VideoOptions(h: string, fileId: string, cookies: bool)
    requires 'v' !in h
    ensures OptionsFor("video" + h, fileId, cookies)
         == FetchOptions(fileId + ".mp4", "bestvideo[height<=" + h + "]+bestaudio/best", Some("mp4"),
                         [ConvertVideo("mp4")],
                         ["-c:v", "libx264", "-c:a", "aac", "-movflags", "+faststart"], cookies)
  {
    assert ("video" + h)[0] == 'v';
    ResolutionOfVideo(h);
  }
}
