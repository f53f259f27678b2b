/** The merge step of `merge_audio_video.py`: find the first MP4 and the first
    WAV in a folder, probe both durations and run the transcoder with either an
    explicit duration cap of `min(video, audio)` or, when a probe failed, the
    transcoder's own shortest-stream cut.

    The environment is an explicit value: the set of paths that exist, the
    folder listing, and the outcome of every child process. Each child process
    is recorded in a trace of argument lists, so that "the transcoder was never
    run" is a statement about the trace. */
module AudioVideoMerge {
  import opened Wrappers
  import opened Text
  import opened Process

  /** A media duration in seconds; the model only compares durations. */
  type Duration = real

  /** One argument of a child process. The duration cap is kept as a number;
      how Python renders it with `str(float)` is not modelled. */
  datatype Arg = Word(text: string) | Seconds(value: Duration)

  /** The argument list of one child process, program name first. */
  type Argv = seq<Arg>

  /** What `ffprobe` did for one path: how the process ended, and the value of
      `float(data['format']['duration'])` read from its JSON output (`None`
      when the output is not JSON, lacks the field or is not a number). */
  datatype ProbeOutcome = ProbeOutcome(run: Run, parsed: Option<Duration>)

  /** The world the merge runs in. */
  datatype Env = Env(
    paths: set<string>,              // the paths for which os.path.exists holds
    version: Run,                    // outcome of `ffmpeg -version`
    probe: string -> ProbeOutcome,   // outcome of ffprobe on each path
    transcode: Argv -> Run)          // outcome of the merging ffmpeg run

  /** A probe's duration together with the processes probing started. */
  datatype Probed = Probed(duration: Option<Duration>, calls: seq<Argv>)

  /** What `merge_audio_video` returned (or whether it raised), together with
      the processes it started, in order. */
  datatype Merged = Merged(result: Completion<bool>, calls: seq<Argv>)

  function Words(ws: seq<string>): (a: Argv)
    ensures |a| == |ws| && forall i :: 0 <= i < |ws| ==> a[i] == Word(ws[i])
  {
    seq(|ws|, i requires 0 <= i < |ws| => Word(ws[i]))
  }

  const VersionArgv: Argv := Words(["ffmpeg", "-version"])

  function ProbeArgv(path: string): Argv {
    Words(["ffprobe", "-v", "error", "-show_entries", "format=duration", "-of", "json", path])
  }

  /** `check_ffmpeg_installed`: runs `ffmpeg -version` without checking its
      exit status, so any exit code counts as installed; only a missing
      executable gives `False`, and any other start-up error propagates. */
  function CheckFfmpegInstalled(version: Run): (r: Completion<bool>)
    ensures r == Returned(true) <==> version.Exited?
    ensures r == Returned(false) <==> version.NotFound?
    ensures r == Raised <==> version.Failed?
  {
    match version
    case Exited(_) => Returned(true)
    case NotFound => Returned(false)
    case Failed => Raised
  }

  /** `get_media_duration`: no probe at all for a path that does not exist;
      otherwise one `ffprobe` run, and a duration only when it exits with 0
      and its report holds a number. Every failure is caught and gives `None`. */
  function GetMediaDuration(env: Env, path: string): (p: Probed)
    ensures path !in env.paths ==> p == Probed(None, [])
    ensures path in env.paths ==> p.calls == [ProbeArgv(path)]
    ensures p.duration.Some? <==>
              path in env.paths && env.probe(path).run.Succeeded() && env.probe(path).parsed.Some?
    ensures p.duration.Some? ==> p.duration == env.probe(path).parsed
  {
    if path !in env.paths then Probed(None, [])
    else
      var outcome := env.probe(path);
      Probed(if outcome.run.Succeeded() then outcome.parsed else None, [ProbeArgv(path)])
  }

  /** The output length when both durations are known: the shorter one. */
  function TargetDuration(video: Duration, audio: Duration): (t: Duration)
    ensures t <= video && t <= audio
    ensures t == video || t == audio
  {
    if video <= audio then video else audio
  }

  /** The options of a merge command: what lies between the two inputs and
      the output path. */
  function Options(cmd: Argv): Argv {
    if |cmd| >= 6 then cmd[5..|cmd| - 1] else []
  }

  /** `a` immediately followed by `b` somewhere in `opts`. */
  predicate HasPair(opts: Argv, a: Arg, b: Arg) {
    exists k :: 0 <= k < |opts| - 1 && opts[k] == a && opts[k + 1] == b
  }

  /** What both variants of the merge command share: `ffmpeg`, the video as
      input 0 and the audio as input 1, video copied, audio encoded with AAC,
      the first video stream of input 0 and the first audio stream of input 1
      mapped, overwriting allowed, and the output path last. */
  predicate MergeShape(cmd: Argv, video: string, audio: string, output: string) {
    && |cmd| >= 6
    && cmd[..5] == [Word("ffmpeg"), Word("-i"), Word(video), Word("-i"), Word(audio)]
    && cmd[|cmd| - 1] == Word(output)
    && SharedOptions(Options(cmd))
  }

  /** The options both variants carry: video copied, audio encoded with AAC,
      the first video stream of input 0 and the first audio stream of input 1
      mapped, and overwriting allowed. */
  predicate SharedOptions(opts: Argv) {
    && HasPair(opts, Word("-c:v"), Word("copy"))
    && HasPair(opts, Word("-c:a"), Word("aac"))
    && HasPair(opts, Word("-map"), Word("0:v:0"))
    && HasPair(opts, Word("-map"), Word("1:a:0"))
    && Word("-y") in opts
  }

  /** The two inputs, then `options`, then the output path. */
  function Assemble(video: string, audio: string, output: string, options: Argv): (cmd: Argv)
    ensures |cmd| >= 6 && Options(cmd) == options
    ensures cmd[..5] == [Word("ffmpeg"), Word("-i"), Word(video), Word("-i"), Word(audio)]
    ensures cmd[|cmd| - 1] == Word(output)
  {
    var head := [Word("ffmpeg"), Word("-i"), Word(video), Word("-i"), Word(audio)];
    var cmd := head + options + [Word(output)];
    assert cmd[..5] == head;
    assert cmd[5..|cmd| - 1] == options;
    cmd
  }

  /** The options used when both durations are known: capped with `-t`. */
  function CappedOptions(target: Duration): Argv {
    [Word("-t"), Seconds(target),
     Word("-c:v"), Word("copy"), Word("-c:a"), Word("aac"),
     Word("-map"), Word("0:v:0"), Word("-map"), Word("1:a:0"),
     Word("-y")]
  }

  /** The capped options fix the output length to `target`, leave out
      `-shortest`, and carry the stream choices shared by both variants. */
  lemma CappedOptionsHold(target: Duration)
    ensures var opts := CappedOptions(target);
            && HasPair(opts, Word("-t"), Seconds(target)) && Word("-shortest") !in opts
            && SharedOptions(opts)
  {
    var opts := CappedOptions(target);
    assert opts[0] == Word("-t") && opts[1] == Seconds(target);
    assert opts[2] == Word("-c:v") && opts[3] == Word("copy");
    assert opts[4] == Word("-c:a") && opts[5] == Word("aac");
    assert opts[6] == Word("-map") && opts[7] == Word("0:v:0");
    assert opts[8] == Word("-map") && opts[9] == Word("1:a:0");
  }

  /** The options of the fallback: the transcoder stops at the shorter stream. */
  function ShortestOptions(): Argv {
    [Word("-c:v"), Word("copy"), Word("-c:a"), Word("aac"),
     Word("-map"), Word("0:v:0"), Word("-map"), Word("1:a:0"),
     Word("-shortest"), Word("-y")]
  }

  /** The fallback options ask for `-shortest`, hold no `-t` and no duration
      at all, and carry the stream choices shared by both variants. */
  lemma ShortestOptionsHold()
    ensures var opts := ShortestOptions();
            && Word("-shortest") in opts && Word("-t") !in opts
            && (forall i :: 0 <= i < |opts| ==> opts[i].Word?)
            && SharedOptions(opts)
  {
    var opts := ShortestOptions();
    assert opts[0] == Word("-c:v") && opts[1] == Word("copy");
    assert opts[2] == Word("-c:a") && opts[3] == Word("aac");
    assert opts[4] == Word("-map") && opts[5] == Word("0:v:0");
    assert opts[6] == Word("-map") && opts[7] == Word("1:a:0");
  }

  /** The transcoder command of `merge_audio_video`: capped with `-t` when a
      target duration is known, cut at the shorter stream otherwise. */
  function MergeCommand(video: string, audio: string, output: string, target: Option<Duration>): Argv {
    match target
    case Some(t) => Assemble(video, audio, output, CappedOptions(t))
    case None => Assemble(video, audio, output, ShortestOptions())
  }

  /** Both variants of the command have the shared shape; with a target
      duration the command caps the output with `-t target` and never asks
      for `-shortest`; without one it asks for `-shortest` and has neither
      `-t` nor any duration among its options. */
  lemma MergeCommandShape(video: string, audio: string, output: string, target: Option<Duration>)
    ensures var cmd := MergeCommand(video, audio, output, target);
            && MergeShape(cmd, video, audio, output)
            && (target.Some? ==>
                  HasPair(Options(cmd), Word("-t"), Seconds(target.value))
                  && Word("-shortest") !in Options(cmd))
            && (target.None? ==>
                  Word("-shortest") in Options(cmd) && Word("-t") !in Options(cmd)
                  && forall i :: 0 <= i < |Options(cmd)| ==> Options(cmd)[i].Word?)
  {
    match target
    case Some(t) =>
      CappedOptionsHold(t);
      var opts := CappedOptions(t);
      assert Options(Assemble(video, audio, output, opts)) == opts;
    case None =>
      ShortestOptionsHold();
      var opts := ShortestOptions();
      assert Options(Assemble(video, audio, output, opts)) == opts;
  }

  /** The duration cap `merge_audio_video` uses: the shorter duration when both
      probes gave one, otherwise none. */
  function Cap(env: Env, video: string, audio: string): Option<Duration> {
    var v := GetMediaDuration(env, video).duration;
    var a := GetMediaDuration(env, audio).duration;
    if v.Some? && a.Some? then Some(TargetDuration(v.value, a.value)) else None
  }

  /** `merge_audio_video(video_path, audio_path, output_path)`.
      The checks run in a fixed order: the video must exist, then the audio,
      then `ffmpeg -version` must start; each failed check returns `False`
      before any later process runs. Then both files are probed, the command
      is chosen, and the result is `True` exactly when that command exits
      with 0; a missing transcoder, a non-zero exit or any other error gives
      `False`. */
  function MergeAudioVideo(env: Env, video: string, audio: string, output: string): (m: Merged)
    ensures video !in env.paths ==> m == Merged(Returned(false), [])
    ensures video in env.paths && audio !in env.paths ==> m == Merged(Returned(false), [])
    ensures video in env.paths && audio in env.paths && env.version.NotFound? ==>
              m == Merged(Returned(false), [VersionArgv])
    ensures video in env.paths && audio in env.paths && env.version.Failed? ==>
              m == Merged(Raised, [VersionArgv])
    ensures video in env.paths && audio in env.paths && env.version.Exited? ==>
              var cmd := MergeCommand(video, audio, output, Cap(env, video, audio));
              && m.calls == [VersionArgv, ProbeArgv(video), ProbeArgv(audio), cmd]
              && m.result == Returned(env.transcode(cmd).Succeeded())
    ensures m.result == Returned(true) <==>
              && video in env.paths && audio in env.paths && env.version.Exited?
              && env.transcode(MergeCommand(video, audio, output, Cap(env, video, audio))).Succeeded()
  {
    if video !in env.paths || audio !in env.paths then Merged(Returned(false), [])
    else
      match CheckFfmpegInstalled(env.version)
      case Raised => Merged(Raised, [VersionArgv])
      case Returned(installed) =>
        if !installed then Merged(Returned(false), [VersionArgv])
        else ProbeAndTranscode(env, video, audio, output)
  }

  /** The part of `merge_audio_video` after the checks: both probes, then the
      chosen transcoder command, whose exit status is the result. */
  function ProbeAndTranscode(env: Env, video: string, audio: string, output: string): (m: Merged)
    requires video in env.paths && audio in env.paths
    ensures var cmd := MergeCommand(video, audio, output, Cap(env, video, audio));
            && m.calls == [VersionArgv, ProbeArgv(video), ProbeArgv(audio), cmd]
            && m.result == Returned(env.transcode(cmd).Succeeded())
  {
    var v := GetMediaDuration(env, video);
    var a := GetMediaDuration(env, audio);
    var cmd := MergeCommand(video, audio, output, Cap(env, video, audio));
    assert [VersionArgv] + [ProbeArgv(video)] + [ProbeArgv(audio)] + [cmd] ==
           [VersionArgv, ProbeArgv(video), ProbeArgv(audio), cmd];
    Merged(Returned(env.transcode(cmd).Succeeded()), [VersionArgv] + v.calls + a.calls + [cmd])
  }

  /** When both probes succeed, the transcoder is run with `-t` set to a
      duration no longer than either input and equal to one of them, and
      without `-shortest`. */
  lemma MergeCapsAtShorter(env: Env, video: string, audio: string, output: string)
    requires video in env.paths && audio in env.paths && env.version.Exited?
    requires GetMediaDuration(env, video).duration.Some? && GetMediaDuration(env, audio).duration.Some?
    ensures var m := MergeAudioVideo(env, video, audio, output);
            var v, a := env.probe(video).parsed.value, env.probe(audio).parsed.value;
            && |m.calls| == 4
            && (exists t :: t <= v && t <= a && (t == v || t == a)
                            && HasPair(Options(m.calls[3]), Word("-t"), Seconds(t)))
            && Word("-shortest") !in Options(m.calls[3])
  {
    var t := TargetDuration(env.probe(video).parsed.value, env.probe(audio).parsed.value);
    assert Cap(env, video, audio) == Some(t);
    MergeCommandShape(video, audio, output, Some(t));
    var m := MergeAudioVideo(env, video, audio, output);
    assert m.calls[3] == MergeCommand(video, audio, output, Some(t));
  }

  /** When either probe fails, the transcoder is run with `-shortest` and
      without `-t`. */
  lemma MergeFallsBackToShortest(env: Env, video: string, audio: string, output: string)
    requires video in env.paths && audio in env.paths && env.version.Exited?
    requires GetMediaDuration(env, video).duration.None? || GetMediaDuration(env, audio).duration.None?
    ensures var m := MergeAudioVideo(env, video, audio, output);
            && |m.calls| == 4
            && Word("-shortest") in Options(m.calls[3])
            && Word("-t") !in Options(m.calls[3])
  {
    assert Cap(env, video, audio) == None;
    MergeCommandShape(video, audio, output, None);
    var m := MergeAudioVideo(env, video, audio, output);
    assert m.calls[3] == MergeCommand(video, audio, output, None);
  }

  /** One entry of `os.listdir`: its name and whether `os.path.isfile` holds
      for it. */
  datatype Entry = Entry(name: string, isFile: bool)

  /** The test the discovery loops apply to an entry. */
  predicate Matches(e: Entry, extension: string) {
    e.isFile && EndsWith(Lower(e.name), extension)
  }

  /** The index of the first matching entry of a listing. */
  function FirstMatch(listing: seq<Entry>, extension: string): (r: Option<nat>)
    ensures r.None? <==> forall k :: 0 <= k < |listing| ==> !Matches(listing[k], extension)
    ensures r.Some? ==>
              && r.value < |listing| && Matches(listing[r.value], extension)
              && forall j :: 0 <= j < r.value ==> !Matches(listing[j], extension)
  {
    if listing == [] then None
    else if Matches(listing[0], extension) then Some(0)
    else match FirstMatch(listing[1..], extension)
      case None => None
      case Some(k) => Some(k + 1)
  }

  /** The path discovery reports: the folder joined with the first matching
      name, if any. */
  function Found(folder: string, listing: seq<Entry>, extension: string,
                 join: (string, string) -> string): Option<string>
  {
    match FirstMatch(listing, extension)
    case Some(k) => Some(join(folder, listing[k].name))
    case None => None
  }

  /** The loop shared by `find_first_video_file` and `find_first_audio_file`:
      walk the listing in order and return the path of the first regular file
      whose lower-cased name ends with `extension`. */
  method FindFirstWithExtension(folder: string, listing: seq<Entry>, extension: string,
                                join: (string, string) -> string) returns (r: Option<string>)
    ensures r.None? <==> forall k :: 0 <= k < |listing| ==> !Matches(listing[k], extension)
    ensures r.Some? ==> exists k :: 0 <= k < |listing| && Matches(listing[k], extension)
                                    && r.value == join(folder, listing[k].name)
                                    && forall j :: 0 <= j < k ==> !Matches(listing[j], extension)
    ensures r == Found(folder, listing, extension, join)
  {
    var i := 0;
    while i < |listing|
      invariant 0 <= i <= |listing|
      invariant forall j :: 0 <= j < i ==> !Matches(listing[j], extension)
    {
      if listing[i].isFile && EndsWith(Lower(listing[i].name), extension) {
        assert FirstMatch(listing, extension) == Some(i);
        return Some(join(folder, listing[i].name));
      }
      i := i + 1;
    }
    return None;
  }

  /** `find_first_video_file`: the first `.mp4` file, in listing order. */
  method FindFirstVideoFile(folder: string, listing: seq<Entry>, join: (string, string) -> string)
    returns (r: Option<string>)
    ensures r == Found(folder, listing, ".mp4", join)
  {
    r := FindFirstWithExtension(folder, listing, ".mp4", join);
  }

  /** `find_first_audio_file`: the first `.wav` file, in listing order. */
  method FindFirstAudioFile(folder: string, listing: seq<Entry>, join: (string, string) -> string)
    returns (r: Option<string>)
    ensures r == Found(folder, listing, ".wav", join)
  {
    r := FindFirstWithExtension(folder, listing, ".wav", join);
  }

  /** An upper-case extension is found as well: the test lower-cases the name. */
  lemma FindsUpperCaseExtension(name: string)
    requires EndsWith(name, ".MP4")
    ensures Matches(Entry(name, true), ".mp4")
  {
    var lower := Lower(name);
    assert lower[|lower| - 4..] == Lower(name[|name| - 4..]);
  }

  /** The command-line options of `main` that have defaults. */
  datatype MergeArgs = MergeArgs(input: Option<string>, output: Option<string>, outputFilename: Option<string>)

  function InputFolder(args: MergeArgs): string {
    if Truthy(args.input) then args.input.value else "./input"
  }

  function OutputFolder(args: MergeArgs): string {
    if Truthy(args.output) then args.output.value else "./output"
  }

  function OutputFilename(args: MergeArgs): string {
    if Truthy(args.outputFilename) then args.outputFilename.value else "merged_media.mp4"
  }

  /** How `main` ends: it stops when no video or no audio was found, and
      otherwise merges. */
  datatype MainOutcome = NoVideoFound | NoAudioFound | Attempted(merge: Merged)

  /** `main` after argument parsing: look up the video and the audio in the
      input folder (both lookups run before either result is looked at), stop if
      either is missing (the video is reported first), else merge into the
      output folder under the output file name. */
  method RunMerge(args: MergeArgs, listing: seq<Entry>, join: (string, string) -> string, env: Env)
    returns (o: MainOutcome)
    ensures var video := Found(InputFolder(args), listing, ".mp4", join);
            var audio := Found(InputFolder(args), listing, ".wav", join);
            && (o.NoVideoFound? <==> !Truthy(video))
            && (o.NoAudioFound? <==> Truthy(video) && !Truthy(audio))
            && (o.Attempted? ==>
                  o.merge == MergeAudioVideo(env, video.value, audio.value,
                                             join(OutputFolder(args), OutputFilename(args))))
  {
    var inputFolder := InputFolder(args);
    var outputFolder := OutputFolder(args);
    var outputFilename := OutputFilename(args);
    var video := FindFirstVideoFile(inputFolder, listing, join);
    var audio := FindFirstAudioFile(inputFolder, listing, join);
    if !Truthy(video) {
      return NoVideoFound;
    }
    if !Truthy(audio) {
      return NoAudioFound;
    }
    o := Attempted(MergeAudioVideo(env, video.value, audio.value, join(outputFolder, outputFilename)));
  }
}
