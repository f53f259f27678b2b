# Media pipeline decisions, modelled in Dafny

This project models the decision logic of three scripts in a content-generation
pipeline:

- **`merge_audio_video.py`** merges the first MP4 video and the first WAV audio
  of an input folder with FFmpeg. The output length is either capped at
  `min(video, audio)` or, when a duration probe fails, cut at the shorter
  stream.
- **`twitter_video_downloader.py`** does the following:
  - reads a URL list, skipping blank and `#` lines;
  - downloads each URL with `yt-dlp` under a hashed file name;
  - writes an FFmpeg concat manifest and concatenates the downloads;
  - removes the manifest afterwards;
  - picks the exit status.
- **`generate_and_merge.py`** offers a menu of 13 visual-style categories, where
  13 means "Random". It re-prompts until a number in 1..13 is typed. It decides
  from its flags whether the menu is shown, and builds the
  `merge_audio_video.py` command line.

Every interaction with the outside world is an explicit input:
- **Processes:** the outcome of every child process (`ffmpeg`, `ffprobe`,
  `yt-dlp`) is a `Process.Run` value, or a function from argument lists to one.
  The concat run's outcome also depends on the text of the manifest it reads.
- **File system:** the set of existing paths and the folder listing are inputs.
  So are the sizes of downloaded files and the name `NamedTemporaryFile` picks.
  Whether the manifest can be written is an input too.
- **Python built-ins:** Python's salted `hash`, `os.path.join` and
  `os.path.abspath` are uninterpreted function parameters.
- **Typed input:** the lines typed at the console are a sequence. Running out of
  input is `EOFError`.

Typical modelling choices:
- `subprocess.run(..., check=True)` lets a run through only when it is
  `Exited(0)`. `Process.Run.Succeeded` says exactly that.
- A Python exception that escapes a function is `Wrappers.Completion.Raised`.
- The processes `merge_audio_video` starts are recorded as a trace of argument
  lists. This way "FFmpeg never ran" is a statement about the trace.
- The files the downloader script writes itself, that is the concat manifest,
  are the `files` map of a `Disk` object. Its methods update that map in
  place. The video files `yt-dlp` writes and the output file FFmpeg writes are
  not in the map.
- The loops of the source (folder search, URL reading, the download loop,
  manifest writing, the re-prompt loop) are `while` loops. Each is proved
  against a specification function: `FirstMatch`, `KeptUrls`, `Collected`,
  `Manifest` or `Answer`. The properties are proved about those functions.

Files:
- `wrappers.dfy`: `Option` and `Completion`.
- `process.dfy`: `Run`.
- `sequences.dfy`: `FlatMap` and `FirstIndex`, with their generic facts.
- `text.dfy`: Python's `str.strip`, `str.lower`, `str.startswith` and
  `str.endswith`, the `:04d` zero padding and `int()` on a typed line.
- `audio_video_merge.dfy`, `twitter_downloader.dfy`, `generate_and_merge.dfy`:
  one module per script.

## Model

| member | source | states |
|---|---|---|
| AudioVideoMerge.CheckFfmpegInstalled | merge_audio_video.py:8-14 | Returns true for any exit code of `ffmpeg -version`. Returns false exactly when the executable is missing. Any other start-up error propagates (each case is an if-and-only-if). |
| AudioVideoMerge.GetMediaDuration | merge_audio_video.py:16-44 | A path that does not exist gives no duration and starts no `ffprobe`. Otherwise exactly one `ffprobe` runs. There is a duration exactly when that run exits with 0 and its report holds a number, and it is that number. Every other failure gives `None`. |
| AudioVideoMerge.TargetDuration | merge_audio_video.py:101 | The target is no longer than either duration and equals one of them, i.e. it is their minimum. |
| AudioVideoMerge.Assemble | merge_audio_video.py:87-118 | The command built has `ffmpeg`, `-i video`, `-i audio` first and the output path last. The options in between are exactly the ones given. |
| AudioVideoMerge.CappedOptionsHold | merge_audio_video.py:107-118 | The capped options hold `-t target` and no `-shortest`. They copy video, encode audio with AAC, map `0:v:0` and `1:a:0`, and carry `-y`. |
| AudioVideoMerge.ShortestOptionsHold | merge_audio_video.py:87-98 | The fallback options hold `-shortest`, no `-t` and no duration at all. They carry the same shared stream options. |
| AudioVideoMerge.MergeCommandShape | merge_audio_video.py:84-118 | Both variants of the merge command share the common shape. With a target, the command caps the output with `-t target` and has no `-shortest`. Without one, it has `-shortest`, no `-t` and only plain words. |
| AudioVideoMerge.MergeAudioVideo | merge_audio_video.py:64-136 | A missing video, then a missing audio, gives false with no process started. A missing FFmpeg gives false after only `ffmpeg -version`; any other start-up error propagates. Otherwise the trace is exactly version check, probe video, probe audio, merge command, and the result is whether that command exited with 0. True holds exactly when all checks pass and the merge exits with 0. |
| AudioVideoMerge.ProbeAndTranscode | merge_audio_video.py:80-136 | After the checks: both probes run, then the command chosen from their durations. The result is that command's success. |
| AudioVideoMerge.MergeCapsAtShorter | merge_audio_video.py:99-118 | When both probes give a duration, the command run has `-t t`, where `t` is no longer than either duration and equals one of them. It has no `-shortest`. |
| AudioVideoMerge.MergeFallsBackToShortest | merge_audio_video.py:84-98 | When either probe gives no duration, the command run has `-shortest` and no `-t`. |
| AudioVideoMerge.FirstMatch | merge_audio_video.py:46-62 | Gives no index exactly when no entry is a regular file whose lower-cased name ends with the extension. Otherwise it gives a matching entry with no match before it. |
| AudioVideoMerge.FindFirstWithExtension | merge_audio_video.py:48-53 | The listing loop returns the joined path of the first matching entry, in listing order, or `None` exactly when nothing matches. |
| AudioVideoMerge.FindFirstVideoFile | merge_audio_video.py:46-53 | The first `.mp4` file of the listing. |
| AudioVideoMerge.FindFirstAudioFile | merge_audio_video.py:55-62 | The first `.wav` file of the listing. |
| AudioVideoMerge.FindsUpperCaseExtension | merge_audio_video.py:50 | A file named `….MP4` is found: the test lower-cases the name. |
| AudioVideoMerge.RunMerge | merge_audio_video.py:156-190 | Input folder `./input`, output folder `./output` and file `merged_media.mp4` are used unless given non-empty. A missing video stops first, then a missing audio. Otherwise the merge runs on the found paths and the joined output path. |
| Text.TrimCutsSpace | twitter_video_downloader.py:185 | What trimming removes from either end is whitespace of the given set, and what it keeps neither starts nor ends with such whitespace. `strip()` uses the `str.isspace` set, `int()` the same set without U+001C..U+001F. |
| Text.TrimNoop | twitter_video_downloader.py:185 | Text with no whitespace at either end is returned unchanged. |
| Text.TrimIdempotent | twitter_video_downloader.py:85 | Stripping twice is the same as stripping once. |
| Text.TrimChars | twitter_video_downloader.py:85 | Every character of the stripped text occurs in the original. |
| Text.Lower | merge_audio_video.py:50 | Same length, and no capital letter is left. Each capital `A`-`Z` moves 32 code points up to its small letter; every other character stays. |
| Text.LowerIdempotent | merge_audio_video.py:50 | Lower-casing an already lower-cased name changes nothing. |
| Text.LowerEndsWith | merge_audio_video.py:50 | For an extension without capitals, the lower-cased name ends with it exactly when the name ends with it up to the case of each letter. |
| Text.LowerIsQ | generate_and_merge.py:229 | `lower()` gives `"q"` exactly for `"q"` and `"Q"`. |
| Text.DecimalString | generate_and_merge.py:73 | `str(n)` is a non-empty digit string. |
| Text.DecimalStringValue | generate_and_merge.py:73 | Reading the digits of `n` back gives `n`. |
| Text.DecimalStringLength | twitter_video_downloader.py:23 | A number below 10^k has at most k digits. |
| Text.LeadingZerosValue | twitter_video_downloader.py:23 | Leading zeros do not change a digit string's value. |
| Text.ZeroPadded | twitter_video_downloader.py:23 | `:0{width}d` gives digits whose value is `n`, at least `width` long, and exactly `width` long when `n < 10^width`. |
| Text.ParseUnsignedDigits | generate_and_merge.py:73 | A plain digit string parses to its value when it has at most 4300 digits (Python's default limit), and raises `ValueError` when it has more. |
| Text.ParseIntDigits | generate_and_merge.py:73 | A line of plain digits reads as their value with at most 4300 digits, and raises `ValueError` with more. |
| Text.ParseIntMinusDigits | generate_and_merge.py:73 | A minus sign and plain digits read as the negated value with at most 4300 digits, and raise `ValueError` with more. |
| Text.ParseIntDecimal | generate_and_merge.py:73 | `int(str(n)) == n` for up to 4300 digits, and `ValueError` beyond. |
| Text.ParseIntNegative | generate_and_merge.py:73 | `int("-" + str(n)) == -n` for up to 4300 digits, and `ValueError` beyond. |
| Text.Negated | generate_and_merge.py:73 | A minus sign before digits that end in no whitespace negates what they read as, and raises `ValueError` exactly when they do. |
| Text.ParseIntNeedsDigit | generate_and_merge.py:73 | Text without a digit raises `ValueError`. |
| Text.ParseIntRefusesSeparator | generate_and_merge.py:73 | A line that starts or ends with one of U+001C..U+001F raises `ValueError`, although `strip()` would remove those characters. |
| Sequences.FlatMapBound | twitter_video_downloader.py:181-188 | If every element contributes at most one item, there are at most as many items as elements. |
| Sequences.FlatMapAppend | twitter_video_downloader.py:84-93 | Processing two parts one after the other gives the results of each part, in order. |
| Sequences.FlatMapMembers | twitter_video_downloader.py:84-93 | An item is in the result exactly when some element contributes it. |
| Sequences.FirstIndex | generate_and_merge.py:70-82 | The first matching position, with no match before it, or the length when nothing matches. |
| Sequences.FirstIndexFound | generate_and_merge.py:70-82 | Some element matches exactly when the first match lies inside the sequence. |
| TwitterDownloader.LineUrl | twitter_video_downloader.py:184-187 | One line contributes at most one URL. |
| TwitterDownloader.KeptUrlsBound | twitter_video_downloader.py:181-188 | At most one URL per line of the file. |
| TwitterDownloader.KeptUrlsAppend | twitter_video_downloader.py:184-187 | The URLs of two parts of a file are those of each part, in file order. |
| TwitterDownloader.KeptUrlsMembers | twitter_video_downloader.py:184-187 | A URL is returned exactly when some line strips to it and it is neither blank nor starts with `#`. |
| TwitterDownloader.ReadUrlsFromFile | twitter_video_downloader.py:181-191 | A file that cannot be read gives `[]`. Otherwise the result is the stripped non-blank, non-comment lines in file order. |
| TwitterDownloader.VideoFileName | twitter_video_downloader.py:23 | The name is `twitter_video_`, exactly four digits whose value is `hash(url) % 10000`, then `.mp4`. |
| TwitterDownloader.DownloadTwitterVideo | twitter_video_downloader.py:23-69 | The target path in the output folder is returned exactly when `yt-dlp` exited with 0 and left a non-empty file there. Every other outcome gives `None`. |
| TwitterDownloader.Attempts | twitter_video_downloader.py:84-89 | The number of attempted downloads is at most the number of entries. |
| TwitterDownloader.EntryFile | twitter_video_downloader.py:84-91 | A blank entry contributes no file. Any other entry contributes at most one. |
| TwitterDownloader.CollectedBound | twitter_video_downloader.py:82-93 | At most one file per non-blank URL. |
| TwitterDownloader.CollectedAppend | twitter_video_downloader.py:84-93 | Collection keeps input order: two lists collect the files of each, in order. |
| TwitterDownloader.CollectedMembers | twitter_video_downloader.py:84-93 | A file is collected exactly when it is the non-empty download result of some non-blank entry, after stripping. |
| TwitterDownloader.DownloadVideosFromList | twitter_video_downloader.py:82-93 | The loop returns exactly `Collected` of the list. |
| TwitterDownloader.EscapeBackslashes | twitter_video_downloader.py:110 | Doubling the backslashes lengthens the path by its number of backslashes. |
| TwitterDownloader.UnescapeEscape | twitter_video_downloader.py:110 | Reading doubled backslashes back as one gives the original path, so escaping loses nothing. |
| TwitterDownloader.EscapeKeepsNewlines | twitter_video_downloader.py:110 | Escaping adds no line break. |
| TwitterDownloader.ManifestLineDecodes | twitter_video_downloader.py:110-111 | A manifest line is `file '`, the escaped path, `'` and a line break. The part between the quotes unescapes to the absolute path. |
| TwitterDownloader.ManifestAppend | twitter_video_downloader.py:108-111 | The manifest of two lists is that of the first followed by that of the second. |
| TwitterDownloader.ManifestPrefix | twitter_video_downloader.py:108-111 | Each loop step appends the line of the next video to the manifest written so far. |
| TwitterDownloader.ManifestLineCount | twitter_video_downloader.py:107-112 | If no absolute path holds a line break, the manifest has exactly one line break per video. |
| TwitterDownloader.Disk.CreateConcatFile | twitter_video_downloader.py:95-115 | On success, the concat file holds exactly the manifest, written line by line, and no other file changes. On failure nothing changes and the result is false. |
| TwitterDownloader.Disk.ConcatenateVideos | twitter_video_downloader.py:117-169 | The temporary name is fresh, as `NamedTemporaryFile` guarantees. An empty list gives false before any file exists or FFmpeg runs. A manifest that cannot be written gives false; FFmpeg does not run, and the empty temporary file stays behind. Otherwise exactly `ffmpeg -y -f concat -safe 0 -i <manifest> -c copy <output>` runs on the manifest of the list, the result is its success, and the map of script-written files is as before minus the manifest. |
| TwitterDownloader.RunDownloader | twitter_video_downloader.py:193-249 | Exit status is 0 or 1. It is 1 with no URLs or no downloads, and no file the script writes itself changes. With `--no-concat` it is 0, and again no such file changes. Otherwise it is 0 exactly when the manifest is written and the concat command succeeds on the manifest of the downloaded files; the manifest is then removed, or left behind empty when it could not be written. |
| GenerateAndMerge.VisualStyleCategories | generate_and_merge.py:40-56 | The menu has 13 categories, in source order. |
| GenerateAndMerge.CategoriesDistinct | generate_and_merge.py:42-56 | The 13 category names are pairwise different. |
| GenerateAndMerge.StyleForOnMenu | generate_and_merge.py:74-78 | A valid number stands for "Random" or one of the first twelve categories, never "Lighting Techniques". |
| GenerateAndMerge.MenuNumberStyleFor | generate_and_merge.py:74-78 | Different numbers select different styles: the number of the style selected by `n` is `n`. |
| GenerateAndMerge.StyleForMenuNumber | generate_and_merge.py:74-78 | A style has a menu number exactly when it is "Random" or one of the first twelve categories, and that number selects it. |
| GenerateAndMerge.Selection | generate_and_merge.py:73-74 | An accepted line is a number in 1..13, read as `int()` reads it. |
| GenerateAndMerge.AnswerIsFirstValid | generate_and_merge.py:70-82 | The loop chooses exactly when some line is a number in 1..13. It then has read up to and including the first such line, with every earlier line refused. The style is what that line's number stands for. |
| GenerateAndMerge.AnswerReadsInput | generate_and_merge.py:70-78 | A choice reads between one line and all of them. |
| GenerateAndMerge.RefusedLine | generate_and_merge.py:79-82 | A refused line costs one line of input and changes nothing else. |
| GenerateAndMerge.AnswerNeverLighting | generate_and_merge.py:55-78 | The prompt never returns "Lighting Techniques". |
| GenerateAndMerge.TypedNumberChooses | generate_and_merge.py:74-78 | Typing `n` from 1 to 12 chooses `categories[n-1]` at once, and 13 chooses "Random". |
| GenerateAndMerge.OutOfRangeReprompts | generate_and_merge.py:79-80 | A number outside 1..13 is refused and the prompt repeats. |
| GenerateAndMerge.NegativeReprompts | generate_and_merge.py:79-80 | A negative number is refused and the prompt repeats. |
| GenerateAndMerge.NonNumberReprompts | generate_and_merge.py:81-82 | A line with no digit (`ValueError`) is refused and the prompt repeats. |
| GenerateAndMerge.AcceptedAt | generate_and_merge.py:72-78 | A menu number on the first accepted line decides the answer. |
| GenerateAndMerge.RefusedAt | generate_and_merge.py:79-82 | Refusing a line moves the first accepted line further on. |
| GenerateAndMerge.PromptForVisualStyle | generate_and_merge.py:58-82 | The re-prompting loop returns exactly `Answer` of the typed lines. |
| GenerateAndMerge.MergeCommandPassesPath | generate_and_merge.py:233-235 | The merge command is `python merge_audio_video.py`, followed by `--ffmpeg-path p` exactly when a non-empty path is given. |
| GenerateAndMerge.QuitsOnlyOnQ | generate_and_merge.py:228-230 | The program quits exactly on `q` or `Q`. |
| GenerateAndMerge.RunMain | generate_and_merge.py:111-238 | With `--skip-prompt-generation` or `--random-style`, no menu is shown, no line is read and the style is `None`. Otherwise the style is the prompt's answer; running out of input ends the program. Then an exception from step 1 ends the run, whether it comes from generating the prompts or from reading the existing prompt files. A generation failure or missing prompt files stop it, a `q` answer quits, and anything else runs the merge command. |
| GenerateAndMerge.RepositoryGenerate | generate_and_merge.py:125 | Step 1 with the repository's own `generate_prompts` always raises. |
| GenerateAndMerge.RunMainAsWritten | generate_and_merge.py:119-136 | Without `--skip-prompt-generation`, `main` never reaches the merge command: it ends with the `TypeError`, or with `EOFError` exactly when the menu runs out of input. With the flag it behaves as `RunMain` with the prompt files. |

## Left out

- The other files of the repository are not part of this model:
  - `video_generation.py`, `music_generation.py`, `prompt_generate.py`, `inference/image_generateion.py` and `create_game_content.py` make remote API calls;
  - `daily_scheduler.py` runs a scheduling loop;
  - `services/*` loads credentials and posts tweets;
  - the test scripts drive live APIs.
- The child processes, `ffprobe`'s JSON parsing and the file system are represented by their outcomes, which are inputs. Which exception class a failure raises is kept only where the code distinguishes it.
- `str(target_duration)` is not modelled: the duration cap stays a number (`Arg.Seconds`). The `:.2f` prints are left out too. Durations are only compared.
- `hash`, `os.path.join`, `os.path.abspath` and `os.path.expanduser` are uninterpreted, and so is the name `NamedTemporaryFile` picks.
- The choice between `yt-dlp` on the `PATH` and the copy in the user's scripts folder is left out. It changes only which program is run.
- Directory creation (`os.makedirs`) is left out, and so is the `PATH` extension for `--ffmpeg-path` in `merge_audio_video.py`. When they succeed, neither changes any result the model states. The following file-system errors end the script with a traceback, and the model does not represent them:
  - `os.makedirs(args.output_dir, exist_ok=True)` raises `FileExistsError` when the path exists but is not a directory (`twitter_video_downloader.py:213`);
  - `os.listdir` raises `NotADirectoryError` when the input folder exists but is not a directory (`merge_audio_video.py:48`);
  - `NamedTemporaryFile` can fail to create its file (`twitter_video_downloader.py:133`).
- The video files `yt-dlp` writes into the output directory (`twitter_video_downloader.py:37-49`) and the file FFmpeg writes (`twitter_video_downloader.py:143-153`) are not on the model's `Disk`. Only their outcomes, and the sizes of the downloads, are inputs.
- How FFmpeg's concat demuxer parses the manifest is not modelled. It reads a backslash inside single quotes literally, and a `'` in a path is not escaped. The outcome of the concat run is an uninterpreted function of the command line and the manifest text.
- All printed text and argparse's own parsing and usage errors are left out. Parsed options are inputs.
- Text.Lower: lower-cases ASCII letters only, whereas Python's `str.lower` also lowers other letters. This can matter only for an extension check on a non-ASCII name.
- Text.ParseInt: accepts only the ASCII digits 0-9. Python's `int()` also accepts other Unicode decimal digits. The digit limit is Python's default of 4300; a limit changed through `PYTHONINTMAXSTRDIGITS` or `sys.set_int_max_str_digits` is not modelled.
- TwitterDownloader.Disk.CreateConcatFile: does not model a write that fails part-way. Writing either succeeds completely or fails before anything is written.
- TwitterDownloader.Disk.CreateConcatFile: the manifest text in the model, which is also the text the concat run is given, is the text before text mode's newline translation and encoding (`open(concat_file, 'w')`, `twitter_video_downloader.py:107`). On Windows each `\n` reaches the file as `\r\n`, and a path the locale's encoding cannot represent raises while writing. Neither is represented.
- TwitterDownloader.DownloadVideosFromList: the outcome of each download is a function of the stripped URL. Downloading the same URL twice gives the same outcome. The outcome is not tied to the file name it is saved under: two URLs whose hashes agree modulo 10000 write the same file, so the returned list can name one path twice, and the model does not capture this.
- GenerateAndMerge.RunMain: prompt generation and loading the prompt files are reduced to their outcome: succeeded, failed, or raised. For loading, failed is the `FileNotFoundError` the script catches, and raised is any other read error (a permission error, a folder in place of a file, undecodable text), which ends `main` with a traceback. `generated` stands for a generator with the signature the script calls, not for the one in `prompt_generate.py` (see "## Findings"). The printed instructions and the social-media caption only print, and are left out. The merge command is returned rather than run.
- GenerateAndMerge.RunMain: music generation (`--generate-music`, `--async`) is left out. It calls a remote service and writes the result as `game_music.wav` into the `input` folder (`music_generation.py:51-53`). That is the folder where `merge_audio_video.py` later takes the first `.wav` file, so it can change which audio is merged; in the model that folder's listing is an input to `RunMerge`.

## Findings

| source | as written | input that shows it | evidently intended | confidence | as-written member | corrected member |
|---|---|---|---|---|---|---|
| generate_and_merge.py:125-135 | `generate_prompts(visual_style_category=…, include_social=True)` is unpacked into three values, and `save_prompts_to_files` gets six arguments. `prompt_generate.py:11` defines `generate_prompts()` with no parameters and two results, and `prompt_generate.py:71` defines `save_prompts_to_files` with four parameters. | Any run without `--skip-prompt-generation`, e.g. `--random-style`: `TypeError` right after the style is settled, before the `q` prompt and the merge command. | A generator that takes the style and returns three prompts, and a saver for three files, so that step 1 can succeed. | high, not executed | GenerateAndMerge.RunMainAsWritten | GenerateAndMerge.RunMain |
