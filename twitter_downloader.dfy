/** The list handling of `twitter_video_downloader.py`: reading the URL file,
    downloading each URL in order, writing the concat manifest that `ffmpeg`
    reads, running the concatenation with its temporary-file cleanup, and the
    exit status of `main`.

    `yt-dlp`, `ffmpeg` and the file system are inputs: the outcome of every
    child process, Python's salted `hash`, `os.path.join` and
    `os.path.abspath` are function parameters, and the files the program
    writes are the contents of a `Disk`. */
module TwitterDownloader {
  import opened Wrappers
  import opened Text
  import opened Process
  import opened Sequences

  // ---------------------------------------------------------------------
  // read_urls_from_file

  /** A stripped line that `read_urls_from_file` keeps: not blank and not a
      `#` comment. */
  predicate IsUrlLine(url: string) {
    url != [] && !StartsWith(url, "#")
  }

  /** What one line contributes: its stripped text, unless that is blank or
      a comment. */
  function LineUrl(line: string): (r: seq<string>)
    ensures |r| <= 1
  {
    var url := Strip(line);
    if IsUrlLine(url) then [url] else []
  }

  /** The URLs of a file's lines: each line stripped, blank and comment lines
      dropped, file order kept. */
  function KeptUrls(lines: seq<string>): seq<string> {
    FlatMap(lines, LineUrl)
  }

  /** At most one URL per line. */
  lemma KeptUrlsBound(lines: seq<string>)
    ensures |KeptUrls(lines)| <= |lines|
  {
    FlatMapBound(lines, LineUrl);
  }

  /** Reading two parts of a file one after the other keeps the URLs of each
      part, in order. */
  lemma KeptUrlsAppend(a: seq<string>, b: seq<string>)
    ensures KeptUrls(a + b) == KeptUrls(a) + KeptUrls(b)
  {
    FlatMapAppend(a, b, LineUrl);
  }

  /** A URL is kept exactly when some line strips to it and it is neither
      blank nor a comment. */
  lemma KeptUrlsMembers(lines: seq<string>, url: string)
    ensures url in KeptUrls(lines) <==>
              IsUrlLine(url) && exists i :: 0 <= i < |lines| && Strip(lines[i]) == url
  {
    FlatMapMembers(lines, LineUrl, url);
    assert forall i :: 0 <= i < |lines| ==>
             (url in LineUrl(lines[i]) <==> IsUrlLine(url) && Strip(lines[i]) == url);
  }

  /** `read_urls_from_file`: `contents` is the file's lines as `for line in f`
      yields them, or `None` when opening or reading fails, in which case no
      URL at all is returned. */
  method ReadUrlsFromFile(contents: Option<seq<string>>) returns (urls: seq<string>)
    ensures contents.None? ==> urls == []
    ensures contents.Some? ==> urls == KeptUrls(contents.value)
  {
    if contents.None? {
      return [];
    }
    var lines := contents.value;
    urls := [];
    var i := 0;
    while i < |lines|
      invariant 0 <= i <= |lines|
      invariant urls == KeptUrls(lines[..i])
    {
      var url := Strip(lines[i]);
      if url != [] && !StartsWith(url, "#") {
        urls := urls + [url];
      }
      assert lines[..i + 1][..i] == lines[..i];
      i := i + 1;
    }
    assert lines[..i] == lines;
  }

  // ---------------------------------------------------------------------
  // download_twitter_video

  /** The name `download_twitter_video` downloads to:
      `twitter_video_NNNN.mp4`, where `NNNN` is `hash(url) % 10000` written
      with exactly four digits. Python's `%` by a positive number is never
      negative, as Dafny's is. */
  function VideoFileName(url: string, hash: string -> int): (name: string)
    ensures |name| == 22 && name[..14] == "twitter_video_" && name[18..] == ".mp4"
    ensures AllDigits(name[14..18]) && DigitsValue(name[14..18]) == hash(url) % 10000
  {
    var bucket := hash(url) % 10000;
    assert Pow10(4) == 10000 by {
      assert Pow10(1) == 10;
      assert Pow10(2) == 100;
      assert Pow10(3) == 1000;
    }
    var digits := ZeroPadded(bucket, 4);
    var name := "twitter_video_" + digits + ".mp4";
    assert name[14..18] == digits;
    name
  }

  /** `download_twitter_video(url, output_dir)`: `ytDlp` is how the `yt-dlp`
      run ended and `sizes` the sizes of the files that exist afterwards. The
      target path is returned only when `yt-dlp` exited with 0 and left a
      non-empty file there; every other outcome gives `None`. */
  function DownloadTwitterVideo(url: string, outputDir: string, hash: string -> int,
                                join: (string, string) -> string, ytDlp: Run,
                                sizes: map<string, nat>): (r: Option<string>)
    ensures var target := join(outputDir, VideoFileName(url, hash));
            && (r.Some? <==> ytDlp.Succeeded() && target in sizes && sizes[target] > 0)
            && (r.Some? ==> r.value == target)
  {
    var filename := join(outputDir, VideoFileName(url, hash));
    if ytDlp.Succeeded() && filename in sizes && sizes[filename] > 0 then Some(filename) else None
  }

  // ---------------------------------------------------------------------
  // download_videos_from_list

  /** How many entries of the list are not blank once stripped: the number of
      downloads attempted. */
  function Attempts(urls: seq<string>): (n: nat)
    ensures n <= |urls|
  {
    if urls == [] then 0
    else Attempts(urls[..|urls| - 1]) + (if Strip(urls[|urls| - 1]) != [] then 1 else 0)
  }

  /** What one entry contributes: the file its download produced, if the
      entry is not blank and the download gave a non-empty path. */
  function EntryFile(entry: string, fetch: string -> Option<string>): (r: seq<string>)
    ensures |r| <= (if Strip(entry) != [] then 1 else 0)
  {
    var url := Strip(entry);
    if url != [] && Truthy(fetch(url)) then [fetch(url).value] else []
  }

  /** The files `download_videos_from_list` collects, where `fetch(url)` is
      what `download_twitter_video` returns for the stripped `url`, in list
      order. */
  function Collected(urls: seq<string>, fetch: string -> Option<string>): seq<string> {
    FlatMap(urls, entry => EntryFile(entry, fetch))
  }

  /** At most one file per attempted download. */
  lemma {:induction false} CollectedBound(urls: seq<string>, fetch: string -> Option<string>)
    ensures |Collected(urls, fetch)| <= Attempts(urls)
  {
    if urls != [] {
      CollectedBound(urls[..|urls| - 1], fetch);
    }
  }

  /** Downloading two lists one after the other collects the files of each
      list, in order. */
  lemma CollectedAppend(a: seq<string>, b: seq<string>, fetch: string -> Option<string>)
    ensures Collected(a + b, fetch) == Collected(a, fetch) + Collected(b, fetch)
  {
    FlatMapAppend(a, b, entry => EntryFile(entry, fetch));
  }

  /** A file is collected exactly when it is the non-empty download result of
      some entry that is not blank. */
  lemma CollectedMembers(urls: seq<string>, fetch: string -> Option<string>, file: string)
    ensures file in Collected(urls, fetch) <==>
              file != [] && exists i :: 0 <= i < |urls| && Strip(urls[i]) != []
                                        && fetch(Strip(urls[i])) == Some(file)
  {
    var f := entry => EntryFile(entry, fetch);
    FlatMapMembers(urls, f, file);
    assert forall i :: 0 <= i < |urls| ==>
             (file in f(urls[i]) <==>
                file != [] && Strip(urls[i]) != [] && fetch(Strip(urls[i])) == Some(file));
  }

  /** `download_videos_from_list`: blank entries are skipped, each other entry
      is downloaded once, in order, and each non-empty result is appended. */
  method DownloadVideosFromList(urlList: seq<string>, fetch: string -> Option<string>)
    returns (downloaded: seq<string>)
    ensures downloaded == Collected(urlList, fetch)
  {
    downloaded := [];
    var i := 0;
    while i < |urlList|
      invariant 0 <= i <= |urlList|
      invariant downloaded == Collected(urlList[..i], fetch)
    {
      assert urlList[..i + 1][..i] == urlList[..i];
      var url := Strip(urlList[i]);
      if url != [] {
        var filePath := fetch(url);
        if filePath.Some? && filePath.value != "" {
          downloaded := downloaded + [filePath.value];
        }
      }
      i := i + 1;
    }
    assert urlList[..i] == urlList;
  }

  // ---------------------------------------------------------------------
  // create_concat_file

  /** How often `c` occurs in `s`. */
  function Count(s: string, c: char): nat {
    if s == [] then 0 else (if s[0] == c then 1 else 0) + Count(s[1..], c)
  }

  lemma {:induction false} CountAppend(a: string, b: string, c: char)
    ensures Count(a + b, c) == Count(a, c) + Count(b, c)
  {
    if a == [] {
      assert a + b == b;
    } else {
      assert (a + b)[0] == a[0];
      assert (a + b)[1..] == a[1..] + b;
      CountAppend(a[1..], b, c);
    }
  }

  lemma {:induction false} CountAbsent(s: string, c: char)
    ensures c !in s <==> Count(s, c) == 0
  {
    if s != [] {
      CountAbsent(s[1..], c);
      assert s == [s[0]] + s[1..];
    }
  }

  /** `s.replace('\\', '\\\\')`: every backslash doubled. */
  function EscapeBackslashes(s: string): (r: string)
    ensures |r| == |s| + Count(s, '\\')
  {
    if s == [] then []
    else (if s[0] == '\\' then "\\\\" else [s[0]]) + EscapeBackslashes(s[1..])
  }

  /** The inverse reading: every doubled backslash read as one. */
  function UnescapeBackslashes(s: string): string {
    if s == [] then []
    else if |s| >= 2 && s[0] == '\\' && s[1] == '\\' then "\\" + UnescapeBackslashes(s[2..])
    else [s[0]] + UnescapeBackslashes(s[1..])
  }

  /** Escaping loses nothing: reading the doubled backslashes back gives the
      original path. */
  lemma {:induction false} UnescapeEscape(s: string)
    ensures UnescapeBackslashes(EscapeBackslashes(s)) == s
  {
    if s != [] {
      UnescapeEscape(s[1..]);
      var rest := EscapeBackslashes(s[1..]);
      if s[0] == '\\' {
        assert ("\\\\" + rest)[2..] == rest;
      } else {
        assert ([s[0]] + rest)[1..] == rest;
      }
      assert s == [s[0]] + s[1..];
    }
  }

  /** Escaping adds no line break. */
  lemma {:induction false} EscapeKeepsNewlines(s: string)
    ensures Count(EscapeBackslashes(s), '\n') == Count(s, '\n')
  {
    if s != [] {
      EscapeKeepsNewlines(s[1..]);
      CountAppend(if s[0] == '\\' then "\\\\" else [s[0]], EscapeBackslashes(s[1..]), '\n');
    }
  }

  /** The manifest line for one absolute path: `file '<path>'` and a line
      break, with the path's backslashes doubled. */
  function ManifestLine(absPath: string): string {
    "file '" + EscapeBackslashes(absPath) + "'\n"
  }

  /** The doubling loses nothing: a manifest line starts with `file '`, ends
      with a quote and a line break, and what lies between gives the path back
      under `UnescapeBackslashes`, the inverse of the doubling. This is not a
      statement about how the concat demuxer reads the line: it takes a
      backslash inside single quotes literally, and a quote inside the path is
      not escaped at all. */
  lemma ManifestLineDecodes(absPath: string)
    ensures var line := ManifestLine(absPath);
            && |line| >= 8 && line[..6] == "file '" && line[|line| - 2..] == "'\n"
            && UnescapeBackslashes(line[6..|line| - 2]) == absPath
  {
    var e := EscapeBackslashes(absPath);
    var line := ManifestLine(absPath);
    assert line[6..|line| - 2] == e;
    UnescapeEscape(absPath);
  }

  /** The text `create_concat_file` writes: one manifest line per video, in
      list order. */
  function Manifest(videoFiles: seq<string>, abspath: string -> string): string {
    FlatMap(videoFiles, p => ManifestLine(abspath(p)))
  }

  /** The manifest of two lists is the manifest of the first followed by that
      of the second. */
  lemma ManifestAppend(a: seq<string>, b: seq<string>, abspath: string -> string)
    ensures Manifest(a + b, abspath) == Manifest(a, abspath) + Manifest(b, abspath)
  {
    FlatMapAppend(a, b, p => ManifestLine(abspath(p)));
  }

  /** Writing one more line extends the manifest of a prefix of the list. */
  lemma ManifestPrefix(videoFiles: seq<string>, i: nat, abspath: string -> string)
    requires i < |videoFiles|
    ensures Manifest(videoFiles[..i + 1], abspath) ==
              Manifest(videoFiles[..i], abspath) + ManifestLine(abspath(videoFiles[i]))
  {
    assert videoFiles[..i + 1][..i] == videoFiles[..i];
  }

  /** Exactly one line per video: when no absolute path holds a line break,
      the manifest holds exactly as many line breaks as there are videos. */
  lemma {:induction false} ManifestLineCount(videoFiles: seq<string>, abspath: string -> string)
    requires forall i :: 0 <= i < |videoFiles| ==> '\n' !in abspath(videoFiles[i])
    ensures Count(Manifest(videoFiles, abspath), '\n') == |videoFiles|
  {
    if videoFiles != [] {
      var init := videoFiles[..|videoFiles| - 1];
      var p := abspath(videoFiles[|videoFiles| - 1]);
      ManifestLineCount(init, abspath);
      CountAppend(Manifest(init, abspath), ManifestLine(p), '\n');
      CountAppend("file '" + EscapeBackslashes(p), "'\n", '\n');
      CountAppend("file '", EscapeBackslashes(p), '\n');
      CountAbsent(p, '\n');
      EscapeKeepsNewlines(p);
    }
  }

  /** The command `concatenate_videos` runs on the manifest. */
  function ConcatCommand(manifest: string, outputFile: string): seq<string> {
    ["ffmpeg", "-y", "-f", "concat", "-safe", "0", "-i", manifest, "-c", "copy", outputFile]
  }

  /** Writing a file twice leaves what the second write wrote. */
  lemma Rewrite(m: map<string, string>, k: string, a: string, b: string)
    ensures m[k := a][k := b] == m[k := b]
  {
  }

  /** Deleting a file undoes writing it. */
  lemma Discard(m: map<string, string>, k: string, a: string)
    ensures m[k := a] - {k} == m - {k}
  {
  }

  /** The files on disk, by path, with their text. */
  class Disk {
    var files: map<string, string>

    constructor (initial: map<string, string>)
      ensures files == initial
    {
      files := initial;
    }

    /** `create_concat_file(video_files, concat_file)`: `canWrite` says whether
        opening and writing succeed. On success the file holds exactly the
        manifest, written line by line; on failure nothing is written and the
        result is `False`. */
    method CreateConcatFile(videoFiles: seq<string>, concatFile: string,
                            abspath: string -> string, canWrite: bool) returns (ok: bool)
      modifies this
      ensures ok == canWrite
      ensures ok ==> files == old(files)[concatFile := Manifest(videoFiles, abspath)]
      ensures !ok ==> files == old(files)
    {
      if !canWrite {
        return false;
      }
      files := files[concatFile := ""];
      var i := 0;
      while i < |videoFiles|
        invariant 0 <= i <= |videoFiles|
        invariant files == old(files)[concatFile := Manifest(videoFiles[..i], abspath)]
      {
        var absPath := abspath(videoFiles[i]);
        var line := ManifestLine(absPath);
        ghost var before := files[concatFile];
        ManifestPrefix(videoFiles, i, abspath);
        Rewrite(old(files), concatFile, before, before + line);
        files := files[concatFile := files[concatFile] + line];
        i := i + 1;
      }
      assert videoFiles[..i] == videoFiles;
      return true;
    }

    /** `concatenate_videos(video_files, output_file)`: `tempName` is the
        fresh name `NamedTemporaryFile` picks (no file has it yet), `ffmpeg`
        the outcome of the concatenation run given its command line and the
        text of the file that command names after `-i`; `ran` is the command
        run, if any.
        - An empty list gives `False` before any file is created.
        - If the manifest cannot be written the result is `False`, the
          transcoder does not run, and the empty temporary file stays behind
          (this early return lies outside the cleanup).
        - Otherwise the exact concat command runs on the manifest of the
          list, the result is `True` exactly when it exits with 0, and the
          manifest is removed either way. */
    method ConcatenateVideos(videoFiles: seq<string>, outputFile: string, tempName: string,
                             abspath: string -> string, canWrite: bool,
                             ffmpeg: (seq<string>, string) -> Run) returns (ok: bool, ran: Option<seq<string>>)
      requires tempName !in files
      modifies this
      ensures videoFiles == [] ==> !ok && ran == None && files == old(files)
      ensures videoFiles != [] && !canWrite ==>
                !ok && ran == None && files == old(files)[tempName := ""]
      ensures videoFiles != [] && canWrite ==>
                && ran == Some(ConcatCommand(tempName, outputFile))
                && ok == ffmpeg(ConcatCommand(tempName, outputFile), Manifest(videoFiles, abspath)).Succeeded()
                && files == old(files) - {tempName}
    {
      if videoFiles == [] {
        return false, None;
      }
      ghost var start := files;
      files := files[tempName := ""];
      var written := CreateConcatFile(videoFiles, tempName, abspath, canWrite);
      if !written {
        return false, None;
      }
      ghost var manifest := Manifest(videoFiles, abspath);
      Rewrite(start, tempName, "", manifest);
      var cmd := ["ffmpeg", "-y", "-f", "concat", "-safe", "0", "-i", tempName, "-c", "copy", outputFile];
      assert cmd == ConcatCommand(tempName, outputFile);
      ran := Some(cmd);
      ok := ffmpeg(cmd, files[tempName]).Succeeded();
      if tempName in files {
        files := files - {tempName};
      }
      Discard(start, tempName, manifest);
    }
  }

  // ---------------------------------------------------------------------
  // main

  /** Where `main` takes its URLs from: `--url`, `--url-file` (with the
      file's lines, or `None` when it cannot be read) or `--urls`. */
  datatype UrlSource =
    | SingleUrl(url: string)
    | UrlFile(path: string, contents: Option<seq<string>>)
    | UrlList(urls: seq<string>)

  /** The URL list `main` works on; an empty `--url` or `--url-file` value is
      treated as absent and gives no URLs. */
  function RequestedUrls(source: UrlSource): seq<string> {
    match source
    case SingleUrl(url) => if url != "" then [url] else []
    case UrlFile(path, contents) =>
      if path != "" && contents.Some? then KeptUrls(contents.value) else []
    case UrlList(urls) => urls
  }

  /** `main` after argument parsing, with `tempName` the fresh name the
      temporary manifest gets: exit status 1 when there is no URL or no
      download succeeded; otherwise 0 with `--no-concat`, and with
      concatenation 0 exactly when the concat run over the manifest of the
      downloaded files succeeds. No file the script writes itself changes
      unless concatenation is attempted; once it is, the manifest is gone
      again, or left behind empty when it could not be written. */
  method RunDownloader(disk: Disk, source: UrlSource, outputDir: string, outputFile: string,
                       noConcat: bool, fetch: string -> Option<string>,
                       join: (string, string) -> string, tempName: string,
                       abspath: string -> string, canWrite: bool,
                       ffmpeg: (seq<string>, string) -> Run) returns (code: int)
    requires tempName !in disk.files
    modifies disk
    ensures code == 0 || code == 1
    ensures var urls := RequestedUrls(source);
            var downloaded := Collected(urls, fetch);
            && (urls == [] ==> code == 1)
            && (downloaded == [] ==> code == 1 && disk.files == old(disk.files))
            && (downloaded != [] && noConcat ==> code == 0 && disk.files == old(disk.files))
            && (downloaded != [] && !noConcat ==>
                  && (code == 0 <==>
                        canWrite &&
                        ffmpeg(ConcatCommand(tempName, join(outputDir, outputFile)), Manifest(downloaded, abspath)).Succeeded())
                  && disk.files == if canWrite then old(disk.files) - {tempName} else old(disk.files)[tempName := ""])
  {
    var urls: seq<string> := [];
    match source {
      case SingleUrl(url) =>
        if url != "" { urls := [url]; }
      case UrlFile(path, contents) =>
        if path != "" { urls := ReadUrlsFromFile(contents); }
      case UrlList(list) =>
        urls := list;
    }
    if urls == [] {
      return 1;
    }
    var downloaded := DownloadVideosFromList(urls, fetch);
    if downloaded == [] {
      return 1;
    }
    if !noConcat {
      var outputPath := join(outputDir, outputFile);
      var ok, ran := disk.ConcatenateVideos(downloaded, outputPath, tempName, abspath, canWrite, ffmpeg);
      return if ok then 0 else 1;
    }
    return 0;
  }
}
