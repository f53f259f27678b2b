/** The decisions of `generate_and_merge.py` that do not call a remote
    service: the fixed visual-style menu, the re-prompting selection loop
    (`prompt_for_visual_style`), the flags that decide whether the menu is
    shown, the quit check and the `merge_audio_video.py` command line that
    `main` builds.

    The lines the user types are a sequence; `input()` on an exhausted
    sequence raises `EOFError`, which nothing in the script catches. Prompt
    generation and the loading of existing prompt files are reduced to their
    outcome: succeeded, failed, or raised an exception that ends `main`. */
module GenerateAndMerge {
  import opened Wrappers
  import opened Text
  import opened Sequences

  // ---------------------------------------------------------------------
  // get_visual_style_categories

  /** The menu of visual style categories, in menu order. */
  function VisualStyleCategories(): (r: seq<string>)
    ensures |r| == 13
  {
    [ "Traditional Art Styles",
      "Modern Art Movements",
      "Digital & Contemporary",
      "Pixel Art Styles",
      "Film & Photography",
      "Animation Styles",
      "Video Game Aesthetics",
      "Experimental/Abstract",
      "International Styles",
      "Historical Periods",
      "Mixed Media",
      "Textures & Materials",
      "Lighting Techniques" ]
  }

  /** The names are pairwise different, so a name identifies its menu
      position. */
  lemma CategoriesDistinct()
    ensures var r := VisualStyleCategories();
            forall i, j :: 0 <= i < j < |r| ==> r[i] != r[j]
  {
  }

  // ---------------------------------------------------------------------
  // prompt_for_visual_style

  /** The style a valid menu number stands for: 13 is "Random" (`None`),
      every other number the category at that position. Number 13 is also the
      position of the last category, which is therefore never chosen. */
  function StyleFor(n: int): Option<string>
    requires 1 <= n <= 13
  {
    if n == 13 then None else Some(VisualStyleCategories()[n - 1])
  }

  /** A valid number stands for "Random" or for one of the first twelve
      categories, never for the last one. */
  lemma StyleForOnMenu(n: int)
    requires 1 <= n <= 13
    ensures StyleFor(n).Some? ==> StyleFor(n).value in VisualStyleCategories()[..12]
    ensures StyleFor(n) != Some(VisualStyleCategories()[12])
  {
    CategoriesDistinct();
  }

  /** The number to type for a style: 13 for "Random", the menu position of
      a selectable category, 0 (a number the menu refuses) for anything else. */
  function MenuNumber(style: Option<string>): int {
    match style
    case None => 13
    case Some(s) =>
      var k := FirstIndex(VisualStyleCategories()[..12], c => c == s);
      if k < 12 then k + 1 else 0
  }

  /** Different menu numbers give different styles: typing the number of the
      style a number stands for gives that number back. */
  lemma MenuNumberStyleFor(n: int)
    requires 1 <= n <= 13
    ensures MenuNumber(StyleFor(n)) == n
  {
    CategoriesDistinct();
    if n < 13 {
      var cats := VisualStyleCategories()[..12];
      var k := FirstIndex(cats, c => c == cats[n - 1]);
      assert k <= n - 1;
    }
  }

  /** Every style the menu offers has a number that selects it, and so does
      "Random"; the last category has none. */
  lemma StyleForMenuNumber(style: Option<string>)
    ensures 1 <= MenuNumber(style) <= 13 <==>
              style.None? || style.value in VisualStyleCategories()[..12]
    ensures 1 <= MenuNumber(style) <= 13 ==> StyleFor(MenuNumber(style)) == style
  {
    if style.Some? {
      var all := VisualStyleCategories();
      var cats := all[..12];
      var s := style.value;
      var k := FirstIndex(cats, c => c == s);
      if k < 12 {
        assert cats[k] == s;
        assert StyleFor(k + 1) == Some(all[k]);
      } else {
        forall j | 0 <= j < 12
          ensures cats[j] != s
        {
          assert !(c => c == s)(cats[j]);
        }
      }
    }
  }

  /** The menu number a typed line selects: Python's `int()` of the line, if
      that succeeds and lies in 1..13. */
  function Selection(line: string): (r: Option<int>)
    ensures r.Some? ==> 1 <= r.value <= 13
  {
    match ParseInt(line)
    case Some(n) => if 1 <= n <= 13 then Some(n) else None
    case None => None
  }

  /** How the selection loop ends: with a style after reading `linesRead`
      lines, or with `EOFError` because the input ran out. */
  datatype Prompted = Chose(style: Option<string>, linesRead: nat) | InputEnded

  /** The same ending, `k` lines later. */
  function AfterLines(p: Prompted, k: nat): Prompted {
    match p
    case Chose(style, n) => Chose(style, n + k)
    case InputEnded => InputEnded
  }

  /** A line the menu accepts. */
  predicate Accepted(line: string) {
    Selection(line).Some?
  }

  /** What `prompt_for_visual_style` makes of the lines typed: every line that
      is not a number in 1..13 is refused and the prompt repeats, so the
      answer is the first accepted line, if there is one. */
  function Answer(inputs: seq<string>): Prompted {
    var k := FirstIndex(inputs, Accepted);
    if k == |inputs| then InputEnded else Chose(StyleFor(Selection(inputs[k]).value), k + 1)
  }

  /** The loop stops at the first acceptable line and at no other: it chooses
      exactly when some line is a number in 1..13, it has then read up to and
      including the first such line, and the style is what that number
      stands for. */
  lemma AnswerIsFirstValid(inputs: seq<string>)
    ensures Answer(inputs).Chose? <==> exists i :: 0 <= i < |inputs| && Accepted(inputs[i])
    ensures Answer(inputs).Chose? ==>
              var k := Answer(inputs).linesRead;
              && 1 <= k <= |inputs|
              && Accepted(inputs[k - 1])
              && (forall j :: 0 <= j < k - 1 ==> !Accepted(inputs[j]))
              && Answer(inputs).style == StyleFor(Selection(inputs[k - 1]).value)
  {
    FirstIndexFound(inputs, Accepted);
    var k := FirstIndex(inputs, Accepted);
    if k < |inputs| {
      var n := Selection(inputs[k]).value;
      assert Answer(inputs) == Chose(StyleFor(n), k + 1);
      assert Answer(inputs).linesRead - 1 == k;
    }
  }

  /** A chosen answer has read at least one line and no more than there
      are. */
  lemma AnswerReadsInput(inputs: seq<string>)
    ensures Answer(inputs).Chose? ==> 1 <= Answer(inputs).linesRead <= |inputs|
  {
  }

  /** A refused line costs one line and changes nothing else. */
  lemma RefusedLine(line: string, rest: seq<string>)
    requires !Accepted(line)
    ensures Answer([line] + rest) == AfterLines(Answer(rest), 1)
  {
    FirstIndexCons(line, rest, Accepted);
    var k := FirstIndex(rest, Accepted);
    if k < |rest| {
      assert ([line] + rest)[k + 1] == rest[k];
      var style := StyleFor(Selection(rest[k]).value);
      assert Answer(rest) == Chose(style, k + 1);
      assert Answer([line] + rest) == Chose(style, k + 2);
    }
  }

  /** "Lighting Techniques" is on the menu but the loop never returns it. */
  lemma AnswerNeverLighting(inputs: seq<string>)
    ensures Answer(inputs).Chose? ==> Answer(inputs).style != Some("Lighting Techniques")
  {
    AnswerIsFirstValid(inputs);
    if Answer(inputs).Chose? {
      StyleForOnMenu(Selection(inputs[Answer(inputs).linesRead - 1]).value);
    }
  }

  /** Typing a menu number chooses at once: 1 to 12 the category at that
      position, 13 "Random". */
  lemma TypedNumberChooses(n: nat, rest: seq<string>)
    requires 1 <= n <= 13
    ensures n <= 12 ==> Answer([DecimalString(n)] + rest) == Chose(Some(VisualStyleCategories()[n - 1]), 1)
    ensures n == 13 ==> Answer([DecimalString(n)] + rest) == Chose(None, 1)
  {
    ParseIntDecimal(n);
    assert Selection(([DecimalString(n)] + rest)[0]) == Some(n);
    FirstIndexAt([DecimalString(n)] + rest, Accepted, 0);
  }

  /** A number outside 1..13, typed in plain decimal, is refused and the
      prompt repeats on the following lines. */
  lemma OutOfRangeReprompts(n: nat, rest: seq<string>)
    requires n == 0 || n > 13
    ensures Answer([DecimalString(n)] + rest) == AfterLines(Answer(rest), 1)
  {
    ParseIntDecimal(n);
    RefusedLine(DecimalString(n), rest);
  }

  /** A negative number is refused and the prompt repeats. */
  lemma NegativeReprompts(n: nat, rest: seq<string>)
    ensures Answer(["-" + DecimalString(n)] + rest) == AfterLines(Answer(rest), 1)
  {
    ParseIntNegative(n);
    RefusedLine("-" + DecimalString(n), rest);
  }

  /** A line with no digit in it (an empty line, a word) is refused and the
      prompt repeats. */
  lemma NonNumberReprompts(line: string, rest: seq<string>)
    requires forall i :: 0 <= i < |line| ==> !IsDigit(line[i])
    ensures Answer([line] + rest) == AfterLines(Answer(rest), 1)
  {
    ParseIntNeedsDigit(line);
    RefusedLine(line, rest);
  }

  /** The line at `i`, read with nothing accepted before it, parses to a
      menu number: the loop answers with that number's style. */
  lemma AcceptedAt(inputs: seq<string>, i: nat, n: int)
    requires i < |inputs| && i <= FirstIndex(inputs, Accepted)
    requires ParseInt(inputs[i]) == Some(n) && 1 <= n <= 13
    ensures Answer(inputs) == Chose(StyleFor(n), i + 1)
  {
    assert Selection(inputs[i]) == Some(n);
    FirstIndexAt(inputs, Accepted, i);
  }

  /** The line at `i`, read with nothing accepted before it, is not a menu
      number: nothing up to and including it is accepted. */
  lemma RefusedAt(inputs: seq<string>, i: nat)
    requires i < |inputs| && i <= FirstIndex(inputs, Accepted)
    requires ParseInt(inputs[i]).None? || !(1 <= ParseInt(inputs[i]).value <= 13)
    ensures i + 1 <= FirstIndex(inputs, Accepted)
  {
    assert !Accepted(inputs[i]);
    FirstIndexPast(inputs, Accepted, i);
  }

  /** `prompt_for_visual_style()`: reads lines until one is a number in
      1..13 and returns its style. */
  method PromptForVisualStyle(inputs: seq<string>) returns (r: Prompted)
    ensures r == Answer(inputs)
  {
    var categories := VisualStyleCategories();
    var i := 0;
    while true
      invariant 0 <= i <= |inputs|
      invariant i <= FirstIndex(inputs, Accepted)
      decreases |inputs| - i
    {
      if i == |inputs| {
        return InputEnded;
      }
      var selection := inputs[i];
      var selectionNum := ParseInt(selection);
      if selectionNum.Some? && 1 <= selectionNum.value <= 13 {
        var n := selectionNum.value;
        AcceptedAt(inputs, i, n);
        if n == 13 {
          return Chose(None, i + 1);
        } else {
          return Chose(Some(categories[n - 1]), i + 1);
        }
      }
      RefusedAt(inputs, i);
      i := i + 1;
    }
  }

  // ---------------------------------------------------------------------
  // main: flag gating, the quit check and the merge command

  /** The style menu is shown only when neither `--skip-prompt-generation`
      nor `--random-style` is given. */
  predicate AsksForStyle(skipPromptGeneration: bool, randomStyle: bool) {
    !skipPromptGeneration && !randomStyle
  }

  /** The command `main` runs to merge the media. */
  function MergeCommand(ffmpegPath: Option<string>): seq<string> {
    ["python", "merge_audio_video.py"] + (if Truthy(ffmpegPath) then ["--ffmpeg-path", ffmpegPath.value] else [])
  }

  /** The `--ffmpeg-path` value a `merge_audio_video.py` command line passes,
      read back from the arguments after the script name. */
  function FfmpegPathArgument(args: seq<string>): Option<string> {
    if |args| == 2 && args[0] == "--ffmpeg-path" then Some(args[1]) else None
  }

  /** The merge command always runs `merge_audio_video.py` and hands on the
      FFmpeg path exactly when one was given; with none given it passes no
      argument at all. */
  lemma MergeCommandPassesPath(ffmpegPath: Option<string>)
    ensures |MergeCommand(ffmpegPath)| >= 2
    ensures MergeCommand(ffmpegPath)[..2] == ["python", "merge_audio_video.py"]
    ensures FfmpegPathArgument(MergeCommand(ffmpegPath)[2..]) ==
              (if Truthy(ffmpegPath) then ffmpegPath else None)
    ensures !Truthy(ffmpegPath) ==> MergeCommand(ffmpegPath) == ["python", "merge_audio_video.py"]
  {
    var cmd := MergeCommand(ffmpegPath);
    if Truthy(ffmpegPath) {
      assert cmd[2..] == ["--ffmpeg-path", ffmpegPath.value];
    } else {
      assert cmd[2..] == [];
    }
  }

  /** The confirmation answer that ends the program: `q`, in either case. */
  predicate Quits(answer: string) {
    Lower(answer) == "q"
  }

  /** `user_input.lower() == 'q'` holds for exactly the two one-letter
      answers. */
  lemma QuitsOnlyOnQ(answer: string)
    ensures Quits(answer) <==> answer == "q" || answer == "Q"
  {
    LowerIsQ(answer);
  }

  /** How the interactive part of `main` ends. */
  datatype MainEnd =
    | EndOfInput          // `input()` raised EOFError
    | Crashed             // step 1 raised an exception that ends `main`
    | NoPrompts           // prompt generation failed or the prompt files are missing
    | QuitRequested       // the user answered `q`
    | RanMerge(command: seq<string>)

  /** What `main` does after the style is settled: end with the exception
      step 1 raised, stop if step 1 failed, then read the confirmation line
      and either quit or run the merge command. */
  function Finish(ready: Completion<bool>, rest: seq<string>, ffmpegPath: Option<string>): MainEnd {
    if ready.Raised? then Crashed
    else if !ready.value then NoPrompts
    else if rest == [] then EndOfInput
    else if Quits(rest[0]) then QuitRequested
    else RanMerge(MergeCommand(ffmpegPath))
  }

  /** `main` after argument parsing. `generated(style)` is the outcome of
      step 1 for that style: whether `generate_prompts` returns all three
      prompts and they are saved, or `Raised` when it raises. `loaded` is
      the outcome of reading the existing prompt files under
      `--skip-prompt-generation`: `Returned(false)` for the
      `FileNotFoundError` the script catches, `Raised` for any other read
      error; `inputs` are the lines typed. `style` is
      the style handed to prompt generation. With either flag given the
      menu consumes no input and the style is `None`. */
  method RunMain(skipPromptGeneration: bool, randomStyle: bool, ffmpegPath: Option<string>,
                 generated: Option<string> -> Completion<bool>, loaded: Completion<bool>, inputs: seq<string>)
    returns (style: Option<string>, end: MainEnd)
    ensures !AsksForStyle(skipPromptGeneration, randomStyle) ==>
              && style == None
              && end == Finish(if skipPromptGeneration then loaded else generated(None), inputs, ffmpegPath)
    ensures AsksForStyle(skipPromptGeneration, randomStyle) ==>
              match Answer(inputs)
              case InputEnded => style == None && end == EndOfInput
              case Chose(s, k) =>
                style == s && k <= |inputs| && end == Finish(generated(s), inputs[k..], ffmpegPath)
  {
    var rest := inputs;
    style := None;
    if !skipPromptGeneration && !randomStyle {
      var prompted := PromptForVisualStyle(inputs);
      if prompted.InputEnded? {
        return None, EndOfInput;
      }
      AnswerReadsInput(inputs);
      style := prompted.style;
      rest := inputs[prompted.linesRead..];
    }
    var ready := if skipPromptGeneration then loaded else generated(style);
    if ready.Raised? {
      return style, Crashed;
    }
    if !ready.value {
      return style, NoPrompts;
    }
    if rest == [] {
      return style, EndOfInput;
    }
    var userInput := rest[0];
    if Lower(userInput) == "q" {
      return style, QuitRequested;
    }
    var mergeCmd := ["python", "merge_audio_video.py"];
    if Truthy(ffmpegPath) {
      mergeCmd := mergeCmd + ["--ffmpeg-path", ffmpegPath.value];
    }
    assert mergeCmd == MergeCommand(ffmpegPath);
    return style, RanMerge(mergeCmd);
  }

  /** Step 1 with the `generate_prompts` this repository defines: it takes no
      parameters, so calling it with `visual_style_category` and
      `include_social` raises `TypeError` whatever the style. */
  function RepositoryGenerate(style: Option<string>): (r: Completion<bool>)
    ensures r.Raised?
  {
    Raised
  }

  /** `main` as written against that `generate_prompts`: without
      `--skip-prompt-generation` it never reaches the merge command; it ends
      with the `TypeError` right after the style is settled, or with
      `EOFError` while the menu is still waiting for a number. With the flag
      it is `RunMain` with the prompt files. */
  method RunMainAsWritten(skipPromptGeneration: bool, randomStyle: bool, ffmpegPath: Option<string>,
                          loaded: Completion<bool>, inputs: seq<string>)
    returns (style: Option<string>, end: MainEnd)
    ensures !skipPromptGeneration ==> end == Crashed || end == EndOfInput
    ensures !skipPromptGeneration && randomStyle ==> end == Crashed
    ensures !skipPromptGeneration ==> (end == EndOfInput <==> !randomStyle && Answer(inputs).InputEnded?)
    ensures skipPromptGeneration ==> style == None && end == Finish(loaded, inputs, ffmpegPath)
  {
    style, end := RunMain(skipPromptGeneration, randomStyle, ffmpegPath, RepositoryGenerate, loaded, inputs);
  }
}
