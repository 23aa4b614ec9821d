/** The decisions `main` in quick_content_test.py takes around the script table and the word counter. */
module ContentTest {
  import opened Wrappers
  import opened PyText
  import opened WordCounter
  import opened SampleScripts

  // ---------------------------------------------------------------------------
  // The topic

  /** The topic taken when nothing but whitespace is typed at the prompt. */
  const PromptDefault: string := "How plants make oxygen"

  /**
   * `" ".join(sys.argv[1:])` when there are command-line arguments (`argv[0]` is the
   * program name), otherwise `input(...).strip() or "How plants make oxygen"`.
   */
  function ChooseTopic(argv: seq<string>, typed: string): (topic: string)
    ensures |argv| <= 1 ==> topic != [] && Strip(topic) == topic
  {
    StripIdempotent(typed);
    StripNoOuterSpace(PromptDefault);
    if |argv| > 1 then Join(argv[1..], " ")
    else if Strip(typed) != "" then Strip(typed)
    else PromptDefault
  }

  /** A topic typed at the prompt is never empty and never has whitespace at either end. */
  lemma {:induction false} PromptTopic(argv: seq<string>, typed: string)
    requires |argv| <= 1
    ensures var topic := ChooseTopic(argv, typed);
      topic != [] && Strip(topic) == topic &&
      (AllSpace(typed) ==> topic == PromptDefault) &&
      (!AllSpace(typed) ==> topic == Strip(typed))
  {
    StripEmptyIff(typed);
  }

  /** A blank answer at the prompt selects the hand-written oxygen script. */
  lemma {:induction false} BlankPromptGivesOxygen(argv: seq<string>, typed: string)
    requires |argv| <= 1 && AllSpace(typed)
    ensures CreateSampleScript(ChooseTopic(argv, typed)) == OxygenScript
  {
    PromptTopic(argv, typed);
  }

  /** Command-line words are joined with single spaces and used as they are: not stripped, possibly empty. */
  lemma {:induction false} CommandLineTopic(prog: string, a: string, b: string, typed: string)
    ensures ChooseTopic([prog, a], typed) == a
    ensures ChooseTopic([prog, a, b], typed) == a + " " + b
  {
    assert [prog, a][1..] == [a];
    assert [prog, a, b][1..] == [a, b];
    assert [a, b][1..] == [b];
    assert Join([b], " ") == b;
  }

  /** Arguments without spaces are recovered from the topic by splitting it at its spaces. */
  lemma {:induction false} CommandLineWords(argv: seq<string>, typed: string)
    requires |argv| > 1
    requires forall k :: 1 <= k < |argv| ==> ' ' !in argv[k]
    ensures SplitOn(ChooseTopic(argv, typed), ' ') == argv[1..]
  {
    var words := argv[1..];
    forall k | 0 <= k < |words| ensures ' ' !in words[k] {
      assert words[k] == argv[k + 1];
    }
    assert " " == [' '];
    SplitOnJoin(words, ' ');
  }

  // ---------------------------------------------------------------------------
  // The length check

  /** The word budget for one minute of audio. */
  const WordLimit: nat := 150

  /** `word_count > 150`: the condition for printing the length warning. */
  predicate OverLimit(count: nat) {
    count > WordLimit
  }

  /** Exactly 150 words is still within the budget, 151 is not, and more words never remove a warning. */
  lemma {:induction false} WarningThreshold(n: nat, m: nat)
    ensures !OverLimit(150) && OverLimit(151)
    ensures n <= m && OverLimit(n) ==> OverLimit(m)
  {
  }

  // ---------------------------------------------------------------------------
  // The script file

  /** `os.path.join('outputs', f'script-{timestamp}.md')` with a POSIX separator. */
  function ScriptPath(stamp: string): string {
    "outputs/script-" + stamp + ".md"
  }

  function TitleLine(topic: string): string {
    "# Educational Content Script: " + topic + "\n\n"
  }

  function GeneratedLine(generated: string): string {
    "Generated: " + generated + "\n"
  }

  const CountPrefix: string := "Word Count: "
  const CountSuffix: string := " words (Target: \U{2264}150 for 1-minute audio)\n\n"

  function CountLine(count: nat): string {
    CountPrefix + NatToString(count) + CountSuffix
  }

  /** The four `f.write` calls: three header lines, then the stripped script. */
  function ScriptFileText(topic: string, generated: string, count: nat, script: string): string {
    TitleLine(topic) + GeneratedLine(generated) + CountLine(count) + Strip(script)
  }

  /** The number written on the count line is the decimal text of the count and reads back as it. */
  lemma {:induction false} CountLineReadsBack(count: nat)
    ensures var line := CountLine(count);
      var digits := line[|CountPrefix|..|line| - |CountSuffix|];
      digits == NatToString(count) && AllDigits(digits) && ParseNat(digits) == count
  {
    var line := CountLine(count);
    assert line[|CountPrefix|..|line| - |CountSuffix|] == NatToString(count);
    ParseNatToString(count);
  }

  /** The file is the title, the timestamp, the count line and the stripped script, in that order, and its body has no outer whitespace. */
  lemma {:induction false} ScriptFileLayout(topic: string, generated: string, count: nat, script: string)
    ensures var text := ScriptFileText(topic, generated, count, script);
      var k := |TitleLine(topic)| + |GeneratedLine(generated)|;
      var b := k + |CountLine(count)|;
      b <= |text| &&
      text[..|TitleLine(topic)|] == TitleLine(topic) &&
      text[|TitleLine(topic)|..k] == GeneratedLine(generated) &&
      text[k..b] == CountLine(count) &&
      text[b..] == Strip(script) && Strip(text[b..]) == text[b..]
  {
    FourParts(TitleLine(topic), GeneratedLine(generated), CountLine(count), Strip(script));
    StripIdempotent(script);
  }

  /** The pieces of `a + b + c + d` sit at their offsets. */
  lemma {:induction false} FourParts(a: string, b: string, c: string, d: string)
    ensures var s := a + b + c + d;
      s[..|a|] == a && s[|a|..|a| + |b|] == b && s[|a| + |b|..|a| + |b| + |c|] == c && s[|a| + |b| + |c|..] == d
  {
    var s := a + b + c + d;
    assert s == a + (b + (c + d));
    assert s[|a|..] == b + (c + d);
    assert s[|a| + |b|..] == c + d;
  }

  // ---------------------------------------------------------------------------
  // The audio step

  /** `"SUCCESS" in result`: success is a substring anywhere in the reply. */
  predicate AudioSucceeded(result: string) {
    Contains(result, "SUCCESS")
  }

  /** Every reply that starts with "SUCCESS" counts, but so does one that only mentions it later. */
  lemma {:induction false} SubstringNotPrefix(result: string)
    ensures StartsWith(result, "SUCCESS") ==> AudioSucceeded(result)
    ensures AudioSucceeded("ERROR: no SUCCESS") && !StartsWith("ERROR: no SUCCESS", "SUCCESS")
  {
    if StartsWith(result, "SUCCESS") {
      StartsWithContains(result, "SUCCESS");
    }
    ContainsInfix("ERROR: no ", "SUCCESS", "");
    assert "ERROR: no " + "SUCCESS" + "" == "ERROR: no SUCCESS";
    assert "ERROR: no SUCCESS"[0] != 'S';
  }

  // ---------------------------------------------------------------------------
  // `main`

  /** How `main` ends. */
  datatype Outcome =
    | WriteFailed                 // opening or writing the script file raised; nothing catches it
    | VoiceRaised(error: string)  // importing or running the voice tool raised; caught
    | VoiceReplied(reply: string) // the voice tool returned a reply string

  /** What `main` returns: `None` when it raises instead. */
  function Returned(outcome: Outcome): (returned: Option<bool>)
    ensures returned == None <==> outcome.WriteFailed?
    ensures returned == Some(true) ==> outcome.VoiceReplied? && AudioSucceeded(outcome.reply)
  {
    match outcome
    case WriteFailed => None
    case VoiceRaised(_) => Some(false)
    case VoiceReplied(reply) => Some(AudioSucceeded(reply))
  }

  /** Everything one run of `main` decides. */
  datatype Run = Run(
    topic: string,
    script: string,
    wordCount: nat,
    warned: bool,
    scriptFile: string,
    fileText: Option<string>,
    outcome: Outcome)

  /**
   * What `main` does once it has a topic and its script: count, warn, write the file, call the
   * voice tool. The two clock readings, whether the file can be written and the voice tool
   * (`Err` for an exception) are inputs.
   */
  function Publish(topic: string, script: string, fileStamp: string, generated: string,
                   canWrite: bool, voice: string -> Result<string, string>): (run: Run)
    ensures run.fileText.Some? <==> canWrite
    ensures run.outcome.WriteFailed? <==> !canWrite
  {
    var count := WordCount(script);
    var path := ScriptPath(fileStamp);
    if !canWrite then
      Run(topic, script, count, OverLimit(count), path, None, WriteFailed)
    else
      var outcome := match voice(Strip(script))
        case Ok(reply) => VoiceReplied(reply)
        case Err(error) => VoiceRaised(error);
      Run(topic, script, count, OverLimit(count), path, Some(ScriptFileText(topic, generated, count, script)), outcome)
  }

  /** One run of `main`, from the command line and the typed answer onwards. */
  function QuickTest(argv: seq<string>, typed: string, fileStamp: string, generated: string,
                     canWrite: bool, voice: string -> Result<string, string>): (run: Run)
    ensures run.script == OxygenScript <==> run.topic == OxygenTopic
    ensures Contains(run.script, "Mike:") && Contains(run.script, "Sara:")
  {
    var topic := ChooseTopic(argv, typed);
    OxygenIff(topic);
    BothHostsSpeak(topic);
    Publish(topic, CreateSampleScript(topic), fileStamp, generated, canWrite, voice)
  }

  /** `main` returns True exactly when the file was written and the voice tool, given the stripped script, replied with "SUCCESS" somewhere. */
  lemma {:induction false} SuccessIff(topic: string, script: string, fileStamp: string, generated: string,
                                      canWrite: bool, voice: string -> Result<string, string>)
    ensures var run := Publish(topic, script, fileStamp, generated, canWrite, voice);
      var reply := voice(Strip(script));
      (Returned(run.outcome) == Some(true) <==> canWrite && reply.Ok? && AudioSucceeded(reply.value)) &&
      (Returned(run.outcome) == None <==> !canWrite)
  {
  }

  /** The length warning is advisory: whenever the file is written the voice tool is still called. */
  lemma {:induction false} WarningDoesNotStopAudio(topic: string, script: string, fileStamp: string, generated: string,
                                                   voice: string -> Result<string, string>)
    ensures var run := Publish(topic, script, fileStamp, generated, true, voice);
      run.warned == (run.wordCount > 150) && (run.outcome.VoiceRaised? || run.outcome.VoiceReplied?)
  {
  }

  /** The file written is laid out by `ScriptFileText` with the count computed for the script, and the stripped body written has that same count. */
  lemma {:induction false} FileRecordsCount(topic: string, script: string, fileStamp: string, generated: string,
                                            voice: string -> Result<string, string>)
    ensures var run := Publish(topic, script, fileStamp, generated, true, voice);
      run.wordCount == WordCount(script) &&
      run.fileText == Some(ScriptFileText(topic, generated, run.wordCount, script)) &&
      WordCount(Strip(script)) == run.wordCount
  {
    WordCountStrip(script);
  }
}
