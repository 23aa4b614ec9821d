/** The checks quick_setup.py runs: a `.env` file, the key variables, the template it writes, the summary. */
module QuickSetup {
  import opened Wrappers
  import opened PyText

  /** The text the template puts where a real key belongs. */
  const Placeholder: string := "your_actual_api_key_here"
  const GeminiMarker: string := "GEMINI_API_KEY="
  const GoogleMarker: string := "GOOGLE_API_KEY="

  // ---------------------------------------------------------------------------
  // `check_env_file`

  /** What opening `.env` in the working directory gives. */
  datatype EnvFile = Missing | Unreadable | Present(content: string)

  /** The branch `check_env_file` takes, one per message it prints. */
  datatype EnvStatus = NoFile | ReadError | GeminiKeyInFile | GoogleKeyInFile | NoValidKey

  function EnvFileStatus(file: EnvFile): (status: EnvStatus)
    ensures status == NoFile <==> file.Missing?
    ensures status == ReadError <==> file.Unreadable?
    ensures status.GeminiKeyInFile? || status.GoogleKeyInFile? ==> file.Present? && !Contains(file.content, Placeholder)
  {
    match file
    case Missing => NoFile
    case Unreadable => ReadError
    case Present(content) =>
      if Contains(content, GeminiMarker) && !Contains(content, Placeholder) then GeminiKeyInFile
      else if Contains(content, GoogleMarker) && !Contains(content, Placeholder) then GoogleKeyInFile
      else NoValidKey
  }

  /** The value `check_env_file` returns. */
  predicate EnvFileOk(file: EnvFile) {
    EnvFileStatus(file).GeminiKeyInFile? || EnvFileStatus(file).GoogleKeyInFile?
  }

  /** A file passes exactly when it can be read, names one of the two keys and nowhere holds the placeholder. */
  lemma {:induction false} EnvFileOkIff(file: EnvFile)
    ensures EnvFileOk(file) <==>
      file.Present? && (Contains(file.content, GeminiMarker) || Contains(file.content, GoogleMarker)) &&
      !Contains(file.content, Placeholder)
  {
  }

  /** The placeholder anywhere rejects the file, whatever key lines it also has; so does having neither key name. */
  lemma {:induction false} EnvFileRejects(content: string)
    ensures Contains(content, Placeholder) ==> EnvFileStatus(Present(content)) == NoValidKey
    ensures !Contains(content, GeminiMarker) && !Contains(content, GoogleMarker) ==>
      EnvFileStatus(Present(content)) == NoValidKey
  {
  }

  /** When both key names appear the Gemini message is the one printed. */
  lemma {:induction false} GeminiReportedFirst(content: string)
    requires Contains(content, GeminiMarker) && Contains(content, GoogleMarker) && !Contains(content, Placeholder)
    ensures EnvFileStatus(Present(content)) == GeminiKeyInFile
  {
  }

  // ---------------------------------------------------------------------------
  // `check_api_key`

  /** Python's `a or b` on two `os.getenv` results: `None` and `""` are false. */
  function OrElse(a: Option<string>, b: Option<string>): Option<string> {
    if a.Some? && a.value != "" then a else b
  }

  /** `os.getenv("GEMINI_API_KEY") or os.getenv("GOOGLE_API_KEY")`. */
  function SelectApiKey(gemini: Option<string>, google: Option<string>): (key: Option<string>)
    ensures key == gemini || key == google
    ensures key == None ==> google == None
  {
    OrElse(gemini, google)
  }

  /** The value `check_api_key` returns: the selected value is set, non-empty and not the placeholder. */
  predicate ApiKeyOk(gemini: Option<string>, google: Option<string>) {
    var key := SelectApiKey(gemini, google);
    key.Some? && key.value != "" && key.value != Placeholder
  }

  /** A set, non-empty Gemini value is always the one chosen; only an unset or empty one lets the Google value through. */
  lemma {:induction false} SelectionOrder(gemini: Option<string>, google: Option<string>)
    ensures gemini.Some? && gemini.value != "" ==> SelectApiKey(gemini, google) == gemini
    ensures gemini == None || gemini == Some("") ==> SelectApiKey(gemini, google) == google
  {
  }

  /** The key check, case by case: it judges the Gemini value alone when that is set and non-empty, else the Google value. */
  lemma {:induction false} ApiKeyOkIff(gemini: Option<string>, google: Option<string>)
    ensures ApiKeyOk(gemini, google) <==>
      if gemini.Some? && gemini.value != "" then gemini.value != Placeholder
      else google.Some? && google.value != "" && google.value != Placeholder
  {
  }

  /** A placeholder Gemini value hides any Google value, however valid. */
  lemma {:induction false} PlaceholderHidesGoogle(google: Option<string>)
    ensures !ApiKeyOk(Some(Placeholder), google)
  {
    assert Placeholder != "";
  }

  // ---------------------------------------------------------------------------
  // `create_env_file`

  /** The five lines `create_env_file` writes, in order. */
  const TemplateTitle: string := "# Gemini API Configuration\n"
  const TemplateSource: string := "# Get your API key from: https://aistudio.google.com/\n"
  const TemplateKeyLine: string := GeminiMarker + Placeholder + "\n\n"
  const TemplateAlternative: string := "# Alternative: You can also use GOOGLE_API_KEY\n"
  const TemplateCommentedKey: string := "# " + GoogleMarker + Placeholder + "\n"

  /** The whole template file. */
  const EnvTemplate: string :=
    TemplateTitle + TemplateSource + TemplateKeyLine + TemplateAlternative + TemplateCommentedKey

  /**
   * `create_env_file`: refuses when `.env` exists, otherwise writes the template line by line.
   * `canOpen` is whether opening the file for writing succeeds; an exception there is caught.
   */
  method CreateEnvFile(fileExists: bool, canOpen: bool) returns (ok: bool, written: Option<string>)
    ensures fileExists ==> !ok && written == None
    ensures !fileExists && !canOpen ==> !ok && written == None
    ensures !fileExists && canOpen ==> ok && written == Some(EnvTemplate)
  {
    if fileExists {
      return false, None;
    }
    if !canOpen {
      return false, None;
    }
    var text := "";
    text := text + TemplateTitle;
    assert text == TemplateTitle;
    text := text + TemplateSource;
    text := text + TemplateKeyLine;
    text := text + TemplateAlternative;
    text := text + TemplateCommentedKey;
    return true, Some(text);
  }

  /** The template names the Gemini key but still holds the placeholder, so `check_env_file` rejects it until it is edited. */
  lemma {:induction false} TemplateRejected()
    ensures Contains(EnvTemplate, GeminiMarker) && Contains(EnvTemplate, Placeholder)
    ensures EnvFileStatus(Present(EnvTemplate)) == NoValidKey && !EnvFileOk(Present(EnvTemplate))
  {
    StartsWithContains(GeminiMarker, GeminiMarker);
    StartsWithContains(Placeholder, Placeholder);
    ContainsLeft(GeminiMarker, Placeholder, GeminiMarker);
    ContainsRight(GeminiMarker, Placeholder, Placeholder);
    ContainsLeft(GeminiMarker + Placeholder, "\n\n", GeminiMarker);
    ContainsLeft(GeminiMarker + Placeholder, "\n\n", Placeholder);
    var head := TemplateTitle + TemplateSource;
    ContainsRight(head, TemplateKeyLine, GeminiMarker);
    ContainsRight(head, TemplateKeyLine, Placeholder);
    ContainsLeft(head + TemplateKeyLine, TemplateAlternative, GeminiMarker);
    ContainsLeft(head + TemplateKeyLine, TemplateAlternative, Placeholder);
    ContainsLeft(head + TemplateKeyLine + TemplateAlternative, TemplateCommentedKey, GeminiMarker);
    ContainsLeft(head + TemplateKeyLine + TemplateAlternative, TemplateCommentedKey, Placeholder);
  }

  // ---------------------------------------------------------------------------
  // `main`

  /** What the first command-line argument asks for after the status report. */
  datatype Command = StatusOnly | Install | CreateEnv | Help

  function ParseCommand(argv: seq<string>): (command: Command)
    ensures command != StatusOnly ==> |argv| > 1 && argv[1] in ["--install", "--create-env", "--help"]
  {
    if |argv| <= 1 then StatusOnly
    else if argv[1] == "--install" then Install
    else if argv[1] == "--create-env" then CreateEnv
    else if argv[1] == "--help" then Help
    else StatusOnly
  }

  /** The numbered next steps printed, one per failed check, in order. */
  function NextSteps(dotenvOk: bool, envFileOk: bool, apiKeyOk: bool): (steps: seq<nat>)
    ensures |steps| <= 3 && forall i :: 0 <= i < |steps| ==> 1 <= steps[i] <= 3
  {
    (if dotenvOk then [] else [1]) + (if envFileOk then [] else [2]) + (if apiKeyOk then [] else [3])
  }

  /** The condition for "Everything looks good!". */
  predicate AllGood(dotenvOk: bool, envFileOk: bool, apiKeyOk: bool) {
    dotenvOk && envFileOk && apiKeyOk
  }

  /** Step 1, 2 or 3 is printed exactly when its check failed, the steps come in increasing order, and "Everything looks good!" appears exactly when no step does. */
  lemma {:induction false} SummaryConsistent(dotenvOk: bool, envFileOk: bool, apiKeyOk: bool)
    ensures var steps := NextSteps(dotenvOk, envFileOk, apiKeyOk);
      (1 in steps <==> !dotenvOk) && (2 in steps <==> !envFileOk) && (3 in steps <==> !apiKeyOk) &&
      (forall i, j :: 0 <= i < j < |steps| ==> steps[i] < steps[j]) &&
      (AllGood(dotenvOk, envFileOk, apiKeyOk) <==> steps == [])
  {
  }

  /** Everything one run of `main` reports and decides. */
  datatype Report = Report(dotenvOk: bool, envFileOk: bool, apiKeyOk: bool, steps: seq<nat>, allGood: bool, command: Command)

  /** `main`, with the import probe, the `.env` file, the two variables and the command line as inputs. */
  function Setup(dotenvInstalled: bool, file: EnvFile, gemini: Option<string>, google: Option<string>,
                 argv: seq<string>): (report: Report)
    ensures report.allGood <==> report.steps == []
    ensures !report.apiKeyOk ==> 3 in report.steps
  {
    var envFileOk := EnvFileOk(file);
    var apiKeyOk := ApiKeyOk(gemini, google);
    Report(dotenvInstalled, envFileOk, apiKeyOk, NextSteps(dotenvInstalled, envFileOk, apiKeyOk),
           AllGood(dotenvInstalled, envFileOk, apiKeyOk), ParseCommand(argv))
  }

  /** A fresh template in `.env` is never "all good": the file check fails and step 2 is printed. */
  lemma {:induction false} FreshTemplateNeedsEditing(dotenvInstalled: bool, gemini: Option<string>,
                                                     google: Option<string>, argv: seq<string>)
    ensures var report := Setup(dotenvInstalled, Present(EnvTemplate), gemini, google, argv);
      !report.envFileOk && !report.allGood && 2 in report.steps
  {
    TemplateRejected();
    SummaryConsistent(dotenvInstalled, false, ApiKeyOk(gemini, google));
  }

  /** Only the three exact flags select an action; any other argument just shows the status. */
  lemma {:induction false} CommandsAreExact(prog: string, flag: string)
    ensures ParseCommand([prog, flag]) != StatusOnly <==> flag in ["--install", "--create-env", "--help"]
  {
  }
}
