# Content Creator quick scripts, modelled in Dafny

This project models two command-line helpers of the Content Creator crew.

- `quick_content_test.py` makes a short two-host dialogue ("Mike:" and "Sara:") about a topic.
  - `count_words` counts the script's dialogue words. On every line it leaves out the speaker label, which is everything up to the first `:`.
  - `create_sample_script` looks the topic up in a two-entry table. One entry is a hand-written oxygen dialogue. The other is a `"default"` template that has the topic in two slots.
  - `main` picks the topic, warns above 150 words, and writes a Markdown file with a three-line header followed by the stripped script. It then calls a voice tool and reports success when the reply contains `SUCCESS`.
- `quick_setup.py` checks an installation.
  - `check_env_file` reads `.env`. It passes when the text contains `GEMINI_API_KEY=` or `GOOGLE_API_KEY=` and does not contain the placeholder `your_actual_api_key_here` anywhere. Both are plain substring tests on the whole file, so a commented-out key name counts, and a placeholder on any line rejects the file.
  - `check_api_key` reads the `GEMINI_API_KEY` and `GOOGLE_API_KEY` variables.
  - `create_env_file` writes a template, but only when no `.env` exists.
  - `main` prints numbered next steps for the failed checks and dispatches on one command-line flag.

Modules:

- `Wrappers`: `Option` and `Result`.
- `PyText`: the Python string operations the scripts use, on `seq<char>`.
  - `in` becomes `Contains`.
  - `strip()` becomes `Strip`, which strips ASCII whitespace.
  - `split('\n')` becomes `SplitOn`.
  - `split()` becomes `Words`.
  - `split(':', 1)[1]` becomes `AfterFirst`.
  - `" ".join` becomes `Join`.
  - `str(n)` becomes `NatToString`.
- `WordCounter`: `count_words` as a method with a loop. It is proved against the recursive `WordCount`.
- `SampleScripts`: the script table, with every character of both entries.
- `ContentTest`: the decisions of `main` in `quick_content_test.py`.
- `QuickSetup`: `quick_setup.py`.

Points where the scripts behave differently from what their names and messages suggest:

- Success is recognised by `"SUCCESS"` appearing anywhere in the voice tool's reply, not only at its start (`ContentTest.SubstringNotPrefix`).
- The file body is `script.strip()`, not the script verbatim (`ContentTest.ScriptFileLayout`).
- `quick_content_test.py` checks no API key before generating. The generation runs whatever the environment holds.
- An exception while writing the script file is caught neither in `main` nor in the `__main__` block. Python then ends the program with exit status 1. The model records this as `Outcome.WriteFailed`, for which `Returned` is `None`. A voice call that fails or raises is caught, and the program ends with status 0 after printing a hint.

## Model

| member | source | states |
|---|---|---|
| WordCounter.CountWords | quick_content_test.py:14-26 | the loop over the stripped, newline-split lines returns exactly `WordCount(text)`, the sum of each line's dialogue words |
| WordCounter.LineWords | quick_content_test.py:20-25 | definition of one line's contribution: with a `:`, the words after the first `:`, stripped; otherwise all the line's words. Its properties are `LabelNeverCounted`, `BareLabel` and `BlankLine` |
| WordCounter.WordCount | quick_content_test.py:17-26 | definition of `count_words`: the sum of `LineWords` over the lines of the stripped text. `CountWords` is proved equal to it |
| WordCounter.LabelNeverCounted | quick_content_test.py:20-23 | for a speaker without `:`, the line `speaker:dialogue` counts exactly the words of `dialogue`; colons inside the dialogue stay part of it |
| WordCounter.BareLabel | quick_content_test.py:20-23 | a line that is only a label and a colon contributes 0 words |
| WordCounter.BlankLine | quick_content_test.py:24-25 | a whitespace-only line contributes 0 words |
| WordCounter.BlankText | quick_content_test.py:17-26 | empty or whitespace-only text counts 0 |
| WordCounter.StripDoesNotChangeCount | quick_content_test.py:17 | counting the lines of the unstripped text gives the same total as after the outer `strip()` |
| WordCounter.WordCountStrip | quick_content_test.py:17 | stripping a text before counting it does not change its count |
| WordCounter.WordCountJoin | quick_content_test.py:17-26 | the count of `a + "\n" + b` is the count of `a` plus the count of `b` |
| WordCounter.WordCountOfLines | quick_content_test.py:17-26 | newline-free lines joined with newlines count the sum of the per-line counts |
| WordCounter.ExampleLabelled | quick_content_test.py:20-23 | `"Mike: Hello there"` counts 2 |
| WordCounter.ExampleUnlabelled | quick_content_test.py:24-25 | `"Hello there"` counts 2 |
| WordCounter.ExampleBareLabel | quick_content_test.py:20-23 | `"Mike:"` counts 0 |
| WordCounter.ExampleInnerColon | quick_content_test.py:22 | `"A: b:c"` counts 1: only the first colon splits |
| WordCounter.ExampleSecondColon | quick_content_test.py:22 | `"A: b: c"` counts 2: the second colon is inside a counted word |
| PyText.StripIdempotent | quick_content_test.py:17 | `strip()` applied twice gives the same text as once |
| PyText.StripEmptyIff | quick_content_test.py:80 | the stripped text is empty exactly when the text is all whitespace |
| PyText.StripExact | quick_content_test.py:17 | `strip()` of whitespace, then a core with no whitespace at either end, then whitespace, is exactly that core |
| PyText.JoinSplitOn | quick_content_test.py:17 | joining the pieces of `split('\n')` with `"\n"` gives back the original text |
| PyText.SplitOnJoin | quick_content_test.py:17 | splitting `"\n".join(lines)` on newlines gives back the newline-free lines |
| PyText.WordsStrip | quick_content_test.py:22-23 | `strip()` before `split()` does not change the words |
| PyText.ContainsIff | quick_content_test.py:116 | the substring test holds exactly when the pattern occurs at some offset |
| PyText.ParseNatToString | quick_content_test.py:104 | the decimal text `str(n)` of a count reads back as the count |
| SampleScripts.CreateSampleScript | quick_content_test.py:28-73 | the oxygen topic gives the hand-written dialogue; every other topic gives the filled `"default"` template |
| SampleScripts.OxygenIff | quick_content_test.py:31-33 | the oxygen dialogue comes back exactly when the topic is exactly "How plants make oxygen" |
| SampleScripts.TemplateIsNotOxygen | quick_content_test.py:32-70 | no topic makes the template equal to the oxygen dialogue |
| SampleScripts.DistinctTopicsDistinctScripts | quick_content_test.py:28-73 | different topics always give different scripts |
| SampleScripts.TopicInserted | quick_content_test.py:55-67 | a non-oxygen topic appears right after the opening hook and again right before the closing thanks, followed by the fixed closing |
| SampleScripts.FillSlots | quick_content_test.py:54-70 | every piece of the filled template sits at its offset: hook, topic, middle, topic, closing |
| SampleScripts.FillInjective | quick_content_test.py:54-70 | the same template filled with two topics is equal only when the topics are |
| SampleScripts.BothHostsSpeak | quick_content_test.py:32-70 | every script is non-empty and contains both `Mike:` and `Sara:` |
| SampleScripts.DefaultKeyIsFallback | quick_content_test.py:54-73 | the topic `"default"` gets the template filled with "default" |
| SampleScripts.LookupIsExact | quick_content_test.py:73 | the lookup is exact: the lower-case topic gets the template, and a trailing space loses the oxygen dialogue |
| ContentTest.ChooseTopic | quick_content_test.py:77-80 | with no command-line arguments the topic is non-empty and has no whitespace at either end |
| ContentTest.PromptTopic | quick_content_test.py:79-80 | a prompted topic is non-empty and stripped: the stripped answer, or the oxygen topic when the answer is blank |
| ContentTest.BlankPromptGivesOxygen | quick_content_test.py:80-85 | a blank answer at the prompt selects the oxygen dialogue |
| ContentTest.CommandLineTopic | quick_content_test.py:77-78 | command-line words are joined with one space and used unstripped |
| ContentTest.CommandLineWords | quick_content_test.py:77-78 | arguments without spaces are recovered by splitting the topic at its spaces, the inverse of the join |
| ContentTest.OverLimit | quick_content_test.py:91 | definition of the warning condition, `count > 150`. Its properties are in `WarningThreshold` |
| ContentTest.ScriptPath | quick_content_test.py:97-99 | definition of the file name `outputs/script-<timestamp>.md` |
| ContentTest.CountLine | quick_content_test.py:104 | definition of the count line. It is read back by `CountLineReadsBack` |
| ContentTest.ScriptFileText | quick_content_test.py:101-105 | definition of the file contents: the three header lines, then the stripped script. Its layout is in `ScriptFileLayout` |
| ContentTest.AudioSucceeded | quick_content_test.py:116 | definition of the success test, `"SUCCESS" in result`. Its properties are in `SubstringNotPrefix` and `PyText.ContainsIff` |
| ContentTest.Returned | quick_content_test.py:116-126 | `main` raises instead of returning exactly when the write failed, and returns True only for a reply that contains SUCCESS |
| ContentTest.Publish | quick_content_test.py:88-126 | the file is written exactly when the write can succeed, and the run ends in `WriteFailed` exactly when it cannot |
| ContentTest.QuickTest | quick_content_test.py:77-126 | a whole run gives the oxygen dialogue exactly for the exact oxygen topic, and its script always contains both `Mike:` and `Sara:` |
| ContentTest.WarningThreshold | quick_content_test.py:91-94 | 150 words gives no warning, 151 words gives one, and more words never remove the warning |
| ContentTest.CountLineReadsBack | quick_content_test.py:104 | the number written between the count line's fixed prefix and suffix is the count's decimal text and parses back to the count |
| ContentTest.ScriptFileLayout | quick_content_test.py:101-105 | the file is the title line, then the timestamp line, then the count line, then the stripped script, each at its offset; the body has no outer whitespace |
| ContentTest.SubstringNotPrefix | quick_content_test.py:116 | a reply that starts with SUCCESS succeeds, and so does "ERROR: no SUCCESS", which does not start with it |
| ContentTest.SuccessIff | quick_content_test.py:101-126 | `main` returns True exactly when the file was written and the voice tool, given the stripped script, replied with SUCCESS somewhere; it raises exactly when the write fails |
| ContentTest.WarningDoesNotStopAudio | quick_content_test.py:91-116 | the warning flag is `count > 150`, and once the file is written the voice tool is always called |
| ContentTest.FileRecordsCount | quick_content_test.py:88-105 | the file records the count of the script, and the stripped body written has that same count |
| QuickSetup.EnvFileStatus | quick_setup.py:21-46 | a missing file and an unreadable file each get their own status and only that one; a status with a key means a readable file without the placeholder |
| QuickSetup.EnvFileOk | quick_setup.py:32-37 | definition of the value `check_env_file` returns. It is characterised by `EnvFileOkIff` |
| QuickSetup.EnvFileOkIff | quick_setup.py:21-46 | `.env` passes exactly when it is readable, names one of the two keys, and nowhere holds the placeholder |
| QuickSetup.EnvFileRejects | quick_setup.py:32-40 | the placeholder anywhere, or neither key name, rejects the file |
| QuickSetup.GeminiReportedFirst | quick_setup.py:32-37 | a file naming both keys is reported as holding the Gemini key |
| QuickSetup.SelectApiKey | quick_setup.py:50 | the selected value is one of the two variables, and nothing is selected only when the Google variable is unset |
| QuickSetup.ApiKeyOk | quick_setup.py:52-57 | definition of the value `check_api_key` returns. It is characterised by `ApiKeyOkIff` |
| QuickSetup.SelectionOrder | quick_setup.py:50 | a set, non-empty Gemini value is always chosen; an unset or empty one passes the choice to the Google value |
| QuickSetup.ApiKeyOkIff | quick_setup.py:50-57 | the key check judges the Gemini value alone when it is set and non-empty, otherwise the Google value |
| QuickSetup.PlaceholderHidesGoogle | quick_setup.py:50-52 | a placeholder Gemini value fails the check even when a valid Google value is set |
| QuickSetup.CreateEnvFile | quick_setup.py:59-80 | an existing `.env` returns False and writes nothing; a failed open returns False; otherwise the five template lines are written in order and it returns True |
| QuickSetup.TemplateRejected | quick_setup.py:69-73 | the written template names the Gemini key but holds the placeholder, so the file check rejects it |
| QuickSetup.NextSteps | quick_setup.py:111-124 | at most three steps are printed, each numbered 1 to 3 |
| QuickSetup.AllGood | quick_setup.py:126 | definition of the condition for "Everything looks good!". Its relation to the steps is in `SummaryConsistent` |
| QuickSetup.Setup | quick_setup.py:93-142 | the report is all good exactly when no step is printed, and a failed key check always prints step 3 |
| QuickSetup.ParseCommand | quick_setup.py:132-142 | an action is selected only when the first argument is one of the three flags |
| QuickSetup.SummaryConsistent | quick_setup.py:111-126 | next step 1, 2 or 3 is printed exactly when its check failed, in increasing order, and "Everything looks good!" is printed exactly when no step is |
| QuickSetup.FreshTemplateNeedsEditing | quick_setup.py:99-126 | with an unedited template in `.env` the report is never all good and step 2 is printed |
| QuickSetup.CommandsAreExact | quick_setup.py:132-142 | only the exact flags `--install`, `--create-env` and `--help` select an action; any other argument only shows the status |

## Left out

- File and console I/O are not modelled: `os.makedirs`, opening and writing files, and every `print`. Whether `.env` exists, whether it can be read, and whether a file can be opened for writing are inputs.
- The clock is not modelled. The two `datetime.now()` readings are string inputs to `Publish`.
- `os.getenv`, `input()` and `sys.argv` are inputs: `Option` values, a string and a sequence.
- The voice tool is not modelled. `gemini_voice_tool._run` is a function input whose `Err` stands for any exception, including a failed import.
- `check_dotenv` is not modelled. Its import probe is a boolean input to `Setup`.
- `install_dependencies` is not modelled, because it only runs `pip` in a subprocess. `--install` is modelled as the command it selects.
- Whitespace: Python's `strip()` and `split()` also treat Unicode spaces and the separators `\x1c`-`\x1f` as whitespace. `PyText.IsSpace` covers only the six ASCII whitespace characters.
- `os.path.join` is modelled with a `/` separator.
- Exit statuses are not modelled; `Returned` is `None` where the program would end with an uncaught exception.
- CreateEnvFile: a write that fails after the file was opened, which leaves a partial file, is not modelled. An open either succeeds with the whole template or fails before anything is written.
- QuickTest: its contract covers which script a run gets. The count, the warning and the outcome are stated over `Publish` for an arbitrary script (`SuccessIff`, `WarningDoesNotStopAudio`, `FileRecordsCount`), because relating a count to the concrete oxygen text is too costly to prove.
- WordCounter.WordCount: the concrete counts of the two fixed scripts are not proved, for the same reason. The oxygen dialogue has 112 words. The template's fixed text has 88 words plus twice the topic's words, for a non-empty topic without newlines that does not end in whitespace; otherwise the `?` after the first slot becomes a word of its own.
- `setup_env.py`, `test_voice_tool.py` and `run_video_content.py` are not part of this model.
