/**
  `count_words` of `quick_content_test.py`: the number of dialogue words in a
  "Speaker: line" transcript, with the speaker label of every line left out.
*/
module WordCounter {
  import opened PyText

  /**
    The words one line contributes: with a `:` in the line, the words of what
    follows its first `:` (stripped, as the source does); otherwise all its words.
  */
  function LineWords(line: string): nat {
    if ':' in line then |Words(Strip(AfterFirst(line, ':')))|
    else |Words(line)|
  }

  /** The words of a list of lines, added up from the first line to the last. */
  function SumLineWords(lines: seq<string>): nat {
    if lines == [] then 0
    else SumLineWords(lines[..|lines| - 1]) + LineWords(lines[|lines| - 1])
  }

  /** `count_words(text)`: the sum over the lines of `text.strip().split('\n')`. */
  function WordCount(text: string): nat {
    SumLineWords(SplitOn(Strip(text), '\n'))
  }

  /** `count_words`: strip, split into lines, and add up each line's dialogue words. */
  method CountWords(text: string) returns (wordCount: nat)
    ensures wordCount == WordCount(text)
  {
    var lines := SplitOn(Strip(text), '\n');
    wordCount := 0;
    for i := 0 to |lines|
      invariant wordCount == SumLineWords(lines[..i])
    {
      SumLineWordsStep(lines, i);
      var line := lines[i];
      if ':' in line {
        var dialogue := Strip(AfterFirst(line, ':'));
        wordCount := wordCount + |Words(dialogue)|;
      } else {
        wordCount := wordCount + |Words(line)|;
      }
    }
    assert lines[..|lines|] == lines;
  }

  /** Adding the next line to the running total. */
  lemma {:induction false} SumLineWordsStep(lines: seq<string>, i: int)
    requires 0 <= i < |lines|
    ensures SumLineWords(lines[..i + 1]) == SumLineWords(lines[..i]) + LineWords(lines[i])
  {
    assert lines[..i + 1][..i] == lines[..i];
  }

  // ---------------------------------------------------------------------------
  // One line

  /** The speaker label, everything up to the first `:`, is never counted; later colons are dialogue. */
  lemma {:induction false} LabelNeverCounted(speaker: string, dialogue: string)
    requires ':' !in speaker
    ensures LineWords(speaker + ":" + dialogue) == |Words(dialogue)|
  {
    var line := speaker + ":" + dialogue;
    assert line == speaker + (":" + dialogue);
    IndexOfConcat(speaker, ":" + dialogue, ':');
    assert line[|speaker| + 1..] == dialogue;
    WordsStrip(dialogue);
  }

  /** A line that is a speaker label and a colon and nothing else contributes no words. */
  lemma {:induction false} BareLabel(speaker: string)
    requires ':' !in speaker
    ensures LineWords(speaker + ":") == 0
  {
    assert speaker + ":" == speaker + ":" + "";
    LabelNeverCounted(speaker, "");
  }

  /** A blank or whitespace-only line contributes no words. */
  lemma {:induction false} BlankLine(line: string)
    requires AllSpace(line)
    ensures LineWords(line) == 0
  {
    assert ':' !in line by {
      assert forall i :: 0 <= i < |line| ==> line[i] != ':';
    }
    WordsEmptyIff(line);
  }

  /** Whitespace before a line does not change its count. */
  lemma {:induction false} LineWordsSpacePrefix(p: string, line: string)
    requires AllSpace(p)
    ensures LineWords(p + line) == LineWords(line)
  {
    assert ':' !in p by {
      assert forall i :: 0 <= i < |p| ==> p[i] != ':';
    }
    if ':' in line {
      IndexOfConcat(p, line, ':');
      var i := IndexOf(line, ':');
      assert (p + line)[|p| + i + 1..] == line[i + 1..];
    } else {
      assert ':' !in p + line;
      WordsSpacePrefix(p, line);
    }
  }

  /** Whitespace after a line does not change its count. */
  lemma {:induction false} LineWordsSpaceSuffix(line: string, q: string)
    requires AllSpace(q)
    ensures LineWords(line + q) == LineWords(line)
  {
    assert ':' !in q by {
      assert forall i :: 0 <= i < |q| ==> q[i] != ':';
    }
    if ':' in line {
      IndexOfConcat(line, q, ':');
      var i := IndexOf(line, ':');
      var after := line[i + 1..];
      assert (line + q)[i + 1..] == after + q;
      WordsStrip(after + q);
      WordsSpaceSuffix(after, q);
      WordsStrip(after);
    } else {
      assert ':' !in line + q;
      WordsSpaceSuffix(line, q);
    }
  }

  // ---------------------------------------------------------------------------
  // Many lines

  /** The total of two runs of lines is the sum of their totals. */
  lemma {:induction false} SumLineWordsAppend(a: seq<string>, b: seq<string>)
    ensures SumLineWords(a + b) == SumLineWords(a) + SumLineWords(b)
    decreases |b|
  {
    if b == [] {
      assert a + b == a;
    } else {
      var b' := b[..|b| - 1];
      assert (a + b)[..|a + b| - 1] == a + b';
      SumLineWordsAppend(a, b');
    }
  }

  /** The count of `text` split at every `'\n'`, without the outer `strip()`. */
  function LinesCount(text: string): nat {
    SumLineWords(SplitOn(text, '\n'))
  }

  /** Whitespace before the text does not change the count. */
  lemma {:induction false} LinesCountSpacePrefix(p: string, m: string)
    requires AllSpace(p)
    ensures LinesCount(p + m) == LinesCount(m)
    decreases |p|
  {
    if '\n' in p {
      var i := IndexOf(p, '\n');
      var p1, p2 := p[..i], p[i + 1..];
      assert p + m == p1 + ['\n'] + (p2 + m);
      SplitOnConcat(p1, p2 + m, '\n');
      SplitOnNoSep(p1, '\n');
      SumLineWordsAppend([p1], SplitOn(p2 + m, '\n'));
      BlankLine(p1);
      LinesCountSpacePrefix(p2, m);
    } else {
      SplitOnPrefix(p, m, '\n');
      var ps := SplitOn(m, '\n');
      SumLineWordsAppend([p + ps[0]], ps[1..]);
      SumLineWordsAppend([ps[0]], ps[1..]);
      assert ps == [ps[0]] + ps[1..];
      LineWordsSpacePrefix(p, ps[0]);
    }
  }

  /** Whitespace after the text does not change the count. */
  lemma {:induction false} LinesCountSpaceSuffix(m: string, q: string)
    requires AllSpace(q)
    ensures LinesCount(m + q) == LinesCount(m)
    decreases |q|
  {
    if '\n' in q {
      var i := IndexOf(q, '\n');
      var q1, q2 := q[..i], q[i + 1..];
      assert m + q == (m + q1) + ['\n'] + q2;
      SplitOnConcat(m + q1, q2, '\n');
      SumLineWordsAppend(SplitOn(m + q1, '\n'), SplitOn(q2, '\n'));
      LinesCountSpaceSuffix(m, q1);
      assert q2 + [] == q2;
      LinesCountSpacePrefix(q2, []);
    } else {
      SplitOnSuffix(m, q, '\n');
      var ps := SplitOn(m, '\n');
      var n := |ps|;
      var glued := GlueLast(ps, q);
      assert glued[..n - 1] == ps[..n - 1];
      LineWordsSpaceSuffix(ps[n - 1], q);
    }
  }

  /** The outer `strip()` never changes the count: counting the raw lines gives the same total. */
  lemma {:induction false} StripDoesNotChangeCount(text: string)
    ensures WordCount(text) == LinesCount(text)
  {
    var p, q := StripParts(text);
    var m := Strip(text);
    assert text == p + (m + q);
    LinesCountSpacePrefix(p, m + q);
    LinesCountSpaceSuffix(m, q);
  }

  /** The count of two transcripts joined by a newline is the sum of their counts. */
  lemma {:induction false} WordCountJoin(a: string, b: string)
    ensures WordCount(a + "\n" + b) == WordCount(a) + WordCount(b)
  {
    SplitOnConcat(a, b, '\n');
    SumLineWordsAppend(SplitOn(a, '\n'), SplitOn(b, '\n'));
    StripDoesNotChangeCount(a + "\n" + b);
    StripDoesNotChangeCount(a);
    StripDoesNotChangeCount(b);
  }

  /** The count of lines joined by newlines is the sum of the lines' own counts. */
  lemma {:induction false} WordCountOfLines(lines: seq<string>)
    requires |lines| >= 1
    requires forall k :: 0 <= k < |lines| ==> '\n' !in lines[k]
    ensures WordCount(Join(lines, "\n")) == SumLineWords(lines)
  {
    SplitOnJoin(lines, '\n');
    StripDoesNotChangeCount(Join(lines, "\n"));
  }

  /** Stripping a transcript first does not change its count. */
  lemma {:induction false} WordCountStrip(text: string)
    ensures WordCount(Strip(text)) == WordCount(text)
  {
    StripIdempotent(text);
  }

  /** Empty and whitespace-only text counts 0. */
  lemma {:induction false} BlankText(text: string)
    requires AllSpace(text)
    ensures WordCount(text) == 0
  {
    StripDoesNotChangeCount(text);
    assert text + [] == text;
    LinesCountSpacePrefix(text, []);
    BlankLine("");
  }

  // ---------------------------------------------------------------------------
  // Worked examples

  lemma {:induction false} SumLineWordsSingle(line: string)
    ensures SumLineWords([line]) == LineWords(line)
  {
    assert [line][..0] == [];
  }

  /** A single line with no whitespace at either end is counted as that one line. */
  lemma {:induction false} SingleLine(line: string)
    requires '\n' !in line
    requires line == [] || (!IsSpace(line[0]) && !IsSpace(line[|line| - 1]))
    ensures WordCount(line) == LineWords(line)
  {
    StripNoOuterSpace(line);
    SplitOnNoSep(line, '\n');
    SumLineWordsSingle(line);
  }

  /** A single labelled line counts the words after its label. */
  lemma {:induction false} LabelledLine(line: string, speaker: string, dialogue: string)
    requires line == speaker + ":" + dialogue && ':' !in speaker && '\n' !in line
    requires line == [] || (!IsSpace(line[0]) && !IsSpace(line[|line| - 1]))
    ensures WordCount(line) == |Words(dialogue)|
  {
    SingleLine(line);
    LabelNeverCounted(speaker, dialogue);
  }

  /** A single line without a colon counts all of its words. */
  lemma {:induction false} UnlabelledLine(line: string)
    requires ':' !in line && '\n' !in line
    requires line == [] || (!IsSpace(line[0]) && !IsSpace(line[|line| - 1]))
    ensures WordCount(line) == |Words(line)|
  {
    SingleLine(line);
  }

  /** Words of a string made of a space, a word, a space and a word. */
  lemma {:induction false} TwoWords(s: string, w1: string, w2: string)
    requires s == " " + w1 + " " + w2
    requires w1 != [] && NoSpace(w1) && w2 != [] && NoSpace(w2)
    ensures |Words(s)| == 2
  {
    assert s == " " + (w1 + (" " + w2));
    WordsSpacePrefix(" ", w1 + (" " + w2));
    WordsOfWord(w1, " " + w2);
    WordsSpacePrefix(" ", w2);
    assert w2 + "" == w2;
    WordsOfWord(w2, "");
  }

  /** Words of a string made of a space and a word. */
  lemma {:induction false} OneWord(s: string, w: string)
    requires s == " " + w
    requires w != [] && NoSpace(w)
    ensures |Words(s)| == 1
  {
    WordsSpacePrefix(" ", w);
    assert w + "" == w;
    WordsOfWord(w, "");
  }

  /** `"<speaker>: <w1> <w2>"` counts 2, as `count_words("Mike: Hello there") == 2`. */
  lemma {:induction false} LabelledTwoWords(speaker: string, w1: string, w2: string)
    requires speaker != [] && !IsSpace(speaker[0]) && ':' !in speaker && '\n' !in speaker
    requires w1 != [] && NoSpace(w1) && w2 != [] && NoSpace(w2)
    ensures WordCount(speaker + ": " + w1 + " " + w2) == 2
  {
    var dialogue := " " + w1 + " " + w2;
    var line := speaker + ": " + w1 + " " + w2;
    assert line == speaker + ":" + dialogue;
    assert '\n' !in line by {
      assert '\n' !in w1 && '\n' !in w2;
    }
    assert line[0] == speaker[0] && line[|line| - 1] == w2[|w2| - 1];
    LabelledLine(line, speaker, dialogue);
    TwoWords(dialogue, w1, w2);
  }

  /** `"<speaker>: <w>"` counts 1 even when `w` holds colons, as `count_words("A: b:c") == 1`. */
  lemma {:induction false} LabelledOneWord(speaker: string, w: string)
    requires speaker != [] && !IsSpace(speaker[0]) && ':' !in speaker && '\n' !in speaker
    requires w != [] && NoSpace(w)
    ensures WordCount(speaker + ": " + w) == 1
  {
    var dialogue := " " + w;
    var line := speaker + ": " + w;
    assert line == speaker + ":" + dialogue;
    assert '\n' !in line by {
      assert '\n' !in w;
    }
    assert line[0] == speaker[0] && line[|line| - 1] == w[|w| - 1];
    LabelledLine(line, speaker, dialogue);
    OneWord(dialogue, w);
  }

  /** `"<speaker>:"` counts 0, as `count_words("Mike:") == 0`. */
  lemma {:induction false} LabelOnly(speaker: string)
    requires speaker != [] && !IsSpace(speaker[0]) && ':' !in speaker && '\n' !in speaker
    ensures WordCount(speaker + ":") == 0
  {
    var line := speaker + ":";
    assert line == speaker + ":" + "";
    assert line[0] == speaker[0];
    LabelledLine(line, speaker, "");
  }

  /** `"<w1> <w2>"` without a colon counts 2, as `count_words("Hello there") == 2`. */
  lemma {:induction false} UnlabelledTwoWords(w1: string, w2: string)
    requires w1 != [] && NoSpace(w1) && ':' !in w1 && w2 != [] && NoSpace(w2) && ':' !in w2
    ensures WordCount(w1 + " " + w2) == 2
  {
    var line := w1 + " " + w2;
    assert '\n' !in line && ':' !in line by {
      assert '\n' !in w1 && '\n' !in w2;
    }
    assert line[0] == w1[0] && line[|line| - 1] == w2[|w2| - 1];
    UnlabelledLine(line);
    WordsSpacePrefix(" ", line);
    assert " " + line == " " + w1 + " " + w2;
    TwoWords(" " + line, w1, w2);
  }

  /** `count_words("Mike: Hello there")` is 2: the label is not counted. */
  lemma {:induction false} ExampleLabelled()
    ensures WordCount("Mike: Hello there") == 2
  {
    assert "Mike" + ": " + "Hello" + " " + "there" == "Mike: Hello there";
    LabelledTwoWords("Mike", "Hello", "there");
  }

  /** `count_words("Hello there")` is 2: a line without a colon counts every word. */
  lemma {:induction false} ExampleUnlabelled()
    ensures WordCount("Hello there") == 2
  {
    assert "Hello" + " " + "there" == "Hello there";
    UnlabelledTwoWords("Hello", "there");
  }

  /** `count_words("Mike:")` is 0. */
  lemma {:induction false} ExampleBareLabel()
    ensures WordCount("Mike:") == 0
  {
    assert "Mike" + ":" == "Mike:";
    LabelOnly("Mike");
  }

  /** `count_words("A: b:c")` is 1: a later colon stays inside the word. */
  lemma {:induction false} ExampleInnerColon()
    ensures WordCount("A: b:c") == 1
  {
    assert "A" + ": " + "b:c" == "A: b:c";
    LabelledOneWord("A", "b:c");
  }

  /** `count_words("A: b: c")` is 2: only the first colon ends the label. */
  lemma {:induction false} ExampleSecondColon()
    ensures WordCount("A: b: c") == 2
  {
    assert "A" + ": " + "b:" + " " + "c" == "A: b: c";
    LabelledTwoWords("A", "b:", "c");
  }
}
