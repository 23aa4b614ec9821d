/** `create_sample_script`: a table of two dialogue scripts, looked up by exact topic with a fallback. */
module SampleScripts {
  import opened PyText

  /** The one topic with a hand-written script. */
  const OxygenTopic: string := "How plants make oxygen"

  /** The first exchange of the oxygen script: Mike's question and Sara's answer, each with the blank line after it. */
  const OxygenQuestion: string :=
    "\n" + "Mike: " + "Hey Sara, " + "how do plants actually make oxygen?\n\n"
  const OxygenAnswer: string :=
    "Sara: " + "It's photosynthesis, " + "Mike! " + "Plants use sunlight, " + "water, " + "and CO2 to make food. " + "Oxygen is the amazing byproduct!\n\n"

  /** The rest of the oxygen script, one dialogue turn per line. */
  const OxygenFollowUp: string :=
    "Mike: " + "So they're like solar-powered food factories?\n\n"
    + "Sara: " + "Exactly! " + "Chlorophyll in leaves captures sunlight, " + "roots pull up water, " + "and tiny pores grab CO2 from air.\n\n"
    + "Mike: " + "Then what happens?\n\n"
    + "Sara: " + "The magic occurs in chloroplasts! " + "They combine everything using sun's energy to make glucose, " + "and release oxygen we breathe!\n\n"
    + "Mike: " + "So every breath depends on plants?\n\n"
    + "Sara: " + "Pretty much! " + "One large tree makes enough oxygen for two people daily. " + "Without photosynthesis, " + "no oxygen, " + "no us!\n\n"
    + "Mike: " + "Amazing! " + "Plants keep us alive while feeding themselves.\n\n"
    + "Sara: " + "That's why protecting forests matters - they're our life support!\n        "

  /** The hand-written script for `OxygenTopic`, exactly as the triple-quoted literal spells it. */
  const OxygenScript: string := OxygenQuestion + OxygenAnswer + OxygenFollowUp

  /** The fixed text of the fallback template: before the first topic slot, between the slots, after the second. */
  const Hook: string :=
    "\n" + "Mike: " + "Hey Sara, " + "what's the coolest thing about "
  const Middle: string :=
    "?\n\n"
    + "Sara: " + "Great question, " + "Mike! " + "The fascinating part is how the basic principles actually work in everyday life.\n\n"
    + "Mike: " + "Can you give a quick example?\n\n"
    + "Sara: " + "Absolutely! " + "Think about it this way - the fundamental process involves key interactions that most people don't notice.\n\n"
    + "Mike: " + "That's amazing! " + "What should people remember?\n\n"
    + "Sara: " + "The main takeaway is understanding these core concepts helps us appreciate the world around us better!\n\n"
    + "Mike: " + "Perfect! Thanks for explaining "
  const Closing: string :=
    " so clearly, Sara.\n\n"
    + "Sara: " + "Anytime, " + "Mike! " + "Science is everywhere once you know what to look for.\n        "

  /** An f-string with two slots for the same value: `hook + topic + middle + topic + closing`. */
  function Fill(hook: string, middle: string, closing: string, topic: string): (s: string)
    ensures |s| == |hook| + |middle| + |closing| + 2 * |topic|
  {
    hook + topic + middle + topic + closing
  }

  /** The pieces of a filled template sit at fixed offsets. */
  lemma {:induction false} FillSlots(hook: string, middle: string, closing: string, topic: string)
    ensures var s := Fill(hook, middle, closing, topic);
      var k := |hook| + |topic|;
      s[..|hook|] == hook && s[|hook|..k] == topic && s[k..k + |middle|] == middle &&
      s[k + |middle|..k + |middle| + |topic|] == topic && s[k + |middle| + |topic|..] == closing
  {
    var s := Fill(hook, middle, closing, topic);
    var k := |hook| + |topic|;
    assert s == (hook + topic) + (middle + (topic + closing));
    assert s[..k] == hook + topic;
    assert s[k..] == middle + topic + closing;
  }

  /** Filling the same template with two topics gives the same text only for the same topic. */
  lemma {:induction false} FillInjective(hook: string, middle: string, closing: string, t1: string, t2: string)
    requires Fill(hook, middle, closing, t1) == Fill(hook, middle, closing, t2)
    ensures t1 == t2
  {
    FillSlots(hook, middle, closing, t1);
    FillSlots(hook, middle, closing, t2);
  }

  /** The `"default"` entry: the template with the topic in the opening hook and in the closing thanks. */
  function DefaultScript(topic: string): string {
    Fill(Hook, Middle, Closing, topic)
  }

  /** Python's `table.get(key, fallback)`. */
  function Get(table: map<string, string>, key: string, fallback: string): string {
    if key in table then table[key] else fallback
  }

  /** `.get` on a two-entry dictionary whose fallback is the second entry's value. */
  lemma {:induction false} GetTwo(k1: string, v1: string, k2: string, v2: string, key: string)
    requires k1 != k2
    ensures map[k1 := v1, k2 := v2][k2] == v2
    ensures Get(map[k1 := v1, k2 := v2], key, v2) == if key == k1 then v1 else v2
  {
  }

  /** The dictionary built on each call; its `"default"` entry already has the topic filled in. */
  function Scripts(topic: string): (scripts: map<string, string>)
    ensures "default" in scripts
  {
    map[OxygenTopic := OxygenScript, "default" := DefaultScript(topic)]
  }

  /** `scripts.get(topic, scripts["default"])`. */
  function CreateSampleScript(topic: string): (script: string)
    ensures topic == OxygenTopic ==> script == OxygenScript
    ensures topic != OxygenTopic ==> script == DefaultScript(topic)
  {
    var scripts := Scripts(topic);
    assert |OxygenTopic| != |"default"|;
    GetTwo(OxygenTopic, OxygenScript, "default", DefaultScript(topic), topic);
    Get(scripts, topic, scripts["default"])
  }

  /** A filled template differs from any text whose character at an offset inside the hook differs from the hook's. */
  lemma {:induction false} FillDiffers(hook: string, middle: string, closing: string, topic: string, other: string, i: nat)
    requires i < |hook| && i < |other| && hook[i] != other[i]
    ensures Fill(hook, middle, closing, topic) != other
  {
    assert Fill(hook, middle, closing, topic)[i] == hook[i];
  }

  /** The template's hook and the oxygen script part at the word after "Sara, ". */
  lemma {:induction false} HookAndOxygenPart()
    ensures 17 < |Hook| && 17 < |OxygenScript| && Hook[17] == 'w' && OxygenScript[17] == 'h'
  {
    assert OxygenScript[17] == OxygenQuestion[17];
  }

  /** No topic turns the template into the oxygen script. */
  lemma {:induction false} TemplateIsNotOxygen(topic: string)
    ensures DefaultScript(topic) != OxygenScript
  {
    HookAndOxygenPart();
    FillDiffers(Hook, Middle, Closing, topic, OxygenScript, 17);
  }

  /** The oxygen script comes back for exactly one topic, spelled exactly: no case folding, no trimming. */
  lemma {:induction false} OxygenIff(topic: string)
    ensures CreateSampleScript(topic) == OxygenScript <==> topic == OxygenTopic
  {
    if topic != OxygenTopic {
      TemplateIsNotOxygen(topic);
    }
  }

  /** Different topics give different scripts. */
  lemma {:induction false} DistinctTopicsDistinctScripts(t1: string, t2: string)
    requires t1 != t2
    ensures CreateSampleScript(t1) != CreateSampleScript(t2)
  {
    OxygenIff(t1);
    OxygenIff(t2);
    if t1 != OxygenTopic && t2 != OxygenTopic && DefaultScript(t1) == DefaultScript(t2) {
      FillInjective(Hook, Middle, Closing, t1, t2);
    }
  }

  /** Any topic other than the oxygen one is inserted twice: right after the hook and right before the closing thanks. */
  lemma {:induction false} TopicInserted(topic: string)
    requires topic != OxygenTopic
    ensures var s := CreateSampleScript(topic);
      var k := |Hook| + |topic| + |Middle|;
      s[|Hook|..|Hook| + |topic|] == topic && s[k..k + |topic|] == topic && s[k + |topic|..] == Closing
  {
    FillSlots(Hook, Middle, Closing, topic);
  }

  /** The oxygen script opens with Mike and answers with Sara. */
  lemma {:induction false} OxygenHosts()
    ensures Contains(OxygenScript, "Mike:") && Contains(OxygenScript, "Sara:")
  {
    assert OxygenQuestion[1..6] == "Mike:";
    assert OxygenAnswer[..5] == "Sara:";
    ContainsAt(OxygenQuestion, "Mike:", 1);
    ContainsAt(OxygenAnswer, "Sara:", 0);
    ContainsLeft(OxygenQuestion, OxygenAnswer, "Mike:");
    ContainsRight(OxygenQuestion, OxygenAnswer, "Sara:");
    ContainsLeft(OxygenQuestion + OxygenAnswer, OxygenFollowUp, "Mike:");
    ContainsLeft(OxygenQuestion + OxygenAnswer, OxygenFollowUp, "Sara:");
  }

  /** Every filled template opens with Mike and closes with Sara. */
  lemma {:induction false} TemplateHosts(topic: string)
    ensures Contains(DefaultScript(topic), "Mike:") && Contains(DefaultScript(topic), "Sara:")
  {
    assert Hook[1..6] == "Mike:";
    assert Closing[20..25] == "Sara:";
    ContainsAt(Hook, "Mike:", 1);
    ContainsAt(Closing, "Sara:", 20);
    var body := Hook + topic + Middle + topic;
    ContainsLeft(Hook, topic, "Mike:");
    ContainsLeft(Hook + topic, Middle, "Mike:");
    ContainsLeft(Hook + topic + Middle, topic, "Mike:");
    ContainsLeft(body, Closing, "Mike:");
    ContainsRight(body, Closing, "Sara:");
  }

  /** Every script is a non-empty dialogue in which both hosts speak. */
  lemma {:induction false} BothHostsSpeak(topic: string)
    ensures var s := CreateSampleScript(topic);
      s != [] && Contains(s, "Mike:") && Contains(s, "Sara:")
  {
    if topic == OxygenTopic {
      OxygenHosts();
    } else {
      TemplateHosts(topic);
    }
    ContainsIff(CreateSampleScript(topic), "Mike:");
  }

  /** The literal `"default"` key returns the same text as the fallback would. */
  lemma {:induction false} DefaultKeyIsFallback()
    ensures CreateSampleScript("default") == DefaultScript("default")
  {
    assert "default" != OxygenTopic;
  }

  /** The lookup takes the topic exactly as typed. */
  lemma {:induction false} LookupIsExact()
    ensures CreateSampleScript("how plants make oxygen") == DefaultScript("how plants make oxygen")
    ensures CreateSampleScript("How plants make oxygen ") != OxygenScript
  {
    assert "how plants make oxygen"[0] != OxygenTopic[0];
    assert |"How plants make oxygen "| != |OxygenTopic|;
    OxygenIff("How plants make oxygen ");
  }
}
