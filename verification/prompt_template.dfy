/** `CustomPromptTemplate.format` over `agent_template`: chooses the four slot
    values from whether any intermediate step exists, writes them into the
    keyword arguments, and renders the template with `str.format`. */
module PromptTemplate {
  import opened Schema

  /** A parsed format string: literal text and `{name}` replacement fields. */
  datatype Piece = Literal(text: string) | Placeholder(name: string)

  /** The literal text of `agent_template` around `{role}`. */
  const OpeningHead: string := "\nYou are a "
  const OpeningTail: string := " now. There is some known information: \n"

  /** `agent_template`, already split into literal text and fields. */
  const AgentTemplate: seq<Piece> := [
    Literal(OpeningHead), Placeholder("role"),
    Literal(OpeningTail), Placeholder("related_content"),
    Literal("\n"), Placeholder("background_infomation"),
    Literal("\n"), Placeholder("question_guide"),
    Literal(": "), Placeholder("input"),
    Literal("\n\n"), Placeholder("answer_format"),
    Literal("\n")
  ]

  /** `template.format(**kwargs)`: every placeholder is replaced by its keyword
      argument, extra keyword arguments are ignored, and the first placeholder
      (left to right) without an argument raises `KeyError`. */
  function Render(template: seq<Piece>, kwargs: map<string, string>): (r: Result<string>)
    ensures r.KeyError? ==> r.key !in kwargs
  {
    if template == [] then Ok("")
    else
      var front := template[..|template| - 1];
      match Render(front, kwargs)
      case KeyError(key) => KeyError(key)
      case Ok(done) =>
        match template[|template| - 1]
        case Literal(text) => Ok(done + text)
        case Placeholder(name) => if name in kwargs then Ok(done + kwargs[name]) else KeyError(name)
  }

  /** Every placeholder has an argument. */
  predicate AllPlaceholdersFilled(template: seq<Piece>, kwargs: map<string, string>) {
    forall k :: 0 <= k < |template| && template[k].Placeholder? ==> template[k].name in kwargs
  }

  /** Rendering succeeds exactly when every placeholder has an argument, and
      otherwise reports the first placeholder, left to right, that has none. */
  lemma {:induction false} RenderOkIffFilled(template: seq<Piece>, kwargs: map<string, string>)
    ensures Render(template, kwargs).Ok? <==> AllPlaceholdersFilled(template, kwargs)
    ensures Render(template, kwargs).KeyError? ==>
      exists k :: 0 <= k < |template| && template[k] == Placeholder(Render(template, kwargs).key) &&
        AllPlaceholdersFilled(template[..k], kwargs)
  {
    if template != [] {
      var front := template[..|template| - 1];
      RenderOkIffFilled(front, kwargs);
      assert forall k :: 0 <= k < |front| ==> front[k] == template[k];
      if Render(front, kwargs).KeyError? {
        var k :| 0 <= k < |front| && front[k] == Placeholder(Render(front, kwargs).key) &&
          AllPlaceholdersFilled(front[..k], kwargs);
        assert front[..k] == template[..k];
      } else {
        assert front == template[..|template| - 1];
      }
    }
  }

  /** One step of `Render`: the first `k` pieces from the first `k - 1`. */
  lemma RenderPrefix(template: seq<Piece>, k: nat, kwargs: map<string, string>)
    requires 0 < k <= |template|
    ensures Render(template[..k], kwargs).Ok? ==> Render(template[..k - 1], kwargs).Ok?
    ensures Render(template[..k - 1], kwargs).KeyError? ==>
      Render(template[..k], kwargs) == Render(template[..k - 1], kwargs)
    ensures Render(template[..k - 1], kwargs).Ok? && template[k - 1].Literal? ==>
      Render(template[..k], kwargs) == Ok(Render(template[..k - 1], kwargs).value + template[k - 1].text)
    ensures Render(template[..k - 1], kwargs).Ok? && template[k - 1].Placeholder? ==>
      Render(template[..k], kwargs) ==
        if template[k - 1].name in kwargs
        then Ok(Render(template[..k - 1], kwargs).value + kwargs[template[k - 1].name])
        else KeyError(template[k - 1].name)
  {
    assert template[..k][..k - 1] == template[..k - 1];
  }

  /** Once a prefix of the template fails, the whole template fails with the
      same error: later pieces cannot change which key is reported. */
  lemma {:induction false} RenderErrorPropagates(template: seq<Piece>, k: nat, kwargs: map<string, string>)
    requires k <= |template|
    requires Render(template[..k], kwargs).KeyError?
    ensures Render(template, kwargs) == Render(template[..k], kwargs)
    decreases |template| - k
  {
    if k < |template| {
      RenderPrefix(template, k + 1, kwargs);
      assert template[..k + 1][..k] == template[..k];
      RenderErrorPropagates(template, k + 1, kwargs);
    } else {
      assert template[..k] == template;
    }
  }

  /** Rendering a concatenation renders the two parts one after the other:
      an error in the first part is reported, else an error in the second,
      else the two texts are joined. */
  lemma {:induction false} RenderConcat(t1: seq<Piece>, t2: seq<Piece>, kwargs: map<string, string>)
    ensures Render(t1, kwargs).KeyError? ==> Render(t1 + t2, kwargs) == Render(t1, kwargs)
    ensures Render(t1, kwargs).Ok? && Render(t2, kwargs).KeyError? ==>
      Render(t1 + t2, kwargs) == Render(t2, kwargs)
    ensures Render(t1, kwargs).Ok? && Render(t2, kwargs).Ok? ==>
      Render(t1 + t2, kwargs) == Ok(Render(t1, kwargs).value + Render(t2, kwargs).value)
    decreases |t2|
  {
    if t2 == [] {
      assert t1 + t2 == t1;
      if Render(t1, kwargs).Ok? {
        assert Render(t1, kwargs).value + Render(t2, kwargs).value == Render(t1, kwargs).value;
      }
    } else {
      var front := t2[..|t2| - 1];
      assert (t1 + t2)[..|t1 + t2| - 1] == t1 + front;
      assert (t1 + t2)[|t1 + t2| - 1] == t2[|t2| - 1];
      RenderConcat(t1, front, kwargs);
      if Render(t1, kwargs).Ok? && Render(front, kwargs).Ok? && Render(t2, kwargs).Ok? {
        var a, b := Render(t1, kwargs).value, Render(front, kwargs).value;
        match t2[|t2| - 1]
        case Literal(text) =>
          assert a + b + text == a + (b + text);
        case Placeholder(name) =>
          assert a + b + kwargs[name] == a + (b + kwargs[name]);
      }
    }
  }

  /** The four values `format` chooses. */
  datatype Slots = Slots(role: string, backgroundInfomation: string, questionGuide: string, answerFormat: string)

  /** The role, question guide and answer instruction of the first prompt. */
  const NaiveRole: string := "Naive robit"
  const NaiveQuestionGuide: string := "I have a question: "

  /** The call form the first prompt suggests. */
  const SuggestedCall: string := "DeepSearch('search word')"

  /** The answer instruction of the first prompt, around the suggested call. */
  const AnswerFormatHead: string :=
    "If you know the answer, please give your answer! If you don't know the answer, just answer \""
  const AnswerFormatTail: string :=
    "\", and replace 'search word' with the keyword you think you need to search for, and don't answer anything else. \n\nPlease answer the questions I raised above!"
  const NaiveAnswerFormat: string := AnswerFormatHead + SuggestedCall + AnswerFormatTail

  /** The role, background header and question guide once a search was made. */
  const SmartRole: string := "smart AI Assistant"
  const BackgroundHeader: string := "\n\nYou also have this known information for reference: \n\n"
  const SmartQuestionGuide: string := "Please answer my questions based on the known information"

  /** The slot values for the given intermediate steps: those of a naive first
      question when there is none, those of an answer from the first step's
      observation otherwise. The answer instruction is present exactly before
      the first search, and the background always ends a line. */
  function ChooseSlots(intermediateSteps: seq<IntermediateStep>): (s: Slots)
    ensures s.answerFormat != [] <==> |intermediateSteps| == 0
    ensures s.backgroundInfomation != [] && s.backgroundInfomation[|s.backgroundInfomation| - 1] == '\n'
    ensures |intermediateSteps| > 0 ==>
              OccursAt(intermediateSteps[0].observation, s.backgroundInfomation, |BackgroundHeader|)
  {
    if |intermediateSteps| == 0 then
      Slots(NaiveRole, "\n", NaiveQuestionGuide, NaiveAnswerFormat)
    else
      var observation := intermediateSteps[0].observation;
      var background := BackgroundHeader + observation + "\n";
      assert background[|BackgroundHeader|..|BackgroundHeader| + |observation|] == observation;
      Slots(SmartRole, background, SmartQuestionGuide, "")
  }

  /** The keyword arguments `format` renders: the caller's two and the four
      chosen slot values. */
  function PromptArguments(intermediateSteps: seq<IntermediateStep>, relatedContent: string, input: string): map<string, string>
  {
    var s := ChooseSlots(intermediateSteps);
    map["role" := s.role, "related_content" := relatedContent, "background_infomation" := s.backgroundInfomation,
        "question_guide" := s.questionGuide, "input" := input, "answer_format" := s.answerFormat]
  }

  /** `agent_template` with its fields written out: the literal text
      interleaved with the slot values and the two caller arguments. */
  function Fill(s: Slots, relatedContent: string, input: string): string
  {
    OpeningHead + s.role + OpeningTail +
    relatedContent + "\n" + s.backgroundInfomation + "\n" +
    s.questionGuide + ": " + input + "\n\n" + s.answerFormat + "\n"
  }

  /** The rendered prompt: the template filled with the slot values chosen for
      the steps; it is what `str.format` produces from `agent_template` and
      those arguments. */
  function Prompt(intermediateSteps: seq<IntermediateStep>, relatedContent: string, input: string): (p: string)
    ensures Render(AgentTemplate, PromptArguments(intermediateSteps, relatedContent, input)) == Ok(p)
  {
    RenderComplete(PromptArguments(intermediateSteps, relatedContent, input));
    Fill(ChooseSlots(intermediateSteps), relatedContent, input)
  }

  /** `CustomPromptTemplate.format(intermediate_steps=..., **kwargs)`. The
      intermediate steps arrive apart from the other keyword arguments (the
      `pop`); the four slot values are written into the local copy of the
      keyword arguments, overriding any the caller gave, before rendering. */
  method Format(intermediateSteps: seq<IntermediateStep>, kwargs: map<string, string>) returns (r: Result<string>)
    ensures r.Ok? <==> "related_content" in kwargs && "input" in kwargs
    ensures "related_content" !in kwargs ==> r == KeyError("related_content")
    ensures "related_content" in kwargs && "input" !in kwargs ==> r == KeyError("input")
    ensures r.Ok? ==> r.value == Prompt(intermediateSteps, kwargs["related_content"], kwargs["input"])
  {
    var vars := kwargs;
    var backgroundInfomation, role, questionGuide, answerFormat;
    if |intermediateSteps| == 0 {
      backgroundInfomation := "\n";
      role := NaiveRole;
      questionGuide := NaiveQuestionGuide;
      answerFormat := NaiveAnswerFormat;
    } else {
      backgroundInfomation := BackgroundHeader;
      var observation := intermediateSteps[0].observation;
      backgroundInfomation := backgroundInfomation + observation + "\n";
      role := SmartRole;
      questionGuide := SmartQuestionGuide;
      answerFormat := "";
    }
    vars := vars["background_infomation" := backgroundInfomation];
    vars := vars["role" := role];
    vars := vars["question_guide" := questionGuide];
    vars := vars["answer_format" := answerFormat];
    r := Render(AgentTemplate, vars);
    RenderAgentTemplate(vars);
  }

  /** `agent_template` rendered from a complete set of arguments is the
      concatenation `Prompt` writes out; otherwise `related_content` is
      reported before `input`. */
  lemma RenderAgentTemplate(vars: map<string, string>)
    requires "role" in vars && "background_infomation" in vars
    requires "question_guide" in vars && "answer_format" in vars
    ensures "related_content" !in vars ==> Render(AgentTemplate, vars) == KeyError("related_content")
    ensures "related_content" in vars && "input" !in vars ==> Render(AgentTemplate, vars) == KeyError("input")
    ensures "related_content" in vars && "input" in vars ==>
      Render(AgentTemplate, vars) == Ok(
        OpeningHead + vars["role"] + OpeningTail +
        vars["related_content"] + "\n" + vars["background_infomation"] + "\n" +
        vars["question_guide"] + ": " + vars["input"] + "\n\n" + vars["answer_format"] + "\n")
  {
    if "related_content" !in vars {
      RenderMissingRelatedContent(vars);
    } else if "input" !in vars {
      RenderMissingInput(vars);
    } else {
      RenderComplete(vars);
    }
  }

  /** Without `related_content` the render stops at its placeholder, the first
      one that can be missing. */
  lemma RenderMissingRelatedContent(vars: map<string, string>)
    requires "role" in vars && "related_content" !in vars
    ensures Render(AgentTemplate, vars) == KeyError("related_content")
  {
    var t := AgentTemplate;
    assert t[..0] == [];
    RenderPrefix(t, 1, vars);
    RenderPrefix(t, 2, vars);
    RenderPrefix(t, 3, vars);
    RenderPrefix(t, 4, vars);
    RenderErrorPropagates(t, 4, vars);
  }

  /** With `related_content` but without `input` the render stops at `input`. */
  lemma RenderMissingInput(vars: map<string, string>)
    requires "role" in vars && "background_infomation" in vars && "question_guide" in vars
    requires "related_content" in vars && "input" !in vars
    ensures Render(AgentTemplate, vars) == KeyError("input")
  {
    var t := AgentTemplate;
    assert Render(t[..9], vars).Ok? by {
      RenderOkIffFilled(t[..9], vars);
      forall k | 0 <= k < 9 && t[..9][k].Placeholder?
        ensures t[..9][k].name in vars
      {
        assert k == 1 || k == 3 || k == 5 || k == 7;
      }
    }
    RenderPrefix(t, 10, vars);
    RenderErrorPropagates(t, 10, vars);
  }

  /** With every argument present the render is the full concatenation. */
  lemma RenderComplete(vars: map<string, string>)
    requires "role" in vars && "background_infomation" in vars
    requires "question_guide" in vars && "answer_format" in vars
    requires "related_content" in vars && "input" in vars
    ensures Render(AgentTemplate, vars) == Ok(
        OpeningHead + vars["role"] + OpeningTail +
        vars["related_content"] + "\n" + vars["background_infomation"] + "\n" +
        vars["question_guide"] + ": " + vars["input"] + "\n\n" + vars["answer_format"] + "\n")
  {
    var t := AgentTemplate;
    RenderCompleteHead(vars);
    var r6 := OpeningHead + vars["role"] + OpeningTail +
      vars["related_content"] + "\n" + vars["background_infomation"];
    var r7 := r6 + "\n";
    assert Render(t[..7], vars) == Ok(r7) by { RenderPrefix(t, 7, vars); }
    var r8 := r7 + vars["question_guide"];
    assert Render(t[..8], vars) == Ok(r8) by { RenderPrefix(t, 8, vars); }
    var r9 := r8 + ": ";
    assert Render(t[..9], vars) == Ok(r9) by { RenderPrefix(t, 9, vars); }
    var r10 := r9 + vars["input"];
    assert Render(t[..10], vars) == Ok(r10) by { RenderPrefix(t, 10, vars); }
    var r11 := r10 + "\n\n";
    assert Render(t[..11], vars) == Ok(r11) by { RenderPrefix(t, 11, vars); }
    var r12 := r11 + vars["answer_format"];
    assert Render(t[..12], vars) == Ok(r12) by { RenderPrefix(t, 12, vars); }
    var r13 := r12 + "\n";
    assert Render(t[..13], vars) == Ok(r13) by { RenderPrefix(t, 13, vars); }
    assert t[..13] == t;
  }

  /** The first three pieces of `agent_template`, up to the role sentence. */
  lemma RenderOpening(vars: map<string, string>)
    requires "role" in vars
    ensures Render(AgentTemplate[..3], vars) == Ok(OpeningHead + vars["role"] + OpeningTail)
  {
    var t := AgentTemplate;
    var r1 := OpeningHead;
    assert Render(t[..1], vars) == Ok(r1) by {
      assert t[..0] == [];
      assert "" + r1 == r1;
      RenderPrefix(t, 1, vars);
    }
    var r2 := r1 + vars["role"];
    assert Render(t[..2], vars) == Ok(r2) by { RenderPrefix(t, 2, vars); }
    assert Render(t[..3], vars) == Ok(r2 + OpeningTail) by { RenderPrefix(t, 3, vars); }
  }

  /** The first six pieces of `agent_template`, up to the background. */
  lemma RenderCompleteHead(vars: map<string, string>)
    requires "role" in vars && "background_infomation" in vars && "related_content" in vars
    ensures Render(AgentTemplate[..6], vars) == Ok(
        OpeningHead + vars["role"] + OpeningTail +
        vars["related_content"] + "\n" + vars["background_infomation"])
  {
    var t := AgentTemplate;
    RenderOpening(vars);
    var r3 := OpeningHead + vars["role"] + OpeningTail;
    var r4 := r3 + vars["related_content"];
    assert Render(t[..4], vars) == Ok(r4) by { RenderPrefix(t, 4, vars); }
    var r5 := r4 + "\n";
    assert Render(t[..5], vars) == Ok(r5) by { RenderPrefix(t, 5, vars); }
    var r6 := r5 + vars["background_infomation"];
    assert Render(t[..6], vars) == Ok(r6) by { RenderPrefix(t, 6, vars); }
  }

  /** `sub` occurs in `s` starting at index `at`. */
  predicate OccursAt(sub: string, s: string, at: nat) {
    at + |sub| <= |s| && s[at..at + |sub|] == sub
  }

  /** An occurrence in a prefix is an occurrence in the whole string. */
  lemma OccursInPrefix(sub: string, s: string, at: nat, whole: string)
    requires OccursAt(sub, s, at) && s <= whole
    ensures OccursAt(sub, whole, at)
  {
    assert whole[at..at + |sub|] == s[at..at + |sub|];
  }

  /** An occurrence inside an occurrence is an occurrence in the whole string. */
  lemma OccursWithin(sub: string, big: string, off: nat, s: string, at: nat)
    requires OccursAt(sub, big, off) && OccursAt(big, s, at)
    ensures OccursAt(sub, s, at + off)
  {
    forall t | 0 <= t < |sub|
      ensures s[at + off + t] == sub[t]
    {
      assert sub[t] == big[off + t] == s[at..at + |big|][off + t];
    }
  }

  /** The answer instruction of the first prompt asks for a
      `DeepSearch('search word')` call, right after its opening sentence. */
  lemma AnswerFormatOnlyBeforeSearch(intermediateSteps: seq<IntermediateStep>)
    ensures ChooseSlots(intermediateSteps).answerFormat != [] <==> |intermediateSteps| == 0
    ensures |intermediateSteps| == 0 ==>
              OccursAt(SuggestedCall, ChooseSlots(intermediateSteps).answerFormat, |AnswerFormatHead|)
  {
    if |intermediateSteps| == 0 {
      var s1 := AnswerFormatHead + SuggestedCall;
      assert OccursAt(SuggestedCall, s1, |AnswerFormatHead|);
      OccursInPrefix(SuggestedCall, s1, |AnswerFormatHead|, NaiveAnswerFormat);
    }
  }

  /** The filled template opens with the role and the related content. */
  lemma FillOpening(s: Slots, relatedContent: string, input: string)
    ensures OccursAt(OpeningHead + s.role + OpeningTail + relatedContent, Fill(s, relatedContent, input), 0)
  {
    var p3 := OpeningHead + s.role + OpeningTail + relatedContent;
    assert OccursAt(p3, p3, 0);
    OccursInPrefix(p3, p3, 0, Fill(s, relatedContent, input));
  }

  /** The background follows the related content and a line break. */
  lemma FillBackground(s: Slots, relatedContent: string, input: string)
    ensures OccursAt(s.backgroundInfomation, Fill(s, relatedContent, input),
                     |OpeningHead + s.role + OpeningTail + relatedContent + "\n"|)
  {
    var p4 := OpeningHead + s.role + OpeningTail + relatedContent + "\n";
    var p5 := p4 + s.backgroundInfomation;
    assert OccursAt(s.backgroundInfomation, p5, |p4|);
    OccursInPrefix(s.backgroundInfomation, p5, |p4|, Fill(s, relatedContent, input));
  }

  /** The question guide follows the background and a line break, and is
      followed by the template's `: `, the input and a blank line. */
  lemma FillQuestion(s: Slots, relatedContent: string, input: string)
    ensures var beforeGuide := OpeningHead + s.role + OpeningTail + relatedContent + "\n" + s.backgroundInfomation + "\n";
      OccursAt(s.questionGuide, Fill(s, relatedContent, input), |beforeGuide|) &&
      OccursAt(": " + input + "\n\n", Fill(s, relatedContent, input), |beforeGuide + s.questionGuide|)
  {
    var p := Fill(s, relatedContent, input);
    var p6 := OpeningHead + s.role + OpeningTail + relatedContent + "\n" + s.backgroundInfomation + "\n";
    var p7 := p6 + s.questionGuide;
    assert OccursAt(s.questionGuide, p7, |p6|);
    OccursInPrefix(s.questionGuide, p7, |p6|, p);
    var p10 := p7 + ": " + input + "\n\n";
    assert p10[|p7|..] == ": " + input + "\n\n";
    OccursInPrefix(": " + input + "\n\n", p10, |p7|, p);
  }

  /** The filled template ends with the input, a blank line, the answer
      instruction and a line break. */
  lemma FillEnding(s: Slots, relatedContent: string, input: string)
    ensures var p := Fill(s, relatedContent, input);
      OccursAt(input + "\n\n" + s.answerFormat + "\n", p, |p| - |input + "\n\n" + s.answerFormat + "\n"|) &&
      OccursAt(s.answerFormat + "\n", p, |p| - |s.answerFormat + "\n"|)
  {
    var p := Fill(s, relatedContent, input);
    var p9 := OpeningHead + s.role + OpeningTail + relatedContent + "\n" + s.backgroundInfomation + "\n" +
      s.questionGuide + ": ";
    var p10 := p9 + input + "\n\n";
    assert p == p9 + (input + "\n\n" + s.answerFormat + "\n");
    assert p[|p9|..] == input + "\n\n" + s.answerFormat + "\n";
    assert p == p10 + (s.answerFormat + "\n");
    assert p[|p10|..] == s.answerFormat + "\n";
  }

  /** The prompt's opening, up to and including the related content. */
  lemma PromptOpening(intermediateSteps: seq<IntermediateStep>, relatedContent: string, input: string)
    ensures var role := if |intermediateSteps| == 0 then NaiveRole else SmartRole;
      OccursAt(OpeningHead + role + OpeningTail + relatedContent, Prompt(intermediateSteps, relatedContent, input), 0)
  {
    FillOpening(ChooseSlots(intermediateSteps), relatedContent, input);
  }

  /** Without steps the question is introduced by the guide, whose own colon
      is followed by the template's (`I have a question: : `), and the prompt
      ends with the instruction to answer or call the search. */
  lemma PromptWithoutSteps(relatedContent: string, input: string)
    ensures var p := Prompt([], relatedContent, input);
      var beforeGuide := OpeningHead + NaiveRole + OpeningTail + relatedContent + "\n" + "\n" + "\n";
      OccursAt(NaiveQuestionGuide, p, |beforeGuide|) &&
      OccursAt(": " + input + "\n\n", p, |beforeGuide + NaiveQuestionGuide|) &&
      OccursAt(NaiveAnswerFormat + "\n", p, |p| - |NaiveAnswerFormat + "\n"|)
  {
    var s := Slots(NaiveRole, "\n", NaiveQuestionGuide, NaiveAnswerFormat);
    assert Prompt([], relatedContent, input) == Fill(s, relatedContent, input);
    FillQuestion(s, relatedContent, input);
    FillEnding(s, relatedContent, input);
  }

  /** With steps the background carries the fixed header and then the first
      step's observation verbatim, and the prompt ends with the question and no
      answer instruction. */
  lemma PromptWithSteps(intermediateSteps: seq<IntermediateStep>, relatedContent: string, input: string)
    requires |intermediateSteps| > 0
    ensures var p := Prompt(intermediateSteps, relatedContent, input);
      var obs := intermediateSteps[0].observation;
      OccursAt(BackgroundHeader + obs + "\n", p, |OpeningHead + SmartRole + OpeningTail + relatedContent + "\n"|) &&
      OccursAt(input + "\n\n\n", p, |p| - |input + "\n\n\n"|)
  {
    var s := ChooseSlots(intermediateSteps);
    FillBackground(s, relatedContent, input);
    FillEnding(s, relatedContent, input);
    assert input + "\n\n" + s.answerFormat + "\n" == input + "\n\n\n";
  }

  /** The observation of the first step occurs verbatim in the second prompt,
      right after the background header. */
  lemma ObservationInPrompt(intermediateSteps: seq<IntermediateStep>, relatedContent: string, input: string)
    requires |intermediateSteps| > 0
    ensures OccursAt(intermediateSteps[0].observation, Prompt(intermediateSteps, relatedContent, input),
                     |OpeningHead + SmartRole + OpeningTail + relatedContent + "\n" + BackgroundHeader|)
  {
    var s := ChooseSlots(intermediateSteps);
    var p := Fill(s, relatedContent, input);
    assert Prompt(intermediateSteps, relatedContent, input) == p;
    var at := |OpeningHead + s.role + OpeningTail + relatedContent + "\n"|;
    assert at + |BackgroundHeader| == |OpeningHead + SmartRole + OpeningTail + relatedContent + "\n" + BackgroundHeader|;
    FillBackground(s, relatedContent, input);
    OccursWithin(intermediateSteps[0].observation, s.backgroundInfomation, |BackgroundHeader|, p, at);
  }

  /** Only the first step's observation reaches the prompt: its action and
      every later step are ignored. */
  lemma PromptUsesOnlyFirstObservation(steps1: seq<IntermediateStep>, steps2: seq<IntermediateStep>,
                                       relatedContent: string, input: string)
    requires |steps1| > 0 && |steps2| > 0
    requires steps1[0].observation == steps2[0].observation
    ensures Prompt(steps1, relatedContent, input) == Prompt(steps2, relatedContent, input)
  {
  }
}
