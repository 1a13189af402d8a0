/** The texts the workflows send to the inference service when they create a
    persona's assistant: its description, instructions and name, and the model
    they name. */
module AssistantTemplates {
  import opened Seqs
  import opened Schema

  /** The model every request names. */
  const Model: string := "gpt-4.1-nano"

  /** The schema's literal for a gender. */
  function GenderText(g: Gender): string {
    match g
    case Male => "male"
    case Female => "female"
  }

  /** The closing paragraphs, identical for every persona. */
  const ClosingLines: seq<string> := [
    "Provide realistic, emotionally grounded, and demographically appropriate reactions and responses.",
    "",
    "Focus your conversation around topics relevant to the project\U{2019}s objectives and situation.",
    "",
    "Offer insights, feedback, or questions that a person with your background and demographic profile would realistically express.",
    "",
    "Do not reveal that you are an AI. Behave as a human would in a marketing interview or brainstorming session."
  ]

  /** How the persona is introduced: its name and, in quotes, its nickname. */
  function Greeting(persona: Persona): string {
    "You are " + persona.name + ", also known as \"" + persona.nickname + "\""
  }

  /** The opening sentence: who the persona is and which experiment, project
      and category it takes part in. */
  function IntroSentence(persona: Persona, project: Project, experimentName: string): string {
    Greeting(persona) + Role + Called(project, experimentName) + InCategory(project)
  }

  const Role: string := ", a virtual marketing persona participating in a marketing experiment"

  function Called(project: Project, experimentName: string): string {
    " called " + experimentName + " for the project \"" + project.name + "\""
  }

  function InCategory(project: Project): string {
    " in the category of " + project.category + "."
  }

  /** The sentence opens with the greeting and names the experiment, the
      project and its category. */
  lemma IntroSentenceMentions(persona: Persona, project: Project, experimentName: string)
    ensures var r := IntroSentence(persona, project, experimentName);
            && StartsWith(r, Greeting(persona))
            && Includes(r, Called(project, experimentName))
            && Includes(r, InCategory(project))
  {
    var who := Greeting(persona);
    var called := Called(project, experimentName);
    var category := InCategory(project);
    assert (who + Role + called + category)[..|who|] == who;
    IncludesMiddle(who + Role, called, category);
    IncludesMiddle(who + Role + called, category, "");
    assert who + Role + called + category + "" == who + Role + called + category;
  }

  /** The profile lines that follow the introduction: background and quote. */
  function ProfileLines(persona: Persona): seq<string> {
    [ "",
      "Persona Background:",
      "Background: " + persona.background,
      "",
      "Personal Quote: \"" + persona.quote + "\"",
      "",
      "Demographics:" ]
  }

  /** The demographic lines; the age is rendered in decimal. */
  function DemographicLines(d: DemographicProfile): seq<string> {
    [ "Age: " + DecimalText(d.age),
      "",
      "Gender: " + GenderText(d.gender),
      "",
      "Occupation: " + d.occupation,
      "",
      "Country: " + d.country + ", " + d.state ]
  }

  /** The project context lines. */
  function ContextLines(project: Project): seq<string> {
    [ "",
      "Project Context:",
      "Objective: " + project.objective,
      "",
      "Situation: " + project.situation,
      "",
      "Target Audience: " + project.targetAudience ]
  }

  /** The rules the template ends with. */
  function RuleLines(nickname: string): seq<string> {
    ["Stay in character as " + nickname + " at all times.", ""] + ClosingLines
  }

  /** The heading the rules follow. */
  const HeadingLines: seq<string> := ["", "Instructions:"]

  /** The template as blocks of lines: a leading empty line (the literal
      starts with a line break), the introduction, the profile, the
      demographics, the project context, the heading and the rules, each
      block the join of its lines. */
  function Blocks(persona: Persona, project: Project, experimentName: string): seq<string> {
    [ "",
      IntroSentence(persona, project, experimentName),
      Join(ProfileLines(persona), "\n"),
      Join(DemographicLines(persona.demographicProfile), "\n"),
      Join(ContextLines(project), "\n"),
      Join(HeadingLines, "\n"),
      Join(RuleLines(persona.nickname), "\n") ]
  }

  /** `templateAssistantInstructions`: the persona's profile, the project's
      context and the rules of the role play, one line each. */
  function TemplateAssistantInstructions(persona: Persona, project: Project, experimentName: string): string {
    Join(Blocks(persona, project, experimentName), "\n")
  }

  /** The instructions open with a line break, the persona's name and
      nickname, the experiment, project and category. */
  lemma InstructionsOpening(persona: Persona, project: Project, experimentName: string)
    ensures var r := TemplateAssistantInstructions(persona, project, experimentName);
      && StartsWith(r, "\n" + Greeting(persona))
      && Includes(r, Called(project, experimentName))
      && Includes(r, InCategory(project))
  {
    var blocks := Blocks(persona, project, experimentName);
    var sentence := IntroSentence(persona, project, experimentName);
    var rest := "\n" + Join(blocks[2..], "\n");
    JoinFirstTwo(blocks, "\n");
    assert "" + "\n" == "\n";
    IntroSentenceMentions(persona, project, experimentName);
    StartsWithAfter("\n", sentence, rest, Greeting(persona));
    IncludesWithin("\n", sentence, rest, Called(project, experimentName));
    IncludesWithin("\n", sentence, rest, InCategory(project));
  }

  /** Every line of a block appears in the instructions. */
  lemma InstructionsIncludeLine(persona: Persona, project: Project, experimentName: string,
                                block: nat, lines: seq<string>, k: nat)
    requires 2 <= block < 7 && k < |lines|
    requires Blocks(persona, project, experimentName)[block] == Join(lines, "\n")
    ensures Includes(TemplateAssistantInstructions(persona, project, experimentName), lines[k])
  {
    JoinIncludes(Blocks(persona, project, experimentName), "\n", block);
    JoinIncludes(lines, "\n", k);
    IncludesTransitive(TemplateAssistantInstructions(persona, project, experimentName), Join(lines, "\n"), lines[k]);
  }

  /** Every profile field of the persona has a line of its own; the age is
      written in decimal. */
  lemma InstructionsProfile(persona: Persona, project: Project, experimentName: string)
    ensures var r := TemplateAssistantInstructions(persona, project, experimentName);
      && Includes(r, "Background: " + persona.background)
      && Includes(r, "Personal Quote: \"" + persona.quote + "\"")
      && Includes(r, "Age: " + DecimalText(persona.demographicProfile.age))
      && Includes(r, "Gender: " + GenderText(persona.demographicProfile.gender))
      && Includes(r, "Occupation: " + persona.demographicProfile.occupation)
      && Includes(r, "Country: " + persona.demographicProfile.country + ", " + persona.demographicProfile.state)
  {
    var profile := ProfileLines(persona);
    var demographics := DemographicLines(persona.demographicProfile);
    InstructionsIncludeLine(persona, project, experimentName, 2, profile, 2);
    InstructionsIncludeLine(persona, project, experimentName, 2, profile, 4);
    InstructionsIncludeLine(persona, project, experimentName, 3, demographics, 0);
    InstructionsIncludeLine(persona, project, experimentName, 3, demographics, 2);
    InstructionsIncludeLine(persona, project, experimentName, 3, demographics, 4);
    InstructionsIncludeLine(persona, project, experimentName, 3, demographics, 6);
  }

  /** Every project field has a line of its own, and the rules, which name the
      nickname again, come last. */
  lemma InstructionsContext(persona: Persona, project: Project, experimentName: string)
    ensures var r := TemplateAssistantInstructions(persona, project, experimentName);
      && Includes(r, "Objective: " + project.objective)
      && Includes(r, "Situation: " + project.situation)
      && Includes(r, "Target Audience: " + project.targetAudience)
      && EndsWith(r, Join(RuleLines(persona.nickname), "\n"))
  {
    var context := ContextLines(project);
    InstructionsIncludeLine(persona, project, experimentName, 4, context, 2);
    InstructionsIncludeLine(persona, project, experimentName, 4, context, 4);
    InstructionsIncludeLine(persona, project, experimentName, 4, context, 6);
    JoinEndsWithLast(Blocks(persona, project, experimentName), "\n");
  }

  /** `templateAssistantDescription`: one sentence naming the persona, the
      project and the experiment, its words separated by single spaces. The
      literal repeats the word "on". */
  function TemplateAssistantDescription(persona: Persona, project: Project, experimentName: string): string {
    Join(DescriptionWords(persona, project, experimentName), " ")
  }

  function DescriptionWords(persona: Persona, project: Project, experimentName: string): seq<string> {
    ["Assistant representing the", persona.name, "persona on on the context of the",
     project.name, "project for the", experimentName + " experiment."]
  }

  /** The description names the persona, the project and the experiment. */
  lemma DescriptionMentions(persona: Persona, project: Project, experimentName: string)
    ensures var r := TemplateAssistantDescription(persona, project, experimentName);
            Includes(r, persona.name) && Includes(r, project.name) && Includes(r, experimentName + " experiment.")
  {
    var parts := DescriptionWords(persona, project, experimentName);
    JoinIncludes(parts, " ", 1);
    JoinIncludes(parts, " ", 3);
    JoinIncludes(parts, " ", 5);
  }

  /** `templateAssistantName`: persona, project and experiment joined by " on ". */
  function TemplateAssistantName(persona: Persona, project: Project, experimentName: string): string {
    persona.name + " on " + project.name + " on " + experimentName
  }

  /** The name is the three names joined by " on ", so it names all three. */
  lemma NameMentions(persona: Persona, project: Project, experimentName: string)
    ensures var r := TemplateAssistantName(persona, project, experimentName);
            && r == Join([persona.name, project.name, experimentName], " on ")
            && Includes(r, persona.name) && Includes(r, project.name) && Includes(r, experimentName)
  {
    var parts := [persona.name, project.name, experimentName];
    JoinIncludes(parts, " on ", 0);
    JoinIncludes(parts, " on ", 1);
    JoinIncludes(parts, " on ", 2);
    assert Join(parts[2..], " on ") == experimentName;
    assert Join(parts[1..], " on ") == project.name + " on " + experimentName;
  }

  /** The texts depend on the documents' contents only: neither ids nor
      organizations appear in them. */
  lemma TemplatesIgnoreIds(persona: Persona, project: Project, experimentName: string,
                           personaId: Id, projectId: Id, organizationId: string)
    ensures var p := persona.(id := personaId, organizationId := organizationId);
            var q := project.(id := projectId, organizationId := organizationId);
            && TemplateAssistantInstructions(p, q, experimentName) == TemplateAssistantInstructions(persona, project, experimentName)
            && TemplateAssistantDescription(p, q, experimentName) == TemplateAssistantDescription(persona, project, experimentName)
            && TemplateAssistantName(p, q, experimentName) == TemplateAssistantName(persona, project, experimentName)
  {
    var p := persona.(id := personaId, organizationId := organizationId);
    var q := project.(id := projectId, organizationId := organizationId);
    assert Blocks(p, q, experimentName) == Blocks(persona, project, experimentName);
  }
}

/** The instructions sent with the first message of a persona's conversation. */
module Prompts {
  import opened Seqs
  import opened Schema
  import AssistantTemplates

  const Model: string := "gpt-4.1-nano"

  /** `templateInstructionPrompt`: the instructions of a persona's first
      reply. The prompt file carries a line-for-line copy of the assistant
      instructions template, so the text is the assistant instructions' text. */
  function TemplateInstructionPrompt(experiment: Experiment, persona: Persona, project: Project): string {
    AssistantTemplates.TemplateAssistantInstructions(persona, project, experiment.name)
  }

  /** The prompt opens with a line break and the persona's name, carries the
      age, the place, the objective, the situation and the audience, and ends
      with the rules. */
  lemma PromptMentions(experiment: Experiment, persona: Persona, project: Project)
    ensures var r := TemplateInstructionPrompt(experiment, persona, project);
            && StartsWith(r, "\n" + AssistantTemplates.Greeting(persona))
            && Includes(r, "Age: " + DecimalText(persona.demographicProfile.age))
            && Includes(r, "Country: " + persona.demographicProfile.country + ", " + persona.demographicProfile.state)
            && Includes(r, "Objective: " + project.objective)
            && Includes(r, "Situation: " + project.situation)
            && Includes(r, "Target Audience: " + project.targetAudience)
            && EndsWith(r, Join(AssistantTemplates.RuleLines(persona.nickname), "\n"))
  {
    AssistantTemplates.InstructionsOpening(persona, project, experiment.name);
    AssistantTemplates.InstructionsProfile(persona, project, experiment.name);
    AssistantTemplates.InstructionsContext(persona, project, experiment.name);
  }

  /** Both files name the same model. */
  lemma SameModel()
    ensures Model == AssistantTemplates.Model
  {
  }
}
