/** Report types, report sources and tones, with the string values the rest of the
    program compares against. */
module ResearchEnums {
  import opened Wrappers

  // ReportType values
  const RESEARCH_REPORT := "research_report"
  const RESOURCE_REPORT := "resource_report"
  const OUTLINE_REPORT := "outline_report"
  const CUSTOM_REPORT := "custom_report"
  const DETAILED_REPORT := "detailed_report"
  const SUBTOPIC_REPORT := "subtopic_report"

  // ReportSource values
  const WEB_SOURCE := "web"
  const LOCAL_SOURCE := "local"
  const LANGCHAIN_DOCUMENTS_SOURCE := "langchain_documents"

  /** The tone enumeration; each member's value is the sentence shown to the user
      and pasted into prompts. */
  datatype Tone =
    | Objective | Formal | Analytical | Persuasive | Informative
    | Explanatory | Descriptive | Critical | Comparative | Speculative
    | Reflective | Narrative | Humorous | Optimistic | Pessimistic

  /** `tone.value`: the tone's name followed by its description in parentheses. */
  function ToneValue(t: Tone): string {
    ToneName(t) + ToneTail(t)
  }

  function ToneTail(t: Tone): string {
    " (" + ToneDescription(t) + ")"
  }

  function ToneName(t: Tone): string {
    match t
    case Objective => "Objective"
    case Formal => "Formal"
    case Analytical => "Analytical"
    case Persuasive => "Persuasive"
    case Informative => "Informative"
    case Explanatory => "Explanatory"
    case Descriptive => "Descriptive"
    case Critical => "Critical"
    case Comparative => "Comparative"
    case Speculative => "Speculative"
    case Reflective => "Reflective"
    case Narrative => "Narrative"
    case Humorous => "Humorous"
    case Optimistic => "Optimistic"
    case Pessimistic => "Pessimistic"
  }

  function ToneDescription(t: Tone): string {
    match t
    case Objective => "Present facts and findings fairly and without bias"
    case Formal => "Follow academic standards with rigorous language and structure"
    case Analytical => "Critical evaluation and detailed examination of data and theories"
    case Persuasive => "Aimed at convincing the audience to accept specific viewpoints or arguments"
    case Informative => "Provide clear and comprehensive information related to the topic"
    case Explanatory => "Clarify complex concepts and processes"
    case Descriptive => "Detailed depiction of phenomena, experiments, or case studies"
    case Critical => "Evaluate the validity and relevance of research and its conclusions"
    case Comparative => "Juxtapose different theories, data, or methods to highlight differences and similarities"
    case Speculative => "Explore hypotheses, potential impacts, or future research directions"
    case Reflective => "Reflect on the research process and personal insights or experiences"
    case Narrative => "Present research findings or methods through storytelling"
    case Humorous => "Light-hearted and engaging, making content more understandable and accessible"
    case Optimistic => "Emphasize positive findings and potential benefits"
    case Pessimistic => "Focus on limitations, challenges, or negative outcomes"
  }

  /** `Tone(value)`: the member with that value, or `None` where Python raises
      `ValueError`. The first three characters pick the only candidate. */
  function ToneFromValue(s: string): (r: Option<Tone>)
    ensures r.Some? ==> ToneValue(r.value) == s
  {
    if |s| < 3 then None
    else match ToneOfInitials(s[0], s[1], s[2])
      case Some(t) => if ToneValue(t) == s then Some(t) else None
      case None => None
  }

  /** Looking a tone up by its own value finds that tone, and only a tone's value
      is found. */
  lemma ToneValueRoundTrip(t: Tone)
    ensures ToneFromValue(ToneValue(t)) == Some(t)
  {
    ToneOfInitialsInverts(t);
  }

  lemma ToneValueInjective(a: Tone, b: Tone)
    requires ToneValue(a) == ToneValue(b)
    ensures a == b
  {
    ToneOfInitialsInverts(a);
    ToneOfInitialsInverts(b);
  }

  /** The first three characters of a tone's value already tell the tones apart. */
  function ToneOfInitials(c0: char, c1: char, c2: char): Option<Tone> {
    match (c0, c1, c2)
    case ('O', 'b', _) => Some(Objective)
    case ('F', _, _) => Some(Formal)
    case ('A', _, _) => Some(Analytical)
    case ('P', 'e', 'r') => Some(Persuasive)
    case ('I', _, _) => Some(Informative)
    case ('E', _, _) => Some(Explanatory)
    case ('D', _, _) => Some(Descriptive)
    case ('C', 'r', _) => Some(Critical)
    case ('C', 'o', _) => Some(Comparative)
    case ('S', _, _) => Some(Speculative)
    case ('R', _, _) => Some(Reflective)
    case ('N', _, _) => Some(Narrative)
    case ('H', _, _) => Some(Humorous)
    case ('O', 'p', _) => Some(Optimistic)
    case ('P', 'e', 's') => Some(Pessimistic)
    case _ => None
  }

  lemma ToneOfInitialsInverts(t: Tone)
    ensures |ToneValue(t)| >= 3
    ensures ToneOfInitials(ToneValue(t)[0], ToneValue(t)[1], ToneValue(t)[2]) == Some(t)
  {
    var n := ToneName(t);
    var v := ToneValue(t);
    NameInitials(t);
    assert v == n + ToneTail(t);
    assert v[0] == n[0] && v[1] == n[1] && v[2] == n[2];
  }

  lemma NameInitials(t: Tone)
    ensures |ToneName(t)| >= 3
    ensures ToneOfInitials(ToneName(t)[0], ToneName(t)[1], ToneName(t)[2]) == Some(t)
  {
  }
}
