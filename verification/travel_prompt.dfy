/** The request `MaestroService.get_travel_advice` sends to the AI service:
    the prompt and the list of section requirements. The call itself is a
    foreign service and is not modelled. */
module TravelPrompt {
  import opened Wrappers
  import opened Text
  import opened AdviceParser

  /** The fixed opening of every prompt before the destination. */
  const PromptHead: string := "Create a detailed off-the-beaten-path travel guide for "

  /** The clause a truthy hobbies value adds to the prompt. */
  const HobbiesClause: string := " tailored for someone interested in "

  /** The prompt: the guide request for `destination, country`, narrowed to the
      hobbies when they are given; a truthy follow-up question replaces it. */
  function BuildPrompt(destination: string, country: string,
                       hobbies: Option<string>, followUp: Option<string>): (r: string)
    ensures Truthy(followUp) ==> r == followUp.value
    ensures !Truthy(followUp) ==> PromptHead + destination + ", " + country <= r
    ensures !Truthy(followUp) && Truthy(hobbies) ==>
              r == PromptHead + destination + ", " + country + HobbiesClause + hobbies.value
    ensures !Truthy(followUp) && !Truthy(hobbies) ==> r == PromptHead + destination + ", " + country
  {
    var base := PromptHead + destination + ", " + country;
    var withHobbies := if Truthy(hobbies) then base + HobbiesClause + hobbies.value else base;
    if Truthy(followUp) then followUp.value else withHobbies
  }

  /** The hobbies reach the prompt exactly when they are truthy and there is no
      follow-up question; a follow-up question is sent verbatim. */
  lemma PromptMentionsHobbies(destination: string, country: string, hobbies: string, followUp: Option<string>)
    requires hobbies != "" && !Truthy(followUp)
    ensures Contains(BuildPrompt(destination, country, Some(hobbies), followUp), HobbiesClause + hobbies)
  {
    var base := PromptHead + destination + ", " + country;
    ContainsMiddle(base, HobbiesClause + hobbies, "");
    assert base + (HobbiesClause + hobbies) + "" == base + HobbiesClause + hobbies;
  }

  /** One entry of the requirements list: a name and an instruction. */
  datatype Requirement = Requirement(name: string, description: string)

  /** The requirement name of each section. */
  function RequirementName(c: Category): string
  {
    match c
    case Safety => "safety_section"
    case Weather => "weather_section"
    case Culture => "culture_section"
    case Transportation => "transport_section"
    case Attractions => "attractions_section"
    case Personalized => "personalized_section"
  }

  const PersonalizedLead: string :=
    " with exactly 2 paragraphs of recommendations specifically for travelers interested in "
  const PersonalizedTail: string :=
    ". Suggest specific venues, activities, or experiences that match these interests in this location."

  /** What each instruction asks for after the section title. */
  function Body(c: Category, hobbies: string): string
  {
    match c
    case Safety =>
      " with exactly 3 paragraphs about safety conditions, emergency numbers, and local precautions specific to this location. Include insights that typical tourists might not know."
    case Weather =>
      " with exactly 2 paragraphs about seasonal patterns, best times to visit for avoiding crowds, and local weather phenomena. Include practical clothing advice."
    case Culture =>
      " with exactly 3 paragraphs about local customs, etiquette, and traditions. Focus on lesser-known cultural aspects that create authentic experiences and respectful interaction with locals."
    case Transportation =>
      " with exactly 2 paragraphs about getting around like a local, including hidden transportation options, shortcuts, and advice on avoiding tourist traps when traveling in the area."
    case Attractions =>
      " with exactly 3 paragraphs about unique experiences, hidden gems, and local favorites that aren't in typical guidebooks. Focus on authentic, immersive experiences instead of crowded tourist attractions."
    case Personalized =>
      PersonalizedLead + hobbies + PersonalizedTail
  }

  /** The opening of an instruction that names a section title. */
  function TitleLine(title: string): string
  {
    "Write a section titled '" + title + "'"
  }

  /** `f"Write a section titled '{title}'{rest}"`. */
  function Titled(title: string, rest: string): string
  {
    TitleLine(title) + rest
  }

  /** The requirement for one section: every instruction opens by naming the
      section title the parser later looks for. */
  function RequirementFor(c: Category, hobbies: string): (r: Requirement)
    ensures r.name == RequirementName(c)
    ensures TitleLine(Marker(c)) <= r.description
  {
    Requirement(RequirementName(c), Titled(Marker(c), Body(c, hobbies)))
  }

  /** The five fixed sections, in the parser's order. */
  const FixedSections: seq<Category> := [Safety, Weather, Culture, Transportation, Attractions]

  /** The requirements list: the five fixed sections, then a personalized
      section exactly when hobbies are given and there is no follow-up. */
  function BuildRequirements(hobbies: Option<string>, followUp: Option<string>): (r: seq<Requirement>)
    ensures |r| == if Truthy(hobbies) && !Truthy(followUp) then 6 else 5
    ensures forall i :: 0 <= i < 5 ==> r[i] == RequirementFor(FixedSections[i], "")
    ensures |r| == 6 ==> r[5] == RequirementFor(Personalized, hobbies.value)
    ensures forall i :: 0 <= i < |r| ==> r[i].name == RequirementName(Order[i])
  {
    var fixed := seq(5, i requires 0 <= i < 5 => RequirementFor(FixedSections[i], ""));
    if Truthy(hobbies) && !Truthy(followUp) then fixed + [RequirementFor(Personalized, hobbies.value)]
    else fixed
  }

  /** Every requirement opens by naming a section title the parser
      recognises, the fixed ones in the parser's order. */
  lemma RequirementsNameTitles(hobbies: Option<string>, followUp: Option<string>)
    ensures var r := BuildRequirements(hobbies, followUp);
            forall i :: 0 <= i < |r| ==> TitleLine(Marker(Order[i])) <= r[i].description
  {
    var r := BuildRequirements(hobbies, followUp);
    forall i | 0 <= i < |r| ensures TitleLine(Marker(Order[i])) <= r[i].description {
      if i < 5 {
        assert FixedSections[i] == Order[i];
      }
    }
  }

  /** Different sections have different requirement names. */
  lemma RequirementNameInjective(a: Category, b: Category)
    ensures RequirementName(a) == RequirementName(b) ==> a == b
  {
  }

  /** No two requirements share a name. */
  lemma {:induction false} RequirementNamesDistinct(hobbies: Option<string>, followUp: Option<string>)
    ensures var r := BuildRequirements(hobbies, followUp);
            forall i, j :: 0 <= i < j < |r| ==> r[i].name != r[j].name
  {
    var r := BuildRequirements(hobbies, followUp);
    var names := seq(|r|, i requires 0 <= i < |r| => r[i].name);
    OrderedNamesDistinct(names);
    assert forall i :: 0 <= i < |r| ==> r[i].name == names[i];
  }

  /** Names taken from the sections in the parser's order are distinct. */
  lemma OrderedNamesDistinct(names: seq<string>)
    requires |names| <= |Order|
    requires forall i :: 0 <= i < |names| ==> names[i] == RequirementName(Order[i])
    ensures forall i, j :: 0 <= i < j < |names| ==> names[i] != names[j]
  {
    OrderRanks();
    forall i, j | 0 <= i < j < |names| ensures names[i] != names[j] {
      RequirementNameInjective(Order[i], Order[j]);
    }
  }

  /** The personalized instruction quotes the hobbies. */
  lemma PersonalizedQuotesHobbies(hobbies: Option<string>, followUp: Option<string>)
    requires Truthy(hobbies) && !Truthy(followUp)
    ensures Contains(BuildRequirements(hobbies, followUp)[5].description, hobbies.value)
  {
    var h := hobbies.value;
    PersonalizedDescription(h);
    ContainsMiddle(TitleLine(Marker(Personalized)) + PersonalizedLead, h, PersonalizedTail);
  }

  lemma PersonalizedDescription(h: string)
    ensures RequirementFor(Personalized, h).description
              == (TitleLine(Marker(Personalized)) + PersonalizedLead) + h + PersonalizedTail
  {
    var t := TitleLine(Marker(Personalized));
    assert RequirementFor(Personalized, h).description == t + (PersonalizedLead + h + PersonalizedTail);
  }
}
