/** The travel-advice response parser (`MaestroService.parse_advice`): the
    response text is cut into blocks at blank lines, a block naming a section
    title switches the current section, and the other blocks are filed under
    the current section. Case is ignored for ASCII letters only. */
module AdviceParser {
  import opened Wrappers
  import opened Text

  datatype Category = Safety | Weather | Culture | Transportation | Attractions | Personalized

  /** The order in which the section titles are tried. */
  const Order: seq<Category> := [Safety, Weather, Culture, Transportation, Attractions, Personalized]

  /** A category's position in `Order`. */
  function Rank(c: Category): nat
  {
    match c
    case Safety => 0
    case Weather => 1
    case Culture => 2
    case Transportation => 3
    case Attractions => 4
    case Personalized => 5
  }

  /** `Order` lists every category once, each at its rank. */
  lemma OrderRanks()
    ensures |Order| == 6
    ensures forall i :: 0 <= i < |Order| ==> Rank(Order[i]) == i
    ensures forall c :: Order[Rank(c)] == c
  {
    forall i | 0 <= i < |Order| ensures Rank(Order[i]) == i {
      if i == 0 {} else if i == 1 {} else if i == 2 {} else if i == 3 {} else if i == 4 {} else {}
    }
  }

  /** The key of the category in the result dictionary. */
  function Key(c: Category): string
  {
    match c
    case Safety => "safety"
    case Weather => "weather"
    case Culture => "culture"
    case Transportation => "transportation"
    case Attractions => "attractions"
    case Personalized => "personalized"
  }

  /** The section title that marks the start of the category's section. */
  function Marker(c: Category): (m: string)
    ensures |m| > 0 && '\n' !in m
  {
    match c
    case Safety => "SAFETY INFORMATION"
    case Weather => "WEATHER AND CLIMATE"
    case Culture => "CULTURAL GUIDE"
    case Transportation => "TRANSPORTATION"
    case Attractions => "ATTRACTIONS AND ACTIVITIES"
    case Personalized => "PERSONALIZED RECOMMENDATIONS"
  }

  /** `marker.lower()`: the title with its ASCII capitals lowered, the form
      every comparison uses. */
  function LowerMarker(c: Category): (m: string)
    ensures |m| == |Marker(c)|
  {
    match c
    case Safety => "safety information"
    case Weather => "weather and climate"
    case Culture => "cultural guide"
    case Transportation => "transportation"
    case Attractions => "attractions and activities"
    case Personalized => "personalized recommendations"
  }

  /** Lower-cased titles stay on one line. */
  lemma LowerMarkerOneLine(c: Category)
    ensures '\n' !in LowerMarker(c)
  {
  }

  /** The text a category with no content gets. */
  function Placeholder(c: Category): string
  {
    "Information about " + Key(c) + " will be updated soon."
  }

  /** Whether the block mentions the category's title, ignoring case. */
  predicate Mentions(block: string, c: Category)
  {
    Contains(Lower(block), LowerMarker(c))
  }

  /** The section a block announces: the first category, in `Order`, whose
      title it mentions; none if it mentions no title. */
  function HeaderOf(block: string): (r: Option<Category>)
    ensures r.Some? ==> Mentions(block, r.value)
  {
    if Mentions(block, Safety) then Some(Safety)
    else if Mentions(block, Weather) then Some(Weather)
    else if Mentions(block, Culture) then Some(Culture)
    else if Mentions(block, Transportation) then Some(Transportation)
    else if Mentions(block, Attractions) then Some(Attractions)
    else if Mentions(block, Personalized) then Some(Personalized)
    else None
  }

  /** The first title in `Order` wins when a block mentions several. */
  lemma HeaderOfFirstWins(block: string, c: Category)
    requires HeaderOf(block).Some? && Rank(c) < Rank(HeaderOf(block).value)
    ensures !Mentions(block, c)
  {
    match c {
      case Safety =>
      case Weather =>
      case Culture =>
      case Transportation =>
      case Attractions =>
      case Personalized =>
    }
  }

  /** A block announces no section exactly when it mentions no title. */
  lemma HeaderOfNone(block: string, c: Category)
    ensures HeaderOf(block).None? ==> !Mentions(block, c)
    ensures Mentions(block, c) ==> HeaderOf(block).Some?
  {
    match c {
      case Safety =>
      case Weather =>
      case Culture =>
      case Transportation =>
      case Attractions =>
      case Personalized =>
    }
  }

  const BlockSep: string := "\n\n"

  function StripAll(parts: seq<string>): (r: seq<string>)
    ensures |r| == |parts|
    ensures forall i :: 0 <= i < |parts| ==> r[i] == PyStrip(parts[i])
  {
    if |parts| == 0 then [] else [PyStrip(parts[0])] + StripAll(parts[1..])
  }

  /** The response cut at every blank line (`"\n\n"`), each piece stripped. */
  function Blocks(text: string): seq<string>
  {
    StripAll(Split(text, BlockSep))
  }

  /** The state of the parsing loop: the current section and the text filed so
      far under each category. */
  datatype Acc = Acc(current: Option<Category>, content: map<Category, string>)

  const Start: Acc :=
    Acc(None, map[Safety := "", Weather := "", Culture := "", Transportation := "",
                  Attractions := "", Personalized := ""])

  /** Every category starts with an empty text. */
  lemma StartFull()
    ensures forall c :: c in Start.content && Start.content[c] == ""
  {
    forall c ensures c in Start.content && Start.content[c] == "" {
      match c {
        case Safety =>
        case Weather =>
        case Culture =>
        case Transportation =>
        case Attractions =>
        case Personalized =>
      }
    }
  }

  /** One iteration of the loop: skip an empty block, switch section on a
      header block, otherwise append the block (after a blank line if the
      section already has text) to the current section, if there is one. */
  function Step(acc: Acc, block: string): (r: Acc)
    requires forall c :: c in acc.content
    ensures forall c :: c in r.content
    ensures block != "" && HeaderOf(block).Some? ==> r.current == HeaderOf(block)
    ensures block == "" || HeaderOf(block).None? ==> r.current == acc.current
    ensures forall c :: acc.content[c] <= r.content[c]
    ensures forall c :: acc.current != Some(c) ==> r.content[c] == acc.content[c]
  {
    if block == "" then acc
    else match HeaderOf(block)
      case Some(c) => acc.(current := Some(c))
      case None =>
        if acc.current.None? then acc
        else
          var c := acc.current.value;
          var text := if acc.content[c] != "" then acc.content[c] + BlockSep + block else block;
          acc.(content := acc.content[c := text])
  }

  /** The loop over all blocks, in order. */
  function Accumulate(blocks: seq<string>): (r: Acc)
    ensures forall c :: c in r.content
    ensures r.current == SectionAfter(blocks)
    decreases |blocks|
  {
    StartFull();
    if |blocks| == 0 then Start else Step(Accumulate(blocks[..|blocks| - 1]), blocks[|blocks| - 1])
  }

  /** Reference definition: the section in force after some blocks is the one
      announced by the last header block among them. */
  function SectionAfter(blocks: seq<string>): Option<Category>
    decreases |blocks|
  {
    if |blocks| == 0 then None
    else if HeaderOf(blocks[|blocks| - 1]).Some? then HeaderOf(blocks[|blocks| - 1])
    else SectionAfter(blocks[..|blocks| - 1])
  }

  /** Reference definition: the blocks filed under `c`, in order: the
      non-empty blocks that announce no section and follow a header for `c`
      with no other header in between. */
  function ContentOf(blocks: seq<string>, c: Category): (r: seq<string>)
    ensures forall k :: 0 <= k < |r| ==> r[k] != "" && HeaderOf(r[k]).None?
    decreases |blocks|
  {
    if |blocks| == 0 then []
    else
      var n := |blocks| - 1;
      var b := blocks[n];
      ContentOf(blocks[..n], c) +
        (if b != "" && HeaderOf(b).None? && SectionAfter(blocks[..n]) == Some(c) then [b] else [])
  }

  /** One iteration appends the block to the text of `c` exactly when it is
      non-empty, announces no section, and `c` is the current section. */
  lemma StepContent(acc: Acc, b: string, c: Category, xs: seq<string>)
    requires forall d :: d in acc.content
    requires forall k :: 0 <= k < |xs| ==> xs[k] != ""
    requires acc.content[c] == Join(xs, BlockSep)
    ensures Step(acc, b).content[c] ==
              Join(xs + (if b != "" && HeaderOf(b).None? && acc.current == Some(c) then [b] else []), BlockSep)
  {
    JoinEmpty(xs, BlockSep);
    if b != "" && HeaderOf(b).None? && acc.current == Some(c) {
      if |xs| > 0 {
        JoinSnoc(xs, b, BlockSep);
      } else {
        assert xs + [b] == [b];
      }
    } else {
      assert xs + [] == xs;
    }
  }

  /** The loop computes the reference: its current section is the last header
      seen, and each category's text is its filed blocks joined by blank lines. */
  lemma {:induction false} AccumulateMatchesReference(blocks: seq<string>)
    ensures Accumulate(blocks).current == SectionAfter(blocks)
    ensures forall c :: Accumulate(blocks).content[c] == Join(ContentOf(blocks, c), BlockSep)
    decreases |blocks|
  {
    if |blocks| == 0 {
      StartFull();
    } else {
      var n := |blocks| - 1;
      var prev := blocks[..n];
      var b := blocks[n];
      AccumulateMatchesReference(prev);
      var acc := Accumulate(prev);
      assert Accumulate(blocks) == Step(acc, b);
      forall c
        ensures Accumulate(blocks).content[c] == Join(ContentOf(blocks, c), BlockSep)
      {
        StepContent(acc, b, c, ContentOf(prev, c));
      }
    }
  }

  /** A lower-case title with no line break cannot start a text whose part
      after a title-free prefix begins with a line break. */
  lemma PrefixStopsAtNewline(m: string, x: string, tail: string)
    requires '\n' !in m
    requires !Contains(x, m)
    requires tail == "" || tail[0] == '\n'
    ensures !(m <= x + tail)
  {
    if |m| <= |x| {
      assert (x + tail)[..|m|] == x[..|m|];
      assert m <= x + tail ==> m <= x;
    } else if tail == "" {
      assert |x + tail| < |m|;
    } else {
      assert (x + tail)[|x|] == '\n';
      assert m[|x|] != '\n';
    }
  }

  /** A block that does not mention a title, followed by a line break or by
      nothing, does not start with that title. */
  lemma TitleNotAtStart(x: string, tail: string, c: Category)
    requires !Mentions(x, c)
    requires tail == "" || tail[0] == '\n'
    ensures !(LowerMarker(c) <= Lower(x + tail))
  {
    LowerAppend(x, tail);
    LowerMarkerOneLine(c);
    PrefixStopsAtNewline(LowerMarker(c), Lower(x), Lower(tail));
  }

  /** Text filed under a section never starts with that section's title, so
      the title-removal step of the cleanup leaves it unchanged. */
  lemma TitleNeverLeads(xs: seq<string>, c: Category)
    requires |xs| > 0 && !Mentions(xs[0], c)
    ensures !(LowerMarker(c) <= Lower(Join(xs, BlockSep)))
  {
    if |xs| == 1 {
      assert Join(xs, BlockSep) == xs[0] + "";
      TitleNotAtStart(xs[0], "", c);
    } else {
      JoinHead(xs, BlockSep);
      TitleNotAtStart(xs[0], BlockSep + Join(xs[1..], BlockSep), c);
    }
  }

  /** The cleanup of one category: an empty text becomes the placeholder
      (personalized stays empty); otherwise a leading title, matched ignoring
      case, is cut off and the rest stripped. */
  function Finish(c: Category, text: string): (r: string)
    ensures text == "" ==> (r == "" <==> c == Personalized)
    ensures text != "" && !(LowerMarker(c) <= Lower(text)) ==> r == text
    ensures text != "" ==> |r| <= |text|
  {
    if text == "" then (if c == Personalized then "" else Placeholder(c))
    else if LowerMarker(c) <= Lower(text) then PyStrip(text[|Marker(c)|..])
    else text
  }

  /** Reference definition of a category's final text: its filed blocks
      joined by blank lines, or the placeholder when nothing was filed. */
  function Cleaned(blocks: seq<string>, c: Category): string
  {
    if ContentOf(blocks, c) == [] then Placeholder(c) else Join(ContentOf(blocks, c), BlockSep)
  }

  /** The cleanup turns the loop's text into the reference text (the empty
      personalized text aside, which is dropped afterwards): the title-removal
      step never fires. */
  lemma FinishMatchesReference(blocks: seq<string>, c: Category)
    ensures Accumulate(blocks).content[c] == "" <==> ContentOf(blocks, c) == []
    ensures Accumulate(blocks).content[c] != "" || c != Personalized ==>
              Finish(c, Accumulate(blocks).content[c]) == Cleaned(blocks, c)
  {
    AccumulateMatchesReference(blocks);
    var xs := ContentOf(blocks, c);
    var text := Join(xs, BlockSep);
    assert Accumulate(blocks).content[c] == text;
    JoinEmpty(xs, BlockSep);
    if xs != [] {
      HeaderOfNone(xs[0], c);
      TitleNeverLeads(xs, c);
      FinishKeeps(c, text);
    } else {
      FinishEmpty(c);
    }
  }

  /** Non-empty text that does not start with the title is kept as it is. */
  lemma FinishKeeps(c: Category, text: string)
    requires text != "" && !(LowerMarker(c) <= Lower(text))
    ensures Finish(c, text) == text
  {
  }

  /** Empty text becomes the placeholder, and stays empty for personalized. */
  lemma FinishEmpty(c: Category)
    ensures Finish(c, "") == if c == Personalized then "" else Placeholder(c)
  {
  }

  /** The cleanup loop and the final removal of an empty personalized entry. */
  function Cleanup(content: map<Category, string>): (r: map<Category, string>)
    ensures forall c :: c in r <==> c in content && (c != Personalized || content[Personalized] != "")
    ensures forall c :: c in r ==> r[c] == Finish(c, content[c])
    ensures (forall c :: c in content && content[c] == "") ==>
              forall c :: c in r ==> r[c] == Placeholder(c)
  {
    map c | c in content && (c != Personalized || content[Personalized] != "") :: Finish(c, content[c])
  }

  /** After the loop, the cleanup yields the reference texts. */
  lemma CleanupMatchesReference(blocks: seq<string>)
    ensures forall c :: c in Cleanup(Accumulate(blocks).content) <==>
              c != Personalized || ContentOf(blocks, Personalized) != []
    ensures forall c :: c in Cleanup(Accumulate(blocks).content) ==>
              Cleanup(Accumulate(blocks).content)[c] == Cleaned(blocks, c)
  {
    var acc := Accumulate(blocks).content;
    forall c
      ensures Finish(c, acc[c]) == Cleaned(blocks, c) || (c == Personalized && acc[c] == "")
      ensures acc[c] == "" <==> ContentOf(blocks, c) == []
    {
      FinishMatchesReference(blocks, c);
    }
  }

  /** `parse_advice`: the five fixed categories are always present, each with
      its filed blocks joined by blank lines or else the placeholder; the
      personalized category is present exactly when something was filed
      under it. Blocks before the first header are dropped. */
  function ParseAdvice(text: string): (r: map<Category, string>)
    ensures forall c :: c in r <==> c != Personalized || ContentOf(Blocks(text), Personalized) != []
    ensures forall c :: c in r ==> r[c] == Cleaned(Blocks(text), c)
  {
    var blocks := Blocks(text);
    CleanupMatchesReference(blocks);
    Cleanup(Accumulate(blocks).content)
  }

  /** Content before any header is dropped: a response without a header block
      gives every category the placeholder and no personalized entry. */
  lemma {:induction false} NoHeaderNoContent(blocks: seq<string>, c: Category)
    requires forall k :: 0 <= k < |blocks| ==> HeaderOf(blocks[k]).None?
    ensures SectionAfter(blocks) == None && ContentOf(blocks, c) == []
    decreases |blocks|
  {
    if |blocks| > 0 {
      NoHeaderNoContent(blocks[..|blocks| - 1], c);
    }
  }

  /** A response with no section title anywhere parses to the five
      placeholders and no personalized entry. */
  lemma ParseWithoutTitles(text: string)
    requires forall k :: 0 <= k < |Blocks(text)| ==> HeaderOf(Blocks(text)[k]).None?
    ensures Personalized !in ParseAdvice(text)
    ensures forall c :: c != Personalized ==> c in ParseAdvice(text) && ParseAdvice(text)[c] == Placeholder(c)
  {
    var blocks := Blocks(text);
    var r := ParseAdvice(text);
    NoHeaderNoContent(blocks, Personalized);
    forall c | c != Personalized ensures c in r && r[c] == Placeholder(c) {
      NoHeaderNoContent(blocks, c);
      assert Cleaned(blocks, c) == Placeholder(c);
    }
  }
}
