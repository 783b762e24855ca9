/** The pure logic of the advisor's browser script: the input guards of the
    two forms, the session search history, the ordering and naming of advice
    sections, and the paragraph formatting of advice text. The DOM, `fetch`
    and timers are not modelled. */
module AdvisorPage {
  import opened Wrappers
  import opened Text

  // ---------------------------------------------------------------------
  // Input guards
  // ---------------------------------------------------------------------

  /** The arguments of `searchDestination`: trimmed city, country and hobbies. */
  datatype Search = Search(city: string, country: string, hobbies: string)

  /** The search form's submit handler: every field is trimmed, and a search
      is issued only when the trimmed city and country are both non-empty. */
  function SearchGuard(city: string, country: string, hobbies: string): (r: Option<Search>)
    ensures r.Some? <==> !AllIn(city, JsSpace) && !AllIn(country, JsSpace)
    ensures r.Some? ==> r.value == Search(JsTrim(city), JsTrim(country), JsTrim(hobbies))
  {
    var c := JsTrim(city);
    var k := JsTrim(country);
    if c != "" && k != "" then Some(Search(c, k, JsTrim(hobbies))) else None
  }

  lemma JsTrimTwice(s: string)
    ensures JsTrim(JsTrim(s)) == JsTrim(s)
  {
    TrimTwice(s, JsSpace);
  }

  /** Submitting already-trimmed values issues the same search again. */
  lemma SearchGuardStable(city: string, country: string, hobbies: string)
    requires SearchGuard(city, country, hobbies).Some?
    ensures var s := SearchGuard(city, country, hobbies).value;
            SearchGuard(s.city, s.country, s.hobbies) == Some(s)
  {
    JsTrimTwice(city);
    JsTrimTwice(country);
    JsTrimTwice(hobbies);
  }

  /** The follow-up form after a submit: the question sent, if any, with the
      destination id it is about, and what is left in the input field. */
  datatype FollowUp = FollowUp(sent: Option<(string, string)>, field: string)

  /** The follow-up form's submit handler: the question is trimmed; it is sent
      only when it is non-empty and the form carries a non-empty destination
      id, and only then is the input field cleared. */
  function FollowUpGuard(field: string, destinationId: Option<string>): (r: FollowUp)
    ensures r.sent.Some? <==> !AllIn(field, JsSpace) && Truthy(destinationId)
    ensures r.sent.Some? ==> r.sent.value == (destinationId.value, JsTrim(field)) && r.field == ""
    ensures r.sent.None? ==> r.field == field
  {
    var question := JsTrim(field);
    if question != "" && Truthy(destinationId) then FollowUp(Some((destinationId.value, question)), "")
    else FollowUp(None, field)
  }

  // ---------------------------------------------------------------------
  // Search history
  // ---------------------------------------------------------------------

  /** One advice entry of a destination, as the API returns it. */
  datatype Advice = Advice(category: string, content: Option<string>)

  /** A destination with its advice, as the API returns it; `advice` is absent
      when the field is missing or null. */
  datatype Destination = Destination(id: int, name: string, country: string, advice: Option<seq<Advice>>)

  predicate HasId(history: seq<Destination>, id: int)
  {
    exists i :: 0 <= i < |history| && history[i].id == id
  }

  predicate UniqueIds(history: seq<Destination>)
  {
    forall i, j :: 0 <= i < j < |history| ==> history[i].id != history[j].id
  }

  /** `addToSearchHistory`: the destination is appended exactly when no entry
      has its id; otherwise the history is left as it was. */
  function AddToSearchHistory(history: seq<Destination>, d: Destination): (r: seq<Destination>)
    ensures HasId(history, d.id) ==> r == history
    ensures !HasId(history, d.id) ==> r == history + [d]
    ensures HasId(r, d.id)
  {
    if exists i :: 0 <= i < |history| && history[i].id == d.id then history
    else
      assert (history + [d])[|history|].id == d.id;
      history + [d]
  }

  /** Adding keeps the ids of the history distinct. */
  lemma AddKeepsIdsUnique(history: seq<Destination>, d: Destination)
    requires UniqueIds(history)
    ensures UniqueIds(AddToSearchHistory(history, d))
  {
    var r := AddToSearchHistory(history, d);
    if !HasId(history, d.id) {
      forall i, j | 0 <= i < j < |r| ensures r[i].id != r[j].id {
        if j == |history| {
          assert r[i] == history[i];
        }
      }
    }
  }

  /** Adding the same destination again changes nothing, and so does adding a
      different version of a destination already present. */
  lemma AddIdempotent(history: seq<Destination>, d: Destination, e: Destination)
    requires e.id == d.id
    ensures AddToSearchHistory(AddToSearchHistory(history, d), e) == AddToSearchHistory(history, d)
  {
  }

  /** A history built only by adding has distinct ids. */
  function BuildHistory(ds: seq<Destination>): (r: seq<Destination>)
    ensures UniqueIds(r)
    ensures forall i :: 0 <= i < |ds| ==> HasId(r, ds[i].id)
    decreases |ds|
  {
    if |ds| == 0 then []
    else
      var init := ds[..|ds| - 1];
      var prev := BuildHistory(init);
      var last := ds[|ds| - 1];
      AddKeepsIdsUnique(prev, last);
      var r := AddToSearchHistory(prev, last);
      assert forall i :: 0 <= i < |init| ==> HasId(r, init[i].id) by {
        forall i | 0 <= i < |init| ensures HasId(r, init[i].id) {
          var k :| 0 <= k < |prev| && prev[k].id == init[i].id;
          assert r[k] == prev[k];
        }
      }
      r
  }

  // ---------------------------------------------------------------------
  // Section order and names
  // ---------------------------------------------------------------------

  /** The order of the sections on the page. */
  const CategoryOrder: seq<string> := ["safety", "weather", "culture", "transportation", "attractions"]

  /** `categoryOrder.indexOf(category)`: the position, or -1 when absent. */
  function CategoryIndex(category: string): (r: int)
    ensures -1 <= r < |CategoryOrder|
    ensures r >= 0 ==> CategoryOrder[r] == category
    ensures r == -1 <==> category !in CategoryOrder
  {
    if category == "safety" then 0
    else if category == "weather" then 1
    else if category == "culture" then 2
    else if category == "transportation" then 3
    else if category == "attractions" then 4
    else -1
  }

  function SortKey(a: Advice): int
  {
    CategoryIndex(a.category)
  }

  predicate SortedByCategory(xs: seq<Advice>)
  {
    forall i, j :: 0 <= i < j < |xs| ==> SortKey(xs[i]) <= SortKey(xs[j])
  }

  /** The entries with a given sort key, in their order. */
  function WithKey(xs: seq<Advice>, k: int): (r: seq<Advice>)
    ensures |r| <= |xs|
  {
    if |xs| == 0 then []
    else (if SortKey(xs[0]) == k then [xs[0]] else []) + WithKey(xs[1..], k)
  }

  lemma {:induction false} WithKeyAppend(a: seq<Advice>, b: seq<Advice>, k: int)
    ensures WithKey(a + b, k) == WithKey(a, k) + WithKey(b, k)
    decreases |a|
  {
    if |a| == 0 {
      assert a + b == b;
    } else {
      var h := if SortKey(a[0]) == k then [a[0]] else [];
      assert (a + b)[0] == a[0];
      assert (a + b)[1..] == a[1..] + b;
      assert WithKey(a + b, k) == h + WithKey(a[1..] + b, k);
      WithKeyAppend(a[1..], b, k);
      assert h + (WithKey(a[1..], k) + WithKey(b, k)) == (h + WithKey(a[1..], k)) + WithKey(b, k);
    }
  }

  /** Inserts `x` before the first entry whose key is not smaller: `x` goes
      ahead of entries with its key that come after it in the input. */
  function Insert(x: Advice, xs: seq<Advice>): (r: seq<Advice>)
    ensures multiset(r) == multiset(xs) + multiset{x}
    ensures |r| == |xs| + 1
  {
    if |xs| == 0 then [x]
    else if SortKey(x) <= SortKey(xs[0]) then [x] + xs
    else
      assert xs == [xs[0]] + xs[1..];
      [xs[0]] + Insert(x, xs[1..])
  }

  lemma {:induction false} InsertSorted(x: Advice, xs: seq<Advice>)
    requires SortedByCategory(xs)
    ensures SortedByCategory(Insert(x, xs))
  {
    if |xs| > 0 && SortKey(x) > SortKey(xs[0]) {
      InsertSorted(x, xs[1..]);
      var t := Insert(x, xs[1..]);
      InsertLowerBound(x, xs[1..], SortKey(xs[0]));
      var r := Insert(x, xs);
      assert r == [xs[0]] + t;
      forall i, j | 0 <= i < j < |r| ensures SortKey(r[i]) <= SortKey(r[j]) {
        assert r[j] == t[j - 1];
        if i > 0 {
          assert r[i] == t[i - 1];
        }
      }
    }
  }

  /** Insertion keeps a lower bound on the keys. */
  lemma {:induction false} InsertLowerBound(x: Advice, xs: seq<Advice>, lo: int)
    requires lo <= SortKey(x)
    requires forall i :: 0 <= i < |xs| ==> lo <= SortKey(xs[i])
    ensures forall i :: 0 <= i < |Insert(x, xs)| ==> lo <= SortKey(Insert(x, xs)[i])
  {
    if |xs| > 0 && SortKey(x) > SortKey(xs[0]) {
      InsertLowerBound(x, xs[1..], lo);
      var t := Insert(x, xs[1..]);
      assert Insert(x, xs) == [xs[0]] + t;
    }
  }

  lemma {:induction false} InsertWithKey(x: Advice, xs: seq<Advice>, k: int)
    requires SortedByCategory(xs)
    ensures WithKey(Insert(x, xs), k) == WithKey([x], k) + WithKey(xs, k)
    decreases |xs|
  {
    if |xs| > 0 && SortKey(x) > SortKey(xs[0]) {
      var t := Insert(x, xs[1..]);
      assert Insert(x, xs) == [xs[0]] + t;
      InsertWithKey(x, xs[1..], k);
      WithKeyAppend([xs[0]], t, k);
      WithKeyAppend([xs[0]], xs[1..], k);
      assert [xs[0]] + xs[1..] == xs;
      WithKeySingle(x, k);
      WithKeySingle(xs[0], k);
    } else {
      assert Insert(x, xs) == [x] + xs;
      WithKeyAppend([x], xs, k);
    }
  }

  /** A one-entry list keeps its entry exactly when the entry has the key. */
  lemma WithKeySingle(a: Advice, k: int)
    ensures WithKey([a], k) == if SortKey(a) == k then [a] else []
  {
    assert [a][1..] == [];
  }

  /** `[...advice].sort((a, b) => indexOf(a) - indexOf(b))`. The engine's sort
      is stable, so the result is fixed by the key order together with the
      input order of entries that share a key; insertion sort has the same
      result. */
  function SortAdvice(xs: seq<Advice>): (r: seq<Advice>)
    ensures |r| == |xs|
    ensures multiset(r) == multiset(xs)
    decreases |xs|
  {
    if |xs| == 0 then []
    else
      assert xs == [xs[0]] + xs[1..];
      Insert(xs[0], SortAdvice(xs[1..]))
  }

  /** The sorted entries are in page order, a permutation of the input, and
      entries with the same key keep their input order. */
  lemma {:induction false} SortAdviceCorrect(xs: seq<Advice>)
    ensures SortedByCategory(SortAdvice(xs))
    ensures multiset(SortAdvice(xs)) == multiset(xs)
    ensures forall k :: WithKey(SortAdvice(xs), k) == WithKey(xs, k)
    decreases |xs|
  {
    if |xs| > 0 {
      SortAdviceCorrect(xs[1..]);
      InsertSorted(xs[0], SortAdvice(xs[1..]));
      forall k ensures WithKey(SortAdvice(xs), k) == WithKey(xs, k) {
        InsertWithKey(xs[0], SortAdvice(xs[1..]), k);
        WithKeyAppend([xs[0]], xs[1..], k);
        assert [xs[0]] + xs[1..] == xs;
      }
    }
  }

  /** Entries of unknown categories, such as the personalized one, come first. */
  lemma UnknownCategoriesFirst(xs: seq<Advice>, i: nat, j: nat)
    requires i < j < |SortAdvice(xs)|
    requires SortAdvice(xs)[j].category !in CategoryOrder
    ensures SortAdvice(xs)[i].category !in CategoryOrder
  {
    SortAdviceCorrect(xs);
  }

  /** The section headings of the five page categories, in page order. */
  const DisplayNames: seq<string> :=
    ["Safety Information", "Weather and Climate", "Cultural Guide", "Transportation", "Attractions and Activities"]

  /** `categoryDisplayNames[category] || category`: each of the five page
      categories is shown under its heading, in the same position as in the
      page order, and every other category under its own name. */
  function DisplayName(category: string): (r: string)
    ensures category !in CategoryOrder ==> r == category
    ensures category in CategoryOrder ==> r == DisplayNames[CategoryIndex(category)] && r != category
  {
    if category == "safety" then "Safety Information"
    else if category == "weather" then "Weather and Climate"
    else if category == "culture" then "Cultural Guide"
    else if category == "transportation" then "Transportation"
    else if category == "attractions" then "Attractions and Activities"
    else category
  }

  // ---------------------------------------------------------------------
  // Formatting
  // ---------------------------------------------------------------------

  /** One paragraph: wrapped in `<p>`, its line breaks turned into `<br>`. */
  function Paragraph(piece: string): (r: string)
    ensures '\n' !in r
  {
    "<p>" + ReplaceAll(piece, '\n', "<br>") + "</p>"
  }

  /** Five page categories, five different headings. */
  lemma DisplayNamesDistinct()
    ensures forall i, j :: 0 <= i < j < |CategoryOrder| ==>
              DisplayName(CategoryOrder[i]) != DisplayName(CategoryOrder[j])
  {
    forall i, j | 0 <= i < j < |CategoryOrder|
      ensures DisplayName(CategoryOrder[i]) != DisplayName(CategoryOrder[j])
    {
      assert CategoryIndex(CategoryOrder[i]) == i && CategoryIndex(CategoryOrder[j]) == j;
    }
  }

  /** A piece made of newline-free lines becomes one paragraph whose lines are
      separated by line breaks. */
  lemma ParagraphLines(lines: seq<string>)
    requires forall k :: 0 <= k < |lines| ==> '\n' !in lines[k]
    ensures Paragraph(Join(lines, "\n")) == "<p>" + Join(lines, "<br>") + "</p>"
  {
    ReplaceAllJoin(lines, '\n', "<br>");
  }

  function Paragraphs(pieces: seq<string>): (r: seq<string>)
    ensures |r| == |pieces|
    ensures forall i :: 0 <= i < |pieces| ==> r[i] == Paragraph(pieces[i])
  {
    if |pieces| == 0 then [] else [Paragraph(pieces[0])] + Paragraphs(pieces[1..])
  }

  /** `formatContent`: falsy content gives the empty string; otherwise one
      paragraph per blank-line-separated piece, concatenated. */
  function FormatContent(content: Option<string>): (r: string)
    ensures r == "" <==> !Truthy(content)
    ensures '\n' !in r
    ensures Truthy(content) ==> r == Join(Paragraphs(Split(content.value, "\n\n")), "")
  {
    if !Truthy(content) then ""
    else
      var ps := Paragraphs(Split(content.value, "\n\n"));
      JoinAvoids(ps, "", '\n');
      assert ps[0] == Paragraph(Split(content.value, "\n\n")[0]);
      JoinNonEmptyHead(ps);
      Join(ps, "")
  }

  /** A concatenation whose first part is non-empty is non-empty. */
  lemma JoinNonEmptyHead(ps: seq<string>)
    requires |ps| > 0 && ps[0] != ""
    ensures Join(ps, "") != ""
  {
    if |ps| > 1 {
      JoinHead(ps, "");
    }
  }

  /** Formatting paragraphs without line breaks, written with blank lines in
      between, gives exactly one `<p>` element per paragraph, in order. */
  lemma FormatParagraphs(paras: seq<string>)
    requires |paras| >= 1 && Join(paras, "\n\n") != ""
    requires forall k :: 0 <= k < |paras| ==> '\n' !in paras[k]
    ensures FormatContent(Some(Join(paras, "\n\n"))) ==
              Join(seq(|paras|, i requires 0 <= i < |paras| => "<p>" + paras[i] + "</p>"), "")
  {
    JoinSplit(paras, "\n\n");
    assert FormatContent(Some(Join(paras, "\n\n"))) == Join(Paragraphs(paras), "");
    PlainParagraphs(paras);
  }

  /** Paragraphs without line breaks are wrapped unchanged. */
  lemma PlainParagraphs(paras: seq<string>)
    requires forall k :: 0 <= k < |paras| ==> '\n' !in paras[k]
    ensures Paragraphs(paras) == seq(|paras|, i requires 0 <= i < |paras| => "<p>" + paras[i] + "</p>")
  {
    var ps := Paragraphs(paras);
    forall i | 0 <= i < |paras| ensures ps[i] == "<p>" + paras[i] + "</p>" {
      ReplaceAllAbsent(paras[i], '\n', "<br>");
    }
  }

  // ---------------------------------------------------------------------
  // Rendering
  // ---------------------------------------------------------------------

  /** One rendered section: its heading and its formatted body. */
  datatype Section = Section(title: string, body: string)

  /** What `displayResults` leaves on the page: an error message, or the
      heading, the sections in page order and the follow-up form's id. */
  datatype View = ErrorView(message: string) | ResultsView(heading: string, sections: seq<Section>, formId: int)

  const NoAdviceMessage: string := "No travel advice found for this destination."

  /** `displayResults`: missing data, missing advice or an empty advice list
      shows the error; otherwise each advice entry, in sorted order, becomes a
      section titled with its display name. */
  function DisplayResults(data: Option<Destination>, city: string, country: string): (r: View)
    ensures r.ErrorView? <==> data.None? || data.value.advice.None? || |data.value.advice.value| == 0
    ensures r.ErrorView? ==> r.message == NoAdviceMessage
    ensures r.ResultsView? ==>
              var sorted := SortAdvice(data.value.advice.value);
              && r.heading == city + ", " + country
              && r.formId == data.value.id
              && |r.sections| == |sorted|
              && forall i :: 0 <= i < |sorted| ==>
                   r.sections[i] == Section(DisplayName(sorted[i].category), FormatContent(sorted[i].content))
  {
    if data.None? || data.value.advice.None? || |data.value.advice.value| == 0 then ErrorView(NoAdviceMessage)
    else
      var sorted := SortAdvice(data.value.advice.value);
      ResultsView(city + ", " + country,
                  seq(|sorted|, i requires 0 <= i < |sorted| =>
                    Section(DisplayName(sorted[i].category), FormatContent(sorted[i].content))),
                  data.value.id)
  }

  /** Every advice entry gets exactly one section, whatever order it came in. */
  lemma DisplayShowsEveryEntry(d: Destination, city: string, country: string, a: Advice)
    requires d.advice.Some? && a in d.advice.value
    ensures var v := DisplayResults(Some(d), city, country);
            v.ResultsView? &&
            Section(DisplayName(a.category), FormatContent(a.content)) in v.sections
  {
    var sorted := SortAdvice(d.advice.value);
    assert a in multiset(d.advice.value);
    assert a in multiset(sorted);
    var i :| 0 <= i < |sorted| && sorted[i] == a;
    var v := DisplayResults(Some(d), city, country);
    assert v.sections[i] == Section(DisplayName(a.category), FormatContent(a.content));
  }
}
