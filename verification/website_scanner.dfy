/**
 Scan-result assembly of the website scanner (services/website_scanner.py). The page is
 an oracle: every browser call a section makes is an `Outcome` (a value or the message
 of the exception it raised), read in the order the source awaits them. A section stops
 at its first exception and records it under `error`, keeping the keys it had already
 set; no section's failure reaches another section or the scan as a whole.
 */
module WebsiteScanner {
  import opened Base
  import opened Strings
  import opened Json
  import opened ScanTrees

  const MaxLinks := 50
  const MaxImages := 20
  const MaxItemsPerSelector := 10
  const MaxItemHtml := 500
  /** How much of the page's markdown the goal-extraction prompt carries. */
  const MaxGoalPageText := 8000
  const ExtractionFailedPrefix := "Extraction failed: "
  /** The text of the IndexError `page.url.split('/')[2]` raises on a short URL. */
  const IndexErrorMessage := "list index out of range"

  /** Python's `x or default` on an optional attribute string. */
  function OrDefault(attr: Option<string>, default: string): (r: string)
    ensures attr.Some? && attr.value != "" ==> r == attr.value
    ensures attr.None? || attr.value == "" ==> r == default
  {
    if attr.Some? && attr.value != "" then attr.value else default
  }

  // ---------------------------------------------------------------- content

  datatype Heading = Heading(level: nat, text: string, tag: string)
  datatype LinkFacts = LinkFacts(href: Option<string>, text: string)
  datatype Link = Link(url: string, text: string, internal: bool)
  datatype ImageFacts = ImageFacts(src: Option<string>, alt: Option<string>)
  datatype Image = Image(src: string, alt: string)

  /**
   What the content section reads from the page, in order. `headingTexts[L - 1]` holds
   the inner texts of the `h{L}` elements; levels beyond its length have none.
   */
  datatype ContentFacts = ContentFacts(
    title: Outcome<string>,
    metaDescription: Outcome<Option<string>>,
    markdown: Outcome<string>,
    headingTexts: Outcome<seq<seq<string>>>,
    links: Outcome<seq<LinkFacts>>,
    images: Outcome<seq<ImageFacts>>)

  /** The content section's dict; a key not (yet) set is None. */
  datatype ContentData = ContentData(
    title: Option<string>,
    url: Option<string>,
    metaDescription: Option<string>,
    markdownContent: Option<string>,
    headings: Option<seq<Heading>>,
    links: Option<seq<Link>>,
    images: Option<seq<Image>>,
    goalExtractions: Option<map<string, string>>,
    error: Option<string>)

  /** The tag of a heading level 1..6. */
  function HeadingTag(level: nat): (tag: string)
    requires 1 <= level <= 6
    ensures |tag| == 2 && tag[0] == 'h' && tag[1] as int - '0' as int == level
  {
    "h" + [('0' as int + level) as char]
  }

  /** A heading entry of the given level: its level, its tag and a non-blank text. */
  predicate CleanHeading(h: Heading, level: nat) {
    1 <= level <= 6 && h.level == level && h.tag == HeadingTag(level) && h.text != ""
  }

  /** One heading element's entry: its stripped text, or nothing when that is blank. */
  function HeadingOf(level: nat, text: string): (h: Option<Heading>)
    requires 1 <= level <= 6
    ensures h.None? <==> Strip(text) == ""
    ensures h.Some? ==> CleanHeading(h.value, level) && h.value.text == Strip(text)
    ensures h.Some? ==> Strip(h.value.text) == h.value.text
  {
    var stripped := Strip(text);
    StripIdempotent(text);
    if stripped == "" then None else Some(Heading(level, stripped, HeadingTag(level)))
  }

  /** The headings of one level, in element order. */
  function LevelHeadings(level: nat, texts: seq<string>): (hs: seq<Heading>)
    requires 1 <= level <= 6
    ensures |hs| <= |texts|
    ensures forall k :: 0 <= k < |hs| ==> CleanHeading(hs[k], level)
  {
    if texts == [] then []
    else
      var rest := LevelHeadings(level, texts[1..]);
      match HeadingOf(level, texts[0])
      case None => rest
      case Some(h) => [h] + rest
  }

  /**
   The headings of consecutive elements are the headings of each run, concatenated: with
   the one-element case, each element contributes its own entry, in element order.
   */
  lemma {:induction false} LevelHeadingsAppend(level: nat, a: seq<string>, b: seq<string>)
    requires 1 <= level <= 6
    ensures LevelHeadings(level, a + b) == LevelHeadings(level, a) + LevelHeadings(level, b)
  {
    if a != [] {
      assert (a + b)[1..] == a[1..] + b;
      assert (a + b)[0] == a[0];
      LevelHeadingsAppend(level, a[1..], b);
    } else {
      assert a + b == b;
    }
  }

  /** One element contributes its stripped text as a heading exactly when that is not blank. */
  lemma LevelHeadingsSingle(level: nat, text: string)
    requires 1 <= level <= 6
    ensures Strip(text) == "" ==> LevelHeadings(level, [text]) == []
    ensures Strip(text) != "" ==> LevelHeadings(level, [text]) == [Heading(level, Strip(text), HeadingTag(level))]
  {
    assert [text][1..] == [];
  }

  function TextsAt(levels: seq<seq<string>>, level: nat): seq<string> {
    if 1 <= level <= |levels| then levels[level - 1] else []
  }

  /** The headings of levels `level`..6, in level order. */
  function HeadingsFrom(levels: seq<seq<string>>, level: nat): (hs: seq<Heading>)
    requires 1 <= level <= 7
    ensures forall k :: 0 <= k < |hs| ==> level <= hs[k].level <= 6 && CleanHeading(hs[k], hs[k].level)
    ensures forall j, k :: 0 <= j < k < |hs| ==> hs[j].level <= hs[k].level
    decreases 7 - level
  {
    if level == 7 then []
    else LevelHeadings(level, TextsAt(levels, level)) + HeadingsFrom(levels, level + 1)
  }

  /** The headings of one level, keeping their order. */
  function OfLevel(hs: seq<Heading>, level: nat): (r: seq<Heading>)
    ensures |r| <= |hs|
    ensures forall k :: 0 <= k < |r| ==> r[k].level == level
  {
    if hs == [] then []
    else (if hs[0].level == level then [hs[0]] else []) + OfLevel(hs[1..], level)
  }

  lemma {:induction false} OfLevelAppend(a: seq<Heading>, b: seq<Heading>, level: nat)
    ensures OfLevel(a + b, level) == OfLevel(a, level) + OfLevel(b, level)
  {
    if a != [] {
      assert (a + b)[1..] == a[1..] + b;
      assert (a + b)[0] == a[0];
      OfLevelAppend(a[1..], b, level);
    } else {
      assert a + b == b;
    }
  }

  /** Filtering a list whose entries all have level `l` keeps all or nothing. */
  lemma {:induction false} OfLevelUniform(hs: seq<Heading>, l: nat, level: nat)
    requires forall k :: 0 <= k < |hs| ==> hs[k].level == l
    ensures OfLevel(hs, level) == if l == level then hs else []
  {
    if hs != [] {
      OfLevelUniform(hs[1..], l, level);
    }
  }

  /**
   One step of the level filter: a run of `hereLevel` headings followed by headings whose
   level-`level` entries are already known.
   */
  lemma OfLevelStep(here: seq<Heading>, later: seq<Heading>, hereLevel: nat, level: nat, known: seq<Heading>)
    requires forall k :: 0 <= k < |here| ==> here[k].level == hereLevel
    requires OfLevel(later, level) == if hereLevel < level then known else []
    requires hereLevel == level ==> here == known
    ensures OfLevel(here + later, level) == if hereLevel <= level then known else []
  {
    OfLevelAppend(here, later, level);
    OfLevelUniform(here, hereLevel, level);
    if hereLevel == level {
      assert here + [] == here;
    }
  }

  /**
   The entries of level L among the headings of levels `level`..6 are exactly the headings
   of the `h{L}` elements, in element order (none when L is below `level`).
   */
  lemma {:induction false} HeadingsOfLevel(levels: seq<seq<string>>, level: nat, l: nat)
    requires 1 <= level <= 7 && 1 <= l <= 6
    ensures OfLevel(HeadingsFrom(levels, level), l) == if level <= l then LevelHeadings(l, TextsAt(levels, l)) else []
    decreases 7 - level
  {
    if level < 7 {
      var here := LevelHeadings(level, TextsAt(levels, level));
      HeadingsOfLevel(levels, level + 1, l);
      OfLevelStep(here, HeadingsFrom(levels, level + 1), level, l, LevelHeadings(l, TextsAt(levels, l)));
    }
  }

  /**
   Whether a link is internal: it starts with '/', or the URL's third '/'-piece (the
   host of a `scheme://host/...` URL) occurs in it. The piece is only looked up when
   needed, and a URL with fewer than three pieces raises IndexError.
   */
  function Internal(href: string, pageUrl: string): (r: Result<bool, string>)
    ensures StartsWith(href, "/") ==> r == Success(true)
    ensures r.Failure? <==> !StartsWith(href, "/") && |Split(pageUrl, '/')| < 3
    ensures r.Failure? ==> r.error == IndexErrorMessage
    ensures !StartsWith(href, "/") && |Split(pageUrl, '/')| >= 3 ==>
              r == Success(Contains(href, Split(pageUrl, '/')[2]))
  {
    if StartsWith(href, "/") then Success(true)
    else
      var pieces := Split(pageUrl, '/');
      if |pieces| < 3 then Failure(IndexErrorMessage) else Success(Contains(href, pieces[2]))
  }

  /** Whether classifying this element's link needs the host piece of the page URL. */
  predicate NeedsHost(f: LinkFacts) {
    TruthyText(f.href) && !StartsWith(f.href.value, "/")
  }

  /** One element's contribution: nothing without a truthy href, else its link or the IndexError. */
  function LinkEntry(f: LinkFacts, pageUrl: string): (r: Result<seq<Link>, string>)
    ensures r.Failure? <==> NeedsHost(f) && |Split(pageUrl, '/')| < 3
    ensures r.Failure? ==> r.error == IndexErrorMessage
    ensures r.Success? ==> |r.value| <= 1 && (r.value != [] <==> TruthyText(f.href))
    ensures r.Success? && r.value != [] ==> r.value[0].url == f.href.value && r.value[0].text == Strip(f.text)
    ensures r.Success? && r.value != [] ==> Internal(f.href.value, pageUrl) == Success(r.value[0].internal)
  {
    if !TruthyText(f.href) then Success([])
    else match Internal(f.href.value, pageUrl)
      case Failure(e) => Failure(e)
      case Success(internal) => Success([Link(f.href.value, Strip(f.text), internal)])
  }

  /** Concatenates the entries in order, or fails with the first failing entry's error. */
  function Collect<T>(entries: seq<Result<seq<T>, string>>): (r: Result<seq<T>, string>)
  {
    if entries == [] then Success([])
    else match entries[0]
      case Failure(e) => Failure(e)
      case Success(first) =>
        var rest := Collect(entries[1..]);
        if rest.Failure? then rest else Success(first + rest.value)
  }

  /** Collecting fails iff some entry fails, and then with one of the entries' errors. */
  lemma {:induction false} CollectFailsIff<T>(entries: seq<Result<seq<T>, string>>)
    ensures Collect(entries).Failure? <==> exists k :: 0 <= k < |entries| && entries[k].Failure?
    ensures Collect(entries).Failure? ==> exists k :: 0 <= k < |entries| && entries[k] == Failure(Collect(entries).error)
  {
    if entries != [] {
      CollectFailsIff(entries[1..]);
      if exists k :: 0 <= k < |entries[1..]| && entries[1..][k].Failure? {
        var k :| 0 <= k < |entries[1..]| && entries[1..][k].Failure?;
        assert entries[k + 1].Failure?;
      }
      if exists k :: 1 <= k < |entries| && entries[k].Failure? {
        var k :| 1 <= k < |entries| && entries[k].Failure?;
        assert entries[1..][k - 1].Failure?;
      }
      if Collect(entries).Failure? && entries[0].Success? {
        var k :| 0 <= k < |entries[1..]| && entries[1..][k] == Failure(Collect(entries).error);
        assert entries[k + 1] == entries[1..][k];
      }
    }
  }

  /** A successful collection of entries of at most one element each, all satisfying `p`. */
  lemma {:induction false} CollectSmall<T>(entries: seq<Result<seq<T>, string>>, p: T -> bool)
    requires forall k :: 0 <= k < |entries| && entries[k].Success? ==>
               |entries[k].value| <= 1 && forall j :: 0 <= j < |entries[k].value| ==> p(entries[k].value[j])
    ensures Collect(entries).Success? ==> |Collect(entries).value| <= |entries|
    ensures Collect(entries).Success? ==> forall j :: 0 <= j < |Collect(entries).value| ==> p(Collect(entries).value[j])
  {
    if entries != [] && entries[0].Success? {
      assert forall k :: 1 <= k < |entries| ==> entries[1..][k - 1] == entries[k];
      CollectSmall(entries[1..], p);
    }
  }

  /**
   Collecting two runs of entries: the first run's failure wins, then the second's, and
   otherwise the values are concatenated in order.
   */
  lemma {:induction false} CollectAppend<T>(a: seq<Result<seq<T>, string>>, b: seq<Result<seq<T>, string>>)
    ensures Collect(a + b) == if Collect(a).Failure? then Collect(a)
                              else if Collect(b).Failure? then Collect(b)
                              else Success(Collect(a).value + Collect(b).value)
  {
    if a == [] {
      assert a + b == b;
      if Collect(b).Success? {
        assert [] + Collect(b).value == Collect(b).value;
      }
    } else {
      assert (a + b)[0] == a[0];
      assert (a + b)[1..] == a[1..] + b;
      CollectAppend(a[1..], b);
      if a[0].Success? && Collect(a).Success? && Collect(b).Success? {
        assert a[0].value + (Collect(a[1..]).value + Collect(b).value)
            == (a[0].value + Collect(a[1..]).value) + Collect(b).value;
      }
    }
  }

  /** Each element's entry, in element order. */
  function LinkEntries(facts: seq<LinkFacts>, pageUrl: string): (entries: seq<Result<seq<Link>, string>>)
    ensures |entries| == |facts| && forall k :: 0 <= k < |facts| ==> entries[k] == LinkEntry(facts[k], pageUrl)
    ensures forall k :: 0 <= k < |entries| && entries[k].Failure? ==> entries[k].error == IndexErrorMessage
    ensures forall k :: 0 <= k < |entries| && entries[k].Success? ==>
              |entries[k].value| <= 1 && forall j :: 0 <= j < |entries[k].value| ==> entries[k].value[j].url != ""
  {
    seq(|facts|, k requires 0 <= k < |facts| => LinkEntry(facts[k], pageUrl))
  }

  /** Every element with a truthy href becomes a link, in order; one IndexError fails them all. */
  function AllLinks(facts: seq<LinkFacts>, pageUrl: string): (r: Result<seq<Link>, string>)
    ensures r.Failure? ==> r.error == IndexErrorMessage
    ensures r.Success? ==> |r.value| <= |facts|
    ensures r.Success? ==> forall k :: 0 <= k < |r.value| ==> r.value[k].url != ""
  {
    var entries := LinkEntries(facts, pageUrl);
    CollectFailsIff(entries);
    CollectSmall(entries, (l: Link) => l.url != "");
    Collect(entries)
  }

  lemma LinkEntriesAppend(a: seq<LinkFacts>, b: seq<LinkFacts>, pageUrl: string)
    ensures LinkEntries(a + b, pageUrl) == LinkEntries(a, pageUrl) + LinkEntries(b, pageUrl)
  {
    var whole := LinkEntries(a + b, pageUrl);
    var parts := LinkEntries(a, pageUrl) + LinkEntries(b, pageUrl);
    forall k | 0 <= k < |whole|
      ensures whole[k] == parts[k]
    {
      if k < |a| {
        assert (a + b)[k] == a[k];
      } else {
        assert (a + b)[k] == b[k - |a|];
      }
    }
  }

  /**
   The links of consecutive elements: the first IndexError wins, else the links of each
   run concatenated in element order.
   */
  lemma AllLinksAppend(a: seq<LinkFacts>, b: seq<LinkFacts>, pageUrl: string)
    ensures AllLinks(a + b, pageUrl) == if AllLinks(a, pageUrl).Failure? then AllLinks(a, pageUrl)
                                        else if AllLinks(b, pageUrl).Failure? then AllLinks(b, pageUrl)
                                        else Success(AllLinks(a, pageUrl).value + AllLinks(b, pageUrl).value)
  {
    LinkEntriesAppend(a, b, pageUrl);
    CollectAppend(LinkEntries(a, pageUrl), LinkEntries(b, pageUrl));
  }

  /** One element's links are its own entry. */
  lemma AllLinksSingle(f: LinkFacts, pageUrl: string)
    ensures AllLinks([f], pageUrl) == LinkEntry(f, pageUrl)
  {
    var entries := LinkEntries([f], pageUrl);
    assert entries == [LinkEntry(f, pageUrl)];
    assert entries[1..] == [];
    assert Collect(entries[1..]) == Success([]);
    if entries[0].Success? {
      assert entries[0].value + [] == entries[0].value;
    }
  }

  /** The links fail iff some element's own entry fails. */
  lemma AllLinksFailAt(facts: seq<LinkFacts>, pageUrl: string)
    ensures AllLinks(facts, pageUrl).Failure? <==> exists k :: 0 <= k < |facts| && LinkEntry(facts[k], pageUrl).Failure?
  {
    CollectFailsIff(LinkEntries(facts, pageUrl));
  }

  /**
   The links fail exactly when the page URL has fewer than three '/'-pieces and some
   element has a truthy href not starting with '/'.
   */
  lemma AllLinksFailIff(facts: seq<LinkFacts>, pageUrl: string)
    ensures AllLinks(facts, pageUrl).Failure? <==>
              |Split(pageUrl, '/')| < 3 && exists k :: 0 <= k < |facts| && NeedsHost(facts[k])
  {
    AllLinksFailAt(facts, pageUrl);
    if |Split(pageUrl, '/')| < 3 && exists k :: 0 <= k < |facts| && NeedsHost(facts[k]) {
      var k :| 0 <= k < |facts| && NeedsHost(facts[k]);
      assert LinkEntry(facts[k], pageUrl).Failure?;
    }
  }

  /** Every image with a truthy src, with its alt text or "". */
  function AllImages(facts: seq<ImageFacts>): (images: seq<Image>)
    ensures |images| <= |facts|
    ensures forall k :: 0 <= k < |images| ==> images[k].src != ""
  {
    if facts == [] then []
    else
      var rest := AllImages(facts[1..]);
      if TruthyText(facts[0].src) then [Image(facts[0].src.value, OrDefault(facts[0].alt, ""))] + rest else rest
  }

  /** The images of consecutive elements are the images of each run, concatenated. */
  lemma {:induction false} AllImagesAppend(a: seq<ImageFacts>, b: seq<ImageFacts>)
    ensures AllImages(a + b) == AllImages(a) + AllImages(b)
  {
    if a != [] {
      assert (a + b)[1..] == a[1..] + b;
      assert (a + b)[0] == a[0];
      AllImagesAppend(a[1..], b);
    } else {
      assert a + b == b;
    }
  }

  /** One element gives its image exactly when its src is truthy, with its alt text or "". */
  lemma AllImagesSingle(f: ImageFacts)
    ensures TruthyText(f.src) ==> AllImages([f]) == [Image(f.src.value, OrDefault(f.alt, ""))]
    ensures !TruthyText(f.src) ==> AllImages([f]) == []
  {
    assert [f][1..] == [];
  }

  /** One goal's entry: the model's answer, or the failure text. */
  function GoalEntry(answer: Outcome<string>): (r: string)
    ensures answer.Threw? ==> r == ExtractionFailedPrefix + answer.message && StartsWith(r, ExtractionFailedPrefix)
    ensures answer.Got? ==> r == answer.value
  {
    match answer
    case Got(content) => content
    case Threw(message) => ExtractionFailedPrefix + message
  }

  /**
   The goal extractions: one entry per distinct goal, from the model asked with the
   goal and at most the first 8000 characters of the markdown.
   */
  function GoalExtractions(goals: seq<string>, markdown: string, llm: (string, string) -> Outcome<string>): (m: map<string, string>)
    ensures m.Keys == set g | g in goals
    ensures forall g :: g in m ==> m[g] == GoalEntry(llm(g, Take(markdown, MaxGoalPageText)))
  {
    if goals == [] then map[]
    else
      var g := goals[|goals| - 1];
      GoalExtractions(goals[..|goals| - 1], markdown, llm)[g := GoalEntry(llm(g, Take(markdown, MaxGoalPageText)))]
  }

  /**
   Only the first 8000 characters of the markdown reach the model: two pages whose
   markdown agrees that far get the same goal extractions.
   */
  lemma GoalExtractionsSeePrefixOnly(goals: seq<string>, a: string, b: string, llm: (string, string) -> Outcome<string>)
    requires |a| >= MaxGoalPageText && |b| >= MaxGoalPageText && a[..MaxGoalPageText] == b[..MaxGoalPageText]
    ensures GoalExtractions(goals, a, llm) == GoalExtractions(goals, b, llm)
  {
    assert Take(a, MaxGoalPageText) == Take(b, MaxGoalPageText);
  }

  const NoContent := ContentData(None, None, None, None, None, None, None, None, None)

  /** Keys are set in the source's order: a later key is only present when the earlier ones are. */
  predicate ContentInOrder(d: ContentData) {
    && (d.url.Some? <==> d.title.Some?)
    && (d.metaDescription.Some? ==> d.title.Some?)
    && (d.markdownContent.Some? ==> d.metaDescription.Some?)
    && (d.headings.Some? ==> d.markdownContent.Some?)
    && (d.links.Some? ==> d.headings.Some?)
    && (d.images.Some? ==> d.links.Some?)
    && (d.goalExtractions.Some? ==> d.images.Some?)
  }

  /** Whether goal extraction runs: the goal list is non-empty and a model is configured. */
  predicate GoalsRequested(goals: Option<seq<string>>, llm: Option<(string, string) -> Outcome<string>>) {
    goals.Some? && goals.value != [] && llm.Some?
  }

  /** `_extract_content_data`. */
  function ExtractContent(f: ContentFacts, pageUrl: string, goals: Option<seq<string>>,
                          llm: Option<(string, string) -> Outcome<string>>): (d: ContentData)
    ensures ContentInOrder(d)
    ensures d.title.Some? ==> f.title.Got? && d.title.value == f.title.value && d.url == Some(pageUrl)
    ensures d.markdownContent.Some? ==> f.markdown.Got? && d.markdownContent.value == f.markdown.value
    ensures d.title.Some? <==> f.title.Got?
    ensures d.metaDescription.Some? <==> d.title.Some? && f.metaDescription.Got?
    ensures d.markdownContent.Some? <==> d.metaDescription.Some? && f.markdown.Got?
    ensures d.headings.Some? <==> d.markdownContent.Some? && f.headingTexts.Got?
    ensures d.links.Some? <==> d.headings.Some? && f.links.Got? && AllLinks(f.links.value, pageUrl).Success?
    ensures d.images.Some? <==> d.links.Some? && f.images.Got?
    ensures f.title.Threw? ==> d.error == Some(f.title.message)
    ensures f.title.Got? && f.metaDescription.Threw? ==> d.error == Some(f.metaDescription.message)
    ensures f.title.Got? && f.metaDescription.Got? && f.markdown.Threw? ==> d.error == Some(f.markdown.message)
    ensures f.title.Got? && f.metaDescription.Got? && f.markdown.Got? && f.headingTexts.Threw? ==>
              d.error == Some(f.headingTexts.message)
    ensures d.headings.Some? && f.links.Threw? ==> d.error == Some(f.links.message)
    ensures d.headings.Some? && f.links.Got? && AllLinks(f.links.value, pageUrl).Failure? ==>
              d.error == Some(IndexErrorMessage)
    ensures d.links.Some? && f.images.Threw? ==> d.error == Some(f.images.message)
    ensures d.links.Some? ==> |d.links.value| <= MaxLinks
    ensures d.images.Some? ==> |d.images.value| <= MaxImages
    ensures d.error.None? <==> (f.title.Got? && f.metaDescription.Got? && f.markdown.Got? && f.headingTexts.Got?
                                && f.links.Got? && AllLinks(f.links.value, pageUrl).Success? && f.images.Got?)
    ensures d.error.None? ==> d.images.Some? && (d.goalExtractions.Some? <==> GoalsRequested(goals, llm))
    ensures d.error.Some? ==> d.goalExtractions.None?
    ensures d.links.Some? ==> && f.links.Got? && AllLinks(f.links.value, pageUrl).Success?
                              && d.links.value == Take(AllLinks(f.links.value, pageUrl).value, MaxLinks)
    ensures d.images.Some? ==> f.images.Got? && d.images.value == Take(AllImages(f.images.value), MaxImages)
    ensures d.metaDescription.Some? ==> f.metaDescription.Got? && d.metaDescription.value == OrDefault(f.metaDescription.value, "")
    ensures d.headings.Some? ==> f.headingTexts.Got? && d.headings.value == HeadingsFrom(f.headingTexts.value, 1)
    ensures d.goalExtractions.Some? ==> && f.markdown.Got? && GoalsRequested(goals, llm)
                                        && d.goalExtractions.value == GoalExtractions(goals.value, f.markdown.value, llm.value)
  {
    match f.title
    case Threw(e) => NoContent.(error := Some(e))
    case Got(title) =>
      var d1 := NoContent.(title := Some(title), url := Some(pageUrl));
      match f.metaDescription
      case Threw(e) => d1.(error := Some(e))
      case Got(meta) =>
        var d2 := d1.(metaDescription := Some(OrDefault(meta, "")));
        match f.markdown
        case Threw(e) => d2.(error := Some(e))
        case Got(markdown) =>
          var d3 := d2.(markdownContent := Some(markdown));
          match f.headingTexts
          case Threw(e) => d3.(error := Some(e))
          case Got(levels) =>
            var d4 := d3.(headings := Some(HeadingsFrom(levels, 1)));
            match f.links
            case Threw(e) => d4.(error := Some(e))
            case Got(linkFacts) =>
              match AllLinks(linkFacts, pageUrl)
              case Failure(e) => d4.(error := Some(e))
              case Success(links) =>
                var d5 := d4.(links := Some(Take(links, MaxLinks)));
                match f.images
                case Threw(e) => d5.(error := Some(e))
                case Got(imageFacts) =>
                  var d6 := d5.(images := Some(Take(AllImages(imageFacts), MaxImages)));
                  if GoalsRequested(goals, llm) then
                    d6.(goalExtractions := Some(GoalExtractions(goals.value, markdown, llm.value)))
                  else d6
  }

  // ---------------------------------------------------------------- structure

  datatype InputFacts = InputFacts(inputType: Option<string>, name: Option<string>, id: Option<string>, required: Option<string>)
  datatype FormFacts = FormFacts(action: Option<string>, httpMethod: Option<string>, inputs: seq<InputFacts>)
  datatype FormInput = FormInput(inputType: string, name: string, id: string, required: bool)
  datatype Form = Form(action: string, httpMethod: string, inputs: seq<FormInput>)

  /** The DOM service's answer: how many clickable elements, and the element tree. */
  datatype DomState = DomState(clickableCount: nat, elementTree: DomTree)

  datatype StructureFacts = StructureFacts(dom: Outcome<DomState>, forms: Outcome<seq<FormFacts>>, technologies: Outcome<seq<string>>)

  datatype StructureData = StructureData(
    clickableElementsCount: Option<nat>,
    domDepth: Option<nat>,
    forms: Option<seq<Form>>,
    technologies: Option<seq<string>>,
    error: Option<string>)

  /** One form input: type defaults to "text", name and id to "", required iff the attribute exists. */
  function InputOf(f: InputFacts): (i: FormInput)
    ensures i.required <==> f.required.Some?
    ensures i.inputType == OrDefault(f.inputType, "text") && i.inputType != ""
    ensures TruthyText(f.name) ==> i.name == f.name.value
    ensures !TruthyText(f.name) ==> i.name == ""
    ensures TruthyText(f.id) ==> i.id == f.id.value
    ensures !TruthyText(f.id) ==> i.id == ""
  {
    FormInput(OrDefault(f.inputType, "text"), OrDefault(f.name, ""), OrDefault(f.id, ""), f.required.Some?)
  }

  /** One form: action defaults to "", method to "GET"; its inputs in order. */
  function FormOf(f: FormFacts): (form: Form)
    ensures |form.inputs| == |f.inputs| && forall k :: 0 <= k < |f.inputs| ==> form.inputs[k] == InputOf(f.inputs[k])
    ensures form.httpMethod != ""
    ensures TruthyText(f.httpMethod) ==> form.httpMethod == f.httpMethod.value
    ensures !TruthyText(f.httpMethod) ==> form.httpMethod == "GET"
    ensures TruthyText(f.action) ==> form.action == f.action.value
    ensures !TruthyText(f.action) ==> form.action == ""
  {
    Form(OrDefault(f.action, ""), OrDefault(f.httpMethod, "GET"), seq(|f.inputs|, k requires 0 <= k < |f.inputs| => InputOf(f.inputs[k])))
  }

  /** `_detect_technologies`: the page's answer, or nothing when the script raised. */
  function DetectTechnologies(answer: Outcome<seq<string>>): (techs: seq<string>)
    ensures answer.Threw? ==> techs == []
    ensures answer.Got? ==> techs == answer.value
  {
    match answer
    case Got(found) => found
    case Threw(_) => []
  }

  /** `_extract_structure_data`. Technology detection never raises, so only the first two reads can fail. */
  function ExtractStructure(f: StructureFacts): (d: StructureData)
    ensures d.error.None? <==> f.dom.Got? && f.forms.Got?
    ensures d.error.None? ==> d.technologies == Some(DetectTechnologies(f.technologies))
    ensures d.domDepth.Some? <==> f.dom.Got?
    ensures d.domDepth.Some? ==> d.domDepth.value == DomDepth(f.dom.value.elementTree)
                                 && d.clickableElementsCount == Some(f.dom.value.clickableCount)
    ensures d.forms.Some? ==> f.forms.Got? && |d.forms.value| == |f.forms.value|
                              && forall k :: 0 <= k < |d.forms.value| ==> d.forms.value[k] == FormOf(f.forms.value[k])
    ensures d.technologies.Some? <==> d.error.None?
    ensures d.forms.Some? <==> d.error.None?
    ensures d.clickableElementsCount.Some? <==> f.dom.Got?
    ensures f.dom.Threw? ==> d.error == Some(f.dom.message)
    ensures f.dom.Got? && f.forms.Threw? ==> d.error == Some(f.forms.message)
  {
    match f.dom
    case Threw(e) => StructureData(None, None, None, None, Some(e))
    case Got(state) =>
      var depth := DomDepth(state.elementTree);
      match f.forms
      case Threw(e) => StructureData(Some(state.clickableCount), Some(depth), None, None, Some(e))
      case Got(formFacts) =>
        var forms := seq(|formFacts|, k requires 0 <= k < |formFacts| => FormOf(formFacts[k]));
        StructureData(Some(state.clickableCount), Some(depth), Some(forms), Some(DetectTechnologies(f.technologies)), None)
  }

  // ---------------------------------------------------------------- accessibility

  datatype AccessibilityFacts = AccessibilityFacts(
    snapshot: Outcome<AxTree>, imagesWithoutAlt: Outcome<nat>, h1Count: Outcome<nat>, ariaLabelled: Outcome<nat>)

  datatype AccessibilityData = AccessibilityData(
    axTreeAvailable: Option<bool>,
    axElementsCount: Option<nat>,
    imagesWithoutAlt: Option<nat>,
    h1Count: Option<nat>,
    properHeadingStructure: Option<bool>,
    elementsWithAriaLabels: Option<nat>,
    error: Option<string>)

  /** `_extract_accessibility_data`. */
  function ExtractAccessibility(f: AccessibilityFacts): (d: AccessibilityData)
    ensures d.axTreeAvailable.Some? <==> f.snapshot.Got?
    ensures d.axTreeAvailable.Some? ==> (d.axTreeAvailable.value <==> f.snapshot.value != AxNone)
    ensures d.axElementsCount.Some? <==> f.snapshot.Got? && AxTruthy(f.snapshot.value)
    ensures d.axElementsCount.Some? ==> d.axElementsCount.value == CountAx(f.snapshot.value) && d.axElementsCount.value > 0
    ensures d.properHeadingStructure.Some? <==> d.h1Count.Some?
    ensures d.h1Count.Some? ==> (d.properHeadingStructure.value <==> d.h1Count.value == 1)
    ensures d.error.None? <==> f.snapshot.Got? && f.imagesWithoutAlt.Got? && f.h1Count.Got? && f.ariaLabelled.Got?
    ensures d.error.None? ==> d.h1Count.Some? && d.elementsWithAriaLabels.Some?
    ensures d.imagesWithoutAlt.Some? ==> f.imagesWithoutAlt.Got? && d.imagesWithoutAlt.value == f.imagesWithoutAlt.value
    ensures d.imagesWithoutAlt.Some? <==> f.snapshot.Got? && f.imagesWithoutAlt.Got?
    ensures d.h1Count.Some? <==> d.imagesWithoutAlt.Some? && f.h1Count.Got?
    ensures d.elementsWithAriaLabels.Some? <==> d.h1Count.Some? && f.ariaLabelled.Got?
    ensures d.h1Count.Some? ==> f.h1Count.Got? && d.h1Count.value == f.h1Count.value
    ensures d.elementsWithAriaLabels.Some? ==> f.ariaLabelled.Got? && d.elementsWithAriaLabels.value == f.ariaLabelled.value
    ensures f.snapshot.Threw? ==> d.error == Some(f.snapshot.message)
    ensures f.snapshot.Got? && f.imagesWithoutAlt.Threw? ==> d.error == Some(f.imagesWithoutAlt.message)
    ensures d.imagesWithoutAlt.Some? && f.h1Count.Threw? ==> d.error == Some(f.h1Count.message)
    ensures d.h1Count.Some? && f.ariaLabelled.Threw? ==> d.error == Some(f.ariaLabelled.message)
  {
    var none := AccessibilityData(None, None, None, None, None, None, None);
    match f.snapshot
    case Threw(e) => none.(error := Some(e))
    case Got(tree) =>
      var d1 := none.(axTreeAvailable := Some(tree != AxNone),
                      axElementsCount := if AxTruthy(tree) then Some(CountAx(tree)) else None);
      match f.imagesWithoutAlt
      case Threw(e) => d1.(error := Some(e))
      case Got(missingAlt) =>
        var d2 := d1.(imagesWithoutAlt := Some(missingAlt));
        match f.h1Count
        case Threw(e) => d2.(error := Some(e))
        case Got(h1) =>
          var d3 := d2.(h1Count := Some(h1), properHeadingStructure := Some(h1 == 1));
          match f.ariaLabelled
          case Threw(e) => d3.(error := Some(e))
          case Got(aria) => d3.(elementsWithAriaLabels := Some(aria))
  }

  // ---------------------------------------------------------------- security

  /** The names of the response headers, and the mixed-content counts. */
  datatype SecurityFacts = SecurityFacts(mixedScripts: Outcome<nat>, mixedImages: Outcome<nat>, headerNames: Outcome<set<string>>)

  datatype SecurityHeaders = SecurityHeaders(contentSecurityPolicy: bool, frameOptions: bool, contentTypeOptions: bool, strictTransportSecurity: bool)

  datatype SecurityData = SecurityData(
    isHttps: bool, mixedContentScripts: Option<nat>, mixedContentImages: Option<nat>,
    securityHeaders: Option<SecurityHeaders>, error: Option<string>)

  /** `_extract_security_data`: both mixed-content counts are stored together, after both reads. */
  function ExtractSecurity(f: SecurityFacts, pageUrl: string): (d: SecurityData)
    ensures d.isHttps <==> StartsWith(pageUrl, "https://")
    ensures d.mixedContentScripts.Some? <==> f.mixedScripts.Got? && f.mixedImages.Got?
    ensures d.mixedContentImages.Some? <==> d.mixedContentScripts.Some?
    ensures d.error.None? <==> f.mixedScripts.Got? && f.mixedImages.Got? && f.headerNames.Got?
    ensures d.securityHeaders.Some? <==> d.error.None?
    ensures d.mixedContentScripts.Some? ==> d.mixedContentScripts.value == f.mixedScripts.value
                                            && d.mixedContentImages.value == f.mixedImages.value
    ensures f.mixedScripts.Threw? ==> d.error == Some(f.mixedScripts.message)
    ensures f.mixedScripts.Got? && f.mixedImages.Threw? ==> d.error == Some(f.mixedImages.message)
    ensures d.mixedContentScripts.Some? && f.headerNames.Threw? ==> d.error == Some(f.headerNames.message)
    ensures d.securityHeaders.Some? ==>
              && (d.securityHeaders.value.contentSecurityPolicy <==> "content-security-policy" in f.headerNames.value)
              && (d.securityHeaders.value.frameOptions <==> "x-frame-options" in f.headerNames.value)
              && (d.securityHeaders.value.contentTypeOptions <==> "x-content-type-options" in f.headerNames.value)
              && (d.securityHeaders.value.strictTransportSecurity <==> "strict-transport-security" in f.headerNames.value)
  {
    var https := StartsWith(pageUrl, "https://");
    match (f.mixedScripts, f.mixedImages)
    case (Threw(e), _) => SecurityData(https, None, None, None, Some(e))
    case (Got(_), Threw(e)) => SecurityData(https, None, None, None, Some(e))
    case (Got(scripts), Got(images)) =>
      match f.headerNames
      case Threw(e) => SecurityData(https, Some(scripts), Some(images), None, Some(e))
      case Got(names) =>
        var headers := SecurityHeaders("content-security-policy" in names, "x-frame-options" in names,
                                       "x-content-type-options" in names, "strict-transport-security" in names);
        SecurityData(https, Some(scripts), Some(images), Some(headers), None)
  }

  // ---------------------------------------------------------------- performance

  datatype PerformanceFacts = PerformanceFacts(timing: Outcome<Json>, resources: Outcome<Json>)

  datatype PerformanceData = PerformanceData(timing: Option<Json>, resources: Option<Json>, error: Option<string>)

  /** `_extract_performance_data`: the two script results, as far as they got. */
  function ExtractPerformance(f: PerformanceFacts): (d: PerformanceData)
    ensures d.error.None? <==> f.timing.Got? && f.resources.Got?
    ensures d.timing.Some? <==> f.timing.Got?
    ensures d.resources.Some? <==> d.error.None?
    ensures d.timing.Some? ==> d.timing.value == f.timing.value
    ensures d.resources.Some? ==> d.resources.value == f.resources.value
    ensures f.timing.Threw? ==> d.error == Some(f.timing.message)
    ensures f.timing.Got? && f.resources.Threw? ==> d.error == Some(f.resources.message)
  {
    match f.timing
    case Threw(e) => PerformanceData(None, None, Some(e))
    case Got(timing) =>
      match f.resources
      case Threw(e) => PerformanceData(Some(timing), None, Some(e))
      case Got(resources) => PerformanceData(Some(timing), Some(resources), None)
  }

  // ---------------------------------------------------------------- custom selectors

  datatype ElementFacts = ElementFacts(innerText: Outcome<string>, innerHtml: Outcome<string>)
  datatype Item = Item(text: string, html: string)
  datatype SelectorResult = Items(items: seq<Item>) | SelectorError(message: string)

  /** Both reads of an element succeed. */
  predicate Readable(e: ElementFacts) {
    e.innerText.Got? && e.innerHtml.Got?
  }

  /** An element's item: its stripped text and at most 500 characters of its html. */
  function ItemOf(e: ElementFacts): (item: Item)
    requires Readable(e)
    ensures |item.html| <= MaxItemHtml && StartsWith(e.innerHtml.value, item.html)
    ensures |e.innerHtml.value| <= MaxItemHtml ==> item.html == e.innerHtml.value
    ensures |e.innerHtml.value| >= MaxItemHtml ==> |item.html| == MaxItemHtml
    ensures item.text == Strip(e.innerText.value)
  {
    Item(Strip(e.innerText.value), Take(e.innerHtml.value, MaxItemHtml))
  }

  /** The message of the first read that raised, reading text then html, element by element. */
  function FirstReadError(elements: seq<ElementFacts>): string
    requires exists k :: 0 <= k < |elements| && !Readable(elements[k])
  {
    var e := elements[0];
    if e.innerText.Threw? then e.innerText.message
    else if e.innerHtml.Threw? then e.innerHtml.message
    else
      var k :| 0 <= k < |elements| && !Readable(elements[k]);
      assert !Readable(elements[1..][k - 1]);
      FirstReadError(elements[1..])
  }

  /**
   The items of the given elements, read in order; the first exception stops the loop,
   and the items read so far are dropped with it.
   */
  function ReadItems(elements: seq<ElementFacts>): (r: Result<seq<Item>, string>)
    ensures r.Success? <==> forall k :: 0 <= k < |elements| ==> Readable(elements[k])
    ensures r.Success? ==> |r.value| == |elements| && forall k :: 0 <= k < |elements| ==> r.value[k] == ItemOf(elements[k])
    ensures r.Failure? ==> r.error == FirstReadError(elements)
  {
    if forall k :: 0 <= k < |elements| ==> Readable(elements[k]) then
      Success(seq(|elements|, k requires 0 <= k < |elements| => ItemOf(elements[k])))
    else Failure(FirstReadError(elements))
  }

  /** One selector's entry: at most the first 10 elements, each html cut to 500 characters. */
  function SelectorEntry(found: Outcome<seq<ElementFacts>>): (r: SelectorResult)
    ensures r.Items? ==> found.Got? && |r.items| == |Take(found.value, MaxItemsPerSelector)| && |r.items| <= MaxItemsPerSelector
    ensures r.Items? ==> forall k :: 0 <= k < |r.items| ==>
              && |r.items[k].html| <= MaxItemHtml && found.value[k].innerHtml.Got?
              && StartsWith(found.value[k].innerHtml.value, r.items[k].html)
    ensures found.Threw? ==> r == SelectorError(found.message)
    ensures found.Got? ==> (r.Items? <==> ReadItems(Take(found.value, MaxItemsPerSelector)).Success?)
    ensures r.Items? ==> r.items == ReadItems(Take(found.value, MaxItemsPerSelector)).value
    ensures found.Got? && r.SelectorError? ==> r.message == ReadItems(Take(found.value, MaxItemsPerSelector)).error
  {
    match found
    case Threw(m) => SelectorError(m)
    case Got(elements) =>
      match ReadItems(Take(elements, MaxItemsPerSelector))
      case Failure(m) => SelectorError(m)
      case Success(items) => Items(items)
  }

  /** `_extract_custom_data`: one entry per distinct selector, each from that selector's elements only. */
  function ExtractCustom(selectors: seq<string>, select: string -> Outcome<seq<ElementFacts>>): (m: map<string, SelectorResult>)
    ensures m.Keys == set s | s in selectors
    ensures forall s :: s in m ==> m[s] == SelectorEntry(select(s))
  {
    if selectors == [] then map[]
    else
      var s := selectors[|selectors| - 1];
      ExtractCustom(selectors[..|selectors| - 1], select)[s := SelectorEntry(select(s))]
  }

  // ---------------------------------------------------------------- the scan

  /** Everything the open page answers, section by section. */
  datatype PageFacts = PageFacts(
    url: string,
    content: ContentFacts,
    structure: StructureFacts,
    accessibility: AccessibilityFacts,
    security: SecurityFacts,
    performance: PerformanceFacts,
    select: string -> Outcome<seq<ElementFacts>>,
    screenshot: CallOutcome)

  datatype ScanData = ScanData(
    content: Option<ContentData>,
    structure: Option<StructureData>,
    accessibility: Option<AccessibilityData>,
    security: Option<SecurityData>,
    performance: Option<PerformanceData>,
    customExtraction: Option<map<string, SelectorResult>>)

  const NoData := ScanData(None, None, None, None, None, None)

  datatype ScanResult = ScanResult(
    url: string, scanType: string, timestamp: string, status: string,
    data: ScanData, error: Option<string>, screenshotPath: Option<string>)

  /** The clock readings of one scan: the result's timestamp, the screenshot's name stamp, the failure's timestamp. */
  datatype ScanClock = ScanClock(startedAt: string, screenshotStamp: string, failedAt: string)

  datatype ScanRequest = ScanRequest(url: string, scanType: string, customSelectors: Option<seq<string>>, extractGoals: Option<seq<string>>)

  /** Whether a scan of this type produces the named section. */
  predicate Requested(scanType: string, section: string) {
    scanType == "full" || scanType == section
  }

  /** `_capture_screenshot`: the file path, or "" when capturing raised. */
  function ScreenshotPath(screenshot: CallOutcome, stamp: string): (path: string)
    ensures screenshot.Raised? <==> path == ""
    ensures screenshot.Completed? ==> StartsWith(path, "/tmp/screenshot_") && EndsWith(path, ".png")
  {
    if screenshot.Raised? then "" else "/tmp/screenshot_" + stamp + ".png"
  }

  /** The data of a scan whose browser session opened, section by section. */
  function ScanSections(req: ScanRequest, page: PageFacts, llm: Option<(string, string) -> Outcome<string>>): (d: ScanData)
    ensures d.content.Some? <==> Requested(req.scanType, "content")
    ensures d.structure.Some? <==> Requested(req.scanType, "structure")
    ensures d.accessibility.Some? <==> Requested(req.scanType, "accessibility")
    ensures d.security.Some? <==> Requested(req.scanType, "security")
    ensures d.performance.Some? <==> Requested(req.scanType, "performance")
    ensures d.customExtraction.Some? <==> req.customSelectors.Some? && req.customSelectors.value != []
    ensures d.content.Some? ==> d.content.value == ExtractContent(page.content, page.url, req.extractGoals, llm)
    ensures d.structure.Some? ==> d.structure.value == ExtractStructure(page.structure)
    ensures d.accessibility.Some? ==> d.accessibility.value == ExtractAccessibility(page.accessibility)
    ensures d.security.Some? ==> d.security.value == ExtractSecurity(page.security, page.url)
    ensures d.performance.Some? ==> d.performance.value == ExtractPerformance(page.performance)
    ensures d.customExtraction.Some? ==> d.customExtraction.value == ExtractCustom(req.customSelectors.value, page.select)
  {
    var t := req.scanType;
    ScanData(
      if Requested(t, "content") then Some(ExtractContent(page.content, page.url, req.extractGoals, llm)) else None,
      if Requested(t, "structure") then Some(ExtractStructure(page.structure)) else None,
      if Requested(t, "accessibility") then Some(ExtractAccessibility(page.accessibility)) else None,
      if Requested(t, "security") then Some(ExtractSecurity(page.security, page.url)) else None,
      if Requested(t, "performance") then Some(ExtractPerformance(page.performance)) else None,
      if req.customSelectors.Some? && req.customSelectors.value != [] then Some(ExtractCustom(req.customSelectors.value, page.select)) else None)
  }

  /**
   `perform_comprehensive_scan`. `open` is starting the browser, getting the page and
   navigating to the URL; `close` is closing the session after the sections. A failure
   of either yields the failed shape, discarding whatever the sections produced.
   */
  function PerformComprehensiveScan(req: ScanRequest, open: Outcome<PageFacts>, llm: Option<(string, string) -> Outcome<string>>,
                                    close: CallOutcome, clock: ScanClock): (r: ScanResult)
    ensures r.url == req.url && r.scanType == req.scanType
    ensures r.status == "completed" <==> open.Got? && close.Completed?
    ensures r.status != "completed" ==> r.status == "failed"
    ensures r.status == "failed" ==> && r.data == NoData && r.timestamp == clock.failedAt && r.screenshotPath.None?
                                     && r.error == Some(if open.Threw? then open.message else close.message)
    ensures r.status == "completed" ==> && r.error.None? && r.timestamp == clock.startedAt
                                        && r.data == ScanSections(req, open.value, llm)
                                        && r.screenshotPath == Some(ScreenshotPath(open.value.screenshot, clock.screenshotStamp))
  {
    match open
    case Threw(e) => ScanResult(req.url, req.scanType, clock.failedAt, "failed", NoData, Some(e), None)
    case Got(page) =>
      var data := ScanSections(req, page, llm);
      var path := ScreenshotPath(page.screenshot, clock.screenshotStamp);
      match close
      case Raised(e) => ScanResult(req.url, req.scanType, clock.failedAt, "failed", NoData, Some(e), None)
      case Completed => ScanResult(req.url, req.scanType, clock.startedAt, "completed", data, None, Some(path))
  }

  /**
   Section isolation: a completed scan's content section depends on the content reads
   only, whatever every other section's reads do (raise or not).
   */
  lemma ContentIsolated(req: ScanRequest, p: PageFacts, q: PageFacts, llm: Option<(string, string) -> Outcome<string>>,
                        clock: ScanClock)
    requires p.url == q.url && p.content == q.content
    ensures var a := PerformComprehensiveScan(req, Got(p), llm, Completed, clock);
            var b := PerformComprehensiveScan(req, Got(q), llm, Completed, clock);
            a.data.content == b.data.content && a.status == b.status == "completed"
  {
  }

  /** A custom selector's entry depends on that selector's elements only. */
  lemma SelectorIsolated(selectors: seq<string>, s: string, f: string -> Outcome<seq<ElementFacts>>,
                         g: string -> Outcome<seq<ElementFacts>>)
    requires s in selectors && f(s) == g(s)
    ensures ExtractCustom(selectors, f)[s] == ExtractCustom(selectors, g)[s]
  {
  }

  /** A scan of one named type produces exactly that section among the five. */
  lemma SingleSectionScan(req: ScanRequest, page: PageFacts, llm: Option<(string, string) -> Outcome<string>>, section: string)
    requires req.scanType == section && section in {"content", "structure", "accessibility", "security", "performance"}
    ensures var d := ScanSections(req, page, llm);
            (d.content.Some? <==> section == "content") && (d.structure.Some? <==> section == "structure")
            && (d.accessibility.Some? <==> section == "accessibility") && (d.security.Some? <==> section == "security")
            && (d.performance.Some? <==> section == "performance")
  {
  }

  /** An unknown scan type produces none of the five sections. */
  lemma UnknownScanTypeIsEmpty(req: ScanRequest, page: PageFacts, llm: Option<(string, string) -> Outcome<string>>)
    requires req.scanType !in {"full", "content", "structure", "accessibility", "security", "performance"}
    ensures var d := ScanSections(req, page, llm);
            d.content.None? && d.structure.None? && d.accessibility.None? && d.security.None? && d.performance.None?
  {
  }
}
