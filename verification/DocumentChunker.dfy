/** The section-aware Markdown parser of document_chunker.py. */
module DocumentChunker {
  import opened Common
  import opened SectionForest

  type Vector = seq<real>

  /** A heading found in a text: its span, its number of `#` characters, and its title. */
  datatype Match = Match(start: nat, end: nat, level: int, title: string)

  /** A deterministic library call as a table, with a fixed answer for what it does not list. */
  function Look<T>(table: imap<string, T>, text: string, other: T): T {
    if text in table then table[text] else other
  }

  /**
    The libraries the pipeline calls. Tables may be infinite, so every function is one; calls that
    raise are modelled where they are made.
   */
  datatype Tools = Tools(
    headings: imap<string, seq<Match>>,
    stripped: imap<string, string>,
    lowered: imap<string, string>,
    plain: imap<string, string>,
    types: imap<string, string>,
    chunks: imap<string, seq<string>>,
    digests: imap<string, string>,
    vectors: imap<string, Vector>,
    hashes: imap<string, string>)
  {
    function FindHeadings(md: string): seq<Match> { Look(headings, md, []) }
    function Strip(s: string): string { Look(stripped, s, s) }
    function Lower(s: string): string { Look(lowered, s, s) }
    function PlainText(s: string): string { Look(plain, s, s) }
    function TitleType(title: string): string { Look(types, title, "section") }
    function Chunk(s: string): seq<string> { Look(chunks, s, [s]) }
    function Digest(s: string): string { Look(digests, s, s) }
    function Embed(s: string): Vector { Look(vectors, s, []) }
    function Sha256(s: string): string { Look(hashes, s, s) }
  }

  datatype ParsedChunk = ParsedChunk(content: string, order: nat, digest: string)

  datatype SectionText = SectionText(heading: string, level: int, raw: string, plain: string, kind: string)

  /** What a section says, apart from where it stands in the tree. */
  datatype Content = Content(text: SectionText, chunks: seq<ParsedChunk>)

  datatype ParsedSection = ParsedSection(tempId: int, order: nat, parentTempId: Option<int>, content: Content)

  /** Headings are non-empty, in order, do not overlap, and have levels 1 to 6. */
  ghost predicate ValidMatches(md: string, ms: seq<Match>) {
    && (forall k :: 0 <= k < |ms| ==> ms[k].start < ms[k].end <= |md| && 1 <= ms[k].level <= 6)
    && (forall j, k :: 0 <= j < k < |ms| ==> ms[j].end <= ms[k].start)
  }

  function HeadingSpan(md: string, ms: seq<Match>, k: nat): string
    requires ValidMatches(md, ms) && k < |ms|
  {
    md[ms[k].start..ms[k].end]
  }

  /** The text of section `k` after its heading, up to the next heading or the end. */
  function BodySpan(md: string, ms: seq<Match>, k: nat): string
    requires ValidMatches(md, ms) && k < |ms|
  {
    md[ms[k].end..if k + 1 < |ms| then ms[k + 1].start else |md|]
  }

  /** The section type of a heading; below level 2 it depends on the title's keywords. */
  function SectionType(e: Tools, level: int, title: string): string {
    if level == 1 then "title" else if level == 2 then "chapter" else e.TitleType(title)
  }

  function ParsedChunks(e: Tools, body: string): seq<ParsedChunk> {
    var texts := if e.Strip(body) == "" then [] else e.Chunk(body);
    NumberedChunks(e, texts, |texts|)
  }

  function NumberedChunks(e: Tools, texts: seq<string>, n: nat): seq<ParsedChunk>
    requires n <= |texts|
  {
    if n == 0 then []
    else NumberedChunks(e, texts, n - 1) + [ParsedChunk(texts[n - 1], n - 1, e.Digest(texts[n - 1]))]
  }

  function HeadingContent(e: Tools, md: string, ms: seq<Match>, k: nat): Content
    requires ValidMatches(md, ms) && k < |ms|
  {
    var title, body := e.Strip(ms[k].title), e.Strip(BodySpan(md, ms, k));
    var raw := HeadingSpan(md, ms, k) + (if body != "" then "\n" + body else "");
    Content(SectionText(title, ms[k].level, raw, e.PlainText(body), SectionType(e, ms[k].level, title)),
            ParsedChunks(e, body))
  }

  function HeadingContents(e: Tools, md: string, ms: seq<Match>, n: nat): (o: seq<Content>)
    requires ValidMatches(md, ms) && n <= |ms|
    ensures |o| == n
    ensures forall k :: 0 <= k < n ==> o[k] == HeadingContent(e, md, ms, k)
  {
    if n == 0 then [] else HeadingContents(e, md, ms, n - 1) + [HeadingContent(e, md, ms, n - 1)]
  }

  /** The single section of a text without headings. */
  function BodyContent(e: Tools, md: string): Content {
    Content(SectionText("(Document Body)", 1, md, e.PlainText(md), "body"), ParsedChunks(e, md))
  }

  /** What the sections of a text are; their levels determine the tree. */
  function Outline(e: Tools, md: string): (o: seq<Content>)
    requires ValidMatches(md, e.FindHeadings(md))
    ensures o != []
  {
    var ms := e.FindHeadings(md);
    if ms == [] then [BodyContent(e, md)] else HeadingContents(e, md, ms, |ms|)
  }

  function Levels(o: seq<Content>): (r: seq<int>)
    ensures |r| == |o|
    ensures forall k :: 0 <= k < |o| ==> r[k] == o[k].text.level
  {
    if o == [] then [] else Levels(o[..|o| - 1]) + [o[|o| - 1].text.level]
  }

  /** `parsed` holds the outline `o` in order, tied into a tree by distinct temporary ids. */
  ghost predicate Represents(parsed: seq<ParsedSection>, o: seq<Content>) {
    && |parsed| == |o|
    && (forall k :: 0 <= k < |o| ==> parsed[k].content == o[k] && parsed[k].order == k)
    && (forall j, k :: 0 <= j < k < |o| ==> parsed[j].tempId != parsed[k].tempId)
    && (forall k :: 0 <= k < |o| ==> Linked(parsed, Levels(o), k))
  }

  /** Section `k` points at the temporary id of its parent. */
  ghost predicate Linked(parsed: seq<ParsedSection>, levels: seq<int>, k: nat)
    requires k < |parsed| == |levels|
  {
    match Parent(levels, k)
    case None => parsed[k].parentTempId == None
    case Some(p) => parsed[k].parentTempId == Some(parsed[p].tempId)
  }

  function TempParent(p: Option<nat>, firstId: int): Option<int> {
    if p.Some? then Some(firstId + p.value) else None
  }

  /** The first `n` sections with temporary ids counted from `firstId`. */
  function TempSections(o: seq<Content>, levels: seq<int>, n: nat, firstId: int): seq<ParsedSection>
    requires n <= |o| == |levels|
  {
    if n == 0 then []
    else TempSections(o, levels, n - 1, firstId) +
         [ParsedSection(firstId + n - 1, n - 1, TempParent(Parent(levels, n - 1), firstId), o[n - 1])]
  }

  lemma {:induction false} TempSectionAt(o: seq<Content>, levels: seq<int>, n: nat, firstId: int, k: nat)
    requires k < n <= |o| == |levels|
    ensures |TempSections(o, levels, n, firstId)| == n
    ensures TempSections(o, levels, n, firstId)[k]
         == ParsedSection(firstId + k, k, TempParent(Parent(levels, k), firstId), o[k])
  {
    if n > 1 {
      TempSectionAt(o, levels, n - 1, firstId, if k < n - 1 then k else 0);
    }
  }

  lemma TempSectionsRepresent(o: seq<Content>, firstId: int)
    ensures Represents(TempSections(o, Levels(o), |o|, firstId), o)
  {
    var levels, s := Levels(o), TempSections(o, Levels(o), |o|, firstId);
    if o != [] {
      TempSectionAt(o, levels, |o|, firstId, 0);
    }
    forall k | 0 <= k < |o|
      ensures s[k].content == o[k] && s[k].order == k && s[k].tempId == firstId + k
      ensures Linked(s, levels, k)
    {
      TempSectionAt(o, levels, |o|, firstId, k);
      match Parent(levels, k)
      case None =>
      case Some(p) => TempSectionAt(o, levels, |o|, firstId, p);
    }
  }

  /** The code's stack entry for an open section: its level and temporary id. */
  type StackEntry = (int, int)

  function PopPairs(stack: seq<StackEntry>, level: int): seq<StackEntry> {
    if stack == [] || stack[|stack| - 1].0 < level then stack else PopPairs(stack[..|stack| - 1], level)
  }

  function StackAfter(levels: seq<int>, i: nat, firstId: int): seq<StackEntry>
    requires i <= |levels|
  {
    if i == 0 then []
    else PopPairs(StackAfter(levels, i - 1, firstId), levels[i - 1]) + [(levels[i - 1], firstId + i - 1)]
  }

  function TopId(stack: seq<StackEntry>): Option<int> {
    if stack == [] then None else Some(stack[|stack| - 1].1)
  }

  /** The code's stack lists the levels and temporary ids of the open sections. */
  ghost predicate Mirrors(stack: seq<StackEntry>, open: seq<nat>, levels: seq<int>, firstId: int) {
    |stack| == |open| && forall s :: 0 <= s < |open| ==> EntryOf(stack[s], open[s], levels, firstId)
  }

  ghost predicate EntryOf(entry: StackEntry, k: nat, levels: seq<int>, firstId: int) {
    k < |levels| && entry == (levels[k], firstId + k)
  }

  lemma {:induction false} PopMirrors(stack: seq<StackEntry>, open: seq<nat>, levels: seq<int>, firstId: int,
                                      level: int)
    requires Mirrors(stack, open, levels, firstId)
    ensures Mirrors(PopPairs(stack, level), PopTo(levels, open, level), levels, firstId)
  {
    if stack != [] && stack[|stack| - 1].0 >= level {
      PopMirrors(stack[..|stack| - 1], open[..|open| - 1], levels, firstId, level);
    }
  }

  lemma PushMirrors(stack: seq<StackEntry>, open: seq<nat>, levels: seq<int>, firstId: int, i: nat)
    requires Mirrors(stack, open, levels, firstId) && i < |levels|
    ensures Mirrors(stack + [(levels[i], firstId + i)], open + [i], levels, firstId)
  {
  }

  lemma TopMirrors(stack: seq<StackEntry>, open: seq<nat>, levels: seq<int>, firstId: int)
    requires Mirrors(stack, open, levels, firstId)
    ensures TopId(stack) == TempParent(Top(open), firstId)
  {
    assert open != [] ==> EntryOf(stack[|open| - 1], open[|open| - 1], levels, firstId);
  }

  lemma {:induction false} StackMirrors(levels: seq<int>, i: nat, firstId: int)
    requires i <= |levels|
    ensures Mirrors(StackAfter(levels, i, firstId), OpenStack(levels, i), levels, firstId)
  {
    if i > 0 {
      StackMirrors(levels, i - 1, firstId);
      var stack, open := StackAfter(levels, i - 1, firstId), OpenStack(levels, i - 1);
      PopMirrors(stack, open, levels, firstId, levels[i - 1]);
      var stack', open' := PopPairs(stack, levels[i - 1]), PopTo(levels, open, levels[i - 1]);
      PushMirrors(stack', open', levels, firstId, i - 1);
      assert StackAfter(levels, i, firstId) == stack' + [(levels[i - 1], firstId + i - 1)];
      assert OpenStack(levels, i) == open' + [i - 1];
    }
  }

  /** After popping for section `i`, the top of the code's stack is the temporary id of its parent. */
  lemma TopIsParentId(levels: seq<int>, i: nat, firstId: int)
    requires i < |levels|
    ensures TopId(PopPairs(StackAfter(levels, i, firstId), levels[i])) == TempParent(Parent(levels, i), firstId)
  {
    StackMirrors(levels, i, firstId);
    PopMirrors(StackAfter(levels, i, firstId), OpenStack(levels, i), levels, firstId, levels[i]);
    TopIsParent(levels, i);
    TopMirrors(PopPairs(StackAfter(levels, i, firstId), levels[i]), PopTo(levels, OpenStack(levels, i), levels[i]),
               levels, firstId);
  }

  /**
    Resolve parents with a stack of open headings; `firstId` starts a supply of unused temporary ids.
    Over the whole parse there are at most as many pops as headings.
   */
  method LinkSections(o: seq<Content>, firstId: int) returns (sections: seq<ParsedSection>, ghost pops: nat)
    ensures Represents(sections, o)
    ensures pops <= |o|
  {
    sections, pops := [], 0;
    var stack: seq<StackEntry> := [];
    ghost var levels: seq<int> := Levels(o);
    for i := 0 to |o|
      invariant stack == StackAfter(levels, i, firstId)
      invariant sections == TempSections(o, levels, i, firstId)
      invariant pops + |stack| == i
    {
      var level := o[i].text.level;
      while stack != [] && stack[|stack| - 1].0 >= level
        invariant PopPairs(stack, level) == PopPairs(StackAfter(levels, i, firstId), level)
        invariant pops + |stack| == i
      {
        stack := stack[..|stack| - 1];
        pops := pops + 1;
      }
      TopIsParentId(levels, i, firstId);
      var parentTempId := TopId(stack);
      var tempId := firstId + i;
      stack := stack + [(level, tempId)];
      sections := sections + [ParsedSection(tempId, i, parentTempId, o[i])];
    }
    TempSectionsRepresent(o, firstId);
  }

  /** `firstId` starts a supply of unused temporary ids. */
  method ParseMarkdownIntoSections(e: Tools, md: string, firstId: int) returns (sections: seq<ParsedSection>)
    requires ValidMatches(md, e.FindHeadings(md))
    ensures Represents(sections, Outline(e, md))
  {
    var matches := e.FindHeadings(md);
    if matches == [] {
      sections := [ParsedSection(firstId, 0, None, BodyContent(e, md))];
    } else {
      ghost var pops;
      sections, pops := LinkSections(HeadingContents(e, md, matches, |matches|), firstId);
    }
  }

  function Spans(md: string, ms: seq<Match>, k: nat): string
    requires ValidMatches(md, ms) && k <= |ms|
    decreases |ms| - k
  {
    if k == |ms| then "" else HeadingSpan(md, ms, k) + BodySpan(md, ms, k) + Spans(md, ms, k + 1)
  }

  /** Headings and unstripped bodies, in order, are the text from heading `k` to the end. */
  lemma {:induction false} SpansTileTheText(md: string, ms: seq<Match>, k: nat)
    requires ValidMatches(md, ms) && k < |ms|
    ensures Spans(md, ms, k) == md[ms[k].start..]
    decreases |ms| - k
  {
    var s, e := ms[k].start, ms[k].end;
    var n := if k + 1 < |ms| then ms[k + 1].start else |md|;
    assert md[s..e] + md[e..n] == md[s..n];
    assert md[s..n] + md[n..] == md[s..];
    if k + 1 < |ms| {
      SpansTileTheText(md, ms, k + 1);
    }
  }

  /** The chunks of a body: the chunker's texts, numbered in order, each with its own digest; none when it is blank. */
  predicate ChunksOfBody(e: Tools, chunks: seq<ParsedChunk>, body: string) {
    if e.Strip(body) == "" then chunks == []
    else
      && |chunks| == |e.Chunk(body)|
      && forall m :: 0 <= m < |chunks| ==> chunks[m] == ParsedChunk(e.Chunk(body)[m], m, e.Digest(e.Chunk(body)[m]))
  }

  lemma {:induction false} NumberedInOrder(e: Tools, texts: seq<string>, n: nat)
    requires n <= |texts|
    ensures |NumberedChunks(e, texts, n)| == n
    ensures forall m :: 0 <= m < n ==> NumberedChunks(e, texts, n)[m] == ParsedChunk(texts[m], m, e.Digest(texts[m]))
  {
    if n > 0 {
      NumberedInOrder(e, texts, n - 1);
    }
  }

  /** What a section says: its heading, level and type, its span and stripped body, and the body's chunks. */
  predicate Carries(e: Tools, c: Content, heading: Match, span: string, body: string) {
    && c.text.heading == e.Strip(heading.title) && c.text.level == heading.level
    && c.text.kind == (if heading.level == 1 then "title" else if heading.level == 2 then "chapter"
                       else e.TitleType(e.Strip(heading.title)))
    && c.text.raw == span + (if body == "" then "" else "\n" + body)
    && c.text.plain == e.PlainText(body)
    && ChunksOfBody(e, c.chunks, body)
  }

  /** The text without a heading is one section at the top level. */
  predicate CarriesAll(e: Tools, c: Content, md: string) {
    c.text == SectionText("(Document Body)", 1, md, e.PlainText(md), "body") && ChunksOfBody(e, c.chunks, md)
  }

  /** Section `k` belongs to heading `k`, and reaches up to the next one or the end. */
  lemma SectionCarriesItsSpan(e: Tools, md: string, ms: seq<Match>, k: nat)
    requires ValidMatches(md, ms) && k < |ms|
    ensures Carries(e, HeadingContent(e, md, ms, k), ms[k], md[ms[k].start..ms[k].end],
                    e.Strip(md[ms[k].end..if k + 1 < |ms| then ms[k + 1].start else |md|]))
  {
    var body := e.Strip(BodySpan(md, ms, k));
    NumberedInOrder(e, e.Chunk(body), |e.Chunk(body)|);
  }

  /** The outline of a text with headings holds exactly these spans; without, one section has it all. */
  lemma OutlineCoversTheText(e: Tools, md: string)
    requires ValidMatches(md, e.FindHeadings(md))
    ensures var ms, o := e.FindHeadings(md), Outline(e, md);
      if ms == [] then |o| == 1 && CarriesAll(e, o[0], md)
      else
        && |o| == |ms|
        && Spans(md, ms, 0) == md[ms[0].start..]
        && (forall k :: 0 <= k < |o| ==>
              Carries(e, o[k], ms[k], md[ms[k].start..ms[k].end],
                      e.Strip(md[ms[k].end..if k + 1 < |ms| then ms[k + 1].start else |md|])))
  {
    var ms := e.FindHeadings(md);
    if ms == [] {
      NumberedInOrder(e, e.Chunk(md), |e.Chunk(md)|);
    } else {
      SpansTileTheText(md, ms, 0);
      forall k | 0 <= k < |ms|
        ensures Carries(e, Outline(e, md)[k], ms[k], md[ms[k].start..ms[k].end],
                        e.Strip(md[ms[k].end..if k + 1 < |ms| then ms[k + 1].start else |md|]))
      {
        SectionCarriesItsSpan(e, md, ms, k);
      }
    }
  }

  /** The levels of the headings found; a text without headings counts as one at the top level. */
  function HeadingLevelsOf(ms: seq<Match>): (levels: seq<int>)
    ensures ms == [] ==> levels == [1]
    ensures ms != [] ==> |levels| == |ms| && forall k :: 0 <= k < |ms| ==> levels[k] == ms[k].level
  {
    if |ms| == 0 then [1]
    else if |ms| == 1 then [ms[0].level]
    else HeadingLevelsOf(ms[..|ms| - 1]) + [ms[|ms| - 1].level]
  }

  /** The levels that determine the tree are those of the headings. */
  lemma LevelsAreThoseOfHeadings(e: Tools, md: string)
    requires ValidMatches(md, e.FindHeadings(md))
    ensures Levels(Outline(e, md)) == HeadingLevelsOf(e.FindHeadings(md))
  {
    var ms := e.FindHeadings(md);
    if ms != [] {
      forall k | 0 <= k < |ms|
        ensures Levels(Outline(e, md))[k] == ms[k].level
      {
        SectionCarriesItsSpan(e, md, ms, k);
      }
    }
  }

  /** Every outline has heading levels 1 to 6, so the forest theorems apply to it. */
  lemma OutlineLevels(e: Tools, md: string)
    requires ValidMatches(md, e.FindHeadings(md))
    ensures HeadingLevels(Levels(Outline(e, md)))
  {
    var ms, o := e.FindHeadings(md), Outline(e, md);
    forall k | 0 <= k < |o|
      ensures 1 <= o[k].text.level <= 6
    {
      assert ms != [] ==> o[k] == HeadingContent(e, md, ms, k);
    }
  }

  // ---------- the parser's links are the forest ----------

  /** Section `j` points at section `p`. */
  predicate PointsAt(parsed: seq<ParsedSection>, j: nat, p: nat) {
    j < |parsed| && p < |parsed| && parsed[j].parentTempId == Some(parsed[p].tempId)
  }

  /** Following `n` links from section `j` leads to section `i`. */
  ghost predicate Leads(parsed: seq<ParsedSection>, j: nat, i: nat, n: nat)
    decreases n
  {
    if n == 0 then i == j else exists p: nat :: PointsAt(parsed, j, p) && Leads(parsed, p, i, n - 1)
  }

  lemma SameTempId(parsed: seq<ParsedSection>, o: seq<Content>, p: nat, q: nat)
    requires Represents(parsed, o) && p < |o| && q < |o| && parsed[p].tempId == parsed[q].tempId
    ensures p == q
  {
  }

  lemma PointsAtParent(parsed: seq<ParsedSection>, o: seq<Content>, j: nat, p: nat)
    requires Represents(parsed, o) && j < |o|
    ensures PointsAt(parsed, j, p) <==> Parent(Levels(o), j) == Some(p)
  {
    assert Linked(parsed, Levels(o), j);
    match Parent(Levels(o), j)
    case None =>
    case Some(q) =>
      if PointsAt(parsed, j, p) {
        SameTempId(parsed, o, p, q);
      }
  }

  /** The links from a section lead through its ancestors, nearest first. */
  lemma {:induction false} LinksAreAncestors(parsed: seq<ParsedSection>, o: seq<Content>, j: nat, i: nat, n: nat)
    requires Represents(parsed, o) && j < |o| && n > 0
    ensures Leads(parsed, j, i, n) <==> n <= |Ancestors(Levels(o), j)| && Ancestors(Levels(o), j)[n - 1] == i
  {
    var levels := Levels(o);
    match Parent(levels, j)
    case None =>
      forall p: nat
        ensures !PointsAt(parsed, j, p)
      {
        PointsAtParent(parsed, o, j, p);
      }
    case Some(q) =>
      forall p: nat
        ensures PointsAt(parsed, j, p) <==> p == q
      {
        PointsAtParent(parsed, o, j, p);
      }
      assert PointsAt(parsed, j, q);
      assert Leads(parsed, j, i, n) <==> Leads(parsed, q, i, n - 1);
      assert Ancestors(levels, j) == [q] + Ancestors(levels, q);
      if n > 1 {
        LinksAreAncestors(parsed, o, q, i, n - 1);
      }
  }

  lemma ChainIsAncestor(parsed: seq<ParsedSection>, o: seq<Content>, j: nat, i: nat)
    requires Represents(parsed, o) && j < |o|
    ensures (exists n: nat :: n > 0 && Leads(parsed, j, i, n)) <==> i in Ancestors(Levels(o), j)
  {
    if n: nat :| n > 0 && Leads(parsed, j, i, n) {
      LinksAreAncestors(parsed, o, j, i, n);
    }
    if i in Ancestors(Levels(o), j) {
      var k :| 0 <= k < |Ancestors(Levels(o), j)| && Ancestors(Levels(o), j)[k] == i;
      LinksAreAncestors(parsed, o, j, i, k + 1);
    }
  }

  ghost predicate HeadingLevels(levels: seq<int>) {
    forall k :: 0 <= k < |levels| ==> 1 <= levels[k] <= 6
  }

  /** Following links takes at most five steps. */
  lemma ChainIsShort(parsed: seq<ParsedSection>, o: seq<Content>, i: nat, j: nat, n: nat)
    requires Represents(parsed, o) && j < |o| && HeadingLevels(Levels(o)) && Leads(parsed, j, i, n)
    ensures n <= 5
  {
    if n > 0 {
      LinksAreAncestors(parsed, o, j, i, n);
      AncestorChainsAreShort(Levels(o), j);
    }
  }

  /**
    In what the parser returns, following the links from section `j` leads to section `i` exactly when every
    heading after `i` up to `j` has a greater level than `i`, and chains hold at most six sections.
   */
  lemma ParsedForest(e: Tools, md: string, parsed: seq<ParsedSection>, i: nat, j: nat)
    requires ValidMatches(md, e.FindHeadings(md)) && Represents(parsed, Outline(e, md))
    requires i < |parsed| && j < |parsed|
    ensures |parsed| == |HeadingLevelsOf(e.FindHeadings(md))|
    ensures (exists n: nat :: n > 0 && Leads(parsed, j, i, n)) <==>
      i < j
      && forall k :: i < k <= j ==> HeadingLevelsOf(e.FindHeadings(md))[k] > HeadingLevelsOf(e.FindHeadings(md))[i]
    ensures forall n: nat :: Leads(parsed, j, i, n) ==> n <= 5
  {
    var o := Outline(e, md);
    ChainIsAncestor(parsed, o, j, i);
    LevelsAreThoseOfHeadings(e, md);
    AncestorMeansOpen(Levels(o), i, j);
    OutlineLevels(e, md);
    forall n: nat | Leads(parsed, j, i, n)
      ensures n <= 5
    {
      ChainIsShort(parsed, o, i, j, n);
    }
  }

  /** A section points at the latest earlier heading of a lower level, and at none when there is none. */
  lemma ParsedParent(e: Tools, md: string, parsed: seq<ParsedSection>, j: nat, p: nat)
    requires ValidMatches(md, e.FindHeadings(md)) && Represents(parsed, Outline(e, md)) && j < |parsed|
    ensures PointsAt(parsed, j, p) <==> IsLatestLower(HeadingLevelsOf(e.FindHeadings(md)), j, p)
  {
    LevelsAreThoseOfHeadings(e, md);
    PointsAtParent(parsed, Outline(e, md), j, p);
    ParentIsLatestLower(Levels(Outline(e, md)), j, p);
  }
}
