/** The paging state of the report renderer: blocks are placed from the top of a page downwards, and a
    block that would reach into the footer starts a new page. */
module Paging {
  import opened Sequences

  /** Something drawn with its baseline at `y`, or the footer of a numbered page. */
  datatype Mark = Drawn(text: string, y: int) | Footer(page: nat)

  /** The texts in a chart: the scale at the top, middle and bottom, the first, middle and last point, of which
      the middle one is missing for two points or fewer, and the line below. */
  datatype Labels = NoData | Scale(top: string, mid: string, zero: string, first: string, middle: Option<string>,
                                   last: string, line: string)

  const CHART_HEIGHT := 150

  /** What the document hands to the renderer, already wrapped into lines. */
  datatype Block = Heading(text: string, size: nat) | Text(text: string, size: nat) | Bullet(line: string)
                 | Divider | Row(title: string, lines: seq<string>) | Spacer(amount: nat)
                 | Masthead(name: string) | Reserve(space: nat) | Chart(title: string, labels: Labels)
  {
    /** The space asked for before drawing; a spacer asks for none, and a reservation only asks. */
    function Needed(): nat {
      match this
      case Heading(_, size) => size + 10
      case Text(_, size) => size + 6
      case Bullet(_) => 15
      case Divider => 24
      case Row(_, lines) => if 13 * |lines| + 4 > 18 then 13 * |lines| + 4 else 18
      case Spacer(_) => 0
      case Masthead(_) => 110
      case Reserve(space) => space
      case Chart(_, _) => CHART_HEIGHT + 50
    }

    function Advance(): nat {
      match this
      case Heading(_, size) => size + 7
      case Text(_, size) => size + 5
      case Bullet(_) => 15
      case Divider => 18
      case Row(_, _) => Needed() + 3
      case Spacer(amount) => amount
      case Masthead(_) => 52
      case Reserve(_) => 0
      case Chart(_, _) => 16 + CHART_HEIGHT + 28
    }

    function Marks(y: int): seq<Mark> {
      match this
      case Heading(text, _) => [Drawn(text, y)]
      case Text(text, _) => [Drawn(text, y)]
      case Bullet(line) => [Drawn(line, y)]
      case Divider => [Drawn("", y)]
      case Row(title, lines) => [Drawn(title, y - 8)] + seq(|lines|, k requires 0 <= k < |lines| => Drawn(lines[k], y - 8 - 13 * k))
      case Spacer(_) => []
      case Masthead(name) => [Drawn(name, y - 14)]
      case Reserve(_) => []
      case Chart(title, labels) => [Drawn(title, y)] + LabelMarks(labels, y - 16 - CHART_HEIGHT)
    }

    function Texts(): seq<string> {
      match this
      case Heading(text, _) => [text]
      case Text(text, _) => [text]
      case Bullet(line) => [line]
      case Divider => [""]
      case Row(title, lines) => [title] + lines
      case Spacer(_) => []
      case Masthead(name) => [name]
      case Reserve(_) => []
      case Chart(title, labels) => [title] + LabelTexts(labels)
    }
  }

  const NO_DATA := "No chart data available."

  /** The labels of a chart whose lower edge is at `y`; the plot leaves 28 below and 20 above. */
  function LabelMarks(labels: Labels, y: int): seq<Mark> {
    match labels
    case NoData => [Drawn(NO_DATA, y + CHART_HEIGHT / 2)]
    case Scale(top, mid, zero, first, middle, last, line) =>
      var plotTop, plotBottom := y + CHART_HEIGHT - 20, y + 28;
      [Drawn(top, plotTop - 3), Drawn(mid, plotTop - (plotTop - plotBottom) / 2 - 3), Drawn(zero, plotBottom - 3),
       Drawn(first, y + 10)]
      + (if middle.Some? then [Drawn(middle.value, y + 10)] else [])
      + [Drawn(last, y + 10), Drawn(line, y - 12)]
  }

  function LabelTexts(labels: Labels): seq<string> {
    match labels
    case NoData => [NO_DATA]
    case Scale(top, mid, zero, first, middle, last, line) =>
      [top, mid, zero, first] + (if middle.Some? then [middle.value] else []) + [last, line]
  }

  datatype Page = Page(top: int, floor: int)

  datatype State = State(pages: seq<seq<Mark>>, content: seq<Mark>, y: int)

  function Start(p: Page): State { State([], [], p.top) }

  function Finished(s: State): State {
    s.(pages := s.pages + [s.content + [Footer(|s.pages| + 1)]])
  }

  function Ensured(s: State, needed: nat, p: Page): State {
    if s.y - needed < p.floor then State(Finished(s).pages, [], p.top) else s
  }

  function Placed(s: State, b: Block, p: Page): State {
    var t := if b.Spacer? then s else Ensured(s, b.Needed(), p);
    State(t.pages, t.content + b.Marks(t.y), t.y - b.Advance())
  }

  function AfterAll(blocks: seq<Block>, p: Page): State {
    if blocks == [] then Start(p) else Placed(AfterAll(blocks[..|blocks| - 1], p), blocks[|blocks| - 1], p)
  }

  /** The renderer object. */
  class Renderer {
    const page: Page
    var pages: seq<seq<Mark>>
    var content: seq<Mark>
    var y: int

    ghost function View(): State
      reads this
    {
      State(pages, content, y)
    }

    constructor (page: Page)
      ensures this.page == page && View() == Start(page)
    {
      this.page, pages, content, y := page, [], [], page.top;
    }

    method FinishPage()
      modifies this
      ensures View() == Finished(old(View()))
    {
      content := content + [Footer(|pages| + 1)];
      pages := pages + [content];
      content := content[..|content| - 1];
    }

    method EnsureSpace(needed: nat)
      modifies this
      ensures View() == Ensured(old(View()), needed, page)
    {
      if y - needed < page.floor {
        FinishPage();
        content, y := [], page.top;
      }
    }

    method Place(b: Block)
      modifies this
      ensures View() == Placed(old(View()), b, page)
    {
      if !b.Spacer? {
        EnsureSpace(b.Needed());
      }
      content := content + b.Marks(y);
      y := y - b.Advance();
    }

    method Render(blocks: seq<Block>) returns (document: seq<seq<Mark>>)
      requires View() == Start(page)
      modifies this
      ensures document == Finished(AfterAll(blocks, page)).pages
    {
      for i := 0 to |blocks|
        invariant View() == AfterAll(blocks[..i], page)
      {
        assert blocks[..i + 1][..i] == blocks[..i];
        Place(blocks[i]);
      }
      assert blocks[..|blocks|] == blocks;
      FinishPage();
      document := pages;
    }
  }

  // ---------------------------------------------------------------------------------------
  // Nothing is lost, and pages are numbered

  function TextsOn(marks: seq<Mark>): seq<string> {
    if marks == [] then []
    else (if marks[0].Drawn? then [marks[0].text] else []) + TextsOn(marks[1..])
  }

  function TextsIn(pages: seq<seq<Mark>>): seq<string> {
    if pages == [] then [] else TextsIn(pages[..|pages| - 1]) + TextsOn(pages[|pages| - 1])
  }

  function AllTexts(blocks: seq<Block>): seq<string> {
    if blocks == [] then [] else AllTexts(blocks[..|blocks| - 1]) + blocks[|blocks| - 1].Texts()
  }

  lemma {:induction false} TextsConcat(a: seq<Mark>, b: seq<Mark>)
    ensures TextsOn(a + b) == TextsOn(a) + TextsOn(b)
  {
    if a == [] {
      assert a + b == b;
    } else {
      assert (a + b)[1..] == a[1..] + b;
      TextsConcat(a[1..], b);
    }
  }

  lemma {:induction false} DrawnTexts(marks: seq<Mark>, texts: seq<string>)
    requires |marks| == |texts| && forall i :: 0 <= i < |marks| ==> marks[i].Drawn? && marks[i].text == texts[i]
    ensures TextsOn(marks) == texts
  {
    if marks != [] {
      DrawnTexts(marks[1..], texts[1..]);
      assert texts == [texts[0]] + texts[1..];
    }
  }

  lemma FinishedTexts(s: State)
    ensures TextsIn(Finished(s).pages) == TextsIn(s.pages) + TextsOn(s.content)
  {
    assert Finished(s).pages[..|s.pages|] == s.pages;
    TextsConcat(s.content, [Footer(|s.pages| + 1)]);
  }

  function Shown(s: State): seq<string> { TextsIn(s.pages) + TextsOn(s.content) }

  lemma EnsuredShows(s: State, needed: nat, p: Page)
    ensures Shown(Ensured(s, needed, p)) == Shown(s)
  {
    FinishedTexts(s);
  }

  lemma AppendShows(s: State, marks: seq<Mark>, y: int)
    ensures Shown(State(s.pages, s.content + marks, y)) == Shown(s) + TextsOn(marks)
  {
    TextsConcat(s.content, marks);
    assert TextsIn(s.pages) + (TextsOn(s.content) + TextsOn(marks)) == (TextsIn(s.pages) + TextsOn(s.content)) + TextsOn(marks);
  }

  lemma MarksShow(b: Block, y: int)
    ensures TextsOn(b.Marks(y)) == b.Texts()
  {
    DrawnTexts(b.Marks(y), b.Texts());
  }

  lemma PlacedShows(s: State, b: Block, p: Page)
    ensures Shown(Placed(s, b, p)) == Shown(s) + b.Texts()
  {
    var t := if b.Spacer? then s else Ensured(s, b.Needed(), p);
    EnsuredShows(s, b.Needed(), p);
    MarksShow(b, t.y);
    AppendShows(t, b.Marks(t.y), t.y - b.Advance());
  }

  /** Every text of the document appears exactly once, in order, whatever the page breaks. */
  lemma {:induction false} EverythingIsDrawn(blocks: seq<Block>, p: Page)
    ensures Shown(AfterAll(blocks, p)) == AllTexts(blocks)
    ensures TextsIn(Finished(AfterAll(blocks, p)).pages) == AllTexts(blocks)
  {
    if blocks != [] {
      EverythingIsDrawn(blocks[..|blocks| - 1], p);
      PlacedShows(AfterAll(blocks[..|blocks| - 1], p), blocks[|blocks| - 1], p);
    }
    FinishedTexts(AfterAll(blocks, p));
  }

  /** The pages before the current one end in their own number, and have no other footer. */
  ghost predicate Numbered(pages: seq<seq<Mark>>) {
    forall i :: 0 <= i < |pages| ==>
      && pages[i] != [] && pages[i][|pages[i]| - 1] == Footer(i + 1)
      && forall j :: 0 <= j < |pages[i]| - 1 ==> pages[i][j].Drawn?
  }

  ghost predicate OnlyDrawn(marks: seq<Mark>) { forall j :: 0 <= j < |marks| ==> marks[j].Drawn? }

  /** The state between blocks: finished pages numbered, the current page without a footer. */
  ghost predicate InOrder(s: State) { Numbered(s.pages) && OnlyDrawn(s.content) }

  lemma FinishedIsNumbered(s: State)
    requires InOrder(s)
    ensures Numbered(Finished(s).pages)
  {}

  lemma MarksAreDrawn(b: Block, y: int)
    ensures OnlyDrawn(b.Marks(y))
  {}

  lemma PlacedIsInOrder(s: State, b: Block, p: Page)
    requires InOrder(s)
    ensures InOrder(Placed(s, b, p))
  {
    FinishedIsNumbered(s);
    var t := if b.Spacer? then s else Ensured(s, b.Needed(), p);
    MarksAreDrawn(b, t.y);
    assert InOrder(t);
    assert OnlyDrawn(t.content + b.Marks(t.y));
  }

  lemma {:induction false} PagesAreNumbered(blocks: seq<Block>, p: Page)
    ensures InOrder(AfterAll(blocks, p)) && Numbered(Finished(AfterAll(blocks, p)).pages)
  {
    if blocks != [] {
      PagesAreNumbered(blocks[..|blocks| - 1], p);
      PlacedIsInOrder(AfterAll(blocks[..|blocks| - 1], p), blocks[|blocks| - 1], p);
    }
    FinishedIsNumbered(AfterAll(blocks, p));
  }

  // ---------------------------------------------------------------------------------------
  // Nothing is drawn over

  /** Everything on the current page lies above the place of the next block. */
  ghost predicate Clear(s: State) { forall i :: 0 <= i < |s.content| && s.content[i].Drawn? ==> s.content[i].y > s.y }

  lemma MarksAboveNext(b: Block, y: int)
    ensures forall i :: 0 <= i < |b.Marks(y)| ==> y - b.Advance() < b.Marks(y)[i].y <= y
  {}

  lemma EnsuredIsClear(s: State, needed: nat, p: Page)
    requires Clear(s)
    ensures Clear(Ensured(s, needed, p))
  {}

  lemma PlacedIsClear(s: State, b: Block, p: Page)
    requires Clear(s)
    ensures Clear(Placed(s, b, p))
  {
    var t := if b.Spacer? then s else Ensured(s, b.Needed(), p);
    EnsuredIsClear(s, b.Needed(), p);
    MarksAboveNext(b, t.y);
  }

  lemma {:induction false} AllIsClear(blocks: seq<Block>, p: Page)
    ensures Clear(AfterAll(blocks, p))
  {
    if blocks != [] {
      AllIsClear(blocks[..|blocks| - 1], p);
      PlacedIsClear(AfterAll(blocks[..|blocks| - 1], p), blocks[|blocks| - 1], p);
    }
  }

  /** What a block draws on a page lies below everything that earlier blocks drew there; a block that starts a new
      page is the first on it. */
  lemma {:induction false} LaterIsBelow(blocks: seq<Block>, b: Block, p: Page)
    ensures var s, t := AfterAll(blocks, p), AfterAll(blocks + [b], p);
            var n := if t.pages == s.pages then |s.content| else 0;
            && n <= |t.content| && t.content[..n] == s.content[..n]
            && forall i, j :: 0 <= i < n <= j < |t.content| && t.content[i].Drawn? && t.content[j].Drawn? ==>
                 t.content[i].y > t.content[j].y
  {
    var s := AfterAll(blocks, p);
    AllIsClear(blocks, p);
    assert (blocks + [b])[..|blocks|] == blocks;
    var t := if b.Spacer? then s else Ensured(s, b.Needed(), p);
    MarksAboveNext(b, t.y);
    EnsuredKeepsOrTurns(s, b.Needed(), p);
  }

  lemma EnsuredKeepsOrTurns(s: State, needed: nat, p: Page)
    ensures var t := Ensured(s, needed, p); t == s || (t.content == [] && |t.pages| == |s.pages| + 1)
  {}

  // ---------------------------------------------------------------------------------------
  // The footer stays free

  predicate FitsPage(b: Block, p: Page) { b.Needed() <= p.top - p.floor }

  ghost predicate InBody(marks: seq<Mark>, p: Page) {
    forall i :: 0 <= i < |marks| && marks[i].Drawn? ==> p.floor <= marks[i].y <= p.top
  }

  /** Everything a block draws lies in the space it asks for. */
  lemma MarksInSpan(b: Block, y: int)
    ensures forall i :: 0 <= i < |b.Marks(y)| ==> y - b.Needed() <= b.Marks(y)[i].y <= y
  {}

  ghost predicate StaysFree(s: State, p: Page) {
    s.y <= p.top && InBody(s.content, p) && forall i :: 0 <= i < |s.pages| ==> InBody(s.pages[i], p)
  }

  lemma EnsuredStaysFree(s: State, needed: nat, p: Page)
    requires StaysFree(s, p) && needed <= p.top - p.floor
    ensures StaysFree(Ensured(s, needed, p), p) && Ensured(s, needed, p).y - needed >= p.floor
  {
    if s.y - needed < p.floor {
      var last := s.content + [Footer(|s.pages| + 1)];
      assert InBody(last, p);
    }
  }

  lemma PlacedStaysFree(s: State, b: Block, p: Page)
    requires StaysFree(s, p) && FitsPage(b, p)
    ensures StaysFree(Placed(s, b, p), p)
  {
    if !b.Spacer? {
      EnsuredStaysFree(s, b.Needed(), p);
      var t := Ensured(s, b.Needed(), p);
      MarksInSpan(b, t.y);
      assert InBody(t.content + b.Marks(t.y), p);
    }
  }

  /** If no block is taller than a page, nothing is drawn below the body of any page. */
  lemma {:induction false} FooterStaysFree(blocks: seq<Block>, p: Page)
    requires p.floor <= p.top && forall b :: b in blocks ==> FitsPage(b, p)
    ensures StaysFree(AfterAll(blocks, p), p)
  {
    if blocks != [] {
      var n := |blocks| - 1;
      assert blocks[n] in blocks;
      FooterStaysFree(blocks[..n], p);
      PlacedStaysFree(AfterAll(blocks[..n], p), blocks[n], p);
    }
  }

  /** Asking for space in time: after any block but a spacer, there are at most three points less than the body
      left, so that the next line would still be drawn above the footer or on a new page. */
  lemma BlocksAskForEnough(s: State, b: Block, p: Page)
    requires s.y <= p.top && FitsPage(b, p) && !b.Spacer? && !b.Reserve?
    ensures Placed(s, b, p).y >= p.floor - 3
  {
    EnsuredEnough(s, b.Needed(), p);
  }

  lemma EnsuredEnough(s: State, needed: nat, p: Page)
    requires needed <= p.top - p.floor
    ensures Ensured(s, needed, p).y - needed >= p.floor
  {}

  /** Rows are not split. A row stays in the body of its page, wherever it starts, exactly when it is no
      taller than that body; otherwise its last line falls into the footer. */
  lemma TallRowOverflowsIff(title: string, lines: seq<string>, p: Page, s: State)
    requires lines != [] && s.y <= p.top
    ensures var marks := Row(title, lines).Marks(Ensured(s, Row(title, lines).Needed(), p).y);
            && (InBody(marks, p) <==> 8 + 13 * (|lines| - 1) <= p.top - p.floor)
            && (marks[|lines|].y < p.floor <==> 8 + 13 * (|lines| - 1) > p.top - p.floor)
  {
    var t := Ensured(s, Row(title, lines).Needed(), p);
    var marks := Row(title, lines).Marks(t.y);
    forall i | 0 <= i < |marks| ensures marks[i].y == t.y - 8 - 13 * (if i == 0 then 0 else i - 1) {}
    assert marks[|lines|].Drawn?;
  }

  /** Blocks that fit below one another into this much space. */
  predicate FitInto(blocks: seq<Block>, space: int)
    decreases |blocks|
  {
    blocks == [] || (blocks[0].Needed() <= space && FitInto(blocks[1..], space - blocks[0].Advance()))
  }

  function PlacedAll(s: State, blocks: seq<Block>, p: Page): State
    decreases |blocks|
  {
    if blocks == [] then s else PlacedAll(Placed(s, blocks[0], p), blocks[1..], p)
  }

  lemma {:induction false} NoBreakWhileRoom(s: State, blocks: seq<Block>, space: int, p: Page)
    requires FitInto(blocks, space) && s.y - space >= p.floor
    ensures PlacedAll(s, blocks, p).pages == s.pages && s.content <= PlacedAll(s, blocks, p).content
    decreases |blocks|
  {
    if blocks != [] {
      NoBreakWhileRoom(Placed(s, blocks[0], p), blocks[1..], space - blocks[0].Advance(), p);
    }
  }

  /** A reservation keeps together what fits into it: no page ends between those blocks. */
  lemma ReservedStaysTogether(s: State, space: nat, blocks: seq<Block>, p: Page)
    requires space <= p.top - p.floor && FitInto(blocks, space)
    ensures var t := Placed(s, Reserve(space), p);
            PlacedAll(t, blocks, p).pages == t.pages && Shown(t) == Shown(s)
  {
    NoBreakWhileRoom(Placed(s, Reserve(space), p), blocks, space, p);
    PlacedShows(s, Reserve(space), p);
  }

  /** How a section begins: a divider unless it is the first, its heading, its first line. */
  function Opening(index: nat, title: string, size: nat, line: string): seq<Block> {
    (if index > 0 then [Divider] else []) + [Heading(title, size), Text(line, 10)]
  }

  /** A section reserves 78 points before it begins, so that its heading is never the last thing on a
      page, as long as headings are set no larger than 37 points. */
  lemma HeadingIsNotLeftAlone(s: State, index: nat, title: string, size: nat, line: string, p: Page)
    requires size <= 37 && 78 <= p.top - p.floor
    ensures var t := Placed(s, Reserve(78), p);
            PlacedAll(t, Opening(index, title, size, line), p).pages == t.pages
  {
    var ending := [Heading(title, size), Text(line, 10)];
    assert ending[1..] == [Text(line, 10)] && ending[1..][1..] == [];
    assert FitInto(ending[1..], 16) && FitInto(ending, 60) && FitInto(ending, 78);
    assert index > 0 ==> Opening(index, title, size, line)[1..] == ending;
    assert index == 0 ==> Opening(index, title, size, line) == ending;
    ReservedStaysTogether(s, 78, Opening(index, title, size, line), p);
  }
}
