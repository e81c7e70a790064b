/**
 * The PDF side shared by both exporter files: the page geometry, the canvas
 * as an append-only trace of drawing events, and the renderer state that
 * `pack_to_pdf` keeps in closures — the vertical cursor `cur_y`, the
 * `footer()` mark and `ensure_space`.
 */
module Canvas {
  import opened Words
  import opened Packs

  datatype Face = Helvetica | HelveticaBold | HelveticaOblique

  datatype Font = Font(face: Face, size: nat)

  const Regular10: Font := Font(Helvetica, 10)
  const Bold10: Font := Font(HelveticaBold, 10)
  const Bold11: Font := Font(HelveticaBold, 11)
  const Bold12: Font := Font(HelveticaBold, 12)
  const Bold14: Font := Font(HelveticaBold, 14)

  /** `c.stringWidth(s, "Helvetica", 10)` and `c.stringWidth(s, "Helvetica-Bold", 10)`. */
  datatype Metrics = Metrics(regular: string -> real, bold: string -> real)

  /**
   * A page of width w and height h in points, with mm points per millimetre.
   * The text column runs from Left to Right; the cursor starts a new page at
   * Top; Bottom is the buffer that `ensure_space` keeps free above the footer.
   */
  datatype Page = Page(w: real, h: real, mm: real) {
    function Left(): real { 20.0 * mm }
    function Right(): real { w - 20.0 * mm }
    function Top(): real { h - 20.0 * mm }
    function Bottom(): real { 40.0 * mm }
    /** The lowest cursor position at which `ensure_space(lines)` does not break the page. */
    function Threshold(lines: int): real { Bottom() + 12.0 * lines as real }
  }

  /** ReportLab's millimetre, in points. */
  const Mm: real := 72.0 / 25.4

  /** ReportLab's A4 page size: 210 mm by 297 mm. */
  const A4: Page := Page(210.0 * Mm, 297.0 * Mm, Mm)

  /** One canvas call. A footer mark (logo and text, or centred text) is one event. */
  datatype Event =
    | Image(x: real, y: real, w: real, h: real)
    | Text(font: Font, x: real, y: real, s: string)
    | Rule(x1: real, x2: real, y: real)
    | Rect(x: real, y: real, w: real, h: real)
    | Footer(withLogo: bool)
    | ShowPage

  predicate IsBreak(e: Event) {
    e.Footer? || e.ShowPage?
  }

  /** The outline mark of an event: a bold 12-point text is a heading, a
      rectangle frames a question block. */
  function MarkOf(e: Event): seq<Mark> {
    match e
    case Text(font, _, _, s) => if font == Bold12 then [Heading(s)] else []
    case Rect(_, _, _, _) => [Box]
    case _ => []
  }

  /** The outline of a trace. */
  function Marks(t: seq<Event>): seq<Mark> {
    if t == [] then [] else Marks(t[..|t| - 1]) + MarkOf(t[|t| - 1])
  }

  function Footers(t: seq<Event>): nat {
    if t == [] then 0 else Footers(t[..|t| - 1]) + (if t[|t| - 1].Footer? then 1 else 0)
  }

  function ShowPages(t: seq<Event>): nat {
    if t == [] then 0 else ShowPages(t[..|t| - 1]) + (if t[|t| - 1].ShowPage? then 1 else 0)
  }

  /**
   * The trace of a document whose current page is still open: every page
   * break is immediately preceded by a footer, every footer is immediately
   * followed by a page break, and every footer carries the same logo choice.
   */
  ghost predicate Paginated(t: seq<Event>, logo: bool) {
    && (|t| > 0 ==> !t[0].ShowPage? && !t[|t| - 1].Footer?)
    && (forall i: nat | i + 1 < |t| :: BreakAfter(t, i))
    && (forall i: nat | i < |t| :: LogoAt(t, i, logo))
  }

  /** Position i is a footer exactly when position i + 1 is a page break. */
  ghost predicate BreakAfter(t: seq<Event>, i: nat) {
    i + 1 < |t| ==> (t[i].Footer? <==> t[i + 1].ShowPage?)
  }

  /** A footer at position i carries the logo choice `logo`. */
  ghost predicate LogoAt(t: seq<Event>, i: nat, logo: bool) {
    i < |t| && t[i].Footer? ==> t[i] == Footer(logo)
  }

  /** A finished document: the open page was closed with a final footer. */
  ghost predicate FooterOnEveryPage(t: seq<Event>, logo: bool) {
    |t| > 0 && t[|t| - 1] == Footer(logo) && Paginated(t[..|t| - 1], logo)
  }

  /** Events that do not show in the outline. */
  ghost predicate Unmarked(es: seq<Event>) {
    forall i | 0 <= i < |es| :: MarkOf(es[i]) == []
  }

  /** Events that neither break pages nor show in the outline. */
  ghost predicate Plain(es: seq<Event>) {
    Unmarked(es) && forall i | 0 <= i < |es| :: !IsBreak(es[i])
  }

  /** Lines drawn one below the other, 12 points apart, starting at y. */
  function Column(font: Font, x: real, y: real, lines: seq<string>): (c: seq<Event>)
    ensures |c| == |lines|
  {
    if lines == [] then []
    else Column(font, x, y, lines[..|lines| - 1]) + [Text(font, x, y - 12.0 * (|lines| - 1) as real, lines[|lines| - 1])]
  }

  /** The header drawn before the cursor is used: the client logo (when the
      URL is set and the image could be read), the title, the subtitle line
      and the tenant name (when set). */
  function Header(page: Page, p: Pack, tenant: string, logoShown: bool): seq<Event> {
    var x, y := page.Left(), page.Top();
    (if logoShown then [Image(x, y - 15.0 * page.mm, 30.0 * page.mm, 15.0 * page.mm)] else [])
    + [Text(Bold14, x, y - 18.0 * page.mm, Title(p)), Text(Regular10, x, y - 23.0 * page.mm, Meta(p.inputs))]
    + (if tenant != "" then [Text(Regular10, x, y - 28.0 * page.mm, tenant)] else [])
  }

  /** `max(label_min, c.stringWidth(f"{label}:", "Helvetica-Bold", 10))`: the
      offset of a row's value column from its label. */
  function LabelWidth(m: Metrics, caption: string, labelMin: real): (w: real)
    ensures w >= labelMin && w >= m.bold(caption + ":")
    ensures w == labelMin || w == m.bold(caption + ":")
  {
    if labelMin >= m.bold(caption + ":") then labelMin else m.bold(caption + ":")
  }

  /** `right - left - 8 - label_w`: the width a row's value is wrapped to. */
  function ValueWidth(page: Page, m: Metrics, caption: string, labelMin: real): real {
    page.Right() - page.Left() - 8.0 - LabelWidth(m, caption, labelMin)
  }

  /** The value lines of a row: the greedy wrap of the value's words to the
      value column (none for an empty value, whose row is skipped). */
  ghost predicate RowLines(page: Page, m: Metrics, caption: string, labelMin: real, val: string, lines: seq<string>) {
    lines == Wrap(Split(val), m.regular, ValueWidth(page, m, caption, labelMin))
  }

  /** What a label/value row draws at height y: nothing for an empty value;
      otherwise the bold label with a colon, then the value lines in the
      value column. */
  function RowTrace(page: Page, m: Metrics, caption: string, labelMin: real, val: string,
                    y: real, lines: seq<string>): seq<Event> {
    if val == "" then []
    else [Text(Bold10, page.Left() + 4.0, y, caption + ":")]
         + Column(Regular10, page.Left() + 4.0 + LabelWidth(m, caption, labelMin), y, lines)
  }

  /** The five dashed note lines of a question block, 10 points apart, from y down. */
  function NoteRules(left: real, right: real, y: real): seq<Event> {
    seq(5, i requires 0 <= i < 5 => Rule(left + 4.0, right - 4.0, y - 10.0 * i as real))
  }
  /** A trace `rows` closed by a question block's five note lines and its
      frame, for a block that started at height `top` and left the cursor
      at `yEnd`: the rules start 58 points above `yEnd` and the frame's
      bottom edge is 8 points above it. */
  function Boxed(rows: seq<Event>, page: Page, yEnd: real, top: real): seq<Event> {
    rows + NoteRules(page.Left(), page.Right(), yEnd + 58.0)
    + [Rect(page.Left(), yEnd + 8.0, page.Right() - page.Left(), top - yEnd - 8.0)]
  }


  /** The cursor after `ensure_space(lines)` from y: the top margin of a
      new page when y is below the threshold, y otherwise. */
  function SpaceTop(page: Page, y: real, lines: int): real {
    if y < page.Threshold(lines) then page.Top() else y
  }

  /** The trace after `ensure_space(lines)` from cursor y: t, closed by the
      page's footer and a page break when y is below the threshold. */
  function SpaceTrace(t: seq<Event>, page: Page, y: real, lines: int, logo: bool): seq<Event> {
    if y < page.Threshold(lines) then t + [Footer(logo), ShowPage] else t
  }


  // ---------------------------------------------------------------------
  // Lemmas about traces
  // ---------------------------------------------------------------------

  lemma {:induction false} MarksAppend(a: seq<Event>, b: seq<Event>)
    ensures Marks(a + b) == Marks(a) + Marks(b)
    decreases |b|
  {
    if b == [] {
      assert a + b == a;
    } else {
      var b', e := b[..|b| - 1], b[|b| - 1];
      assert (a + b)[..|a + b| - 1] == a + b' && (a + b)[|a + b| - 1] == e;
      assert Marks(a + b) == Marks(a + b') + MarkOf(e);
      MarksAppend(a, b');
    }
  }

  lemma {:induction false} UnmarkedMarks(es: seq<Event>)
    requires Unmarked(es)
    ensures Marks(es) == []
    decreases |es|
  {
    if es != [] {
      UnmarkedMarks(es[..|es| - 1]);
    }
  }

  lemma {:induction false} ColumnPlain(font: Font, x: real, y: real, lines: seq<string>)
    requires font != Bold12
    ensures Plain(Column(font, x, y, lines))
    decreases |lines|
  {
    if lines != [] {
      var init := Column(font, x, y, lines[..|lines| - 1]);
      ColumnPlain(font, x, y, lines[..|lines| - 1]);
      var c := Column(font, x, y, lines);
      forall i | 0 <= i < |c|
        ensures MarkOf(c[i]) == [] && !IsBreak(c[i])
      {
        if i < |init| {
          assert c[i] == init[i];
        }
      }
    }
  }

  /** The column of one more line ends with that line, 12 points below the one before. */
  lemma ColumnSnoc(font: Font, x: real, y: real, lines: seq<string>, k: nat)
    requires k < |lines|
    ensures Column(font, x, y, lines[..k + 1])
         == Column(font, x, y, lines[..k]) + [Text(font, x, y - 12.0 * k as real, lines[k])]
  {
    assert lines[..k + 1][..k] == lines[..k];
  }

  /** The header neither breaks the page nor adds to the outline (its title is 14-point). */
  lemma HeaderPlain(page: Page, p: Pack, tenant: string, logoShown: bool)
    ensures Plain(Header(page, p, tenant, logoShown))
  {
  }

  /** Appending events that do not break pages keeps a trace paginated. */
  lemma PaginatedAppend(a: seq<Event>, b: seq<Event>, logo: bool)
    requires Paginated(a, logo)
    requires forall i | 0 <= i < |b| :: !IsBreak(b[i])
    ensures Paginated(a + b, logo)
  {
    var t := a + b;
    forall i: nat | i + 1 < |t|
      ensures BreakAfter(t, i)
    {
      if i + 1 < |a| {
        assert BreakAfter(a, i);
        assert t[i] == a[i] && t[i + 1] == a[i + 1];
      } else if i == |a| - 1 {
        assert t[i] == a[|a| - 1] && t[i + 1] == b[0];
      } else {
        assert t[i] == b[i - |a|] && t[i + 1] == b[i + 1 - |a|];
      }
    }
    forall i: nat | i < |t|
      ensures LogoAt(t, i, logo)
    {
      if i < |a| {
        assert LogoAt(a, i, logo);
        assert t[i] == a[i];
      } else {
        assert t[i] == b[i - |a|];
      }
    }
    if |b| > 0 {
      assert t[|t| - 1] == b[|b| - 1];
      if |a| == 0 {
        assert t[0] == b[0];
      } else {
        assert t[0] == a[0];
      }
    }
  }

  /** `footer(); c.showPage()` keeps a trace paginated. */
  lemma PaginatedBreak(a: seq<Event>, logo: bool)
    requires Paginated(a, logo)
    ensures Paginated(a + [Footer(logo), ShowPage], logo)
  {
    var t := a + [Footer(logo), ShowPage];
    forall i: nat | i + 1 < |t|
      ensures BreakAfter(t, i)
    {
      if i + 1 < |a| {
        assert BreakAfter(a, i);
        assert t[i] == a[i] && t[i + 1] == a[i + 1];
      } else if i + 1 == |a| {
        assert t[i] == a[i];
      }
    }
    forall i: nat | i < |t|
      ensures LogoAt(t, i, logo)
    {
      if i < |a| {
        assert LogoAt(a, i, logo);
        assert t[i] == a[i];
      }
    }
    if |a| > 0 {
      assert t[0] == a[0];
    }
  }

  /** On an open document every footer is paired with the page break after it. */
  lemma {:induction false} PaginatedCounts(t: seq<Event>, logo: bool)
    requires Paginated(t, logo)
    ensures Footers(t) == ShowPages(t)
    decreases |t|
  {
    if t != [] {
      var n := |t|;
      var init := t[..n - 1];
      if t[n - 1].ShowPage? {
        assert BreakAfter(t, n - 2);
        assert n >= 2 && t[n - 2].Footer?;
        var init2 := t[..n - 2];
        assert init[..n - 2] == init2;
        assert Paginated(init2, logo) by {
          if |init2| > 0 {
            assert init2[0] == t[0];
            assert init2[|init2| - 1] == t[n - 3];
            assert BreakAfter(t, n - 3);
            assert !t[n - 2].ShowPage?;
          }
          forall i: nat | i + 1 < |init2|
            ensures BreakAfter(init2, i)
          {
            assert BreakAfter(t, i);
            assert init2[i] == t[i] && init2[i + 1] == t[i + 1];
          }
          forall i: nat | i < |init2|
            ensures LogoAt(init2, i, logo)
          {
            assert LogoAt(t, i, logo);
            assert init2[i] == t[i];
          }
        }
        PaginatedCounts(init2, logo);
      } else {
        assert !t[n - 1].Footer?;
        assert n >= 2 ==> BreakAfter(t, n - 2);
        assert Paginated(init, logo) by {
          if |init| > 0 {
            assert init[0] == t[0];
            assert init[|init| - 1] == t[n - 2];
          }
          forall i: nat | i + 1 < |init|
            ensures BreakAfter(init, i)
          {
            assert BreakAfter(t, i);
            assert init[i] == t[i] && init[i + 1] == t[i + 1];
          }
          forall i: nat | i < |init|
            ensures LogoAt(init, i, logo)
          {
            assert LogoAt(t, i, logo);
            assert init[i] == t[i];
          }
        }
        PaginatedCounts(init, logo);
      }
    }
  }

  /** A finished document has one footer per page: one per page break plus
      the final one. */
  lemma FootersPerPage(t: seq<Event>, logo: bool)
    requires FooterOnEveryPage(t, logo)
    ensures Footers(t) == ShowPages(t) + 1
  {
    PaginatedCounts(t[..|t| - 1], logo);
  }

  /** Closing a paginated trace with the final footer finishes the document
      and leaves the outline as it was. */
  lemma FinishDocument(open: seq<Event>, logo: bool)
    requires Paginated(open, logo)
    ensures FooterOnEveryPage(open + [Footer(logo)], logo)
    ensures Footers(open + [Footer(logo)]) == ShowPages(open + [Footer(logo)]) + 1
    ensures Marks(open + [Footer(logo)]) == Marks(open)
  {
    var t := open + [Footer(logo)];
    assert t[..|t| - 1] == open;
    FootersPerPage(t, logo);
    MarksAppend(open, [Footer(logo)]);
    assert Marks([Footer(logo)]) == [];
    AppendNil(Marks(open));
  }

  /**
   * The canvas together with the cursor that `pack_to_pdf` moves down the
   * page. Valid: every page before the current one ended with exactly one
   * footer mark.
   */
  class Renderer {
    const page: Page
    const footerLogo: bool
    var trace: seq<Event>
    var curY: real

    ghost predicate Valid()
      reads this`trace
    {
      Paginated(trace, footerLogo)
    }

    /** A new canvas, with the cursor 35 mm below the top margin, under the header. */
    constructor (page: Page, footerLogo: bool)
      ensures Valid()
      ensures this.page == page && this.footerLogo == footerLogo
      ensures trace == [] && curY == page.Top() - 35.0 * page.mm
    {
      this.page := page;
      this.footerLogo := footerLogo;
      trace := [];
      curY := page.Top() - 35.0 * page.mm;
    }

    /** One drawing call on the current page. */
    method Emit(e: Event)
      requires Valid() && !IsBreak(e)
      modifies this
      ensures Valid()
      ensures trace == old(trace) + [e] && curY == old(curY)
      ensures Marks(trace) == Marks(old(trace)) + MarkOf(e)
    {
      PaginatedAppend(trace, [e], footerLogo);
      assert (trace + [e])[..|trace|] == trace;
      trace := trace + [e];
    }

    /** `footer()`: the footer mark, with the logo when the logo file could be drawn. */
    method DrawFooter()
      modifies this
      ensures trace == old(trace) + [Footer(footerLogo)] && curY == old(curY)
    {
      trace := trace + [Footer(footerLogo)];
    }

    /**
     * `ensure_space(lines_needed)`: when the cursor is below the threshold,
     * close the page with a footer, start a new one and move the cursor to
     * the top margin; otherwise change nothing.
     */
    method EnsureSpace(linesNeeded: int)
      requires Valid()
      modifies this
      ensures Valid()
      ensures old(curY) >= page.Threshold(linesNeeded) ==> trace == old(trace) && curY == old(curY)
      ensures old(curY) < page.Threshold(linesNeeded) ==>
                trace == old(trace) + [Footer(footerLogo), ShowPage] && curY == page.Top()
      ensures page.Threshold(linesNeeded) <= page.Top() ==> curY >= page.Threshold(linesNeeded)
      ensures Marks(trace) == Marks(old(trace))
    {
      if curY < page.Threshold(linesNeeded) {
        PaginatedBreak(trace, footerLogo);
        MarksAppend(trace, [Footer(footerLogo), ShowPage]);
        UnmarkedMarks([Footer(footerLogo), ShowPage]);
        ghost var before := trace;
        DrawFooter();
        trace := trace + [ShowPage];
        assert trace == before + [Footer(footerLogo), ShowPage];
        curY := page.Top();
      }
    }

    /** Drawing calls that neither break the page nor move the cursor. */
    method Draw(es: seq<Event>)
      requires Valid()
      requires forall i | 0 <= i < |es| :: !IsBreak(es[i])
      modifies this
      ensures Valid()
      ensures trace == old(trace) + es && curY == old(curY)
      ensures Marks(trace) == Marks(old(trace)) + Marks(es)
    {
      PaginatedAppend(trace, es, footerLogo);
      MarksAppend(trace, es);
      trace := trace + es;
    }

    /** The header block, drawn above the starting cursor. */
    method DrawHeader(p: Pack, tenant: string, logoShown: bool)
      requires Valid()
      modifies this
      ensures Valid()
      ensures trace == old(trace) + Header(page, p, tenant, logoShown) && curY == old(curY)
      ensures Marks(trace) == Marks(old(trace))
    {
      HeaderPlain(page, p, tenant, logoShown);
      UnmarkedMarks(Header(page, p, tenant, logoShown));
      Draw(Header(page, p, tenant, logoShown));
    }

    /** The five dashed note lines of a question block, from the cursor down. */
    method DrawNoteRules()
      requires Valid()
      modifies this
      ensures Valid()
      ensures trace == old(trace) + NoteRules(page.Left(), page.Right(), old(curY))
      ensures curY == old(curY) - 50.0
      ensures Marks(trace) == Marks(old(trace))
    {
      ghost var t0, rules := trace, NoteRules(page.Left(), page.Right(), curY);
      ghost var y0 := curY;
      var k := 0;
      while k < 5
        invariant 0 <= k <= 5
        invariant Valid()
        invariant trace == t0 + rules[..k]
        invariant curY == y0 - 10.0 * k as real
        invariant Marks(trace) == Marks(t0)
      {
        var e := Rule(page.Left() + 4.0, page.Right() - 4.0, curY);
        assert e == rules[k];
        TakeStep(rules, k);
        AppendAssoc(t0, rules[..k], [e]);
        AppendNil(Marks(trace));
        Emit(e);
        curY := curY - 10.0;
        k := k + 1;
      }
      assert rules[..5] == rules;
    }

    /** The end of a question block that started at height top: the five
        note lines, then the frame from top down to the cursor below them;
        the cursor ends 8 points below the frame. The events are stated from
        where the cursor ends; `base` is any earlier state of the trace. */
    method DrawFrame(top: real, ghost base: seq<Event>)
      requires Valid() && base <= trace
      modifies this
      ensures Valid() && base <= trace
      ensures trace == Boxed(old(trace), page, curY, top)
      ensures curY == old(curY) - 58.0
      ensures Marks(trace) == Marks(old(trace)) + [Box]
    {
      ghost var t0 := trace;
      var yEnd := curY - 58.0;
      ghost var notes := NoteRules(page.Left(), page.Right(), yEnd + 58.0);
      var frame := Rect(page.Left(), yEnd + 8.0, page.Right() - page.Left(), top - yEnd - 8.0);
      assert Boxed(t0, page, yEnd, top) == t0 + notes + [frame];
      PrefixAppend(base, t0, notes);
      DrawNoteRules();
      assert trace == t0 + notes;
      Emit(frame);
      curY := yEnd;
    }

    /** A label/value row with a value: the bold label with a colon at the
        cursor, then the value lines in the column LabelWidth to the right
        of it, one per 12 points. */
    method DrawRow(m: Metrics, caption: string, labelMin: real, val: string, lines: seq<string>)
      requires Valid() && val != ""
      modifies this
      ensures Valid()
      ensures trace == old(trace) + RowTrace(page, m, caption, labelMin, val, old(curY), lines)
      ensures curY == old(curY) - 12.0 * |lines| as real
      ensures Marks(trace) == Marks(old(trace))
    {
      var heading := Text(Bold10, page.Left() + 4.0, curY, caption + ":");
      var x := page.Left() + 4.0 + LabelWidth(m, caption, labelMin);
      ghost var t0, y0 := trace, curY;
      ghost var row := RowTrace(page, m, caption, labelMin, val, y0, lines);
      assert row == [heading] + Column(Regular10, x, y0, lines);
      AppendAssoc(t0, [heading], Column(Regular10, x, y0, lines));
      Emit(heading);
      AppendNil(Marks(t0));
      DrawLines(Regular10, x, lines);
      assert trace == t0 + row;
    }

    /** `for ln in lines: c.drawString(x, cur_y, ln); cur_y -= 12` */
    method DrawLines(font: Font, x: real, lines: seq<string>)
      requires Valid()
      modifies this
      ensures Valid()
      ensures trace == old(trace) + Column(font, x, old(curY), lines)
      ensures curY == old(curY) - 12.0 * |lines| as real
      ensures font != Bold12 ==> Marks(trace) == Marks(old(trace))
    {
      ghost var t0, y0 := trace, curY;
      var k := 0;
      while k < |lines|
        invariant 0 <= k <= |lines|
        invariant Valid()
        invariant trace == t0 + Column(font, x, y0, lines[..k])
        invariant curY == y0 - 12.0 * k as real
      {
        var e := Text(font, x, curY, lines[k]);
        ColumnSnoc(font, x, y0, lines, k);
        assert e == Text(font, x, y0 - 12.0 * k as real, lines[k]);
        AppendAssoc(t0, Column(font, x, y0, lines[..k]), [e]);
        Emit(e);
        curY := curY - 12.0;
        k := k + 1;
      }
      assert lines[..k] == lines;
      if font != Bold12 {
        ColumnPlain(font, x, old(curY), lines);
        UnmarkedMarks(Column(font, x, old(curY), lines));
        MarksAppend(old(trace), Column(font, x, old(curY), lines));
      }
    }
  }

  // ---------------------------------------------------------------------
  // The parts of `pack_to_pdf` that both exporter files share
  // ---------------------------------------------------------------------

  /** `_wrap_lines`: the greedy word wrap of `text or ""` to `width` points. */
  method WrapLines(text: string, measure: string -> real, width: real) returns (out: seq<string>)
    ensures out == Wrap(Split(text), measure, width)
  {
    var words := Split(text);
    var line := "";
    out := [];
    var k := 0;
    while k < |words|
      invariant 0 <= k <= |words|
      invariant (out, line) == WrapState(words[..k], measure, width)
    {
      assert words[..k + 1][..k] == words[..k];
      var w := words[k];
      var t := Strip(line + " " + w);
      if measure(t) > width {
        out := out + [line];
        line := w;
      } else {
        line := t;
      }
      k := k + 1;
    }
    assert words[..k] == words;
    if line != "" {
      out := out + [line];
    }
  }

  /** A text wrapped to the full column width and drawn in Helvetica 10 at
      the left margin, one line per 12 points. */
  method DrawParagraph(r: Renderer, m: Metrics, text: string) returns (lines: seq<string>)
    requires r.Valid()
    modifies r
    ensures r.Valid()
    ensures lines == Wrap(Split(text), m.regular, r.page.w - 2.0 * r.page.Left())
    ensures r.trace == old(r.trace) + Column(Regular10, r.page.Left(), old(r.curY), lines)
    ensures r.curY == old(r.curY) - 12.0 * |lines| as real
    ensures Marks(r.trace) == Marks(old(r.trace))
  {
    lines := WrapLines(text, m.regular, r.page.w - 2.0 * r.page.Left());
    r.DrawLines(Regular10, r.page.Left(), lines);
  }

  /** One housekeeping item after a bullet: the bullet is a word of its own,
      followed by the item's words. */
  method DrawBullet(r: Renderer, m: Metrics, item: string) returns (lines: seq<string>)
    requires r.Valid()
    modifies r
    ensures r.Valid()
    ensures lines == Wrap(["\U{2022}"] + Split(item), m.regular, r.page.w - 2.0 * r.page.Left())
    ensures r.trace == old(r.trace) + Column(Regular10, r.page.Left(), old(r.curY), lines)
    ensures r.curY == old(r.curY) - 12.0 * |lines| as real
    ensures Marks(r.trace) == Marks(old(r.trace))
  {
    BulletWords(item);
    lines := DrawParagraph(r, m, "\U{2022} " + item);
  }

  /** The housekeeping items, one bulleted paragraph each. */
  method DrawBullets(r: Renderer, m: Metrics, hk: seq<string>)
    requires r.Valid()
    modifies r
    ensures r.Valid()
    ensures old(r.trace) <= r.trace
    ensures Marks(r.trace) == Marks(old(r.trace))
  {
    var i := 0;
    while i < |hk|
      invariant 0 <= i <= |hk|
      invariant r.Valid()
      invariant old(r.trace) <= r.trace
      invariant Marks(r.trace) == Marks(old(r.trace))
    {
      ghost var t1, y1 := r.trace, r.curY;
      var lines := DrawBullet(r, m, hk[i]);
      PrefixAppend(old(r.trace), t1, Column(Regular10, r.page.Left(), y1, lines));
      i := i + 1;
    }
  }

  /** The housekeeping list: when there are items, the heading and the
      bulleted items, then 6 points of space. */
  method DrawHousekeeping(r: Renderer, m: Metrics, hk: seq<string>)
    requires r.Valid()
    modifies r
    ensures r.Valid()
    ensures old(r.trace) <= r.trace
    ensures hk == [] ==> r.trace == old(r.trace) && r.curY == old(r.curY)
    ensures Marks(r.trace) == Marks(old(r.trace)) + (if hk != [] then [Heading("Housekeeping")] else [])
  {
    if hk == [] {
      return;
    }
    ghost var t0 := r.trace;
    r.Emit(Text(Bold12, r.page.Left(), r.curY, "Housekeeping"));
    r.curY := r.curY - 14.0;
    ghost var t1 := r.trace;
    PrefixAppend(t0, t0, t1[|t0|..]);
    DrawBullets(r, m, hk);
    r.curY := r.curY - 6.0;
    PrefixTrans(t0, t1, r.trace);
  }

  /** A section's heading in Helvetica-Bold 12, then its notes (when set)
      wrapped to the column and followed by 2 points of space. */
  method DrawOpening(r: Renderer, m: Metrics, s: Section)
    requires r.Valid()
    modifies r
    ensures r.Valid()
    ensures old(r.trace) <= r.trace
    ensures Marks(r.trace) == Marks(old(r.trace)) + [Heading(SectionName(s))]
  {
    var x := r.page.Left();
    r.Emit(Text(Bold12, x, r.curY, SectionName(s)));
    PrefixAppend(old(r.trace), old(r.trace), [Text(Bold12, x, old(r.curY), SectionName(s))]);
    r.curY := r.curY - 14.0;
    if s.notes != "" {
      ghost var t1, y1 := r.trace, r.curY;
      var lines := DrawParagraph(r, m, s.notes);
      PrefixAppend(t1, t1, Column(Regular10, r.page.Left(), y1, lines));
      PrefixTrans(old(r.trace), t1, r.trace);
      r.curY := r.curY - 2.0;
    }
  }

  /** The top of `pack_to_pdf`: the header, then the housekeeping list
      followed by `ensure_space()` when there is one; `spaceLines` is the
      default allowance of `ensure_space` in the exporter at hand. */
  method DrawTop(r: Renderer, m: Metrics, pack: Pack, tenant: string, logoShown: bool, spaceLines: int)
    requires r.Valid() && r.trace == []
    modifies r
    ensures r.Valid()
    ensures Header(r.page, pack, tenant, logoShown) <= r.trace
    ensures Marks(r.trace) == HousekeepingMarks(pack)
  {
    r.DrawHeader(pack, tenant, logoShown);
    AppendEmpty(Header(r.page, pack, tenant, logoShown));
    ghost var h := r.trace;
    DrawHousekeeping(r, m, pack.housekeeping);
    if pack.housekeeping != [] {
      ghost var t := r.trace;
      r.EnsureSpace(spaceLines);
      PrefixTrans(h, t, r.trace);
    }
  }
}
