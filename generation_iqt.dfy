/**
 * utils/generation_iqt.py: the second copy of the exporter. Its DOCX
 * question table opens with the question in one row spanning both columns
 * (when the cells could be merged), then label/value rows for Intent,
 * Follow-ups and What good looks like; its PDF question block draws the
 * question across the full width in bold, then label/value rows for
 * Intent, What good looks like and Follow-ups with 2 points after each; and
 * its `ensure_space` asks for room for 12 lines by default.
 */
module GenerationIqt {
  import opened Words
  import opened Packs
  import opened Canvas
  import opened Docx

  // ---------------------------------------------------------------------
  // DOCX
  // ---------------------------------------------------------------------

  /** The label/value fields of a question table, in row order. */
  const RowOrder: seq<Field> := [Intent, Followups, Good]

  /** A question's table: the stripped question text in a wide row, then the
      label/value rows of the fields with a value. */
  function QuestionTable(merged: bool, q: Question): seq<TableRow> {
    [WideRow(Strip(q.question), merged)] + Present(q, RowOrder)
  }

  /** The table maker `pack_to_docx` uses when merging cells does (or does not) work. */
  function TableOf(merged: bool): Question -> seq<TableRow> {
    q => QuestionTable(merged, q)
  }

  /** `add_row(label, val)`: a row for a field, unless its value is empty. */
  method AddRow(rows: seq<TableRow>, q: Question, f: Field) returns (rows': seq<TableRow>)
    ensures Value(q, f) != "" ==> rows' == rows + [LabelRow(Label(f), Value(q, f))]
    ensures Value(q, f) == "" ==> rows' == rows
  {
    var val := Value(q, f);
    if val == "" {
      return rows;
    }
    rows' := rows + [LabelRow(Label(f), val)];
  }

  /**
   * The table of `_add_question_table`: the question row always, its text
   * spanning both columns when the merge succeeded, then Intent, Follow-ups
   * and What good looks like, each when the question has it and its value is
   * not empty.
   */
  method TableRows(q: Question, merged: bool) returns (rows: seq<TableRow>)
    ensures rows == QuestionTable(merged, q)
  {
    var head := [WideRow(Strip(q.question), merged)];
    rows := head;
    AppendNil(head);
    ghost var prev := rows;
    if q.intent != "" {
      rows := AddRow(rows, q, Intent);
    }
    PresentGrows(head, prev, rows, q, [], Intent);
    assert [] + [Intent] == [Intent];
    prev := rows;
    if q.followups != [] {
      rows := AddRow(rows, q, Followups);
    } else {
      FollowupsNone(q);
    }
    PresentGrows(head, prev, rows, q, [Intent], Followups);
    assert [Intent] + [Followups] == [Intent, Followups];
    prev := rows;
    if q.good != "" {
      rows := AddRow(rows, q, Good);
    }
    PresentGrows(head, prev, rows, q, [Intent, Followups], Good);
    assert [Intent, Followups] + [Good] == RowOrder;
  }

  /** A question's table opens with the question row, and a field's row is
      in it exactly when the field's value is not empty. */
  lemma TableShowsFields(merged: bool, q: Question, f: Field)
    requires f in RowOrder
    ensures QuestionTable(merged, q)[0] == WideRow(Strip(q.question), merged)
    ensures LabelRow(Label(f), Value(q, f)) in QuestionTable(merged, q) <==> Value(q, f) != ""
  {
    PresentRows(q, RowOrder, f);
  }

  /** `_add_question_table`: the table, then a blank paragraph, five ruled
      note lines and a blank paragraph. */
  method AddQuestionTable(doc: Document, q: Question, merged: bool) returns (table: seq<TableRow>)
    modifies doc
    ensures table == QuestionTable(merged, q)
    ensures doc.body == old(doc.body) + [Table(table)] + NotesArea
    ensures doc.footer == old(doc.footer)
  {
    table := TableRows(q, merged);
    doc.Add(Table(table));
    AddNotesArea(doc);
  }

  /** One section of `pack_to_docx`: its opening, then a table per question.
      `ok` is false when the section's empty name stopped the export. */
  method AddSection(doc: Document, s: Section, merged: bool) returns (ok: bool)
    modifies doc
    ensures ok <==> SectionName(s) != ""
    ensures ok ==> doc.body == old(doc.body) + SectionBlocks(s, TableOf(merged))
    ensures doc.footer == old(doc.footer)
  {
    ok := AddOpening(doc, s);
    if !ok {
      return;
    }
    ghost var start := doc.body;
    var qs := s.questions;
    var j := 0;
    while j < |qs|
      invariant 0 <= j <= |qs|
      invariant doc.body == start + QuestionBlocks(qs[..j], TableOf(merged))
      invariant doc.footer == old(doc.footer)
    {
      QuestionBlocksStep(start, qs, j, TableOf(merged));
      var table := AddQuestionTable(doc, qs[j], merged);
      assert table == TableOf(merged)(qs[j]);
      j := j + 1;
    }
    assert qs[..j] == qs;
    SectionBlocksJoin(old(doc.body), s, TableOf(merged));
  }

  /** The sections of `pack_to_docx`, one after the other, until one whose
      name is the empty string stops the export. */
  method AddSections(doc: Document, sections: seq<Section>, merged: bool) returns (ok: bool)
    modifies doc
    ensures ok <==> AllNamed(sections)
    ensures ok ==> doc.body == old(doc.body) + SectionsBlocks(sections, TableOf(merged))
    ensures doc.footer == old(doc.footer)
  {
    var s := 0;
    while s < |sections|
      invariant 0 <= s <= |sections|
      invariant AllNamed(sections[..s])
      invariant doc.body == old(doc.body) + SectionsBlocks(sections[..s], TableOf(merged))
      invariant doc.footer == old(doc.footer)
    {
      SectionsBlocksStep(old(doc.body), sections, s, TableOf(merged));
      ok := AddSection(doc, sections[s], merged);
      if !ok {
        assert SectionName(sections[s]) == "";
        return;
      }
      AllNamedStep(sections, s);
      s := s + 1;
    }
    assert sections[..s] == sections;
    ok := true;
  }

  /** The body of `pack_to_docx` on a new document: header, housekeeping
      and sections, unless a section's empty name stops the export. */
  method AddBody(doc: Document, pack: Pack, tenant: string, logoShown: bool, merged: bool) returns (ok: bool)
    requires doc.body == []
    modifies doc
    ensures ok <==> AllNamed(pack.sections)
    ensures ok ==> doc.body == DocBody(pack, tenant, logoShown, TableOf(merged))
    ensures doc.footer == old(doc.footer)
  {
    AddHeader(doc, pack, tenant, logoShown);
    AppendEmpty(DocHeader(pack, tenant, logoShown));
    AddHousekeeping(doc, pack.housekeeping);
    ok := AddSections(doc, pack.sections, merged);
  }

  /**
   * `pack_to_docx`: the header, the housekeeping list, the sections, then
   * the footer on every page. The export stops exactly when a section's
   * name is the empty string; otherwise the saved body is DocBody with this
   * file's tables, so its outline is the pack's and every table is followed
   * by its note lines. `merged` is whether the table library could merge the
   * two cells of the question row.
   */
  method PackToDocx(pack: Pack, tenant: string, logoUrl: string, logoFetched: bool, footerLogo: bool, merged: bool)
    returns (out: Export)
    ensures out.Raised? <==> exists i | 0 <= i < |pack.sections| :: SectionName(pack.sections[i]) == ""
    ensures out.Saved? ==> out.body == DocBody(pack, tenant, logoUrl != "" && logoFetched, TableOf(merged))
    ensures out.Saved? ==> out.footer == PoweredBy(footerLogo)
    ensures out.Saved? ==> DocMarks(out.body) == ExpectedOutline(pack) && NotesFollowTables(out.body)
  {
    var logoShown := logoUrl != "" && logoFetched;
    var doc := new Document();
    var ok := AddBody(doc, pack, tenant, logoShown, merged);
    if !ok {
      return Raised;
    }
    doc.AddFooter(footerLogo);
    out := Saved(doc.body, doc.footer.value);
    DocBodyOutline(pack, tenant, logoShown, TableOf(merged));
    DocBodyNotes(pack, tenant, logoShown, TableOf(merged));
  }

  // ---------------------------------------------------------------------
  // PDF
  // ---------------------------------------------------------------------

  /** `ensure_space()` as this file calls it: room for 12 lines of 12 points. */
  const SpaceLines: int := 12

  /**
   * `ensure_space()`: a footer and a page break exactly when the cursor is
   * less than 144 points above the bottom buffer; then the cursor is back
   * at the top margin, which on A4 leaves the room asked for.
   */
  method EnsureSpace(r: Renderer)
    requires r.Valid()
    modifies r
    ensures r.Valid()
    ensures old(r.curY) >= r.page.Threshold(SpaceLines) ==> r.trace == old(r.trace) && r.curY == old(r.curY)
    ensures old(r.curY) < r.page.Threshold(SpaceLines) ==>
              r.trace == old(r.trace) + [Footer(r.footerLogo), ShowPage] && r.curY == r.page.Top()
    ensures r.page == A4 ==> r.curY >= r.page.Threshold(SpaceLines)
    ensures old(r.trace) <= r.trace
    ensures Marks(r.trace) == Marks(old(r.trace))
  {
    r.EnsureSpace(SpaceLines);
    PrefixAppend(old(r.trace), old(r.trace), r.trace[|old(r.trace)|..]);
  }

  /** How far a row moves the cursor: nothing for an empty value; otherwise
      12 points per value line and 2 points after the row. */
  function RowDrop(val: string, lines: seq<string>): (d: real)
    ensures val == "" <==> d == 0.0
    ensures d >= 0.0
  {
    if val == "" then 0.0 else 12.0 * |lines| as real + 2.0
  }

  /**
   * `row(label, val, label_min)`: nothing for an empty value; otherwise the
   * bold label at the cursor, the value wrapped into the column that starts
   * LabelWidth to the right of it, one line per 12 points, and 2 points of
   * space after it.
   */
  method Row(r: Renderer, m: Metrics, caption: string, val: string, labelMin: real) returns (lines: seq<string>)
    requires r.Valid()
    modifies r
    ensures r.Valid()
    ensures RowLines(r.page, m, caption, labelMin, val, lines)
    ensures r.trace == old(r.trace) + RowTrace(r.page, m, caption, labelMin, val, old(r.curY), lines)
    ensures r.curY == old(r.curY) - RowDrop(val, lines)
    ensures Marks(r.trace) == Marks(old(r.trace))
  {
    if val == "" {
      lines := [];
      NoRow(r.page, m, caption, labelMin, val, r.curY);
      assert r.trace == old(r.trace) + [];
    } else {
      lines := ValueRow(r, m, caption, val, labelMin);
    }
  }

  /** A row whose value is not empty: its value lines are wrapped to the
      value column and drawn below the label, then 2 points of space. */
  method ValueRow(r: Renderer, m: Metrics, caption: string, val: string, labelMin: real) returns (lines: seq<string>)
    requires r.Valid() && val != ""
    modifies r
    ensures r.Valid()
    ensures RowLines(r.page, m, caption, labelMin, val, lines)
    ensures r.trace == old(r.trace) + RowTrace(r.page, m, caption, labelMin, val, old(r.curY), lines)
    ensures r.curY == old(r.curY) - 12.0 * |lines| as real - 2.0
    ensures Marks(r.trace) == Marks(old(r.trace))
  {
    lines := WrapLines(val, m.regular, ValueWidth(r.page, m, caption, labelMin));
    DrawSpacedRow(r, m, caption, labelMin, val, lines);
  }

  /** A drawn row: the label and its value lines, then 2 points of space. */
  method DrawSpacedRow(r: Renderer, m: Metrics, caption: string, labelMin: real, val: string, lines: seq<string>)
    requires r.Valid() && val != ""
    modifies r
    ensures r.Valid()
    ensures r.trace == old(r.trace) + RowTrace(r.page, m, caption, labelMin, val, old(r.curY), lines)
    ensures r.curY == old(r.curY) - 12.0 * |lines| as real - 2.0
    ensures Marks(r.trace) == Marks(old(r.trace))
  {
    r.DrawRow(m, caption, labelMin, val, lines);
    r.curY := r.curY - 2.0;
  }

  /** The width the question text is wrapped to: the block's inner width. */
  function QuestionWidth(page: Page): real {
    page.Right() - page.Left() - 8.0
  }

  /** The question lines of a question block: the stripped question,
      greedily wrapped to the block's inner width. */
  ghost predicate QuestionLinesOf(page: Page, m: Metrics, q: Question, lines: seq<string>) {
    lines == Wrap(Split(Strip(q.question)), m.regular, QuestionWidth(page))
  }

  /**
   * The question line of `question_box`: the stripped question wrapped to
   * the block's inner width (measured in 10-point Helvetica) and drawn in
   * 11-point bold, one line per 12 points, then 4 points of space.
   */
  method QuestionLines(r: Renderer, m: Metrics, q: Question) returns (lines: seq<string>)
    requires r.Valid()
    modifies r
    ensures r.Valid()
    ensures QuestionLinesOf(r.page, m, q, lines)
    ensures r.trace == old(r.trace) + Column(Bold11, r.page.Left() + 4.0, old(r.curY), lines)
    ensures r.curY == old(r.curY) - 12.0 * |lines| as real - 4.0
    ensures Marks(r.trace) == Marks(old(r.trace))
  {
    lines := WrapLines(Strip(q.question), m.regular, QuestionWidth(r.page));
    r.DrawLines(Bold11, r.page.Left() + 4.0, lines);
    r.curY := r.curY - 4.0;
  }

  /** The trace t followed by the label/value rows of a question block
      drawn from height y down, given the value lines of each: Intent, What
      good looks like and Follow-ups, each below the one before. */
  function WithLabelRows(t: seq<Event>, page: Page, m: Metrics, q: Question, y: real,
                         il: seq<string>, gl: seq<string>, fl: seq<string>): seq<Event> {
    var y2 := y - RowDrop(Value(q, Intent), il);
    var y3 := y2 - RowDrop(Value(q, Good), gl);
    t + RowTrace(page, m, Label(Intent), 60.0, Value(q, Intent), y, il)
    + RowTrace(page, m, Label(Good), 140.0, Value(q, Good), y2, gl)
    + RowTrace(page, m, Label(Followups), 100.0, Value(q, Followups), y3, fl)
  }

  lemma WithLabelRowsSteps(t: seq<Event>, page: Page, m: Metrics, q: Question, y1: real, y2: real, y3: real,
                           il: seq<string>, gl: seq<string>, fl: seq<string>)
    requires y2 == y1 - RowDrop(Value(q, Intent), il) && y3 == y2 - RowDrop(Value(q, Good), gl)
    ensures WithLabelRows(t, page, m, q, y1, il, gl, fl)
         == t + RowTrace(page, m, Label(Intent), 60.0, Value(q, Intent), y1, il)
            + RowTrace(page, m, Label(Good), 140.0, Value(q, Good), y2, gl)
            + RowTrace(page, m, Label(Followups), 100.0, Value(q, Followups), y3, fl)
  {
  }

  /** A row whose value is empty draws nothing, has no lines and leaves the cursor. */
  lemma NoRow(page: Page, m: Metrics, caption: string, labelMin: real, val: string, y: real)
    requires val == ""
    ensures RowLines(page, m, caption, labelMin, val, [])
    ensures RowTrace(page, m, caption, labelMin, val, y, []) == []
    ensures RowDrop(val, []) == 0.0
  {
    assert Split(val) == [];
  }
  /** `if <the question has the field>: row(...)`: when the guard fails the
      value is empty, so skipping the call draws what the call would. */
  method OptionalRow(r: Renderer, m: Metrics, has: bool, caption: string, val: string, labelMin: real)
    returns (lines: seq<string>)
    requires r.Valid() && (!has ==> val == "")
    modifies r
    ensures r.Valid()
    ensures RowLines(r.page, m, caption, labelMin, val, lines)
    ensures r.trace == old(r.trace) + RowTrace(r.page, m, caption, labelMin, val, old(r.curY), lines)
    ensures r.curY == old(r.curY) - RowDrop(val, lines)
    ensures Marks(r.trace) == Marks(old(r.trace))
  {
    if has {
      lines := Row(r, m, caption, val, labelMin);
    } else {
      lines := [];
      NoRow(r.page, m, caption, labelMin, val, r.curY);
      AppendNil(r.trace);
    }
  }


  /** The label/value rows of `question_box`: Intent, then What good looks
      like and Follow-ups, each only when its value is not empty. */
  method LabelRows(r: Renderer, m: Metrics, q: Question) returns (il: seq<string>, gl: seq<string>, fl: seq<string>)
    requires r.Valid()
    modifies r
    ensures r.Valid()
    ensures RowLines(r.page, m, Label(Intent), 60.0, Value(q, Intent), il)
    ensures RowLines(r.page, m, Label(Good), 140.0, Value(q, Good), gl)
    ensures RowLines(r.page, m, Label(Followups), 100.0, Value(q, Followups), fl)
    ensures r.curY == old(r.curY) - RowDrop(Value(q, Intent), il) - RowDrop(Value(q, Good), gl)
                      - RowDrop(Value(q, Followups), fl)
    ensures r.trace == WithLabelRows(old(r.trace), r.page, m, q, old(r.curY), il, gl, fl)
    ensures Marks(r.trace) == Marks(old(r.trace))
  {
    ghost var t0, y1 := r.trace, r.curY;
    il := Row(r, m, Label(Intent), Value(q, Intent), 60.0);
    ghost var y2 := r.curY;
    gl := OptionalRow(r, m, q.good != "", Label(Good), Value(q, Good), 140.0);
    ghost var y3 := r.curY;
    if q.followups == [] {
      FollowupsNone(q);
    }
    fl := OptionalRow(r, m, q.followups != [], Label(Followups), Value(q, Followups), 100.0);
    WithLabelRowsSteps(t0, r.page, m, q, y1, y2, y3, il, gl, fl);
  }

  /** How far a row moves the cursor, from its value alone. */
  ghost function RowDropOf(page: Page, m: Metrics, caption: string, labelMin: real, val: string): real {
    if val == "" then 0.0
    else 12.0 * |Wrap(Split(val), m.regular, ValueWidth(page, m, caption, labelMin))| as real + 2.0
  }

  /** How far the content of a question block moves the cursor: 12 points
      per question line and 4 after them, then each label/value row. */
  ghost function ContentDrop(page: Page, m: Metrics, q: Question): real {
    12.0 * |Wrap(Split(Strip(q.question)), m.regular, QuestionWidth(page))| as real + 4.0
    + RowDropOf(page, m, Label(Intent), 60.0, Value(q, Intent))
    + RowDropOf(page, m, Label(Good), 140.0, Value(q, Good))
    + RowDropOf(page, m, Label(Followups), 100.0, Value(q, Followups))
  }

  /** The top of `question_box`, seen from the block: the question lines,
      then the label/value rows. The trace only grows, the outline does not
      change and the cursor moves down by exactly the block's content drop:
      the question lines, the 4 points after them and each present row. */
  method QuestionRowsStep(r: Renderer, m: Metrics, q: Question) returns (ghost content: seq<Event>)
    requires r.Valid()
    modifies r
    ensures r.Valid()
    ensures old(r.trace) <= r.trace && r.curY == old(r.curY) - ContentDrop(r.page, m, q)
    ensures r.trace == old(r.trace) + content
    ensures Marks(r.trace) == Marks(old(r.trace))
  {
    var qn := QuestionLines(r, m, q);
    ghost var mid := r.trace;
    var il, gl, fl := LabelRows(r, m, q);
    PrefixAppend(old(r.trace), mid, r.trace[|mid|..]);
    PrefixSplit(old(r.trace), r.trace);
    content := r.trace[|old(r.trace)|..];
  }

  /**
   * `question_box`: the question lines and rows, then five dashed note
   * lines 10 points apart and the frame around the whole block: its top
   * edge is the cursor where the block started, its bottom edge the cursor
   * below the last note line, 8 points above where the cursor ends.
   */
  method QuestionBox(r: Renderer, m: Metrics, q: Question) returns (ghost content: seq<Event>)
    requires r.Valid()
    modifies r
    ensures r.Valid()
    ensures old(r.trace) <= r.trace && r.curY == old(r.curY) - ContentDrop(r.page, m, q) - 58.0
    ensures r.trace == Boxed(old(r.trace) + content, r.page, r.curY, old(r.curY))
    ensures Marks(r.trace) == Marks(old(r.trace)) + [Box]
  {
    var top := r.curY;
    content := QuestionRowsStep(r, m, q);
    r.DrawFrame(top, old(r.trace));
  }




  /** One section of `pack_to_pdf`: its opening, then per question
      `ensure_space()` and the question block, then `ensure_space()`. */
  method DrawSection(r: Renderer, m: Metrics, s: Section)
    requires r.Valid()
    modifies r
    ensures r.Valid()
    ensures old(r.trace) <= r.trace
    ensures Marks(r.trace) == Marks(old(r.trace)) + SectionMarks(s)
  {
    DrawOpening(r, m, s);
    var qs := s.questions;
    var j := 0;
    while j < |qs|
      invariant 0 <= j <= |qs|
      invariant r.Valid()
      invariant old(r.trace) <= r.trace
      invariant Marks(r.trace) == Marks(old(r.trace)) + [Heading(SectionName(s))] + Boxes(j)
    {
      ghost var t := r.trace;
      AppendAssoc(Marks(old(r.trace)) + [Heading(SectionName(s))], Boxes(j), [Box]);
      ghost var content := SpacedBox(r, m, qs[j]);
      PrefixTrans(old(r.trace), t, r.trace);
      j := j + 1;
    }
    ghost var t := r.trace;
    EnsureSpace(r);
    PrefixTrans(old(r.trace), t, r.trace);
    AppendAssoc(Marks(old(r.trace)), [Heading(SectionName(s))], Boxes(j));
  }

  /** `ensure_space(); question_box(q)`: one question block, after a page
      break when too little room was left. */
  method SpacedBox(r: Renderer, m: Metrics, q: Question) returns (ghost content: seq<Event>)
    requires r.Valid()
    modifies r
    ensures r.Valid()
    ensures old(r.trace) <= r.trace
    ensures r.curY == SpaceTop(r.page, old(r.curY), SpaceLines) - ContentDrop(r.page, m, q) - 58.0
    ensures r.trace == Boxed(SpaceTrace(old(r.trace), r.page, old(r.curY), SpaceLines, r.footerLogo) + content,
                             r.page, r.curY, SpaceTop(r.page, old(r.curY), SpaceLines))
    ensures Marks(r.trace) == Marks(old(r.trace)) + [Box]
  {
    EnsureSpace(r);
    ghost var t := r.trace;
    content := QuestionBox(r, m, q);
    PrefixTrans(old(r.trace), t, r.trace);
  }

  /** The sections of `pack_to_pdf`, one after the other. */
  method DrawSections(r: Renderer, m: Metrics, sections: seq<Section>)
    requires r.Valid()
    modifies r
    ensures r.Valid()
    ensures old(r.trace) <= r.trace
    ensures Marks(r.trace) == Marks(old(r.trace)) + SectionsMarks(sections)
  {
    var s := 0;
    while s < |sections|
      invariant 0 <= s <= |sections|
      invariant r.Valid()
      invariant old(r.trace) <= r.trace
      invariant Marks(r.trace) == Marks(old(r.trace)) + SectionsMarks(sections[..s])
    {
      ghost var t := r.trace;
      SectionsMarksStep(Marks(old(r.trace)), sections, s);
      DrawSection(r, m, sections[s]);
      PrefixTrans(old(r.trace), t, r.trace);
      s := s + 1;
    }
    assert sections[..s] == sections;
  }

  /**
   * `pack_to_pdf` on an A4 canvas: the header, the housekeeping list (then
   * `ensure_space()`), the sections, and the footer of the last page. Every
   * page carries one footer mark (one per page break plus the final one),
   * and the outline is the pack's.
   */
  method PackToPdf(pack: Pack, tenant: string, logoUrl: string, logoLoads: bool, footerLogo: bool, m: Metrics)
    returns (trace: seq<Event>)
    ensures Header(A4, pack, tenant, logoUrl != "" && logoLoads) <= trace
    ensures FooterOnEveryPage(trace, footerLogo)
    ensures Footers(trace) == ShowPages(trace) + 1
    ensures Marks(trace) == ExpectedOutline(pack)
  {
    var r := new Renderer(A4, footerLogo);
    DrawTop(r, m, pack, tenant, logoUrl != "" && logoLoads, SpaceLines);
    ghost var top := r.trace;
    DrawSections(r, m, pack.sections);
    ghost var open := r.trace;
    r.DrawFooter();
    trace := r.trace;
    FinishDocument(open, footerLogo);
    PrefixTrans(Header(A4, pack, tenant, logoUrl != "" && logoLoads), top, open);
    PrefixAppend(Header(A4, pack, tenant, logoUrl != "" && logoLoads), open, [Footer(footerLogo)]);
  }
}
