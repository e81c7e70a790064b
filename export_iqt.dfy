/**
 * utils/export_iqt.py: the exporter that the application imports. Its DOCX
 * question table lists Question, Intent, Follow-ups and What good looks
 * like as label/value rows; its PDF question block draws the same fields as
 * label/value rows in the order Question, Intent, What good looks like,
 * Follow-ups; and its `ensure_space` asks for room for 10 lines by default.
 */
module ExportIqt {
  import opened Words
  import opened Packs
  import opened Canvas
  import opened Docx

  // ---------------------------------------------------------------------
  // DOCX
  // ---------------------------------------------------------------------

  /** The fields of a question table, in row order. */
  const TableOrder: seq<Field> := [QuestionText, Intent, Followups, Good]

  /** The rows of a question's table: its fields with a value, in table order. */
  function QuestionTable(q: Question): seq<TableRow> {
    Present(q, TableOrder)
  }

  /**
   * The `rows` list of `_add_question_table` before empty values are
   * skipped: the question row always comes first; an optional field is
   * listed when the question has it (the follow-ups when the list is not
   * empty, even if their text is). Keeping the rows with a value gives
   * exactly the question's table.
   */
  function Candidates(q: Question): (rows: seq<TableRow>)
    ensures |rows| >= 1 && rows[0] == LabelRow(Label(QuestionText), Value(q, QuestionText))
  {
    [LabelRow(Label(QuestionText), Value(q, QuestionText))]
    + Listed(q, Intent, q.intent != "")
    + Listed(q, Followups, q.followups != [])
    + Listed(q, Good, q.good != "")
  }

  /** `if <the question has the field>: rows.append(...)`. */
  function Listed(q: Question, f: Field, has: bool): seq<TableRow> {
    if has then [LabelRow(Label(f), Value(q, f))] else []
  }

  /** Keeping the listed rows with a value gives exactly the question's
      table, and the follow-ups row is listed exactly when the question has
      follow-ups. */
  lemma CandidatesFilled(q: Question)
    ensures Filled(Candidates(q)) == QuestionTable(q)
  {
    var head := [LabelRow(Label(QuestionText), Value(q, QuestionText))]
                + Listed(q, Intent, q.intent != "") + Listed(q, Followups, q.followups != []);
    FilledHead(q);
    FilledListed(head, q, [QuestionText, Intent, Followups], Good, q.good != "");
    assert [QuestionText, Intent, Followups] + [Good] == TableOrder;
  }

  /** The rows listed before What good looks like keep the rows of the
      question, Intent and Follow-ups that have a value. */
  lemma FilledHead(q: Question)
    ensures Filled([LabelRow(Label(QuestionText), Value(q, QuestionText))]
                   + Listed(q, Intent, q.intent != "") + Listed(q, Followups, q.followups != []))
         == Present(q, [QuestionText, Intent, Followups])
  {
    var first := [LabelRow(Label(QuestionText), Value(q, QuestionText))];
    var o1 := [QuestionText];
    FilledSnoc([], q, [], QuestionText);
    assert [] + first == first && [] + o1 == o1;
    var r1 := first + Listed(q, Intent, q.intent != "");
    var o2 := o1 + [Intent];
    FilledListed(first, q, o1, Intent, q.intent != "");
    var r2 := r1 + Listed(q, Followups, q.followups != []);
    var o3 := o2 + [Followups];
    FilledListed(r1, q, o2, Followups, q.followups != []);
    assert Filled(r2) == Present(q, o3);
    assert o3 == [QuestionText, Intent, Followups];
  }


  /** The follow-ups row is listed exactly when the question has
      follow-ups, even when their text is empty. */
  lemma CandidatesFollowups(q: Question)
    ensures LabelRow(Label(Followups), Value(q, Followups)) in Candidates(q) <==> q.followups != []
  {
    var fu := LabelRow(Label(Followups), Value(q, Followups));
    var first := [LabelRow(Label(QuestionText), Value(q, QuestionText))];
    var r1 := first + Listed(q, Intent, q.intent != "");
    var r2 := r1 + Listed(q, Followups, q.followups != []);
    if q.followups != [] {
      assert r2[|r2| - 1] == fu;
    } else {
      assert fu !in r1;
      assert fu !in Listed(q, Good, q.good != "");
    }
  }

  /** Listing a field, or skipping it when it is empty, grows the filled
      rows by the field's row exactly when it has a value. */
  lemma FilledListed(rows: seq<TableRow>, q: Question, order: seq<Field>, f: Field, has: bool)
    requires Filled(rows) == Present(q, order)
    requires !has ==> Value(q, f) == ""
    ensures Filled(rows + Listed(q, f, has)) == Present(q, order + [f])
  {
    if has {
      FilledSnoc(rows, q, order, f);
    } else {
      PresentSkip(q, order, f);
      assert rows + [] == rows;
    }
  }

  /** The `rows` list of `_add_question_table`, built as the source builds it. */
  method CandidateRows(q: Question) returns (rows: seq<TableRow>)
    ensures rows == Candidates(q)
  {
    rows := [LabelRow("Question", Strip(q.question))];
    if q.intent != "" {
      rows := rows + [LabelRow("Intent", q.intent)];
    }
    if q.followups != [] {
      rows := rows + [LabelRow("Follow-ups", FollowupsText(q.followups))];
    }
    if q.good != "" {
      rows := rows + [LabelRow("What good looks like", q.good)];
    }
  }

  /** Listing one more field adds its row, when it has a value. */
  lemma FilledSnoc(rows: seq<TableRow>, q: Question, order: seq<Field>, f: Field)
    requires Filled(rows) == Present(q, order)
    ensures Filled(rows + [LabelRow(Label(f), Value(q, f))]) == Present(q, order + [f])
  {
    PresentAppend(q, order, [f]);
    assert (rows + [LabelRow(Label(f), Value(q, f))])[..|rows|] == rows;
    assert [f][1..] == [];
  }

  /** A field's row is in a question's table exactly when the field has a value. */
  lemma TableShowsFields(q: Question, f: Field)
    ensures LabelRow(Label(f), Value(q, f)) in QuestionTable(q) <==> Value(q, f) != ""
  {
    PresentRows(q, TableOrder, f);
  }

  /** The loop of `_add_question_table` that adds a table row per listed
      row, skipping those whose value is empty. */
  method FilterRows(rows: seq<TableRow>) returns (table: seq<TableRow>)
    ensures table == Filled(rows)
  {
    table := [];
    var i := 0;
    while i < |rows|
      invariant 0 <= i <= |rows|
      invariant table == Filled(rows[..i])
    {
      assert rows[..i + 1][..i] == rows[..i];
      if !(rows[i].LabelRow? && rows[i].value == "") {
        table := table + [rows[i]];
      }
      i := i + 1;
    }
    assert rows[..i] == rows;
  }

  /**
   * `_add_question_table`: a table of the question's fields with a value,
   * in the order Question, Intent, Follow-ups, What good looks like, then a
   * blank paragraph, five ruled note lines and a blank paragraph.
   */
  method AddQuestionTable(doc: Document, q: Question) returns (table: seq<TableRow>)
    modifies doc
    ensures table == QuestionTable(q)
    ensures doc.body == old(doc.body) + [Table(table)] + NotesArea
    ensures doc.footer == old(doc.footer)
  {
    var rows := CandidateRows(q);
    CandidatesFilled(q);
    table := FilterRows(rows);
    doc.Add(Table(table));
    AddNotesArea(doc);
  }

  /** One section of `pack_to_docx`: its opening, then a table per question.
      `ok` is false when the section's empty name stopped the export. */
  method AddSection(doc: Document, s: Section) returns (ok: bool)
    modifies doc
    ensures ok <==> SectionName(s) != ""
    ensures ok ==> doc.body == old(doc.body) + SectionBlocks(s, QuestionTable)
    ensures doc.footer == old(doc.footer)
  {
    ok := AddOpening(doc, s);
    if !ok {
      return;
    }
    ghost var start := doc.body;
    var qs := s.questions;
    var j := 0;
    while j < |qs|
      invariant 0 <= j <= |qs|
      invariant doc.body == start + QuestionBlocks(qs[..j], QuestionTable)
      invariant doc.footer == old(doc.footer)
    {
      QuestionBlocksStep(start, qs, j, QuestionTable);
      var _ := AddQuestionTable(doc, qs[j]);
      j := j + 1;
    }
    assert qs[..j] == qs;
    SectionBlocksJoin(old(doc.body), s, QuestionTable);
  }

  /** The sections of `pack_to_docx`, one after the other, until one whose
      name is the empty string stops the export. */
  method AddSections(doc: Document, sections: seq<Section>) returns (ok: bool)
    modifies doc
    ensures ok <==> AllNamed(sections)
    ensures ok ==> doc.body == old(doc.body) + SectionsBlocks(sections, QuestionTable)
    ensures doc.footer == old(doc.footer)
  {
    var s := 0;
    while s < |sections|
      invariant 0 <= s <= |sections|
      invariant AllNamed(sections[..s])
      invariant doc.body == old(doc.body) + SectionsBlocks(sections[..s], QuestionTable)
      invariant doc.footer == old(doc.footer)
    {
      SectionsBlocksStep(old(doc.body), sections, s, QuestionTable);
      ok := AddSection(doc, sections[s]);
      if !ok {
        assert SectionName(sections[s]) == "";
        return;
      }
      AllNamedStep(sections, s);
      s := s + 1;
    }
    assert sections[..s] == sections;
    ok := true;
  }

  /** The body of `pack_to_docx` on a new document: header, housekeeping
      and sections, unless a section's empty name stops the export. */
  method AddBody(doc: Document, pack: Pack, tenant: string, logoShown: bool) returns (ok: bool)
    requires doc.body == []
    modifies doc
    ensures ok <==> AllNamed(pack.sections)
    ensures ok ==> doc.body == DocBody(pack, tenant, logoShown, QuestionTable)
    ensures doc.footer == old(doc.footer)
  {
    AddHeader(doc, pack, tenant, logoShown);
    AppendEmpty(DocHeader(pack, tenant, logoShown));
    AddHousekeeping(doc, pack.housekeeping);
    ok := AddSections(doc, pack.sections);
  }

  /**
   * `pack_to_docx`: the header, the housekeeping list, the sections, then
   * the footer on every page. The export stops exactly when a section's
   * name is the empty string; otherwise the saved body is DocBody, so its
   * outline is the pack's and every table is followed by its note lines.
   */
  method PackToDocx(pack: Pack, tenant: string, logoUrl: string, logoFetched: bool, footerLogo: bool)
    returns (out: Export)
    ensures out.Raised? <==> exists i | 0 <= i < |pack.sections| :: SectionName(pack.sections[i]) == ""
    ensures out.Saved? ==> out.body == DocBody(pack, tenant, logoUrl != "" && logoFetched, QuestionTable)
    ensures out.Saved? ==> out.footer == PoweredBy(footerLogo)
    ensures out.Saved? ==> DocMarks(out.body) == ExpectedOutline(pack) && NotesFollowTables(out.body)
  {
    var logoShown := logoUrl != "" && logoFetched;
    var doc := new Document();
    var ok := AddBody(doc, pack, tenant, logoShown);
    if !ok {
      return Raised;
    }
    doc.AddFooter(footerLogo);
    out := Saved(doc.body, doc.footer.value);
    DocBodyOutline(pack, tenant, logoShown, QuestionTable);
    DocBodyNotes(pack, tenant, logoShown, QuestionTable);
  }

  // ---------------------------------------------------------------------
  // PDF
  // ---------------------------------------------------------------------

  /** `ensure_space()` as this file calls it: room for 10 lines of 12 points. */
  const SpaceLines: int := 10

  /**
   * `ensure_space()`: a footer and a page break exactly when the cursor is
   * less than 120 points above the bottom buffer; then the cursor is back
   * at the top margin, which on A4 leaves the room asked for.
   */
  method EnsureSpace(r: Renderer)
    requires r.Valid()
    modifies r
    ensures r.Valid()
    ensures old(r.curY) >= r.page.Threshold(SpaceLines) ==> r.trace == old(r.trace) && r.curY == old(r.curY)
    ensures old(r.curY) < r.page.Threshold(SpaceLines) ==>
              r.trace == old(r.trace) + [Footer(r.footerLogo), ShowPage] && r.curY == r.page.Top()
    ensures r.page == A4 ==> r.curY >= r.page.Threshold(SpaceLines)
    ensures old(r.trace) <= r.trace
    ensures Marks(r.trace) == Marks(old(r.trace))
  {
    r.EnsureSpace(SpaceLines);
    PrefixAppend(old(r.trace), old(r.trace), r.trace[|old(r.trace)|..]);
  }

  /**
   * `row(label, val, label_min)`: nothing for an empty value; otherwise the
   * bold label at the cursor and the value wrapped into the column that
   * starts LabelWidth to the right of it, one line per 12 points.
   */
  method Row(r: Renderer, m: Metrics, caption: string, val: string, labelMin: real) returns (lines: seq<string>)
    requires r.Valid()
    modifies r
    ensures r.Valid()
    ensures RowLines(r.page, m, caption, labelMin, val, lines)
    ensures r.trace == old(r.trace) + RowTrace(r.page, m, caption, labelMin, val, old(r.curY), lines)
    ensures r.curY == old(r.curY) - 12.0 * |lines| as real
    ensures Marks(r.trace) == Marks(old(r.trace))
  {
    if val == "" {
      lines := [];
      NoRow(r.page, m, caption, labelMin, val, r.curY);
      assert r.trace == old(r.trace) + [];
      return;
    }
    lines := WrapLines(val, m.regular, ValueWidth(r.page, m, caption, labelMin));
    r.DrawRow(m, caption, labelMin, val, lines);
  }

  /** A row whose value is empty draws nothing and has no lines. */
  lemma NoRow(page: Page, m: Metrics, caption: string, labelMin: real, val: string, y: real)
    requires val == ""
    ensures RowLines(page, m, caption, labelMin, val, [])
    ensures RowTrace(page, m, caption, labelMin, val, y, []) == []
  {
    assert Split(val) == [];
  }
  /** `if <the question has the field>: row(...)`: when the guard fails the
      value is empty, so skipping the call draws what the call would. */
  method OptionalRow(r: Renderer, m: Metrics, has: bool, caption: string, val: string, labelMin: real)
    returns (lines: seq<string>)
    requires r.Valid() && (!has ==> val == "")
    modifies r
    ensures r.Valid()
    ensures RowLines(r.page, m, caption, labelMin, val, lines)
    ensures r.trace == old(r.trace) + RowTrace(r.page, m, caption, labelMin, val, old(r.curY), lines)
    ensures r.curY == old(r.curY) - 12.0 * |lines| as real
    ensures Marks(r.trace) == Marks(old(r.trace))
  {
    if has {
      lines := Row(r, m, caption, val, labelMin);
    } else {
      lines := [];
      NoRow(r.page, m, caption, labelMin, val, r.curY);
      AppendNil(r.trace);
    }
  }


  /** The trace t followed by the label/value rows of a question block
      drawn from height y down, given the value lines of each: Intent, What
      good looks like and Follow-ups, each 12 points per value line below
      the one before. */
  function WithLabelRows(t: seq<Event>, page: Page, m: Metrics, q: Question, y: real,
                         il: seq<string>, gl: seq<string>, fl: seq<string>): seq<Event> {
    t + RowTrace(page, m, Label(Intent), 60.0, Value(q, Intent), y, il)
    + RowTrace(page, m, Label(Good), 140.0, Value(q, Good), y - 12.0 * |il| as real, gl)
    + RowTrace(page, m, Label(Followups), 100.0, Value(q, Followups), y - 12.0 * (|il| + |gl|) as real, fl)
  }

  lemma WithLabelRowsSteps(t: seq<Event>, page: Page, m: Metrics, q: Question, y1: real, y2: real, y3: real,
                           il: seq<string>, gl: seq<string>, fl: seq<string>)
    requires y2 == y1 - 12.0 * |il| as real && y3 == y2 - 12.0 * |gl| as real
    ensures WithLabelRows(t, page, m, q, y1, il, gl, fl)
         == t + RowTrace(page, m, Label(Intent), 60.0, Value(q, Intent), y1, il)
            + RowTrace(page, m, Label(Good), 140.0, Value(q, Good), y2, gl)
            + RowTrace(page, m, Label(Followups), 100.0, Value(q, Followups), y3, fl)
  {
    assert y1 - 12.0 * (|il| + |gl|) as real == y3;
  }

  /** The label/value rows of `question_box` below the question: Intent,
      then What good looks like and Follow-ups, each only when the question
      has it. */
  method LabelRows(r: Renderer, m: Metrics, q: Question) returns (il: seq<string>, gl: seq<string>, fl: seq<string>)
    requires r.Valid()
    modifies r
    ensures r.Valid()
    ensures RowLines(r.page, m, Label(Intent), 60.0, Value(q, Intent), il)
    ensures RowLines(r.page, m, Label(Good), 140.0, Value(q, Good), gl)
    ensures RowLines(r.page, m, Label(Followups), 100.0, Value(q, Followups), fl)
    ensures r.curY == old(r.curY) - 12.0 * (|il| + |gl| + |fl|) as real
    ensures r.trace == WithLabelRows(old(r.trace), r.page, m, q, old(r.curY), il, gl, fl)
    ensures Marks(r.trace) == Marks(old(r.trace))
  {
    ghost var t0, y1 := r.trace, r.curY;
    il := Row(r, m, Label(Intent), Value(q, Intent), 60.0);
    ghost var y2 := r.curY;
    gl := OptionalRow(r, m, q.good != "", Label(Good), Value(q, Good), 140.0);
    ghost var y3 := r.curY;
    if q.followups == [] {
      FollowupsNone(q);
    }
    fl := OptionalRow(r, m, q.followups != [], Label(Followups), Value(q, Followups), 100.0);
    WithLabelRowsSteps(t0, r.page, m, q, y1, y2, y3, il, gl, fl);
  }

  /** The number of value lines a row takes: those of its value wrapped to
      its value column (none for an empty value). */
  ghost function LineCount(page: Page, m: Metrics, caption: string, labelMin: real, val: string): nat {
    |Wrap(Split(val), m.regular, ValueWidth(page, m, caption, labelMin))|
  }

  /** How far the rows of a question block move the cursor: 12 points per
      value line of the Question, Intent, What good looks like and
      Follow-ups rows. */
  ghost function RowsDrop(page: Page, m: Metrics, q: Question): real {
    12.0 * (LineCount(page, m, Label(QuestionText), 80.0, Value(q, QuestionText))
            + LineCount(page, m, Label(Intent), 60.0, Value(q, Intent))
            + LineCount(page, m, Label(Good), 140.0, Value(q, Good))
            + LineCount(page, m, Label(Followups), 100.0, Value(q, Followups))) as real
  }

  /** The rows of `question_box`, seen from the block: the question row,
      then the label/value rows. The trace only grows, the outline does not
      change and the cursor moves down 12 points per value line. */
  method QuestionRowsStep(r: Renderer, m: Metrics, q: Question) returns (ghost content: seq<Event>)
    requires r.Valid()
    modifies r
    ensures r.Valid()
    ensures old(r.trace) <= r.trace
    ensures r.curY == old(r.curY) - RowsDrop(r.page, m, q)
    ensures r.trace == old(r.trace) + content
    ensures Marks(r.trace) == Marks(old(r.trace))
  {
    var ql := Row(r, m, Label(QuestionText), Value(q, QuestionText), 80.0);
    ghost var mid := r.trace;
    var il, gl, fl := LabelRows(r, m, q);
    PrefixAppend(old(r.trace), mid, r.trace[|mid|..]);
    PrefixSplit(old(r.trace), r.trace);
    content := r.trace[|old(r.trace)|..];
  }

  /**
   * `question_box`: the rows, then five dashed note lines 10 points apart
   * and the frame around the whole block: its top edge is the cursor where
   * the block started, its bottom edge the cursor below the last note line,
   * 8 points above where the cursor ends.
   */
  method QuestionBox(r: Renderer, m: Metrics, q: Question) returns (ghost content: seq<Event>)
    requires r.Valid()
    modifies r
    ensures r.Valid()
    ensures old(r.trace) <= r.trace && r.curY == old(r.curY) - RowsDrop(r.page, m, q) - 58.0
    ensures r.trace == Boxed(old(r.trace) + content, r.page, r.curY, old(r.curY))
    ensures Marks(r.trace) == Marks(old(r.trace)) + [Box]
  {
    var top := r.curY;
    content := QuestionRowsStep(r, m, q);
    r.DrawFrame(top, old(r.trace));
  }




  /** One section of `pack_to_pdf`: its opening, then per question
      `ensure_space()` and the question block, then `ensure_space()`. */
  method DrawSection(r: Renderer, m: Metrics, s: Section)
    requires r.Valid()
    modifies r
    ensures r.Valid()
    ensures old(r.trace) <= r.trace
    ensures Marks(r.trace) == Marks(old(r.trace)) + SectionMarks(s)
  {
    DrawOpening(r, m, s);
    var qs := s.questions;
    var j := 0;
    while j < |qs|
      invariant 0 <= j <= |qs|
      invariant r.Valid()
      invariant old(r.trace) <= r.trace
      invariant Marks(r.trace) == Marks(old(r.trace)) + [Heading(SectionName(s))] + Boxes(j)
    {
      ghost var t := r.trace;
      AppendAssoc(Marks(old(r.trace)) + [Heading(SectionName(s))], Boxes(j), [Box]);
      ghost var content := SpacedBox(r, m, qs[j]);
      PrefixTrans(old(r.trace), t, r.trace);
      j := j + 1;
    }
    ghost var t := r.trace;
    EnsureSpace(r);
    PrefixTrans(old(r.trace), t, r.trace);
    AppendAssoc(Marks(old(r.trace)), [Heading(SectionName(s))], Boxes(j));
  }

  /** `ensure_space(); question_box(q)`: one question block, after a page
      break when too little room was left. */
  method SpacedBox(r: Renderer, m: Metrics, q: Question) returns (ghost content: seq<Event>)
    requires r.Valid()
    modifies r
    ensures r.Valid()
    ensures old(r.trace) <= r.trace
    ensures r.curY == SpaceTop(r.page, old(r.curY), SpaceLines) - RowsDrop(r.page, m, q) - 58.0
    ensures r.trace == Boxed(SpaceTrace(old(r.trace), r.page, old(r.curY), SpaceLines, r.footerLogo) + content,
                             r.page, r.curY, SpaceTop(r.page, old(r.curY), SpaceLines))
    ensures Marks(r.trace) == Marks(old(r.trace)) + [Box]
  {
    EnsureSpace(r);
    ghost var t := r.trace;
    content := QuestionBox(r, m, q);
    PrefixTrans(old(r.trace), t, r.trace);
  }

  /** The sections of `pack_to_pdf`, one after the other. */
  method DrawSections(r: Renderer, m: Metrics, sections: seq<Section>)
    requires r.Valid()
    modifies r
    ensures r.Valid()
    ensures old(r.trace) <= r.trace
    ensures Marks(r.trace) == Marks(old(r.trace)) + SectionsMarks(sections)
  {
    var s := 0;
    while s < |sections|
      invariant 0 <= s <= |sections|
      invariant r.Valid()
      invariant old(r.trace) <= r.trace
      invariant Marks(r.trace) == Marks(old(r.trace)) + SectionsMarks(sections[..s])
    {
      ghost var t := r.trace;
      SectionsMarksStep(Marks(old(r.trace)), sections, s);
      DrawSection(r, m, sections[s]);
      PrefixTrans(old(r.trace), t, r.trace);
      s := s + 1;
    }
    assert sections[..s] == sections;
  }

  /**
   * `pack_to_pdf` on an A4 canvas: the header, the housekeeping list (then
   * `ensure_space()`), the sections, and the footer of the last page. Every
   * page carries one footer mark (one per page break plus the final one),
   * and the outline is the pack's.
   */
  method PackToPdf(pack: Pack, tenant: string, logoUrl: string, logoLoads: bool, footerLogo: bool, m: Metrics)
    returns (trace: seq<Event>)
    ensures Header(A4, pack, tenant, logoUrl != "" && logoLoads) <= trace
    ensures FooterOnEveryPage(trace, footerLogo)
    ensures Footers(trace) == ShowPages(trace) + 1
    ensures Marks(trace) == ExpectedOutline(pack)
  {
    var r := new Renderer(A4, footerLogo);
    DrawTop(r, m, pack, tenant, logoUrl != "" && logoLoads, SpaceLines);
    ghost var top := r.trace;
    DrawSections(r, m, pack.sections);
    ghost var open := r.trace;
    r.DrawFooter();
    trace := r.trace;
    FinishDocument(open, footerLogo);
    PrefixTrans(Header(A4, pack, tenant, logoUrl != "" && logoLoads), top, open);
    PrefixAppend(Header(A4, pack, tenant, logoUrl != "" && logoLoads), open, [Footer(footerLogo)]);
  }
}
