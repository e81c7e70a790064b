/**
 * The word-processing side shared by both exporter files: the document as
 * an append-only sequence of blocks (paragraphs, tables, ruled note lines,
 * a picture) plus the footer that `_add_footer_powerdash` sets on every
 * page, and the reference definition of the label/value rows of a question
 * table.
 */
module Docx {
  import opened Words
  import opened Packs

  datatype ParaStyle =
    | Plain       // the Normal style
    | TitleRun    // one bold 16-point run
    | Small       // a 10-point run
    | HeadingRun  // one bold 14-point run
    | ListBullet  // the "List Bullet" style

  /** A table row: a caption (the label) and its value, or (generation_iqt) a row whose one
      text spans both columns when the merge succeeded. */
  datatype TableRow = LabelRow(caption: string, value: string) | WideRow(text: string, merged: bool)

  datatype Block =
    | Picture                           // the client logo, 1.4 inches wide
    | Para(text: string, style: ParaStyle)
    | Ruled                             // `_ruled_paragraph`: " " above a dashed bottom border
    | Table(rows: seq<TableRow>)

  /** The footer paragraph: the footer logo (when it could be added) and the text. */
  datatype FooterMark = FooterMark(logo: bool, text: string)

  /** What follows every question table: a blank paragraph, five ruled note
      lines and another blank paragraph. */
  const NotesArea: seq<Block> := [Para("", Plain), Ruled, Ruled, Ruled, Ruled, Ruled, Para("", Plain)]

  /** `_add_footer_powerdash`: the text is preceded by two spaces after a logo. */
  function PoweredBy(logo: bool): (f: FooterMark)
    ensures f.logo == logo
  {
    FooterMark(logo, if logo then "  Powered by PowerDash HR" else "Powered by PowerDash HR")
  }

  /** The header blocks: the client logo (when the URL is set and the image
      could be fetched), the title, the subtitle line and the tenant name
      (when set). */
  function DocHeader(p: Pack, tenant: string, logoShown: bool): seq<Block> {
    (if logoShown then [Picture] else [])
    + [Para(Title(p), TitleRun), Para(Meta(p.inputs), Plain)]
    + (if tenant != "" then [Para(tenant, Small)] else [])
  }

  /** The housekeeping blocks: nothing without items; otherwise a blank
      paragraph, the heading and one bulleted paragraph per item. */
  function HousekeepingBlocks(hk: seq<string>): seq<Block> {
    if hk == [] then []
    else [Para("", Plain), Para("Housekeeping", HeadingRun)]
         + seq(|hk|, i requires 0 <= i < |hk| => Para(hk[i], ListBullet))
  }

  /** The blocks that open a section: a blank paragraph, the heading and the
      notes (when set). */
  function Opening(s: Section): seq<Block> {
    [Para("", Plain), Para(SectionName(s), HeadingRun)]
    + (if s.notes != "" then [Para(s.notes, Plain)] else [])
  }

  /** A question's table followed by its notes area, question by question. */
  function QuestionBlocks(qs: seq<Question>, table: Question -> seq<TableRow>): seq<Block> {
    if qs == [] then []
    else QuestionBlocks(qs[..|qs| - 1], table) + [Table(table(qs[|qs| - 1]))] + NotesArea
  }

  function SectionBlocks(s: Section, table: Question -> seq<TableRow>): seq<Block> {
    Opening(s) + QuestionBlocks(s.questions, table)
  }

  /** Section by section, from the first. */
  function SectionsBlocks(ss: seq<Section>, table: Question -> seq<TableRow>): seq<Block> {
    if ss == [] then [] else SectionsBlocks(ss[..|ss| - 1], table) + SectionBlocks(ss[|ss| - 1], table)
  }

  /** The body of the document that `pack_to_docx` saves, given how a
      question's table rows are made. */
  function DocBody(p: Pack, tenant: string, logoShown: bool, table: Question -> seq<TableRow>): seq<Block> {
    DocHeader(p, tenant, logoShown) + HousekeepingBlocks(p.housekeeping) + SectionsBlocks(p.sections, table)
  }

  /** What `pack_to_docx` returns: the saved document, or the exception that
      stopped it. */
  datatype Export = Saved(body: seq<Block>, footer: FooterMark) | Raised

  /** The outline mark of a block: a bold 14-point paragraph is a heading, a
      table is a question block. */
  function DocMarkOf(b: Block): seq<Mark> {
    match b
    case Para(t, style) => if style == HeadingRun then [Heading(t)] else []
    case Table(_) => [Box]
    case _ => []
  }

  function DocMarks(body: seq<Block>): seq<Mark> {
    if body == [] then [] else DocMarks(body[..|body| - 1]) + DocMarkOf(body[|body| - 1])
  }

  /** Every table is immediately followed by the notes area. */
  ghost predicate NotesFollowTables(body: seq<Block>) {
    forall i | 0 <= i < |body| && body[i].Table? :: i + 8 <= |body| && body[i + 1..i + 8] == NotesArea
  }

  /** The label/value rows of the fields in `order` whose value is not empty, in that order. */
  function Present(q: Question, order: seq<Field>): seq<TableRow> {
    if order == [] then []
    else (if Value(q, order[0]) != "" then [LabelRow(Label(order[0]), Value(q, order[0]))] else [])
         + Present(q, order[1..])
  }

  /** The rows whose value is not empty, in order. */
  function Filled(rows: seq<TableRow>): seq<TableRow> {
    if rows == [] then []
    else Filled(rows[..|rows| - 1])
         + (var last := rows[|rows| - 1]; if last.LabelRow? && last.value == "" then [] else [last])
  }

  // ---------------------------------------------------------------------
  // Lemmas
  // ---------------------------------------------------------------------

  lemma {:induction false} DocMarksAppend(a: seq<Block>, b: seq<Block>)
    ensures DocMarks(a + b) == DocMarks(a) + DocMarks(b)
    decreases |b|
  {
    if b == [] {
      assert a + b == a;
    } else {
      var b', e := b[..|b| - 1], b[|b| - 1];
      assert (a + b)[..|a + b| - 1] == a + b' && (a + b)[|a + b| - 1] == e;
      assert DocMarks(a + b) == DocMarks(a + b') + DocMarkOf(e);
      DocMarksAppend(a, b');
    }
  }

  lemma {:induction false} DocMarksNone(body: seq<Block>)
    requires forall i | 0 <= i < |body| :: DocMarkOf(body[i]) == []
    ensures DocMarks(body) == []
    decreases |body|
  {
    if body != [] {
      DocMarksNone(body[..|body| - 1]);
    }
  }

  lemma LabelInjective(f: Field, g: Field)
    requires Label(f) == Label(g)
    ensures f == g
  {
  }

  /**
   * A field's row is in the table exactly when the field is listed and its
   * value is not empty; every row is the row of a listed field.
   */
  lemma {:induction false} PresentRows(q: Question, order: seq<Field>, f: Field)
    ensures LabelRow(Label(f), Value(q, f)) in Present(q, order) <==> (f in order && Value(q, f) != "")
    ensures forall r | r in Present(q, order) ::
              exists g | g in order :: r == LabelRow(Label(g), Value(q, g)) && Value(q, g) != ""
    decreases |order|
  {
    if order != [] {
      PresentRows(q, order[1..], f);
      if LabelRow(Label(f), Value(q, f)) == LabelRow(Label(order[0]), Value(q, order[0])) {
        LabelInjective(f, order[0]);
      }
      forall r | r in Present(q, order)
        ensures exists g | g in order :: r == LabelRow(Label(g), Value(q, g)) && Value(q, g) != ""
      {
        if r !in Present(q, order[1..]) {
          assert r == LabelRow(Label(order[0]), Value(q, order[0]));
        } else {
          var g :| g in order[1..] && r == LabelRow(Label(g), Value(q, g)) && Value(q, g) != "";
          assert g in order;
        }
      }
    }
  }

  /** Listing two runs of fields lists the rows of each, in order. */
  lemma {:induction false} PresentAppend(q: Question, a: seq<Field>, b: seq<Field>)
    ensures Present(q, a + b) == Present(q, a) + Present(q, b)
    decreases |a|
  {
    if a == [] {
      assert a + b == b;
    } else {
      assert (a + b)[1..] == a[1..] + b;
      PresentAppend(q, a[1..], b);
    }
  }

  /** A field with a value adds its row at the end. */
  lemma PresentSnoc(q: Question, order: seq<Field>, f: Field)
    requires Value(q, f) != ""
    ensures Present(q, order + [f]) == Present(q, order) + [LabelRow(Label(f), Value(q, f))]
  {
    PresentAppend(q, order, [f]);
    assert [f][1..] == [];
  }

  /** Listing one more field after some leading rows: its row is added
      exactly when its value is not empty. */
  lemma PresentGrows(head: seq<TableRow>, rows: seq<TableRow>, rows': seq<TableRow>,
                     q: Question, order: seq<Field>, f: Field)
    requires rows == head + Present(q, order)
    requires Value(q, f) != "" ==> rows' == rows + [LabelRow(Label(f), Value(q, f))]
    requires Value(q, f) == "" ==> rows' == rows
    ensures rows' == head + Present(q, order + [f])
  {
    if Value(q, f) != "" {
      PresentSnoc(q, order, f);
      AppendAssoc(head, Present(q, order), [LabelRow(Label(f), Value(q, f))]);
    } else {
      PresentSkip(q, order, f);
    }
  }

  /** A field without a value adds no row. */
  lemma PresentSkip(q: Question, order: seq<Field>, f: Field)
    requires Value(q, f) == ""
    ensures Present(q, order + [f]) == Present(q, order)
  {
    PresentAppend(q, order, [f]);
    assert [f][1..] == [];
  }

  lemma NotesAreaUnmarked()
    ensures DocMarks(NotesArea) == []
  {
    DocMarksNone(NotesArea);
  }

  /** Appending blocks that are not tables keeps every table followed by its notes. */
  lemma NotesFollowAppend(body: seq<Block>, more: seq<Block>)
    requires NotesFollowTables(body)
    requires forall i | 0 <= i < |more| :: !more[i].Table?
    ensures NotesFollowTables(body + more)
  {
    var t := body + more;
    forall i | 0 <= i < |t| && t[i].Table?
      ensures i + 8 <= |t| && t[i + 1..i + 8] == NotesArea
    {
      assert i < |body|;
      assert t[i] == body[i];
      assert t[i + 1..i + 8] == body[i + 1..i + 8];
    }
  }

  /** Appending a table with its notes keeps every table followed by its notes. */
  lemma NotesFollowTable(body: seq<Block>, rows: seq<TableRow>)
    requires NotesFollowTables(body)
    ensures NotesFollowTables(body + [Table(rows)] + NotesArea)
  {
    var t := body + [Table(rows)] + NotesArea;
    forall i | 0 <= i < |t| && t[i].Table?
      ensures i + 8 <= |t| && t[i + 1..i + 8] == NotesArea
    {
      if i < |body| {
        assert t[i] == body[i];
        assert t[i + 1..i + 8] == body[i + 1..i + 8];
      } else if i == |body| {
        assert t[i + 1..i + 8] == NotesArea;
      } else {
        assert false;
      }
    }
  }

  /** The housekeeping blocks show as the Housekeeping heading (when there
      are items). */
  lemma HousekeepingBlocksMarks(hk: seq<string>)
    ensures DocMarks(HousekeepingBlocks(hk)) == (if hk != [] then [Heading("Housekeeping")] else [])
  {
    if hk != [] {
      var head := [Para("", Plain), Para("Housekeeping", HeadingRun)];
      var items := seq(|hk|, i requires 0 <= i < |hk| => Para(hk[i], ListBullet));
      assert HousekeepingBlocks(hk) == head + items;
      DocMarksAppend(head, items);
      DocMarksNone(items);
      assert DocMarks(head) == [Heading("Housekeeping")] by {
        assert head[..1] == [Para("", Plain)];
        assert [Para("", Plain)][..0] == [];
      }
    }
  }

  /** A section's opening shows as its heading and holds no table. */
  lemma OpeningMarks(s: Section)
    ensures DocMarks(Opening(s)) == [Heading(SectionName(s))]
    ensures forall i | 0 <= i < |Opening(s)| :: !Opening(s)[i].Table?
  {
    var head := [Para("", Plain), Para(SectionName(s), HeadingRun)];
    var notes := if s.notes != "" then [Para(s.notes, Plain)] else [];
    DocMarksAppend(head, notes);
    DocMarksNone(notes);
    assert head[..1] == [Para("", Plain)];
    assert [Para("", Plain)][..0] == [];
  }

  lemma TableMarks(rows: seq<TableRow>)
    ensures DocMarks([Table(rows)]) == [Box]
  {
    assert [Table(rows)][..0] == [];
  }

  lemma {:induction false} QuestionBlocksMarks(qs: seq<Question>, table: Question -> seq<TableRow>)
    ensures DocMarks(QuestionBlocks(qs, table)) == Boxes(|qs|)
    decreases |qs|
  {
    if qs != [] {
      var init := QuestionBlocks(qs[..|qs| - 1], table);
      var t := [Table(table(qs[|qs| - 1]))];
      assert DocMarks(init + t) == Boxes(|qs| - 1) + [Box] by {
        QuestionBlocksMarks(qs[..|qs| - 1], table);
        DocMarksAppend(init, t);
        TableMarks(table(qs[|qs| - 1]));
      }
      DocMarksAppend(init + t, NotesArea);
      NotesAreaUnmarked();
    }
  }

  lemma {:induction false} SectionsBlocksMarks(ss: seq<Section>, table: Question -> seq<TableRow>)
    ensures DocMarks(SectionsBlocks(ss, table)) == SectionsMarks(ss)
    decreases |ss|
  {
    if ss != [] {
      var s := ss[|ss| - 1];
      SectionsBlocksMarks(ss[..|ss| - 1], table);
      DocMarksAppend(SectionsBlocks(ss[..|ss| - 1], table), SectionBlocks(s, table));
      DocMarksAppend(Opening(s), QuestionBlocks(s.questions, table));
      OpeningMarks(s);
      QuestionBlocksMarks(s.questions, table);
    }
  }

  /** The header shows nothing in the outline and holds no table. */
  lemma DocHeaderPlain(p: Pack, tenant: string, logoShown: bool)
    ensures DocMarks(DocHeader(p, tenant, logoShown)) == []
    ensures NotesFollowTables(DocHeader(p, tenant, logoShown))
  {
    var h := DocHeader(p, tenant, logoShown);
    forall i | 0 <= i < |h|
      ensures DocMarkOf(h[i]) == [] && !h[i].Table?
    {
    }
    DocMarksNone(h);
  }

  /** The saved document's outline is the pack's, whatever the question tables hold. */
  lemma DocBodyOutline(p: Pack, tenant: string, logoShown: bool, table: Question -> seq<TableRow>)
    ensures DocMarks(DocBody(p, tenant, logoShown, table)) == ExpectedOutline(p)
  {
    var h := DocHeader(p, tenant, logoShown);
    var k := HousekeepingBlocks(p.housekeeping);
    var b := SectionsBlocks(p.sections, table);
    assert DocMarks(h + k) == HousekeepingMarks(p) by {
      DocMarksAppend(h, k);
      DocHeaderPlain(p, tenant, logoShown);
      HousekeepingBlocksMarks(p.housekeeping);
    }
    assert DocMarks(b) == SectionsMarks(p.sections) by {
      SectionsBlocksMarks(p.sections, table);
    }
    DocMarksAppend(h + k, b);
  }

  lemma {:induction false} QuestionBlocksNotes(before: seq<Block>, qs: seq<Question>, table: Question -> seq<TableRow>)
    requires NotesFollowTables(before)
    ensures NotesFollowTables(before + QuestionBlocks(qs, table))
    decreases |qs|
  {
    if qs != [] {
      var init := QuestionBlocks(qs[..|qs| - 1], table);
      QuestionBlocksNotes(before, qs[..|qs| - 1], table);
      NotesFollowTable(before + init, table(qs[|qs| - 1]));
      assert before + init + [Table(table(qs[|qs| - 1]))] + NotesArea
          == before + QuestionBlocks(qs, table);
    }
  }

  /** A section's blocks keep every table followed by its notes. */
  lemma SectionBlocksNotes(before: seq<Block>, s: Section, table: Question -> seq<TableRow>)
    requires NotesFollowTables(before)
    ensures NotesFollowTables(before + SectionBlocks(s, table))
  {
    OpeningMarks(s);
    NotesFollowAppend(before, Opening(s));
    QuestionBlocksNotes(before + Opening(s), s.questions, table);
    SectionBlocksJoin(before, s, table);
  }

  lemma {:induction false} SectionsBlocksNotes(before: seq<Block>, ss: seq<Section>, table: Question -> seq<TableRow>)
    requires NotesFollowTables(before)
    ensures NotesFollowTables(before + SectionsBlocks(ss, table))
    decreases |ss|
  {
    if ss == [] {
      assert before + SectionsBlocks(ss, table) == before;
    } else {
      var init := SectionsBlocks(ss[..|ss| - 1], table);
      SectionsBlocksNotes(before, ss[..|ss| - 1], table);
      SectionBlocksNotes(before + init, ss[|ss| - 1], table);
      SectionsBlocksSnoc(before, ss, table);
    }
  }

  /** In the saved document every question table is followed by the blank
      paragraph, the five ruled note lines and the blank paragraph. */
  lemma DocBodyNotes(p: Pack, tenant: string, logoShown: bool, table: Question -> seq<TableRow>)
    ensures NotesFollowTables(DocBody(p, tenant, logoShown, table))
  {
    var h := DocHeader(p, tenant, logoShown);
    var k := HousekeepingBlocks(p.housekeeping);
    DocHeaderPlain(p, tenant, logoShown);
    NotesFollowAppend(h, k);
    SectionsBlocksNotes(h + k, p.sections, table);
  }

  /** One more question: its table and its notes area after the blocks of those before. */
  lemma QuestionBlocksStep(start: seq<Block>, qs: seq<Question>, j: nat, table: Question -> seq<TableRow>)
    requires j < |qs|
    ensures start + QuestionBlocks(qs[..j + 1], table)
         == start + QuestionBlocks(qs[..j], table) + [Table(table(qs[j]))] + NotesArea
  {
    assert qs[..j + 1][..j] == qs[..j];
  }

  /** A section's blocks: its opening, then its questions' blocks. */
  lemma SectionBlocksJoin(start: seq<Block>, s: Section, table: Question -> seq<TableRow>)
    ensures start + Opening(s) + QuestionBlocks(s.questions, table) == start + SectionBlocks(s, table)
  {
    AppendAssoc(start, Opening(s), QuestionBlocks(s.questions, table));
  }

  /** The last section's blocks come after those of the sections before it. */
  lemma SectionsBlocksSnoc(start: seq<Block>, ss: seq<Section>, table: Question -> seq<TableRow>)
    requires ss != []
    ensures start + SectionsBlocks(ss, table)
         == start + SectionsBlocks(ss[..|ss| - 1], table) + SectionBlocks(ss[|ss| - 1], table)
  {
    AppendAssoc(start, SectionsBlocks(ss[..|ss| - 1], table), SectionBlocks(ss[|ss| - 1], table));
  }

  /** One more section after the blocks of those before. */
  lemma SectionsBlocksStep(start: seq<Block>, ss: seq<Section>, k: nat, table: Question -> seq<TableRow>)
    requires k < |ss|
    ensures start + SectionsBlocks(ss[..k + 1], table)
         == start + SectionsBlocks(ss[..k], table) + SectionBlocks(ss[k], table)
  {
    assert ss[..k + 1][..k] == ss[..k];
    SectionsBlocksSnoc(start, ss[..k + 1], table);
  }

  /** The document that the exporters fill; `body` only grows. */
  class Document {
    var body: seq<Block>
    var footer: Option<FooterMark>

    /** `Document()`: empty, no footer. */
    constructor ()
      ensures body == [] && footer == None
    {
      body := [];
      footer := None;
    }

    /** `doc.add_paragraph`, `doc.add_table`, `doc.add_picture`. */
    method Add(b: Block)
      modifies this
      ensures body == old(body) + [b] && footer == old(footer)
    {
      body := body + [b];
    }

    /** `_add_footer_powerdash`: the footer of the document's one section,
        so of every page. */
    method AddFooter(logo: bool)
      modifies this
      ensures footer == Some(PoweredBy(logo)) && body == old(body)
    {
      footer := Some(PoweredBy(logo));
    }
  }

  // ---------------------------------------------------------------------
  // The parts of `pack_to_docx` that both exporter files share
  // ---------------------------------------------------------------------

  /** The header: logo, title, subtitle line and tenant name. */
  method AddHeader(doc: Document, p: Pack, tenant: string, logoShown: bool)
    modifies doc
    ensures doc.body == old(doc.body) + DocHeader(p, tenant, logoShown)
    ensures doc.footer == old(doc.footer)
  {
    if logoShown {
      doc.Add(Picture);
    }
    doc.Add(Para(Title(p), TitleRun));
    doc.Add(Para(Meta(p.inputs), Plain));
    if tenant != "" {
      doc.Add(Para(tenant, Small));
    }
  }

  /** The housekeeping list under its heading, when there are items. */
  method AddHousekeeping(doc: Document, hk: seq<string>)
    modifies doc
    ensures doc.body == old(doc.body) + HousekeepingBlocks(hk)
    ensures doc.footer == old(doc.footer)
  {
    if hk == [] {
      return;
    }
    ghost var b0 := doc.body;
    ghost var opening := [Para("", Plain), Para("Housekeeping", HeadingRun)];
    ghost var bullets := seq(|hk|, k requires 0 <= k < |hk| => Para(hk[k], ListBullet));
    assert HousekeepingBlocks(hk) == opening + bullets;
    AppendAssoc(b0, opening, bullets);
    AppendAssoc(b0, [opening[0]], [opening[1]]);
    assert [opening[0]] + [opening[1]] == opening;
    AppendNil(b0 + opening);
    doc.Add(Para("", Plain));
    doc.Add(Para("Housekeeping", HeadingRun));
    var i := 0;
    while i < |hk|
      invariant 0 <= i <= |hk|
      invariant doc.body == b0 + opening + bullets[..i]
      invariant doc.footer == old(doc.footer)
    {
      var e := Para(hk[i], ListBullet);
      assert e == bullets[i];
      TakeStep(bullets, i);
      AppendAssoc(b0 + opening, bullets[..i], [e]);
      doc.Add(e);
      i := i + 1;
    }
    assert bullets[..i] == bullets;
  }

  /** The notes area after a question table: a blank paragraph, five
      `_ruled_paragraph` note lines and a blank paragraph. */
  method AddNotesArea(doc: Document)
    modifies doc
    ensures doc.body == old(doc.body) + NotesArea
    ensures doc.footer == old(doc.footer)
  {
    doc.Add(Para("", Plain));
    var k := 0;
    while k < 5
      invariant 0 <= k <= 5
      invariant doc.body == old(doc.body) + NotesArea[..k + 1]
      invariant doc.footer == old(doc.footer)
    {
      assert NotesArea[..k + 2] == NotesArea[..k + 1] + [Ruled];
      doc.Add(Ruled);
      k := k + 1;
    }
    doc.Add(Para("", Plain));
    assert NotesArea[..6] + [Para("", Plain)] == NotesArea;
  }

  /**
   * A section's blank paragraph and heading, then its notes. Making the
   * heading bold takes the heading paragraph's first run, and a paragraph
   * added with empty text has none: a section whose name is the empty
   * string stops the export (`ok` is false).
   */
  method AddOpening(doc: Document, s: Section) returns (ok: bool)
    modifies doc
    ensures ok <==> SectionName(s) != ""
    ensures ok ==> doc.body == old(doc.body) + Opening(s)
    ensures doc.footer == old(doc.footer)
  {
    doc.Add(Para("", Plain));
    doc.Add(Para(SectionName(s), HeadingRun));
    if SectionName(s) == "" {
      return false;
    }
    if s.notes != "" {
      doc.Add(Para(s.notes, Plain));
    }
    ok := true;
  }
}
