# Interview pack exporter, modelled in Dafny

The PowerDash interview-question generator turns a generated interview pack
into a Word document and a PDF. A pack has:

- a title and the interview inputs;
- a list of housekeeping items;
- sections, each with a name, optional notes and questions.

A question has its text, an intent, follow-up questions and a "what good
looks like" note. Two near-identical exporters render packs:

- `utils/export_iqt.py`: each question is a two-column table of labelled
  rows.
- `utils/generation_iqt.py`: the question is a full-width row (merged
  across both columns when the merge succeeds) followed by labelled rows.
  In the PDF, each labelled row is followed by 2 points of spacing.

Both exporters produce:

- a DOCX built paragraph by paragraph, with five dashed note lines under
  every question table and a "Powered by PowerDash HR" footer;
- a PDF drawn on an A4 canvas, with a cursor that moves down the page, a
  page break with a footer whenever `ensure_space` finds the cursor too
  low, a framed box with five dashed note lines for every question, and a
  final footer.

The project has six modules:

- `Words` (`words.dfy`) models Python's `str.split()`, `str.strip()` and
  joining with single spaces. It also models the greedy line wrapper
  `_wrap_lines`: a reference predicate `GreedyWrap` (every line fits or is
  a single word, no word could have joined the previous line, and the
  lines hold exactly the input words), the function `Wrap` and a proof
  that `Wrap` satisfies `GreedyWrap`.
- `Packs` (`packs.dfy`) is the pack data model.
  - Key lookups with defaults (`pack.get("title", "Interview Pack")`,
    `sec.get("name", "Section")`, the `None` an absent input prints as).
  - The text shown for each field, including the follow-ups joined with
    `", "` and capped at six.
  - The outline every rendering must show: one heading per housekeeping
    block and per section, and one box per question.
- `Canvas` (`canvas.dfy`) is the PDF side.
  - A page, font metrics given as functions, and the drawing trace: text,
    rules, rectangles, images, footers and page breaks.
  - A `Renderer` class holding the trace and the cursor `cur_y`, which its
    methods update in place.
  - The drawing steps the two exporters share: header, footer,
    `ensure_space`, wrapped paragraphs and bullets, label/value rows, note
    rules and the box frame.
- `Docx` (`docx.dfy`) is the DOCX side.
  - A `Document` class whose body is a list of blocks (paragraphs, tables,
    ruled note lines, a picture) and whose footer is set once.
  - The reference definition `DocBody` of the whole document.
  - Lemmas showing that the document's outline is the pack's expected
    outline and that every table is followed by its notes area.
- `ExportIqt` (`export_iqt.dfy`) and `GenerationIqt` (`generation_iqt.dfy`)
  model the two source files, function by function.

Both renderers are proved to produce `Packs.ExpectedOutline` of the pack:
the DOCX through `Docx.DocMarks`, the PDF through `Canvas.Marks`. Both are
proved to put a footer on every page of the PDF.

Inputs the model treats as parameters:

- Font measurement (`c.stringWidth`) is a `Metrics` value holding two
  functions, one for Helvetica 10 and one for Helvetica-Bold 10.
- Whether a logo downloads or loads, whether the footer logo file exists,
  and whether a table cell merge succeeds are boolean parameters.

Points where the model follows the code:

- The PDF does not measure a question block before drawing it. It only
  calls `ensure_space` with a fixed allowance (10 lines in `export_iqt.py`,
  12 in `generation_iqt.py`), so a long block can run past the bottom
  margin.
- In `generation_iqt.py` the question text is wrapped with the default
  Helvetica 10 measure but drawn in Helvetica-Bold 11. The model wraps
  with the regular measure and draws in `Bold11`.
- A section whose name is the empty string makes `s.runs[0]` raise in
  `pack_to_docx`, because a paragraph built from `""` has no runs. The
  model returns `Raised` in that case.

## Model

| member | source | states |
|---|---|---|
| Words.IsSpace | utils/export_iqt.py:157 | the characters Python's `str.isspace()` accepts, which separate words for `split()` and are removed by `strip()` |
| Words.WordLen | utils/export_iqt.py:157 | the length of the leading word: no whitespace before it, whitespace right after it or the end of the string, at least 1 when the string starts with a non-space |
| Words.Split | utils/export_iqt.py:157 | `str.split()` yields only non-empty words without whitespace |
| Words.SplitAround | utils/export_iqt.py:157 | splitting at a whitespace character splits each side independently |
| Words.SplitOfWord | utils/export_iqt.py:157 | a single word splits to itself |
| Words.SplitJoin | utils/export_iqt.py:160 | joining words with single spaces and splitting again gives back the same words |
| Words.JoinEdges | utils/export_iqt.py:160 | a join of words starts and ends with a non-space |
| Words.TrimLeft | utils/export_iqt.py:160 | `lstrip()`: drops leading whitespace (TrimLeftStart: no whitespace left at the start) |
| Words.TrimRight | utils/export_iqt.py:160 | `rstrip()`: drops trailing whitespace (TrimRightEnd) |
| Words.Strip | utils/export_iqt.py:160 | `strip()`: both of the above (StripEdges, StripUnchanged) |
| Words.TrimRightEnd | utils/export_iqt.py:160 | right-stripping gives a prefix that does not end with whitespace |
| Words.StripEdges | utils/export_iqt.py:160 | `strip()` leaves no whitespace at either end |
| Words.StripUnchanged | utils/export_iqt.py:160 | `strip()` does not change a string already without edge whitespace |
| Words.JoinStep | utils/export_iqt.py:160 | `(line + " " + w).strip()` equals the join of the line's words plus `w`, including from the empty line |
| Words.BulletWords | utils/export_iqt.py:274 | the bullet prefix `"• "` adds exactly one word, the bullet, in front of the item's words |
| Words.FlattenSnoc | utils/export_iqt.py:159-167 | proof step: the words of the wrapped lines grow by the words of the appended line |
| Words.WrapStart | utils/export_iqt.py:158 | proof step: the wrap loop invariant holds before the first word |
| Words.WrapFlush | utils/export_iqt.py:161-163 | when the candidate line is too wide, pushing the current line and starting a new one with the word keeps the invariant |
| Words.WrapExtend | utils/export_iqt.py:164-165 | when the candidate line fits, extending the current line keeps the invariant |
| Words.WrapFinish | utils/export_iqt.py:166-168 | after the last word, appending the non-empty current line gives a greedy wrap |
| Words.WrapOfNothing | utils/export_iqt.py:157-168 | the only greedy wrap of no words is no lines |
| Words.WrapState | utils/export_iqt.py:158-165 | the `(out, line)` pair after each word of the loop: flush the line and start a new one with the word when the stripped extension is wider than the column, otherwise extend the line |
| Words.Wrap | utils/export_iqt.py:156-168 | the lines `_wrap_lines` returns: the flushed lines, then the current line when it is not empty (WrapIsGreedy proves them a greedy wrap) |
| Words.WrapStateLoop | utils/export_iqt.py:156-168 | the recursive wrap state satisfies the loop invariant after all words |
| Words.WrapIsGreedy | utils/export_iqt.py:156-168 | `Wrap` returns lines that hold exactly the input words, each fitting the width or holding a single word, none able to take the next line's first word, with an empty first line exactly when the first word alone is too wide |
| Packs.Title | utils/export_iqt.py:110 | `pack.get("title", "Interview Pack")`, used by both renderers (also line 195) |
| Packs.SectionName | utils/export_iqt.py:137 | `sec.get("name", "Section")`, used by both renderers (also line 283) |
| Packs.Meta | utils/export_iqt.py:114 | the subtitle "Interview type: … · Duration: … mins", with `None` for a missing input (also line 197) |
| Packs.JoinComma | utils/export_iqt.py:67 | `", ".join(xs)` (JoinCommaEmpty) |
| Packs.FollowupsText | utils/export_iqt.py:67 | the first six follow-ups joined with `", "` (FollowupsCapped, FollowupsShown) |
| Packs.FollowupsCapped | utils/export_iqt.py:67 | only the first six follow-ups are shown: more after six change nothing |
| Packs.JoinCommaEmpty | utils/export_iqt.py:67 | the comma join is empty exactly for no items or a single empty item |
| Packs.FollowupsShown | utils/export_iqt.py:66-67 | the follow-ups row has text exactly when there are two or more follow-ups or one non-empty one |
| Packs.FollowupsNone | utils/export_iqt.py:66 | no follow-ups give an empty follow-ups value |
| Packs.SectionsMarksCount | utils/export_iqt.py:281-297 | the expected outline of the sections has one heading per section plus one box per question |
| Canvas.Header | utils/export_iqt.py:185-200 | the logo at 15 mm below the top margin when shown, the title at 18 mm in Helvetica-Bold 14, the subtitle at 23 mm and the tenant at 28 mm when set |
| Canvas.RowTrace | utils/export_iqt.py:236-246 | a label/value row at height y: nothing for an empty value, else the bold caption with a colon at left + 4 and the value lines in the column at left + 4 + label width |
| Canvas.NoteRules | utils/export_iqt.py:255-260 | five dashed rules from left + 4 to right - 4, 10 points apart from y down |
| Canvas.Boxed | utils/export_iqt.py:255-264 | a block's events closed by its note rules, starting 58 points above the final cursor, and the frame from the block's top to 8 points above the final cursor |
| Canvas.SpaceTop | utils/export_iqt.py:223-228 | the cursor after `ensure_space(lines)`: the top margin when the cursor was below 40 mm + 12 points per line, else unchanged |
| Canvas.SpaceTrace | utils/export_iqt.py:223-228 | the trace after `ensure_space(lines)`: a footer and a page break appended when the cursor was below the threshold, else unchanged |
| Canvas.Column | utils/export_iqt.py:288-290 | a column of lines has one text event per line |
| Canvas.LabelWidth | utils/export_iqt.py:242 | the label width is the larger of the minimum and the measured bold caption with its colon |
| Canvas.MarksAppend | utils/export_iqt.py:170-302 | the outline of a trace is the outline of its parts in order |
| Canvas.UnmarkedMarks | utils/export_iqt.py:170-302 | events that carry no mark add nothing to the outline |
| Canvas.ColumnPlain | utils/export_iqt.py:288-290 | lines of text in a non-heading font add neither marks nor page breaks |
| Canvas.ColumnSnoc | utils/export_iqt.py:244-246 | each line is drawn 12 points below the previous one |
| Canvas.HeaderPlain | utils/export_iqt.py:185-200 | the logo, title, meta line and tenant line add no outline mark and no page break |
| Canvas.PaginatedAppend | utils/export_iqt.py:170-302 | drawing without page breaks keeps the pagination well formed |
| Canvas.PaginatedBreak | utils/export_iqt.py:225-228 | a footer followed by `showPage` keeps the pagination well formed |
| Canvas.PaginatedCounts | utils/export_iqt.py:225-228 | in an open document, footers and page breaks are equal in number |
| Canvas.FootersPerPage | utils/export_iqt.py:299 | a finished document has exactly one more footer than page breaks: one per page |
| Canvas.FinishDocument | utils/export_iqt.py:299 | closing an open document with the final footer puts a footer on every page and leaves the outline unchanged |
| Canvas.Renderer.constructor | utils/export_iqt.py:179-202 | a new canvas has an empty trace and the cursor 35 mm below the top margin |
| Canvas.Renderer.Emit | utils/export_iqt.py:170-302 | one drawing call appends its event and keeps the cursor |
| Canvas.Renderer.DrawFooter | utils/export_iqt.py:204-221 | the footer is appended, with its logo exactly when the logo file loads |
| Canvas.Renderer.EnsureSpace | utils/export_iqt.py:223-228 | below `40 mm + 12 × lines` the page is closed with a footer and a new page whose cursor is at the top margin; otherwise nothing changes |
| Canvas.Renderer.Draw | utils/export_iqt.py:170-302 | a run of non-break events is appended in order |
| Canvas.Renderer.DrawHeader | utils/export_iqt.py:185-200 | the header events are appended: the logo when it loads, the title and meta lines, the tenant line when a tenant is given |
| Canvas.Renderer.DrawNoteRules | utils/export_iqt.py:256-260 | five dashed rules, 10 points apart from the cursor down, with the cursor 50 points lower |
| Canvas.Renderer.DrawFrame | utils/export_iqt.py:256-264 | appends exactly the five note rules and the frame from the block's top down to the cursor below the rules, moves the cursor 58 points down, adds one box mark and keeps any earlier prefix |
| Canvas.Renderer.DrawRow | utils/export_iqt.py:240-246 | the bold caption with its colon, then the wrapped value lines offset by the label width, 12 points each |
| Canvas.Renderer.DrawLines | utils/export_iqt.py:288-290 | each line is drawn 12 points below the previous one and the cursor ends below the last |
| Canvas.WrapLines | utils/export_iqt.py:156-168 | the imperative wrap loop returns exactly `Wrap` of the text's words |
| Canvas.DrawParagraph | utils/export_iqt.py:286-290 | the section notes are wrapped to the full text width and drawn line by line |
| Canvas.DrawBullet | utils/export_iqt.py:273-276 | a housekeeping item is wrapped with its bullet word and drawn line by line |
| Canvas.DrawBullets | utils/export_iqt.py:273-276 | the bullet items extend the trace without adding outline marks |
| Canvas.DrawHousekeeping | utils/export_iqt.py:267-277 | no housekeeping items draw nothing; otherwise the block adds exactly the "Housekeeping" heading to the outline |
| Canvas.DrawOpening | utils/export_iqt.py:281-291 | a section opening adds exactly its name as a heading to the outline |
| Canvas.DrawTop | utils/export_iqt.py:185-278 | the header starts the trace and the housekeeping heading is the only mark so far; the allowance of the `ensure_space()` after the housekeeping list is a parameter (10 lines in export_iqt, 12 in generation_iqt) |
| Docx.DocHeader | utils/export_iqt.py:101-118 | the picture when the logo was fetched, the title run, the subtitle, and the tenant in small type when set |
| Docx.HousekeepingBlocks | utils/export_iqt.py:120-132 | nothing without items; else a blank paragraph, the heading and one bulleted paragraph per item |
| Docx.Opening | utils/export_iqt.py:136-141 | a blank paragraph, the section heading and the notes when set |
| Docx.QuestionBlocks | utils/export_iqt.py:142-143 | per question, in order, its table and then the notes area |
| Docx.SectionBlocks | utils/export_iqt.py:136-143 | a section's opening, then its question blocks |
| Docx.SectionsBlocks | utils/export_iqt.py:134-143 | the sections' blocks, section by section |
| Docx.DocBody | utils/export_iqt.py:101-143 | the header, the housekeeping blocks and the sections' blocks, given how a question's table rows are made (DocBodyOutline, DocBodyNotes) |
| Docx.PoweredBy | utils/export_iqt.py:42-56 | the footer carries the logo exactly when the logo file is found |
| Docx.DocMarksAppend | utils/export_iqt.py:88-151 | the outline of a body is the outline of its parts in order |
| Docx.DocMarksNone | utils/export_iqt.py:88-151 | blocks that carry no mark add nothing to the outline |
| Docx.LabelInjective | utils/export_iqt.py:63-69 | proof step: the four row captions are distinct |
| Docx.PresentRows | utils/export_iqt.py:71-80 | a field's row is in the table exactly when the field is listed and its value is non-empty, and every row is such a field's row |
| Docx.PresentAppend | utils/export_iqt.py:71-80 | the rows of two field lists are the rows of each in order |
| Docx.PresentSnoc | utils/generation_iqt.py:86-91 | a field with a value adds its row at the end |
| Docx.PresentGrows | utils/generation_iqt.py:86-98 | one `add_row` step extends the rows to those of the longer field list |
| Docx.PresentSkip | utils/generation_iqt.py:87-88 | a field without a value adds no row |
| Docx.NotesAreaUnmarked | utils/export_iqt.py:83-86 | the notes area adds nothing to the outline |
| Docx.NotesFollowAppend | utils/export_iqt.py:83-86 | appending blocks other than tables keeps every table followed by its notes area |
| Docx.NotesFollowTable | utils/export_iqt.py:58-86 | a table followed by its notes area keeps every table followed by its notes area |
| Docx.HousekeepingBlocksMarks | utils/export_iqt.py:120-132 | the housekeeping blocks add the "Housekeeping" heading exactly when there are items |
| Docx.OpeningMarks | utils/export_iqt.py:135-141 | a section opening adds its name as the only heading and holds no table |
| Docx.TableMarks | utils/export_iqt.py:58-60 | proof step: a question table adds one box |
| Docx.QuestionBlocksMarks | utils/export_iqt.py:142-143 | the question tables of a section add one box per question |
| Docx.SectionsBlocksMarks | utils/export_iqt.py:134-143 | the sections add exactly their expected outline |
| Docx.DocHeaderPlain | utils/export_iqt.py:101-118 | the header adds no outline mark and no table |
| Docx.DocBodyOutline | utils/export_iqt.py:88-151 | the whole document body shows exactly the pack's expected outline |
| Docx.QuestionBlocksNotes | utils/export_iqt.py:142-143 | after a section's question tables, every table is still followed by its notes area |
| Docx.SectionBlocksNotes | utils/export_iqt.py:135-143 | after a section, every table is still followed by its notes area |
| Docx.SectionsBlocksNotes | utils/export_iqt.py:134-143 | after all sections, every table is still followed by its notes area |
| Docx.DocBodyNotes | utils/export_iqt.py:88-151 | in the whole document, every table is followed by a blank paragraph, five ruled lines and a blank paragraph |
| Docx.Document.constructor | utils/export_iqt.py:98 | a new document has an empty body and no footer |
| Docx.Document.Add | utils/export_iqt.py:109-143 | a block is appended and the footer kept |
| Docx.Document.AddFooter | utils/export_iqt.py:42-56 | the footer is set and the body kept |
| Docx.AddHeader | utils/export_iqt.py:101-118 | appends the picture when the logo was fetched, the title, the meta line and the tenant line when a tenant is given |
| Docx.AddHousekeeping | utils/export_iqt.py:120-132 | appends nothing for no items; otherwise a blank line, the heading and one bullet paragraph per item in order |
| Docx.AddNotesArea | utils/export_iqt.py:83-86 | appends a blank paragraph, five ruled paragraphs and a blank paragraph |
| Docx.AddOpening | utils/export_iqt.py:136-141 | succeeds exactly when the section name is non-empty, then appends a blank line, the name heading and the notes when there are any |
| ExportIqt.QuestionTable | utils/export_iqt.py:63-80 | the table rows: Present over Question, Intent, Follow-ups, What good looks like (CandidatesFilled, TableShowsFields) |
| ExportIqt.Candidates | utils/export_iqt.py:63-69 | the candidate rows always start with the Question row |
| ExportIqt.CandidatesFilled | utils/export_iqt.py:63-80 | filtering the candidate rows gives exactly the non-empty fields in the order Question, Intent, Follow-ups, What good looks like |
| ExportIqt.FilledHead | utils/export_iqt.py:63-67 | filtering the first three candidate rows gives the non-empty ones of Question, Intent and Follow-ups |
| ExportIqt.CandidatesFollowups | utils/export_iqt.py:66-67 | the Follow-ups candidate row exists exactly when the list of follow-ups is non-empty |
| ExportIqt.FilledListed | utils/export_iqt.py:64-80 | a conditionally listed field contributes its row after filtering exactly when its value is non-empty |
| ExportIqt.CandidateRows | utils/export_iqt.py:63-69 | builds exactly the candidate rows |
| ExportIqt.FilledSnoc | utils/export_iqt.py:71-80 | an appended row survives filtering exactly when its value is non-empty |
| ExportIqt.TableShowsFields | utils/export_iqt.py:63-80 | the table has a field's row exactly when that field's value is non-empty |
| ExportIqt.FilterRows | utils/export_iqt.py:71-80 | the loop keeps exactly the rows with a non-empty value, in order |
| ExportIqt.AddQuestionTable | utils/export_iqt.py:58-86 | appends the question's table and then the notes area |
| ExportIqt.AddSection | utils/export_iqt.py:135-143 | succeeds exactly when the section is named, then appends the opening and one table with notes per question |
| ExportIqt.AddSections | utils/export_iqt.py:134-143 | succeeds exactly when every section is named, then appends every section in order |
| ExportIqt.AddBody | utils/export_iqt.py:101-143 | succeeds exactly when every section is named, then the body is the header, housekeeping and sections |
| ExportIqt.PackToDocx | utils/export_iqt.py:88-151 | raises exactly when some section name is empty; otherwise saves the full body and the footer, whose outline is the expected outline and whose tables are each followed by their notes area |
| ExportIqt.EnsureSpace | utils/export_iqt.py:223-228 | `ensure_space()` with 10 lines: a break exactly below the threshold, and on A4 the cursor is then above it |
| ExportIqt.Row | utils/export_iqt.py:236-246 | an empty value draws nothing; otherwise the caption and the wrapped value lines, 12 points per line |
| ExportIqt.NoRow | utils/export_iqt.py:238-239 | proof step: an empty value has no lines and no events |
| ExportIqt.OptionalRow | utils/export_iqt.py:250-253 | a row drawn only when its field is present draws the same as `row` |
| ExportIqt.WithLabelRowsSteps | utils/export_iqt.py:249-253 | proof step: the Intent, What good looks like and Follow-ups rows follow one another, each starting where the previous ended |
| ExportIqt.LabelRows | utils/export_iqt.py:249-253 | the three rows in source order: the wrapped lines of each and the exact events drawn |
| ExportIqt.RowsDrop | utils/export_iqt.py:236-253 | how far a block's rows move the cursor: 12 points per value line of the Question, Intent, What good looks like and Follow-ups rows, an empty value having none |
| ExportIqt.QuestionRowsStep | utils/export_iqt.py:248-253 | the rows only append to the trace and move the cursor down 12 points per wrapped value line of the four rows |
| ExportIqt.QuestionBox | utils/export_iqt.py:230-264 | the block appends its rows, then five note rules and a frame from the block's top to 8 points above the final cursor; the cursor ends 58 points below the rows, so the frame is the rows' height plus 50 points tall; one box mark |
| ExportIqt.DrawSection | utils/export_iqt.py:281-297 | a section adds its heading and one box per question to the outline |
| ExportIqt.SpacedBox | utils/export_iqt.py:293-295 | `ensure_space()` then a question block: when the cursor is below the 10-line threshold the trace first gets a footer and a page break and the block starts at the top margin (`SpaceTop`, `SpaceTrace`); then the block's rows, five note lines and frame follow, the cursor ends the rows' drop plus 58 points lower, and exactly one box is added |
| ExportIqt.DrawSections | utils/export_iqt.py:281-297 | all sections add exactly their expected outline |
| ExportIqt.PackToPdf | utils/export_iqt.py:170-302 | the PDF starts with the header, has a footer on every page (one more footer than page breaks) and shows exactly the pack's expected outline |
| GenerationIqt.QuestionTable | utils/generation_iqt.py:74-98 | the stripped question text in a wide row (merged when the merge worked), then Present over Intent, Follow-ups, What good looks like (TableShowsFields) |
| GenerationIqt.AddRow | utils/generation_iqt.py:86-91 | `add_row` appends the labelled row exactly when the value is non-empty |
| GenerationIqt.TableRows | utils/generation_iqt.py:74-98 | builds the full-width question row, then the Intent, Follow-ups and What good looks like rows that have values |
| GenerationIqt.TableShowsFields | utils/generation_iqt.py:74-98 | the table starts with the full-width question row and has a labelled field's row exactly when its value is non-empty |
| GenerationIqt.AddQuestionTable | utils/generation_iqt.py:58-104 | appends the question's table and then the notes area |
| GenerationIqt.AddSection | utils/generation_iqt.py:147-152 | succeeds exactly when the section is named, then appends the opening and one table with notes per question |
| GenerationIqt.AddSections | utils/generation_iqt.py:146-152 | succeeds exactly when every section is named, then appends every section in order |
| GenerationIqt.AddBody | utils/generation_iqt.py:119-152 | succeeds exactly when every section is named, then the body is the header, housekeeping and sections |
| GenerationIqt.PackToDocx | utils/generation_iqt.py:106-158 | raises exactly when some section name is empty; otherwise saves the full body and the footer, whose outline is the expected outline and whose tables are each followed by their notes area |
| GenerationIqt.EnsureSpace | utils/generation_iqt.py:226-229 | `ensure_space()` with 12 lines: a break exactly below the threshold, and on A4 the cursor is then above it |
| GenerationIqt.RowDrop | utils/generation_iqt.py:244-253 | a row moves the cursor exactly when its value is non-empty, and never up |
| GenerationIqt.Row | utils/generation_iqt.py:244-253 | an empty value draws nothing; otherwise the caption and the wrapped value lines, then 2 points of spacing |
| GenerationIqt.ValueRow | utils/generation_iqt.py:247-253 | a row with a value draws its caption and wrapped lines and moves 12 points per line plus 2 |
| GenerationIqt.DrawSpacedRow | utils/generation_iqt.py:247-253 | the caption and given lines, then 2 points of spacing |
| GenerationIqt.QuestionLines | utils/generation_iqt.py:237-241 | the stripped question is wrapped with the regular measure to the inner width and drawn in bold 11, then 4 points of spacing |
| GenerationIqt.WithLabelRowsSteps | utils/generation_iqt.py:255-257 | proof step: the Intent, What good looks like and Follow-ups rows follow one another, each starting where the previous ended |
| GenerationIqt.NoRow | utils/generation_iqt.py:246 | proof step: an empty value has no lines, no events and no drop |
| GenerationIqt.OptionalRow | utils/generation_iqt.py:256-257 | a row drawn only when its field is present draws the same as `row` |
| GenerationIqt.LabelRows | utils/generation_iqt.py:255-257 | the three rows in source order: the wrapped lines of each and the exact events drawn |
| GenerationIqt.RowDropOf | utils/generation_iqt.py:244-253 | how far a row moves the cursor: nothing for an empty value, else 12 points per value line plus 2 |
| GenerationIqt.ContentDrop | utils/generation_iqt.py:237-257 | how far a block's content moves the cursor: 12 points per question line, 4 points, then the drop of each row in source order |
| GenerationIqt.QuestionRowsStep | utils/generation_iqt.py:237-257 | the question lines and rows only append to the trace and move the cursor down by the block's content height |
| GenerationIqt.QuestionBox | utils/generation_iqt.py:232-266 | the block appends its content, then five note rules and a frame from the block's top to 8 points above the final cursor; the cursor ends 58 points below the content, so the frame is the content height plus 50 points tall; one box mark |
| GenerationIqt.DrawSection | utils/generation_iqt.py:280-291 | a section adds its heading and one box per question to the outline |
| GenerationIqt.SpacedBox | utils/generation_iqt.py:288-289 | `ensure_space()` then a question block: when the cursor is below the 12-line threshold the trace first gets a footer and a page break and the block starts at the top margin (`SpaceTop`, `SpaceTrace`); then the block's content, five note lines and frame follow, the cursor ends `ContentDrop` plus 58 points lower, and exactly one box is added |
| GenerationIqt.DrawSections | utils/generation_iqt.py:279-291 | all sections add exactly their expected outline |
| GenerationIqt.PackToPdf | utils/generation_iqt.py:175-294 | the PDF starts with the header, has a footer on every page (one more footer than page breaks) and shows exactly the pack's expected outline |

## Left out

- Floating point: coordinates and widths are exact reals. Point sizes and the millimetre are exact rationals (1 mm = 72/25.4 points), so rounding in reportlab is not modelled.
- Fonts: `c.stringWidth` is a parameter (`Metrics`), not real Helvetica metrics. Font switching (`setFont`, `setDash`) is part of the event kinds rather than separate events.
- Styling: `_set_document_defaults`, font sizes, bold and italic runs, paragraph spacing, table widths, autofit and the border XML of `_ruled_paragraph` are not modelled. Paragraphs keep the kind of run the source gives them (title, small text, heading, list bullet), but only the heading kind takes part in the outline; the sizes and weights behind those kinds are not modelled.
- Exceptions the source catches become boolean parameters: the logo download or load, the footer logo's existence and loading, the cell merge. The `List Bullet` style lookup is assumed to succeed.
- `None` values in the pack JSON: a key present with a `null` value is modelled like an absent key where `or` does so in the source (housekeeping, questions, and the question text everywhere except export_iqt's DOCX table). Elsewhere values are strings and lists, and the question text is always a string.
- ExportIqt.PackToDocx: does not model the `AttributeError` that `q.get("question", "").strip()` (utils/export_iqt.py:63, with no `or`) raises on a question whose text is `null`, because the question text is always a string here; for such a question the model saves a table without its Question row.
- `pack['inputs']` is assumed present: the model has no path for the `KeyError` raised when it is missing.
- I/O: the HTTP fetch of the logo, `os.path.exists`, and writing the bytes to a buffer are left out. The output is the drawing trace (PDF) or the block list with its footer (DOCX), not bytes.
- The DOCX footer is attached to every section of the document. The model has one section, so it records a single footer.
- `app.py` is not part of this model.
- Canvas.DrawBullets: states only that the trace grows without outline marks, not the positions of the bullet lines.
- Canvas.DrawTop: states the header prefix and the outline, not the housekeeping line positions.
- Canvas.DrawHousekeeping: states the outline and the empty case, not the positions of the lines drawn.
- Canvas.DrawOpening: states the heading mark and trace growth, not the positions of the notes lines.
- ExportIqt.QuestionRowsStep: states the cursor drop and returns the appended events as an unconstrained ghost value; the exact row events are stated by ExportIqt.LabelRows and ExportIqt.Row.
- ExportIqt.QuestionBox: the events of the rows before the note lines are returned as an unconstrained ghost value; their exact form is stated by ExportIqt.LabelRows and ExportIqt.Row.
- ExportIqt.SpacedBox: the events of the rows before the note lines are returned as an unconstrained ghost value, as in ExportIqt.QuestionBox; the page break, the cursor, the note lines and the frame are stated.
- ExportIqt.DrawSection: states the outline and trace growth, not every event.
- ExportIqt.DrawSections: states the outline and trace growth, not every event.
- ExportIqt.PackToPdf: states the header prefix, pagination and outline, not every event of the body.
- GenerationIqt.QuestionRowsStep: states the cursor drop and returns the appended events as an unconstrained ghost value; the exact events are stated by GenerationIqt.QuestionLines and GenerationIqt.LabelRows.
- GenerationIqt.QuestionBox: the content events before the note lines are returned as an unconstrained ghost value; their exact form is stated by GenerationIqt.QuestionLines and GenerationIqt.LabelRows.
- GenerationIqt.SpacedBox: the content events before the note lines are returned as an unconstrained ghost value, as in GenerationIqt.QuestionBox; the page break, the cursor, the note lines and the frame are stated.
- GenerationIqt.DrawSection: states the outline and trace growth, not every event.
- GenerationIqt.DrawSections: states the outline and trace growth, not every event.
- GenerationIqt.PackToPdf: states the header prefix, pagination and outline, not every event of the body.
