/**
 * The interview pack that both exporters render: a title, the request
 * inputs shown in the subtitle line, housekeeping bullets and sections of
 * questions. A key that is missing (or holds None or an empty value) is the
 * empty string or the empty sequence here, except where the exporters give
 * a missing key a default (`title`, a section's `name`), which is an Option.
 */
module Packs {
  import opened Words

  datatype Option<T> = None | Some(value: T)

  datatype Question = Question(question: string, intent: string, followups: seq<string>, good: string)

  datatype Section = Section(name: Option<string>, notes: string, questions: seq<Question>)

  /** The two request inputs the subtitle line shows (already formatted). */
  datatype Inputs = Inputs(interviewType: Option<string>, durationMins: Option<string>)

  datatype Pack = Pack(title: Option<string>, inputs: Inputs, housekeeping: seq<string>, sections: seq<Section>)

  /** `pack.get("title", "Interview Pack")` */
  function Title(p: Pack): string {
    match p.title
    case Some(t) => t
    case None => "Interview Pack"
  }

  /** `sec.get("name", "Section")` */
  function SectionName(s: Section): string {
    match s.name
    case Some(n) => n
    case None => "Section"
  }

  /** Every section has a non-empty name: the condition under which both
      exporters get through all the sections. */
  predicate AllNamed(ss: seq<Section>) {
    forall i | 0 <= i < |ss| :: SectionName(ss[i]) != ""
  }

  lemma AllNamedStep(ss: seq<Section>, k: nat)
    requires k < |ss| && AllNamed(ss[..k]) && SectionName(ss[k]) != ""
    ensures AllNamed(ss[..k + 1])
  {
  }

  /** How an f-string shows a value that `.get` may not find. */
  function Shown(v: Option<string>): string {
    match v
    case Some(s) => s
    case None => "None"
  }

  /** The subtitle line: interview type and duration, separated by a middle dot. */
  function Meta(inputs: Inputs): string {
    "Interview type: " + Shown(inputs.interviewType)
      + " \U{00B7} Duration: " + Shown(inputs.durationMins) + " mins"
  }

  /** `", ".join(xs)` */
  function JoinComma(xs: seq<string>): string {
    if xs == [] then "" else if |xs| == 1 then xs[0] else xs[0] + ", " + JoinComma(xs[1..])
  }

  /** At most this many follow-ups are shown per question. */
  const MaxFollowups: nat := 6

  /** `", ".join(q["followups"][:6])` */
  function FollowupsText(fs: seq<string>): string {
    JoinComma(if |fs| <= MaxFollowups then fs else fs[..MaxFollowups])
  }

  /** The fields of a question that both renderers can show, each with its label. */
  datatype Field = QuestionText | Intent | Followups | Good

  function Label(f: Field): string {
    match f
    case QuestionText => "Question"
    case Intent => "Intent"
    case Followups => "Follow-ups"
    case Good => "What good looks like"
  }

  /** The text a renderer shows for a field; a field whose value is empty is
      not shown. */
  function Value(q: Question, f: Field): string {
    match f
    case QuestionText => Strip(q.question)
    case Intent => q.intent
    case Followups => FollowupsText(q.followups)
    case Good => q.good
  }

  /** The outline of a rendered pack: its headings and its question blocks, in order. */
  datatype Mark = Heading(text: string) | Box

  function Boxes(n: nat): (r: seq<Mark>)
    ensures |r| == n && forall i | 0 <= i < n :: r[i] == Box
  {
    if n == 0 then [] else Boxes(n - 1) + [Box]
  }

  function SectionMarks(s: Section): seq<Mark> {
    [Heading(SectionName(s))] + Boxes(|s.questions|)
  }

  /** Section by section, from the first. */
  function SectionsMarks(ss: seq<Section>): seq<Mark> {
    if ss == [] then [] else SectionsMarks(ss[..|ss| - 1]) + SectionMarks(ss[|ss| - 1])
  }

  function HousekeepingMarks(p: Pack): seq<Mark> {
    if p.housekeeping != [] then [Heading("Housekeeping")] else []
  }

  /** The outline both exporters produce for a pack: a Housekeeping heading
      when there are housekeeping items, then per section its name (or
      "Section") followed by one block per question. */
  function ExpectedOutline(p: Pack): seq<Mark> {
    HousekeepingMarks(p) + SectionsMarks(p.sections)
  }

  // ---------------------------------------------------------------------
  // Lemmas
  // ---------------------------------------------------------------------

  /** Follow-ups after the sixth never reach the document. */
  lemma FollowupsCapped(fs: seq<string>, more: seq<string>)
    requires |fs| >= MaxFollowups
    ensures FollowupsText(fs + more) == FollowupsText(fs)
  {
    if more == [] {
      assert fs + more == fs;
    } else {
      assert (fs + more)[..MaxFollowups] == fs[..MaxFollowups];
      if |fs| == MaxFollowups {
        assert fs[..MaxFollowups] == fs;
      }
    }
  }

  /** A `", "`-joined text is empty exactly when there is nothing to join
      but (at most) one empty string. */
  lemma {:induction false} JoinCommaEmpty(xs: seq<string>)
    ensures JoinComma(xs) == "" <==> (xs == [] || xs == [""])
  {
    if |xs| > 1 {
      assert |xs[0] + ", " + JoinComma(xs[1..])| >= 2;
    }
  }

  /** The follow-ups row is shown exactly when the first six follow-ups are
      more than one, or one that is not empty. */
  lemma FollowupsShown(q: Question)
    ensures Value(q, Followups) != "" <==>
              (|q.followups| >= 2 || (|q.followups| == 1 && q.followups[0] != ""))
  {
    var shown := if |q.followups| <= MaxFollowups then q.followups else q.followups[..MaxFollowups];
    JoinCommaEmpty(shown);
    if |q.followups| == 1 {
      assert shown == [q.followups[0]];
    }
  }

  /** A question without follow-ups has no follow-ups row. */
  lemma FollowupsNone(q: Question)
    requires q.followups == []
    ensures Value(q, Followups) == ""
  {
    assert JoinComma([]) == "";
  }

  /** Each section's marks start with its heading; the whole outline has one
      heading per section and one block per question. */
  lemma {:induction false} SectionsMarksCount(ss: seq<Section>)
    ensures |SectionsMarks(ss)| == |ss| + TotalQuestions(ss)
    decreases |ss|
  {
    if ss != [] {
      SectionsMarksCount(ss[..|ss| - 1]);
    }
  }

  /** One more section's marks after those of the sections before it. */
  lemma SectionsMarksStep(before: seq<Mark>, ss: seq<Section>, k: nat)
    requires k < |ss|
    ensures before + SectionsMarks(ss[..k + 1]) == before + SectionsMarks(ss[..k]) + SectionMarks(ss[k])
  {
    assert ss[..k + 1][..k] == ss[..k];
    AppendAssoc(before, SectionsMarks(ss[..k]), SectionMarks(ss[k]));
  }

  function TotalQuestions(ss: seq<Section>): nat {
    if ss == [] then 0 else TotalQuestions(ss[..|ss| - 1]) + |ss[|ss| - 1].questions|
  }
}
