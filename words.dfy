/**
 * Words of a text, as the exporters see them: Python's `str.split()` and
 * `str.strip()` with no argument, joining words with single spaces, and the
 * specification of the greedy line wrap (`_wrap_lines`) that both exporter
 * files implement.
 */
module Words {

  /** Python's `str.isspace()` for one character: the separators used by
      `split()` and `strip()` when called without an argument. */
  predicate IsSpace(c: char) {
    || ('\U{0009}' <= c <= '\U{000D}')
    || ('\U{001C}' <= c <= '\U{0020}')
    || c == '\U{0085}' || c == '\U{00A0}' || c == '\U{1680}'
    || ('\U{2000}' <= c <= '\U{200A}')
    || c == '\U{2028}' || c == '\U{2029}' || c == '\U{202F}'
    || c == '\U{205F}' || c == '\U{3000}'
  }

  /** A word: non-empty, no whitespace in it. */
  predicate IsWord(w: string) {
    w != [] && forall i | 0 <= i < |w| :: !IsSpace(w[i])
  }

  predicate AllWords(ws: seq<string>) {
    forall i | 0 <= i < |ws| :: IsWord(ws[i])
  }

  /** Length of the run of non-space characters that starts s. */
  function WordLen(s: string): (n: nat)
    ensures n <= |s|
    ensures forall i | 0 <= i < n :: !IsSpace(s[i])
    ensures n < |s| ==> IsSpace(s[n])
    ensures s != [] && !IsSpace(s[0]) ==> n >= 1
  {
    if s == [] || IsSpace(s[0]) then 0 else 1 + WordLen(s[1..])
  }

  /** `s.split()`: the maximal runs of non-space characters, in order. */
  function Split(s: string): (ws: seq<string>)
    ensures AllWords(ws)
    decreases |s|
  {
    if s == [] then []
    else if IsSpace(s[0]) then Split(s[1..])
    else [s[..WordLen(s)]] + Split(s[WordLen(s)..])
  }

  function TrimLeft(s: string): string {
    if s != [] && IsSpace(s[0]) then TrimLeft(s[1..]) else s
  }

  function TrimRight(s: string): string {
    if s != [] && IsSpace(s[|s| - 1]) then TrimRight(s[..|s| - 1]) else s
  }

  /** `s.strip()` */
  function Strip(s: string): string {
    TrimRight(TrimLeft(s))
  }

  /** `" ".join(ws)`, built from the end, as the wrap loop builds a line. */
  function Join(ws: seq<string>): string {
    if ws == [] then ""
    else if |ws| == 1 then ws[0]
    else Join(ws[..|ws| - 1]) + " " + ws[|ws| - 1]
  }

  /** The words of a sequence of lines, read in order. */
  function Flatten(lines: seq<string>): seq<string> {
    if lines == [] then [] else Flatten(lines[..|lines| - 1]) + Split(lines[|lines| - 1])
  }

  /** A line is its own words joined by single spaces. */
  ghost predicate WellJoined(line: string) {
    line == Join(Split(line))
  }

  /**
   * The flushed lines `out` of a wrap with width function `measure` and
   * column width `col`: an empty line appears only first; a non-empty line
   * is its words joined by single spaces and either fits or is a single
   * word; and a line was flushed only because the first word of the next
   * line did not fit after it.
   */
  ghost predicate LinesFit(measure: string -> real, col: real, out: seq<string>) {
    && (forall i | 0 <= i < |out| && out[i] == "" :: i == 0)
    && (forall i | 0 <= i < |out| && out[i] != "" :: LineFits(measure, col, out[i]))
    && (forall i, j | 0 <= i && j == i + 1 && j < |out| && out[i] != "" ::
          FlushedBefore(measure, col, out[i], out[j]))
  }

  /** A non-empty output line: its words joined by single spaces, within the
      column unless it is a single word. */
  ghost predicate LineFits(measure: string -> real, col: real, line: string) {
    WellJoined(line) && (measure(line) <= col || |Split(line)| == 1)
  }

  /** `line` was flushed because the first word of `next` did not fit after it. */
  ghost predicate FlushedBefore(measure: string -> real, col: real, line: string, next: string) {
    |Split(next)| > 0 && measure(line + " " + Split(next)[0]) > col
  }

  /**
   * What `_wrap_lines` promises about its output `out` for the words `ws` of
   * its input: no word is lost, reordered or broken; the lines fit as
   * LinesFit says; and an empty line appears exactly when the first word
   * alone is too wide for the column.
   */
  ghost predicate GreedyWrap(ws: seq<string>, measure: string -> real, col: real, out: seq<string>) {
    && Flatten(out) == ws
    && LinesFit(measure, col, out)
    && ((|out| > 0 && out[0] == "") <==> (ws != [] && measure(ws[0]) > col))
  }

  /**
   * The state of the wrap loop after it has consumed the first k words:
   * `out` holds the flushed lines and the current line `line` holds the
   * words `cur`.
   */
  ghost predicate WrapLoop(ws: seq<string>, measure: string -> real, col: real, k: nat,
                           out: seq<string>, line: string, cur: seq<string>) {
    && k <= |ws|
    && AllWords(cur)
    && line == Join(cur)
    && Flatten(out) + cur == ws[..k]
    && (k == 0 ==> out == [] && cur == [])
    && (k > 0 ==> cur != [])
    && LinesFit(measure, col, out)
    && ((|out| > 0 && out[0] == "") <==> (k > 0 && measure(ws[0]) > col))
    && (|cur| > 1 ==> measure(line) <= col)
    && (|out| > 0 && out[|out| - 1] != "" && cur != [] ==>
          measure(out[|out| - 1] + " " + cur[0]) > col)
  }

  // ---------------------------------------------------------------------
  // Lemmas about splitting, stripping and joining
  // ---------------------------------------------------------------------

  lemma {:induction false} WordLenAround(a: string, c: char, b: string)
    requires IsSpace(c)
    ensures WordLen(a + [c] + b) == WordLen(a)
    decreases |a|
  {
    if a == [] {
    } else if IsSpace(a[0]) {
    } else {
      assert (a + [c] + b)[1..] == a[1..] + [c] + b;
      WordLenAround(a[1..], c, b);
    }
  }

  /** A whitespace character separates words: splitting around it splits
      each side on its own. */
  lemma {:induction false} SplitAround(a: string, c: char, b: string)
    requires IsSpace(c)
    ensures Split(a + [c] + b) == Split(a) + Split(b)
    decreases |a|
  {
    var s := a + [c] + b;
    if a == [] {
      assert s == [c] + b;
      assert s[1..] == b;
    } else if IsSpace(a[0]) {
      assert s[1..] == a[1..] + [c] + b;
      SplitAround(a[1..], c, b);
    } else {
      var n := WordLen(a);
      WordLenAround(a, c, b);
      assert WordLen(s) == n;
      assert s[..n] == a[..n];
      assert s[n..] == a[n..] + [c] + b;
      SplitAround(a[n..], c, b);
    }
  }

  lemma {:induction false} SplitOfWord(w: string)
    requires IsWord(w)
    ensures Split(w) == [w]
  {
    assert WordLen(w) == |w| by { WordLenOfWord(w); }
    assert w[..|w|] == w;
    assert w[|w|..] == [];
  }

  lemma {:induction false} WordLenOfWord(w: string)
    requires forall i | 0 <= i < |w| :: !IsSpace(w[i])
    ensures WordLen(w) == |w|
    decreases |w|
  {
    if w != [] {
      WordLenOfWord(w[1..]);
    }
  }

  /** Joining words with single spaces and splitting again gives them back. */
  lemma {:induction false} SplitJoin(ws: seq<string>)
    requires AllWords(ws)
    ensures Split(Join(ws)) == ws
    decreases |ws|
  {
    if ws == [] {
    } else if |ws| == 1 {
      SplitOfWord(ws[0]);
    } else {
      var init, last := ws[..|ws| - 1], ws[|ws| - 1];
      SplitJoin(init);
      SplitAround(Join(init), ' ', last);
      SplitOfWord(last);
      assert Join(init) + " " + last == Join(init) + [' '] + last;
      assert init + [last] == ws;
    }
  }

  /** A non-empty join of words starts and ends with a non-space. */
  lemma {:induction false} JoinEdges(ws: seq<string>)
    requires AllWords(ws) && ws != []
    ensures Join(ws) != [] && !IsSpace(Join(ws)[0]) && !IsSpace(Join(ws)[|Join(ws)| - 1])
    decreases |ws|
  {
    if |ws| > 1 {
      JoinEdges(ws[..|ws| - 1]);
    }
  }

  lemma {:induction false} TrimLeftStart(s: string)
    ensures TrimLeft(s) == [] || !IsSpace(TrimLeft(s)[0])
    decreases |s|
  {
    if s != [] && IsSpace(s[0]) {
      TrimLeftStart(s[1..]);
    }
  }

  lemma {:induction false} TrimRightEnd(s: string)
    ensures TrimRight(s) <= s
    ensures TrimRight(s) == [] || !IsSpace(TrimRight(s)[|TrimRight(s)| - 1])
    decreases |s|
  {
    if s != [] && IsSpace(s[|s| - 1]) {
      TrimRightEnd(s[..|s| - 1]);
    }
  }

  /** What `strip()` returns neither starts nor ends with whitespace. */
  lemma StripEdges(s: string)
    ensures Strip(s) == [] || (!IsSpace(Strip(s)[0]) && !IsSpace(Strip(s)[|Strip(s)| - 1]))
  {
    TrimLeftStart(s);
    TrimRightEnd(TrimLeft(s));
  }

  lemma StripUnchanged(s: string)
    requires s == [] || (!IsSpace(s[0]) && !IsSpace(s[|s| - 1]))
    ensures Strip(s) == s
  {
  }

  /** One step of the wrap loop: `(line + " " + w).strip()` is the current
      words plus w, joined by single spaces. */
  lemma JoinStep(cur: seq<string>, w: string)
    requires AllWords(cur) && IsWord(w)
    ensures Strip(Join(cur) + " " + w) == Join(cur + [w])
  {
    if cur == [] {
      assert Join(cur) + " " + w == [' '] + w;
      assert TrimLeft([' '] + w) == TrimLeft(w);
      assert cur + [w] == [w];
    } else {
      assert (cur + [w])[..|cur|] == cur;
      JoinEdges(cur + [w]);
      StripUnchanged(Join(cur + [w]));
    }
  }

  /** The words of the bulleted text `"• " + item` are the bullet followed by
      the item's words: the bullet never merges with the first word. */
  lemma BulletWords(item: string)
    ensures Split("\U{2022} " + item) == ["\U{2022}"] + Split(item)
  {
    assert "\U{2022} " + item == "\U{2022}" + [' '] + item;
    SplitAround("\U{2022}", ' ', item);
    SplitOfWord("\U{2022}");
  }

  lemma {:induction false} FlattenEmpty(lines: seq<string>, i: nat)
    requires Flatten(lines) == [] && i < |lines|
    ensures Split(lines[i]) == []
    decreases |lines|
  {
    var init := lines[..|lines| - 1];
    if i < |lines| - 1 {
      assert lines[i] == init[i];
      FlattenEmpty(init, i);
    }
  }

  lemma FlattenSnoc(lines: seq<string>, line: string)
    ensures Flatten(lines + [line]) == Flatten(lines) + Split(line)
  {
    assert (lines + [line])[..|lines|] == lines;
  }

  // ---------------------------------------------------------------------
  // The wrap loop, step by step
  // ---------------------------------------------------------------------

  lemma WrapStart(ws: seq<string>, measure: string -> real, col: real)
    ensures WrapLoop(ws, measure, col, 0, [], "", [])
  {
    assert ws[..0] == [];
  }

  /** Appending a non-empty line that is well joined, fits (or is one word)
      and could not take the next word keeps the flushed lines fitting. */
  lemma LinesFitSnoc(measure: string -> real, col: real, out: seq<string>, line: string)
    requires LinesFit(measure, col, out)
    requires line != "" && LineFits(measure, col, line)
    requires |out| > 0 && out[|out| - 1] != "" ==> FlushedBefore(measure, col, out[|out| - 1], line)
    ensures LinesFit(measure, col, out + [line])
  {
    var out' := out + [line];
    forall i, j | 0 <= i && j == i + 1 && j < |out'| && out'[i] != ""
      ensures FlushedBefore(measure, col, out'[i], out'[j])
    {
      if i == |out| - 1 {
        assert out'[i] == out[i] && out'[j] == line;
      } else {
        assert out'[i] == out[i] && out'[j] == out[j];
      }
    }
    forall i | 0 <= i < |out'| && out'[i] == ""
      ensures i == 0
    {
      if i < |out| {
        assert out'[i] == out[i];
      }
    }
    forall i | 0 <= i < |out'| && out'[i] != ""
      ensures LineFits(measure, col, out'[i])
    {
      if i < |out| {
        assert out'[i] == out[i];
      }
    }
  }

  /** The next word does not fit: the current line is flushed and the word
      starts a new one. */
  lemma WrapFlush(ws: seq<string>, measure: string -> real, col: real, k: nat,
                  out: seq<string>, line: string, cur: seq<string>)
    requires AllWords(ws) && k < |ws|
    requires WrapLoop(ws, measure, col, k, out, line, cur)
    requires measure(Strip(line + " " + ws[k])) > col
    ensures WrapLoop(ws, measure, col, k + 1, out + [line], ws[k], [ws[k]])
  {
    var w := ws[k];
    var out' := out + [line];
    JoinStep(cur, w);
    FlattenSnoc(out, line);
    SplitJoin(cur);
    TakeStep(ws, k);
    assert Flatten(out') + [w] == ws[..k + 1];
    assert Join([w]) == w;
    if k == 0 {
      assert cur == [] && line == "" && out' == [""];
      assert Join(cur + [w]) == w;
      assert LinesFit(measure, col, out');
    } else {
      assert line != "" by { JoinEdges(cur); }
      assert Join(cur + [w]) == line + " " + w by { assert (cur + [w])[..|cur|] == cur; }
      LinesFitSnoc(measure, col, out, line);
    }
  }

  /** The next word fits: it joins the current line. */
  lemma WrapExtend(ws: seq<string>, measure: string -> real, col: real, k: nat,
                   out: seq<string>, line: string, cur: seq<string>)
    requires AllWords(ws) && k < |ws|
    requires WrapLoop(ws, measure, col, k, out, line, cur)
    requires measure(Strip(line + " " + ws[k])) <= col
    ensures WrapLoop(ws, measure, col, k + 1, out, Strip(line + " " + ws[k]), cur + [ws[k]])
  {
    var w := ws[k];
    JoinStep(cur, w);
    TakeStep(ws, k);
    AppendAssoc(Flatten(out), cur, [w]);
    if k == 0 {
      assert cur + [w] == [w];
    } else {
      assert (cur + [w])[0] == cur[0];
    }
  }

  /** After the last word, a non-empty current line is appended; the result
      is a greedy wrap of all the words. */
  lemma WrapFinish(ws: seq<string>, measure: string -> real, col: real,
                   out: seq<string>, line: string, cur: seq<string>)
    requires WrapLoop(ws, measure, col, |ws|, out, line, cur)
    ensures GreedyWrap(ws, measure, col, if line != "" then out + [line] else out)
  {
    assert ws[..|ws|] == ws;
    if cur == [] {
      assert line == "";
    } else {
      JoinEdges(cur);
      SplitJoin(cur);
      FlattenSnoc(out, line);
      LinesFitSnoc(measure, col, out, line);
    }
  }

  /** Empty (or all-blank) text wraps to no lines at all. */
  lemma WrapOfNothing(measure: string -> real, col: real, out: seq<string>)
    requires GreedyWrap([], measure, col, out)
    ensures out == []
  {
    if out != [] {
      FlattenEmpty(out, 0);
      assert out[0] != "";
      assert Join(Split(out[0])) == "";
      assert false;
    }
  }

  // ---------------------------------------------------------------------
  // The wrap loop as a function
  // ---------------------------------------------------------------------

  /**
   * The state of the greedy wrap after reading the words `ws`: the flushed
   * lines and the current line. A word is tried after the current line; when
   * the stripped result is wider than `col` the current line is flushed (an
   * empty one too) and the word starts the next line.
   */
  function WrapState(ws: seq<string>, measure: string -> real, col: real): (seq<string>, string)
    decreases |ws|
  {
    if ws == [] then ([], "")
    else
      var (out, line) := WrapState(ws[..|ws| - 1], measure, col);
      var w := ws[|ws| - 1];
      var t := Strip(line + " " + w);
      if measure(t) > col then (out + [line], w) else (out, t)
  }

  /** The lines of the greedy wrap of `ws`: the flushed lines and a non-empty last line. */
  function Wrap(ws: seq<string>, measure: string -> real, col: real): seq<string> {
    var (out, line) := WrapState(ws, measure, col);
    if line != "" then out + [line] else out
  }

  /** The words on the current line of WrapState. */
  ghost function CurrentWords(ws: seq<string>, measure: string -> real, col: real): seq<string>
    decreases |ws|
  {
    if ws == [] then []
    else
      var line := WrapState(ws[..|ws| - 1], measure, col).1;
      var w := ws[|ws| - 1];
      if measure(Strip(line + " " + w)) > col then [w]
      else CurrentWords(ws[..|ws| - 1], measure, col) + [w]
  }

  lemma WrapLoopPrefix(ws: seq<string>, measure: string -> real, col: real, k: nat,
                       out: seq<string>, line: string, cur: seq<string>)
    requires k <= |ws|
    requires WrapLoop(ws[..k], measure, col, k, out, line, cur)
    ensures WrapLoop(ws, measure, col, k, out, line, cur)
  {
    assert ws[..k][..k] == ws[..k];
    if k > 0 {
      assert ws[..k][0] == ws[0];
    }
  }

  lemma AllWordsPrefix(ws: seq<string>, k: nat)
    requires AllWords(ws) && k <= |ws|
    ensures AllWords(ws[..k])
  {
    forall i | 0 <= i < k ensures IsWord(ws[..k][i]) {
      assert ws[..k][i] == ws[i];
    }
  }

  /** One more word, in terms of WrapState and CurrentWords. */
  lemma WrapStateNext(ws: seq<string>, measure: string -> real, col: real)
    requires AllWords(ws) && ws != []
    requires var p := ws[..|ws| - 1];
             WrapLoop(ws, measure, col, |ws| - 1, WrapState(p, measure, col).0,
                      WrapState(p, measure, col).1, CurrentWords(p, measure, col))
    ensures WrapLoop(ws, measure, col, |ws|, WrapState(ws, measure, col).0,
                     WrapState(ws, measure, col).1, CurrentWords(ws, measure, col))
  {
    var k := |ws| - 1;
    var p := ws[..k];
    var (out, line) := WrapState(p, measure, col);
    var cur := CurrentWords(p, measure, col);
    if measure(Strip(line + " " + ws[k])) > col {
      WrapFlush(ws, measure, col, k, out, line, cur);
    } else {
      WrapExtend(ws, measure, col, k, out, line, cur);
    }
  }

  /** WrapState is the wrap loop's state after all the words. */
  lemma {:induction false} WrapStateLoop(ws: seq<string>, measure: string -> real, col: real)
    requires AllWords(ws)
    ensures WrapLoop(ws, measure, col, |ws|, WrapState(ws, measure, col).0,
                     WrapState(ws, measure, col).1, CurrentWords(ws, measure, col))
    decreases |ws|
  {
    if ws == [] {
      WrapStart(ws, measure, col);
    } else {
      var k := |ws| - 1;
      var p := ws[..k];
      AllWordsPrefix(ws, k);
      WrapStateLoop(p, measure, col);
      WrapLoopPrefix(ws, measure, col, k, WrapState(p, measure, col).0,
                     WrapState(p, measure, col).1, CurrentWords(p, measure, col));
      WrapStateNext(ws, measure, col);
    }
  }

  /** The greedy wrap keeps every word in order, and its lines fit as
      GreedyWrap says. */
  lemma WrapIsGreedy(ws: seq<string>, measure: string -> real, col: real)
    requires AllWords(ws)
    ensures GreedyWrap(ws, measure, col, Wrap(ws, measure, col))
  {
    WrapStateLoop(ws, measure, col);
    WrapFinish(ws, measure, col, WrapState(ws, measure, col).0,
               WrapState(ws, measure, col).1, CurrentWords(ws, measure, col));
  }

  /** A prefix of a sequence is a prefix of anything that extends it. */
  lemma PrefixAppend<T>(a: seq<T>, b: seq<T>, c: seq<T>)
    requires a <= b
    ensures a <= b + c
  {
    assert (b + c)[..|a|] == b[..|a|];
  }

  lemma AppendEmpty<T>(a: seq<T>)
    ensures [] + a == a
  {
  }

  lemma AppendNil<T>(a: seq<T>)
    ensures a + [] == a
  {
  }

  lemma AppendAssoc<T>(a: seq<T>, b: seq<T>, c: seq<T>)
    ensures a + (b + c) == a + b + c
  {
  }

  lemma PrefixTrans<T>(a: seq<T>, b: seq<T>, c: seq<T>)
    requires a <= b && b <= c
    ensures a <= c
  {
    assert c[..|a|] == c[..|b|][..|a|];
  }

  lemma TakeStep<T>(s: seq<T>, k: nat)
    requires k < |s|
    ensures s[..k + 1] == s[..k] + [s[k]]
  {
  }

  lemma PrefixSplit<T>(a: seq<T>, b: seq<T>)
    requires a <= b
    ensures b == a + b[|a|..]
  {
  }

}
