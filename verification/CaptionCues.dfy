/**
  * The caption layout engine: wrap by measured width, group lines into cues, merge
  * short cues. Each loop of the source is a method proved equal to a specification
  * function; the lemmas are about those functions.
  */
module CaptionCues {
  import opened Outcome
  import opened CaptionText

  /** The source rejects a measurer that returns a negative width. */
  type Width = w: real | w >= 0.0

  datatype Profile = Profile(
    maxLineWidth: real,
    maxLines: nat,
    minFill: real,
    maxUnitsPerSecond: real,
    measure: Text -> Width
  )

  datatype RawCue = RawCue(text: Text, lines: seq<Text>)

  /** The one assumption on the measurer that the width results need. */
  ghost predicate TrimNeverWidens(p: Profile) {
    forall t: Text :: p.measure(Trim(t)) <= p.measure(t)
  }

  predicate Fits(t: Text, p: Profile) { p.measure(t) <= p.maxLineWidth }

  // ----- fittingGraphemeCount

  /** Length of the longest prefix all of whose own prefixes, from `n` graphemes on, fit. */
  function FitCount(parts: Text, n: nat, p: Profile): (count: nat)
    requires n <= |parts|
    ensures n <= count <= |parts|
    decreases |parts| - n
  {
    if n < |parts| && Fits(parts[..n + 1], p) then FitCount(parts, n + 1, p) else n
  }

  lemma {:induction false} FitCountFits(parts: Text, n: nat, p: Profile, k: nat)
    requires n <= |parts|
    ensures n < k <= FitCount(parts, n, p) ==> Fits(parts[..k], p)
    ensures FitCount(parts, n, p) < |parts| ==> !Fits(parts[..FitCount(parts, n, p) + 1], p)
    decreases |parts| - n
  {
    if n < |parts| && Fits(parts[..n + 1], p) {
      FitCountFits(parts, n + 1, p, k);
    }
  }

  method FittingGraphemeCount(parts: Text, p: Profile) returns (count: nat)
    ensures count == FitCount(parts, 0, p)
  {
    count := 0;
    var candidate: Text := [];
    while count < |parts|
      invariant count <= |parts| && candidate == parts[..count]
      invariant FitCount(parts, count, p) == FitCount(parts, 0, p)
    {
      var next := candidate + [parts[count]];
      assert next == parts[..count + 1];
      if p.measure(next) > p.maxLineWidth {
        break;
      }
      candidate := next;
      count := count + 1;
    }
  }

  // ----- preferredBreakIndex

  predicate ShortPrefix(parts: Text, i: nat, p: Profile)
    requires i <= |parts|
  {
    p.measure(Trim(parts[..i])) < p.maxLineWidth * p.minFill
  }

  /** A strong mark ends a line at `i`, unless short sentences may be merged and this one is short. */
  predicate StrongBreak(parts: Text, i: nat, p: Profile, allowShort: bool)
    requires 0 < i <= |parts|
  {
    IsStrong(parts[i - 1]) && (!allowShort || !ShortPrefix(parts, i, p))
  }

  predicate WordBreak(parts: Text, i: nat)
    requires 0 < i <= |parts|
  {
    IsSpace(parts[i - 1]) && !IsStrong(parts[i - 1])
  }

  /** The last break of each sort in 1..n, or 0. */
  function LastStrong(parts: Text, n: nat, p: Profile, allowShort: bool): (r: nat)
    requires n <= |parts|
    ensures r <= n
  {
    if n == 0 then 0 else if StrongBreak(parts, n, p, allowShort) then n else LastStrong(parts, n - 1, p, allowShort)
  }

  function LastClause(parts: Text, n: nat): (r: nat)
    requires n <= |parts|
    ensures r <= n
  {
    if n == 0 then 0 else if parts[n - 1].kind.Clause? then n else LastClause(parts, n - 1)
  }

  function LastWord(parts: Text, n: nat): (r: nat)
    requires n <= |parts|
    ensures r <= n
  {
    if n == 0 then 0 else if WordBreak(parts, n) then n else LastWord(parts, n - 1)
  }

  function FirstNonzero(a: nat, b: nat, c: nat, d: nat): nat {
    if a != 0 then a else if b != 0 then b else if c != 0 then c else d
  }

  /** Break after the last strong mark that fits, else the last clause mark, else the last space, else at the edge. */
  function BreakIndex(parts: Text, fit: nat, p: Profile, allowShort: bool): (r: nat)
    requires 0 < fit <= |parts|
    ensures 0 < r <= fit
  {
    FirstNonzero(LastStrong(parts, fit, p, allowShort), LastClause(parts, fit), LastWord(parts, fit), fit)
  }

  // Where a line may end, read from the graphemes alone.

  ghost predicate EndsAtStrong(parts: Text, i: nat, p: Profile, allowShort: bool) {
    && 0 < i <= |parts|
    && (parts[i - 1].kind.Strong? || parts[i - 1].kind.Newline?)
    && (allowShort ==> p.measure(Trim(parts[..i])) >= p.maxLineWidth * p.minFill)
  }

  ghost predicate EndsAtClause(parts: Text, i: nat) {
    0 < i <= |parts| && parts[i - 1].kind.Clause?
  }

  ghost predicate EndsAtSpace(parts: Text, i: nat) {
    0 < i <= |parts| && (parts[i - 1].kind.Blank? || parts[i - 1].kind.Gap?)
  }

  /**
    * `r` is the last strong end in 1..fit if there is one, else the last clause end,
    * else the last space, else `fit` itself.
    */
  ghost predicate Preferred(parts: Text, fit: nat, p: Profile, allowShort: bool, r: nat) {
    if exists i: nat :: i <= fit && EndsAtStrong(parts, i, p, allowShort) then
      && r <= fit && EndsAtStrong(parts, r, p, allowShort)
      && forall i | r < i <= fit :: !EndsAtStrong(parts, i, p, allowShort)
    else if exists i: nat :: i <= fit && EndsAtClause(parts, i) then
      r <= fit && EndsAtClause(parts, r) && forall i | r < i <= fit :: !EndsAtClause(parts, i)
    else if exists i: nat :: i <= fit && EndsAtSpace(parts, i) then
      r <= fit && EndsAtSpace(parts, r) && forall i | r < i <= fit :: !EndsAtSpace(parts, i)
    else r == fit
  }

  lemma {:induction false} LastStrongIsLast(parts: Text, n: nat, p: Profile, allowShort: bool)
    requires n <= |parts|
    ensures var r := LastStrong(parts, n, p, allowShort);
            && (r != 0 ==> EndsAtStrong(parts, r, p, allowShort))
            && forall i | r < i <= n :: !EndsAtStrong(parts, i, p, allowShort)
  {
    if n > 0 && !StrongBreak(parts, n, p, allowShort) {
      LastStrongIsLast(parts, n - 1, p, allowShort);
    }
  }

  lemma {:induction false} LastClauseIsLast(parts: Text, n: nat)
    requires n <= |parts|
    ensures var r := LastClause(parts, n);
            (r != 0 ==> EndsAtClause(parts, r)) && forall i | r < i <= n :: !EndsAtClause(parts, i)
  {
    if n > 0 && !parts[n - 1].kind.Clause? {
      LastClauseIsLast(parts, n - 1);
    }
  }

  lemma {:induction false} LastWordIsLast(parts: Text, n: nat)
    requires n <= |parts|
    ensures var r := LastWord(parts, n);
            (r != 0 ==> EndsAtSpace(parts, r)) && forall i | r < i <= n :: !EndsAtSpace(parts, i)
  {
    if n > 0 && !WordBreak(parts, n) {
      LastWordIsLast(parts, n - 1);
    }
  }

  /** The chosen end is the preferred one, and there is no other. */
  lemma {:induction false} BreakIsPreferred(parts: Text, fit: nat, p: Profile, allowShort: bool, r: nat)
    requires 0 < fit <= |parts|
    ensures Preferred(parts, fit, p, allowShort, r) <==> r == BreakIndex(parts, fit, p, allowShort)
  {
    LastStrongIsLast(parts, fit, p, allowShort);
    LastClauseIsLast(parts, fit);
    LastWordIsLast(parts, fit);
  }

  method PreferredBreakIndex(parts: Text, fit: nat, p: Profile, allowShort: bool) returns (r: nat)
    requires 0 < fit <= |parts|
    ensures Preferred(parts, fit, p, allowShort, r)
    ensures r == BreakIndex(parts, fit, p, allowShort)
  {
    var strong, clause, word := 0, 0, 0;
    for index := 1 to fit + 1
      invariant strong == LastStrong(parts, index - 1, p, allowShort)
      invariant clause == LastClause(parts, index - 1)
      invariant word == LastWord(parts, index - 1)
    {
      var part := parts[index - 1];
      if IsStrong(part) {
        var isShort := p.measure(Trim(parts[..index])) < p.maxLineWidth * p.minFill;
        if !allowShort || !isShort {
          strong := index;
        }
      } else if part.kind.Clause? {
        clause := index;
      } else if IsSpace(part) {
        word := index;
      }
    }
    r := FirstNonzero(strong, clause, word, fit);
    BreakIsPreferred(parts, fit, p, allowShort, r);
  }

  // ----- wrapText

  function LineEnd(parts: Text, p: Profile, allowShort: bool): (r: nat)
    requires parts != []
    ensures 0 < r <= |parts|
  {
    var count := FitCount(parts, 0, p);
    var fit := if count == 0 then 1 else count;
    if fit == |parts| then fit else BreakIndex(parts, fit, p, allowShort)
  }

  /** Where the next line ends, for text that is not empty. */
  type Cutter = c: Text -> nat | forall t | t != [] :: 0 < c(t) <= |t| witness ((t: Text) => |t|)

  function LineCutter(p: Profile, allowShort: bool): Cutter {
    t => if t == [] then 0 else LineEnd(t, p, allowShort)
  }

  function WrapWith(parts: Text, cut: Cutter): seq<Text>
    decreases |parts|
  {
    if parts == [] then []
    else
      var line, rest := Trim(parts[..cut(parts)]), TrimStart(parts[cut(parts)..]);
      if line == [] then WrapWith(rest, cut) else [line] + WrapWith(rest, cut)
  }

  function Wrap(parts: Text, p: Profile, allowShort: bool): seq<Text> { WrapWith(parts, LineCutter(p, allowShort)) }

  function Wrapper(p: Profile, allowShort: bool): Text -> seq<Text> { parts => Wrap(parts, p, allowShort) }

  method WrapText(text: Text, p: Profile, allowShort: bool) returns (lines: seq<Text>)
    ensures CutInto(text, lines, WellCut(p, allowShort))
    ensures lines == Wrap(text, p, allowShort)
  {
    lines := WrapPass(text, p, allowShort, Wrapper(p, allowShort));
    WrapIsWellCut(text, p, allowShort, lines);
  }

  /** As much as fits on the line grapheme by grapheme, and one grapheme at least. */
  ghost predicate Fitting(parts: Text, fit: nat, p: Profile) {
    && 1 <= fit <= |parts|
    && (fit == 1 || forall k | 1 <= k <= fit :: p.measure(parts[..k]) <= p.maxLineWidth)
    && (fit == |parts| || exists k :: 1 <= k <= fit + 1 && p.measure(parts[..k]) > p.maxLineWidth)
  }

  /** All that is left when it fits, else the preferred end within what fits. */
  ghost predicate GoodEnd(parts: Text, end: nat, p: Profile, allowShort: bool) {
    exists fit :: Fitting(parts, fit, p)
                  && if fit == |parts| then end == fit else Preferred(parts, fit, p, allowShort, end)
  }

  ghost function WellCut(p: Profile, allowShort: bool): (Text, nat) -> bool {
    (parts: Text, end: nat) => GoodEnd(parts, end, p, allowShort)
  }

  /** `lines` are the trimmed pieces that are not blank when every cut of `parts` satisfies `good`. */
  ghost predicate CutInto(parts: Text, lines: seq<Text>, good: (Text, nat) -> bool)
    decreases |parts|
  {
    if parts == [] then lines == []
    else exists end :: 0 < end <= |parts| && good(parts, end) && CutAt(parts, lines, good, end)
  }

  ghost predicate CutAt(parts: Text, lines: seq<Text>, good: (Text, nat) -> bool, end: nat)
    requires 0 < end <= |parts|
    decreases |parts|, 0
  {
    var line, rest := Trim(parts[..end]), TrimStart(parts[end..]);
    if line == [] then CutInto(rest, lines, good)
    else lines != [] && lines[0] == line && CutInto(rest, lines[1..], good)
  }

  lemma {:induction false} FitCountIsFitting(parts: Text, p: Profile, fit: nat)
    requires parts != []
    ensures Fitting(parts, fit, p) <==> fit == (if FitCount(parts, 0, p) == 0 then 1 else FitCount(parts, 0, p))
  {
    var count := FitCount(parts, 0, p);
    forall k | 1 <= k <= count
      ensures p.measure(parts[..k]) <= p.maxLineWidth
    {
      FitCountFits(parts, 0, p, k);
    }
    FitCountFits(parts, 0, p, 0);
    assert count < |parts| ==> p.measure(parts[..count + 1]) > p.maxLineWidth;
  }

  lemma {:induction false} LineEndIsGood(parts: Text, p: Profile, allowShort: bool, end: nat)
    requires parts != []
    ensures GoodEnd(parts, end, p, allowShort) <==> end == LineEnd(parts, p, allowShort)
  {
    var fit := if FitCount(parts, 0, p) == 0 then 1 else FitCount(parts, 0, p);
    forall k: nat
      ensures Fitting(parts, k, p) <==> k == fit
    {
      FitCountIsFitting(parts, p, k);
    }
    BreakIsPreferred(parts, fit, p, allowShort, end);
  }

  lemma {:induction false} CutsDetermineLines(parts: Text, lines: seq<Text>, good: (Text, nat) -> bool, cut: Cutter)
    requires forall t: Text, end | t != [] && 0 < end <= |t| :: good(t, end) <==> end == cut(t)
    ensures CutInto(parts, lines, good) <==> lines == WrapWith(parts, cut)
    decreases |parts|
  {
    if parts != [] {
      var end := cut(parts);
      var line, rest := Trim(parts[..end]), TrimStart(parts[end..]);
      if line == [] {
        CutsDetermineLines(rest, lines, good, cut);
      } else if lines != [] {
        CutsDetermineLines(rest, lines[1..], good, cut);
        assert lines == [lines[0]] + lines[1..];
      }
      assert CutInto(parts, lines, good) <==> CutAt(parts, lines, good, end);
    }
  }

  /** Wrapping cuts every line at the good end and nowhere else: the lines are determined by their cuts. */
  lemma {:induction false} WrapIsWellCut(parts: Text, p: Profile, allowShort: bool, lines: seq<Text>)
    ensures CutInto(parts, lines, WellCut(p, allowShort)) <==> lines == Wrap(parts, p, allowShort)
  {
    var good, cut := WellCut(p, allowShort), LineCutter(p, allowShort);
    forall t: Text, end | t != [] && 0 < end <= |t|
      ensures good(t, end) <==> end == cut(t)
    {
      LineEndIsGood(t, p, allowShort, end);
    }
    CutsDetermineLines(parts, lines, good, cut);
  }

  /**
    * A line that does not take all that is left ends after a space or a mark, or no
    * space and no mark that may end a line is anywhere on it.
    */
  ghost predicate BetweenWords(parts: Text, end: nat, p: Profile, allowShort: bool) {
    || end == |parts|
    || EndsAtStrong(parts, end, p, allowShort) || EndsAtClause(parts, end) || EndsAtSpace(parts, end)
    || forall i: nat | i <= end :: !EndsAtStrong(parts, i, p, allowShort) && !EndsAtClause(parts, i) && !EndsAtSpace(parts, i)
  }

  lemma {:induction false} CutsWeaken(parts: Text, lines: seq<Text>, good: (Text, nat) -> bool, weaker: (Text, nat) -> bool)
    requires CutInto(parts, lines, good)
    requires forall t, end | good(t, end) :: weaker(t, end)
    ensures CutInto(parts, lines, weaker)
    decreases |parts|
  {
    if parts != [] {
      var end :| 0 < end <= |parts| && good(parts, end) && CutAt(parts, lines, good, end);
      var rest := TrimStart(parts[end..]);
      CutsWeaken(rest, if Trim(parts[..end]) == [] then lines else lines[1..], good, weaker);
      assert CutAt(parts, lines, weaker, end);
    }
  }

  ghost function WholeWords(p: Profile, allowShort: bool): (Text, nat) -> bool {
    (parts: Text, end: nat) => BetweenWords(parts, end, p, allowShort)
  }

  lemma {:induction false} GoodEndBetweenWords(parts: Text, end: nat, p: Profile, allowShort: bool)
    requires GoodEnd(parts, end, p, allowShort)
    ensures BetweenWords(parts, end, p, allowShort)
  {
    var fit :| Fitting(parts, fit, p)
               && if fit == |parts| then end == fit else Preferred(parts, fit, p, allowShort, end);
  }

  /** No line ends inside a word when a space or a mark to end it at is on the line. */
  lemma {:induction false} WrapCutsBetweenWords(parts: Text, p: Profile, allowShort: bool)
    ensures CutInto(parts, Wrap(parts, p, allowShort), WholeWords(p, allowShort))
  {
    var lines := Wrap(parts, p, allowShort);
    WrapIsWellCut(parts, p, allowShort, lines);
    forall t, end | WellCut(p, allowShort)(t, end)
      ensures WholeWords(p, allowShort)(t, end)
    {
      GoodEndBetweenWords(t, end, p, allowShort);
    }
    CutsWeaken(parts, lines, WellCut(p, allowShort), WholeWords(p, allowShort));
  }

  /** The loop of `wrapText`; `wrapped` is what it is to compute. */
  method WrapPass(text: Text, p: Profile, allowShort: bool, ghost wrapped: Text -> seq<Text>) returns (lines: seq<Text>)
    requires Agree(wrapped, Wrapper(p, allowShort))
    ensures lines == wrapped(text)
  {
    var parts := text;
    lines := [];
    while parts != []
      invariant lines + wrapped(parts) == wrapped(text)
      decreases |parts|
    {
      lines, parts := TakeLine(lines, parts, p, allowShort, wrapped);
    }
    WrapNothing(p, allowShort, wrapped);
  }

  lemma {:induction false} WrapNothing(p: Profile, allowShort: bool, wrapped: Text -> seq<Text>)
    requires Agree(wrapped, Wrapper(p, allowShort))
    ensures wrapped([]) == []
  {
    var none: Text := [];
    assert At(none);
  }

  /** One turn of the loop: the next line, if it is not blank, and the parts after it. */
  method TakeLine(lines: seq<Text>, parts: Text, p: Profile, allowShort: bool, ghost wrapped: Text -> seq<Text>)
    returns (more: seq<Text>, rest: Text)
    requires parts != [] && Agree(wrapped, Wrapper(p, allowShort))
    ensures |rest| < |parts| && lines + wrapped(parts) == more + wrapped(rest)
  {
    ghost var cut := LineCutter(p, allowShort);
    var end := NextLineEnd(parts, p, allowShort, cut);
    var line := Trim(parts[..end]);
    rest := TrimStart(parts[end..]);
    WrapStep(lines, parts, cut);
    more := if line == [] then lines else lines + [line];
    assert At(parts) && At(rest);
  }

  lemma {:induction false} WrapStep(lines: seq<Text>, parts: Text, cut: Cutter)
    requires parts != []
    ensures var line, rest := Trim(parts[..cut(parts)]), TrimStart(parts[cut(parts)..]);
            && |rest| < |parts|
            && lines + WrapWith(parts, cut) == (if line == [] then lines else lines + [line]) + WrapWith(rest, cut)
  {
    var line, rest := Trim(parts[..cut(parts)]), TrimStart(parts[cut(parts)..]);
    Reassociate(lines, [line], WrapWith(rest, cut));
  }

  method NextLineEnd(parts: Text, p: Profile, allowShort: bool, ghost cut: Cutter) returns (end: nat)
    requires parts != [] && Agree(cut, LineCutter(p, allowShort))
    ensures end == cut(parts)
  {
    assert At(parts);
    var fit := FittingGraphemeCount(parts, p);
    if fit == 0 {
      fit := 1;
    }
    end := fit;
    if fit != |parts| {
      end := PreferredBreakIndex(parts, fit, p, allowShort);
    }
  }

  /** Nonblank, trimmed, and either within the width or a single grapheme too wide to split. */
  predicate LineOk(line: Text, p: Profile) {
    line != [] && Trimmed(line) && (Fits(line, p) || |line| == 1)
  }

  lemma {:induction false} LineEndOk(parts: Text, p: Profile, allowShort: bool)
    requires parts != [] && TrimNeverWidens(p)
    ensures var line := Trim(parts[..LineEnd(parts, p, allowShort)]); line == [] || LineOk(line, p)
  {
    var end := LineEnd(parts, p, allowShort);
    var prefix := parts[..end];
    TrimTrims(prefix);
    if FitCount(parts, 0, p) > 0 {
      FitCountFits(parts, 0, p, end);
      assert p.measure(Trim(prefix)) <= p.measure(prefix);
    }
  }

  lemma {:induction false} WrapWithOk(parts: Text, cut: Cutter, p: Profile)
    requires forall t | t != [] :: var line := Trim(t[..cut(t)]); line == [] || LineOk(line, p)
    ensures forall line | line in WrapWith(parts, cut) :: LineOk(line, p)
    decreases |parts|
  {
    if parts != [] {
      WrapWithOk(TrimStart(parts[cut(parts)..]), cut, p);
    }
  }

  /** Every wrapped line is displayable. */
  lemma {:induction false} WrapLinesOk(parts: Text, p: Profile, allowShort: bool)
    requires TrimNeverWidens(p)
    ensures forall line | line in Wrap(parts, p, allowShort) :: LineOk(line, p)
  {
    var cut := LineCutter(p, allowShort);
    forall t | t != []
      ensures var line := Trim(t[..cut(t)]); line == [] || LineOk(line, p)
    {
      LineEndOk(t, p, allowShort);
    }
    WrapWithOk(parts, cut, p);
  }

  lemma {:induction false} CutKeeps(parts: Text, end: nat)
    requires end <= |parts|
    ensures Ink(Trim(parts[..end])) + Ink(TrimStart(parts[end..])) == Ink(parts)
  {
    TrimKeeps(parts[..end], Inked);
    TrimStartKeeps(parts[end..], Inked);
    assert parts == parts[..end] + parts[end..];
    KeepConcat(parts[..end], parts[end..], Inked);
  }

  lemma {:induction false} FlattenCons(line: Text, lines: seq<Text>, p: Grapheme -> bool)
    ensures Keep(Flatten([line] + lines), p) == Keep(line, p) + Keep(Flatten(lines), p)
  {
    assert ([line] + lines)[1..] == lines;
    KeepConcat(line, Flatten(lines), p);
  }

  lemma {:induction false} WrapWithKeeps(parts: Text, cut: Cutter)
    ensures Ink(Flatten(WrapWith(parts, cut))) == Ink(parts)
    decreases |parts|
  {
    if parts != [] {
      var line, rest := Trim(parts[..cut(parts)]), TrimStart(parts[cut(parts)..]);
      WrapWithKeeps(rest, cut);
      CutKeeps(parts, cut(parts));
      FlattenCons(line, WrapWith(rest, cut), Inked);
    }
  }

  /** Wrapping loses no ink and repeats none. */
  lemma {:induction false} WrapKeeps(parts: Text, p: Profile, allowShort: bool)
    ensures Ink(Flatten(Wrap(parts, p, allowShort))) == Ink(parts)
  {
    WrapWithKeeps(parts, LineCutter(p, allowShort));
  }

  // ----- rawCuesForSpan

  function JoinLines(acc: Text, lines: seq<Text>, spaced: bool): Text
    decreases |lines|
  {
    if lines == [] then acc else JoinLines(Join(acc, lines[0], spaced), lines[1..], spaced)
  }

  function Group(lines: seq<Text>, size: nat, spaced: bool): seq<RawCue>
    requires size > 0
    decreases |lines|
  {
    if lines == [] then []
    else
      var n := if size < |lines| then size else |lines|;
      [RawCue(JoinLines([], lines[..n], spaced), lines[..n])] + Group(lines[n..], size, spaced)
  }

  function RawCues(span: Text, p: Profile, spaced: bool): seq<RawCue>
    requires p.maxLines > 0
  {
    Group(Wrap(span, p, false), p.maxLines, spaced)
  }

  method RawCuesForSpan(span: Text, p: Profile, spaced: bool) returns (cues: seq<RawCue>)
    requires p.maxLines > 0
    ensures cues == RawCues(span, p, spaced)
  {
    var lines := WrapText(span, p, false);
    cues := GroupLines(lines, p.maxLines, spaced);
  }

  method GroupLines(lines: seq<Text>, size: nat, spaced: bool) returns (cues: seq<RawCue>)
    requires size > 0
    ensures cues == Group(lines, size, spaced)
  {
    cues := GroupPass(lines, size, spaced, Grouper(size, spaced));
  }

  function Grouper(size: nat, spaced: bool): seq<Text> -> seq<RawCue>
    requires size > 0
  {
    lines => Group(lines, size, spaced)
  }

  /** The loop of `rawCuesForSpan`; `grouped` is what it is to compute. */
  method GroupPass(lines: seq<Text>, size: nat, spaced: bool, ghost grouped: seq<Text> -> seq<RawCue>) returns (cues: seq<RawCue>)
    requires size > 0 && Agree(grouped, Grouper(size, spaced))
    ensures cues == grouped(lines)
  {
    cues := [];
    var index := 0;
    ghost var todo := lines;
    while index < |lines|
      invariant todo == if index <= |lines| then lines[index..] else []
      invariant cues + grouped(todo) == grouped(lines)
      decreases |lines| - index
    {
      var end := if index + size < |lines| then index + size else |lines|;
      var cueLines := lines[index..end];
      var cue := RawCue(JoinLines([], cueLines, spaced), cueLines);
      GroupTurn(lines, index, end, size, spaced, grouped);
      Reassociate(cues, [cue], grouped(lines[end..]));
      cues := cues + [cue];
      todo := lines[end..];
      index := index + size;
    }
    GroupNothing(size, spaced, grouped);
  }

  lemma {:induction false} GroupNothing(size: nat, spaced: bool, grouped: seq<Text> -> seq<RawCue>)
    requires size > 0 && Agree(grouped, Grouper(size, spaced))
    ensures grouped([]) == []
  {
    var none: seq<Text> := [];
    assert At(none);
  }

  lemma {:induction false} GroupTurn(lines: seq<Text>, index: nat, end: nat, size: nat, spaced: bool, grouped: seq<Text> -> seq<RawCue>)
    requires index < |lines| && size > 0 && Agree(grouped, Grouper(size, spaced))
    requires end == if index + size < |lines| then index + size else |lines|
    ensures grouped(lines[index..]) == [RawCue(JoinLines([], lines[index..end], spaced), lines[index..end])] + grouped(lines[end..])
  {
    GroupStep(lines[index..], end - index, size, spaced, grouped);
    assert lines[index..][..end - index] == lines[index..end] && lines[index..][end - index..] == lines[end..];
  }

  lemma {:induction false} GroupStep(lines: seq<Text>, n: nat, size: nat, spaced: bool, grouped: seq<Text> -> seq<RawCue>)
    requires lines != [] && size > 0 && Agree(grouped, Grouper(size, spaced))
    requires n == if size < |lines| then size else |lines|
    ensures grouped(lines) == [RawCue(JoinLines([], lines[..n], spaced), lines[..n])] + grouped(lines[n..])
  {
    assert At(lines) && At(lines[n..]);
  }

  function TextOf(cues: seq<RawCue>): Text {
    if cues == [] then [] else cues[0].text + TextOf(cues[1..])
  }

  /** Between one and `maxLines` displayable lines that carry exactly the ink of the cue's text. */
  predicate CueOk(cue: RawCue, p: Profile) {
    && 1 <= |cue.lines| <= p.maxLines
    && (forall line | line in cue.lines :: LineOk(line, p))
    && Ink(Flatten(cue.lines)) == Ink(cue.text)
  }

  predicate CuesOk(cues: seq<RawCue>, p: Profile) { forall cue | cue in cues :: CueOk(cue, p) }

  lemma {:induction false} TextOfConcat(a: seq<RawCue>, b: seq<RawCue>, p: Grapheme -> bool)
    ensures Keep(TextOf(a + b), p) == Keep(TextOf(a), p) + Keep(TextOf(b), p)
  {
    if a == [] {
      assert a + b == b;
    } else {
      assert (a + b)[1..] == a[1..] + b;
      TextOfConcat(a[1..], b, p);
      KeepConcat(a[0].text, TextOf(a[1..] + b), p);
      KeepConcat(a[0].text, TextOf(a[1..]), p);
      Reassociate(Keep(a[0].text, p), Keep(TextOf(a[1..]), p), Keep(TextOf(b), p));
    }
  }

  lemma {:induction false} JoinLinesKeeps(acc: Text, lines: seq<Text>, spaced: bool)
    ensures Ink(JoinLines(acc, lines, spaced)) == Ink(acc) + Ink(Flatten(lines))
    decreases |lines|
  {
    if lines != [] {
      JoinKeeps(acc, lines[0], spaced, Inked);
      JoinLinesKeeps(Join(acc, lines[0], spaced), lines[1..], spaced);
      KeepConcat(lines[0], Flatten(lines[1..]), Inked);
      Reassociate(Ink(acc), Ink(lines[0]), Ink(Flatten(lines[1..])));
    }
  }

  lemma {:induction false} TextOfCons(cue: RawCue, cues: seq<RawCue>, p: Grapheme -> bool)
    ensures Keep(TextOf([cue] + cues), p) == Keep(cue.text, p) + Keep(TextOf(cues), p)
  {
    assert ([cue] + cues)[1..] == cues;
    KeepConcat(cue.text, TextOf(cues), p);
  }

  lemma {:induction false} SplitLines(lines: seq<Text>, n: nat)
    requires n <= |lines|
    ensures Ink(Flatten(lines)) == Ink(Flatten(lines[..n])) + Ink(Flatten(lines[n..]))
  {
    assert lines == lines[..n] + lines[n..];
    FlattenConcat(lines[..n], lines[n..]);
    KeepConcat(Flatten(lines[..n]), Flatten(lines[n..]), Inked);
  }

  lemma {:induction false} GroupKeeps(lines: seq<Text>, size: nat, spaced: bool)
    requires size > 0
    ensures Ink(TextOf(Group(lines, size, spaced))) == Ink(Flatten(lines))
    decreases |lines|
  {
    if lines != [] {
      var n := if size < |lines| then size else |lines|;
      GroupKeeps(lines[n..], size, spaced);
      JoinLinesKeeps([], lines[..n], spaced);
      SplitLines(lines, n);
      TextOfCons(RawCue(JoinLines([], lines[..n], spaced), lines[..n]), Group(lines[n..], size, spaced), Inked);
    }
  }

  lemma {:induction false} GroupOk(lines: seq<Text>, p: Profile, spaced: bool)
    requires p.maxLines > 0
    requires forall line | line in lines :: LineOk(line, p)
    ensures CuesOk(Group(lines, p.maxLines, spaced), p)
    decreases |lines|
  {
    if lines != [] {
      var n := if p.maxLines < |lines| then p.maxLines else |lines|;
      var cue := RawCue(JoinLines([], lines[..n], spaced), lines[..n]);
      JoinLinesKeeps([], lines[..n], spaced);
      assert CueOk(cue, p);
      GroupOk(lines[n..], p, spaced);
    }
  }

  lemma {:induction false} RawCuesOk(span: Text, p: Profile, spaced: bool)
    requires p.maxLines > 0
    ensures Ink(TextOf(RawCues(span, p, spaced))) == Ink(span)
    ensures TrimNeverWidens(p) ==> CuesOk(RawCues(span, p, spaced), p)
  {
    WrapKeeps(span, p, false);
    GroupKeeps(Wrap(span, p, false), p.maxLines, spaced);
    if TrimNeverWidens(p) {
      WrapLinesOk(span, p, false);
      GroupOk(Wrap(span, p, false), p, spaced);
    }
  }

  // ----- mergeShortCues

  function TryMerged(left: RawCue, right: RawCue, p: Profile, spaced: bool): Option<RawCue> {
    var text := Join(left.text, right.text, spaced);
    var lines := Wrap(text, p, true);
    if |lines| > p.maxLines then None else Some(RawCue(text, lines))
  }

  predicate IsShort(cue: RawCue, p: Profile) {
    p.measure(cue.text) < p.maxLineWidth * (p.maxLines as real) * p.minFill
  }

  type Merger = (RawCue, RawCue) -> Option<RawCue>

  function Shorts(p: Profile): RawCue -> bool { cue => IsShort(cue, p) }

  function Joins(p: Profile, spaced: bool): Merger { (left, right) => TryMerged(left, right, p, spaced) }

  function Spliced(cues: seq<RawCue>, i: nat, merged: RawCue): seq<RawCue>
    requires i + 1 < |cues|
  {
    cues[..i] + [merged] + cues[i + 2..]
  }

  /**
    * One pass over `cues` from `index` on: a short cue merges with its successor, else
    * with its predecessor (stepping back), else stays. Terminates because every merge
    * shortens the list and every other step moves on.
    */
  function MergeFrom(cues: seq<RawCue>, index: nat, short: RawCue -> bool, merge: Merger): seq<RawCue>
    decreases |cues|, |cues| - index
  {
    if index >= |cues| then cues
    else if !short(cues[index]) then MergeFrom(cues, index + 1, short, merge)
    else if index + 1 < |cues| && merge(cues[index], cues[index + 1]).Some? then
      MergeFrom(Spliced(cues, index, merge(cues[index], cues[index + 1]).value), index, short, merge)
    else if index > 0 && merge(cues[index - 1], cues[index]).Some? then
      MergeFrom(Spliced(cues, index - 1, merge(cues[index - 1], cues[index]).value), index - 1, short, merge)
    else MergeFrom(cues, index + 1, short, merge)
  }

  function Merge(cues: seq<RawCue>, p: Profile, spaced: bool): seq<RawCue> {
    MergeFrom(cues, 0, Shorts(p), Joins(p, spaced))
  }

  method MergeShortCues(values: seq<RawCue>, p: Profile, spaced: bool) returns (cues: seq<RawCue>)
    ensures cues == Merge(values, p, spaced)
  {
    cues := MergePass(values, Shorts(p), Joins(p, spaced));
  }

  /** The loop of `mergeShortCues`, over the threshold test and the merge attempt it closes over. */
  method MergePass(values: seq<RawCue>, short: RawCue -> bool, merge: Merger) returns (cues: seq<RawCue>)
    ensures cues == MergeFrom(values, 0, short, merge)
  {
    cues := values;
    var index := 0;
    while index < |cues|
      invariant MergeFrom(cues, index, short, merge) == MergeFrom(values, 0, short, merge)
      decreases |cues|, |cues| - index
    {
      var cue := cues[index];
      if !short(cue) {
        index := index + 1;
        continue;
      }
      if index + 1 < |cues| {
        var merged := merge(cue, cues[index + 1]);
        if merged.Some? {
          cues := cues[..index] + [merged.value] + cues[index + 2..];
          continue;
        }
      }
      if index > 0 {
        var merged := merge(cues[index - 1], cue);
        if merged.Some? {
          cues := cues[..index - 1] + [merged.value] + cues[index + 1..];
          index := index - 1;
          continue;
        }
      }
      index := index + 1;
    }
  }

  lemma {:induction false} MergedOk(left: RawCue, right: RawCue, p: Profile, spaced: bool)
    ensures var r := TryMerged(left, right, p, spaced);
            r.Some? ==>
              && Ink(r.value.text) == Ink(left.text) + Ink(right.text)
              && (TrimNeverWidens(p) && CueOk(left, p) ==> CueOk(r.value, p))
  {
    var r := TryMerged(left, right, p, spaced);
    if r.Some? {
      var m := r.value;
      JoinKeeps(left.text, right.text, spaced, Inked);
      WrapKeeps(m.text, p, true);
      if TrimNeverWidens(p) && CueOk(left, p) {
        WrapLinesOk(m.text, p, true);
        InkedCue(left, p);
      }
    }
  }

  lemma {:induction false} InkedCue(cue: RawCue, p: Profile)
    requires CueOk(cue, p)
    ensures Ink(cue.text) != []
  {
    var line := cue.lines[0];
    assert LineOk(line, p);
    assert Inked(line[0]);
    KeepConcat(line, Flatten(cue.lines[1..]), Inked);
  }

  lemma {:induction false} SplicedInk(cues: seq<RawCue>, i: nat, m: RawCue)
    requires i + 1 < |cues|
    requires Ink(m.text) == Ink(cues[i].text) + Ink(cues[i + 1].text)
    ensures Ink(TextOf(Spliced(cues, i, m))) == Ink(TextOf(cues))
  {
    var out := Spliced(cues, i, m);
    if i == 0 {
      var rest := TextOf(cues[2..]);
      assert out[1..] == cues[2..] && cues[1..][1..] == cues[2..];
      KeepConcat(m.text, rest, Inked);
      KeepConcat(cues[1].text, rest, Inked);
      KeepConcat(cues[0].text, cues[1].text + rest, Inked);
    } else {
      assert out[1..] == Spliced(cues[1..], i - 1, m);
      SplicedInk(cues[1..], i - 1, m);
      KeepConcat(cues[0].text, TextOf(out[1..]), Inked);
      KeepConcat(cues[0].text, TextOf(cues[1..]), Inked);
    }
  }

  /** A merge attempt that keeps ink, and keeps `ok` cues `ok`. */
  ghost predicate GoodMerger(merge: Merger, ok: RawCue -> bool) {
    forall l: RawCue, r: RawCue | merge(l, r).Some? ::
      && Ink(merge(l, r).value.text) == Ink(l.text) + Ink(r.text)
      && (ok(l) ==> ok(merge(l, r).value))
  }

  /** Merging loses no ink and never adds a cue. */
  lemma {:induction false} MergeFromKeeps(cues: seq<RawCue>, index: nat, short: RawCue -> bool, merge: Merger, ok: RawCue -> bool)
    requires GoodMerger(merge, ok)
    ensures Ink(TextOf(MergeFrom(cues, index, short, merge))) == Ink(TextOf(cues))
    ensures |MergeFrom(cues, index, short, merge)| <= |cues|
    decreases |cues|, |cues| - index
  {
    if index >= |cues| {
    } else if !short(cues[index]) {
      MergeFromKeeps(cues, index + 1, short, merge, ok);
    } else if index + 1 < |cues| && merge(cues[index], cues[index + 1]).Some? {
      var m := merge(cues[index], cues[index + 1]).value;
      SplicedInk(cues, index, m);
      MergeFromKeeps(Spliced(cues, index, m), index, short, merge, ok);
    } else if index > 0 && merge(cues[index - 1], cues[index]).Some? {
      var m := merge(cues[index - 1], cues[index]).value;
      SplicedInk(cues, index - 1, m);
      MergeFromKeeps(Spliced(cues, index - 1, m), index - 1, short, merge, ok);
    } else {
      MergeFromKeeps(cues, index + 1, short, merge, ok);
    }
  }

  predicate AllOk(cues: seq<RawCue>, ok: RawCue -> bool) { forall cue | cue in cues :: ok(cue) }

  /** Merging keeps every cue displayable. */
  lemma {:induction false} MergeFromOk(cues: seq<RawCue>, index: nat, short: RawCue -> bool, merge: Merger, ok: RawCue -> bool)
    requires GoodMerger(merge, ok) && AllOk(cues, ok)
    ensures AllOk(MergeFrom(cues, index, short, merge), ok)
    decreases |cues|, |cues| - index
  {
    if index >= |cues| {
    } else if !short(cues[index]) {
      MergeFromOk(cues, index + 1, short, merge, ok);
    } else if index + 1 < |cues| && merge(cues[index], cues[index + 1]).Some? {
      var m := merge(cues[index], cues[index + 1]).value;
      SplicedAll(cues, index, m, ok);
      MergeFromOk(Spliced(cues, index, m), index, short, merge, ok);
    } else if index > 0 && merge(cues[index - 1], cues[index]).Some? {
      var m := merge(cues[index - 1], cues[index]).value;
      SplicedAll(cues, index - 1, m, ok);
      MergeFromOk(Spliced(cues, index - 1, m), index - 1, short, merge, ok);
    } else {
      MergeFromOk(cues, index + 1, short, merge, ok);
    }
  }

  lemma {:induction false} SplicedAll(cues: seq<RawCue>, i: nat, m: RawCue, ok: RawCue -> bool)
    requires i + 1 < |cues| && AllOk(cues, ok) && ok(m)
    ensures AllOk(Spliced(cues, i, m), ok)
  {
  }

  lemma {:induction false} MergeOk(cues: seq<RawCue>, p: Profile, spaced: bool)
    ensures Ink(TextOf(Merge(cues, p, spaced))) == Ink(TextOf(cues))
    ensures TrimNeverWidens(p) && CuesOk(cues, p) ==> CuesOk(Merge(cues, p, spaced), p)
    ensures |Merge(cues, p, spaced)| <= |cues|
  {
    var short, merge := Shorts(p), Joins(p, spaced);
    var ok := (cue: RawCue) => TrimNeverWidens(p) && CueOk(cue, p);
    forall l: RawCue, r: RawCue | merge(l, r).Some?
      ensures Ink(merge(l, r).value.text) == Ink(l.text) + Ink(r.text)
      ensures ok(l) ==> ok(merge(l, r).value)
    {
      MergedOk(l, r, p, spaced);
    }
    MergeFromKeeps(cues, 0, short, merge, ok);
    if TrimNeverWidens(p) && CuesOk(cues, p) {
      MergeFromOk(cues, 0, short, merge, ok);
    }
  }

  // ----- which cues are merged

  /** What `cue` becomes by merging with each of `others` in turn, on its right. */
  ghost function Grown(cue: RawCue, others: seq<RawCue>, merge: Merger): Option<RawCue> {
    if others == [] then Some(cue)
    else
      var last := |others| - 1;
      var grown := Grown(cue, others[..last], merge);
      if grown.Some? then merge(grown.value, others[last]) else None
  }

  /** `cue` could not be merged with what `next` was before it grew to the right. */
  ghost predicate Refused(cue: RawCue, next: RawCue, merge: Merger) {
    exists first, others :: merge(cue, first).None? && Grown(first, others, merge) == Some(next)
  }

  ghost predicate Alone(cues: seq<RawCue>, i: nat, short: RawCue -> bool, merge: Merger)
    requires i < |cues|
  {
    short(cues[i]) ==>
      && (i > 0 ==> merge(cues[i - 1], cues[i]).None?)
      && (i + 1 < |cues| ==> Refused(cues[i], cues[i + 1], merge))
  }

  ghost predicate AllAlone(cues: seq<RawCue>, n: nat, short: RawCue -> bool, merge: Merger) {
    forall i | 0 <= i < n && i < |cues| :: Alone(cues, i, short, merge)
  }

  lemma {:induction false} RefusedGrows(cue: RawCue, next: RawCue, other: RawCue, merge: Merger)
    requires Refused(cue, next, merge) && merge(next, other).Some?
    ensures Refused(cue, merge(next, other).value, merge)
  {
    var first, others :| merge(cue, first).None? && Grown(first, others, merge) == Some(next);
    assert (others + [other])[..|others|] == others;
    assert Grown(first, others + [other], merge) == merge(next, other);
  }

  /** A merge at `at` leaves every cue before it alone. */
  lemma {:induction false} SpliceKeepsAlone(cues: seq<RawCue>, at: nat, short: RawCue -> bool, merge: Merger, i: nat)
    requires i < at && at + 1 < |cues| && merge(cues[at], cues[at + 1]).Some?
    requires Alone(cues, i, short, merge)
    ensures Alone(Spliced(cues, at, merge(cues[at], cues[at + 1]).value), i, short, merge)
  {
    if short(cues[i]) && i + 1 == at {
      RefusedGrows(cues[i], cues[at], cues[at + 1], merge);
    }
  }

  lemma {:induction false} StuckIsAlone(cues: seq<RawCue>, i: nat, short: RawCue -> bool, merge: Merger)
    requires i < |cues|
    requires short(cues[i]) ==>
               && (i > 0 ==> merge(cues[i - 1], cues[i]).None?)
               && (i + 1 < |cues| ==> merge(cues[i], cues[i + 1]).None?)
    ensures Alone(cues, i, short, merge)
  {
    if short(cues[i]) && i + 1 < |cues| {
      assert Grown(cues[i + 1], [], merge) == Some(cues[i + 1]);
    }
  }

  lemma {:induction false} MergeFromComplete(cues: seq<RawCue>, index: nat, short: RawCue -> bool, merge: Merger)
    requires AllAlone(cues, index, short, merge)
    ensures AllAlone(MergeFrom(cues, index, short, merge), |MergeFrom(cues, index, short, merge)|, short, merge)
    decreases |cues|, |cues| - index
  {
    if index >= |cues| {
    } else if short(cues[index]) && index + 1 < |cues| && merge(cues[index], cues[index + 1]).Some? {
      var spliced := Spliced(cues, index, merge(cues[index], cues[index + 1]).value);
      forall i | 0 <= i < index
        ensures Alone(spliced, i, short, merge)
      {
        SpliceKeepsAlone(cues, index, short, merge, i);
      }
      MergeFromComplete(spliced, index, short, merge);
    } else if short(cues[index]) && index > 0 && merge(cues[index - 1], cues[index]).Some? {
      var spliced := Spliced(cues, index - 1, merge(cues[index - 1], cues[index]).value);
      forall i | 0 <= i < index - 1
        ensures Alone(spliced, i, short, merge)
      {
        SpliceKeepsAlone(cues, index - 1, short, merge, i);
      }
      MergeFromComplete(spliced, index - 1, short, merge);
    } else {
      StuckIsAlone(cues, index, short, merge);
      MergeFromComplete(cues, index + 1, short, merge);
    }
  }

  /** A short cue that could be merged with a neighbour as the list stands. */
  ghost predicate Candidate(cues: seq<RawCue>, i: nat, short: RawCue -> bool, merge: Merger)
    requires i < |cues|
  {
    && short(cues[i])
    && (|| (i + 1 < |cues| && merge(cues[i], cues[i + 1]).Some?)
        || (i > 0 && merge(cues[i - 1], cues[i]).Some?))
  }

  /** The pass goes straight to the first candidate. */
  lemma {:induction false} MergeSkips(cues: seq<RawCue>, index: nat, at: nat, short: RawCue -> bool, merge: Merger)
    requires index <= at <= |cues|
    requires forall i | index <= i < at :: !Candidate(cues, i, short, merge)
    ensures MergeFrom(cues, index, short, merge) == MergeFrom(cues, at, short, merge)
    decreases at - index
  {
    if index < at {
      MergeSkips(cues, index + 1, at, short, merge);
      assert !Candidate(cues, index, short, merge);
    }
  }

  lemma {:induction false} MergeFromShrinks(cues: seq<RawCue>, index: nat, short: RawCue -> bool, merge: Merger)
    ensures |MergeFrom(cues, index, short, merge)| <= |cues|
    decreases |cues|, |cues| - index
  {
    if index >= |cues| {
    } else if short(cues[index]) && index + 1 < |cues| && merge(cues[index], cues[index + 1]).Some? {
      MergeFromShrinks(Spliced(cues, index, merge(cues[index], cues[index + 1]).value), index, short, merge);
    } else if short(cues[index]) && index > 0 && merge(cues[index - 1], cues[index]).Some? {
      MergeFromShrinks(Spliced(cues, index - 1, merge(cues[index - 1], cues[index]).value), index - 1, short, merge);
    } else {
      MergeFromShrinks(cues, index + 1, short, merge);
    }
  }

  /** The first candidate takes its successor if it can, else its predecessor takes it. */
  lemma {:induction false} FirstMerge(cues: seq<RawCue>, at: nat, short: RawCue -> bool, merge: Merger)
    requires at < |cues| && Candidate(cues, at, short, merge)
    requires forall i | 0 <= i < at :: !Candidate(cues, i, short, merge)
    ensures |MergeFrom(cues, 0, short, merge)| < |cues|
    ensures MergeFrom(cues, 0, short, merge) ==
            if at + 1 < |cues| && merge(cues[at], cues[at + 1]).Some? then
              MergeFrom(cues[..at] + [merge(cues[at], cues[at + 1]).value] + cues[at + 2..], at, short, merge)
            else
              MergeFrom(cues[..at - 1] + [merge(cues[at - 1], cues[at]).value] + cues[at + 1..], at - 1, short, merge)
  {
    MergeSkips(cues, 0, at, short, merge);
    if at + 1 < |cues| && merge(cues[at], cues[at + 1]).Some? {
      MergeFromShrinks(Spliced(cues, at, merge(cues[at], cues[at + 1]).value), at, short, merge);
    } else {
      MergeFromShrinks(Spliced(cues, at - 1, merge(cues[at - 1], cues[at]).value), at - 1, short, merge);
    }
  }

  lemma {:induction false} MergeFromIdle(cues: seq<RawCue>, short: RawCue -> bool, merge: Merger)
    ensures MergeFrom(cues, 0, short, merge) == cues <==> forall i | 0 <= i < |cues| :: !Candidate(cues, i, short, merge)
  {
    if forall i | 0 <= i < |cues| :: !Candidate(cues, i, short, merge) {
      MergeSkips(cues, 0, |cues|, short, merge);
    } else {
      var at := FirstCandidate(cues, 0, short, merge);
      FirstMerge(cues, at, short, merge);
    }
  }

  ghost function FirstCandidate(cues: seq<RawCue>, index: nat, short: RawCue -> bool, merge: Merger): (at: nat)
    requires exists i :: index <= i < |cues| && Candidate(cues, i, short, merge)
    ensures index <= at < |cues| && Candidate(cues, at, short, merge)
    ensures forall i | index <= i < at :: !Candidate(cues, i, short, merge)
    decreases |cues| - index
  {
    if index < |cues| && Candidate(cues, index, short, merge) then index
    else FirstCandidate(cues, index + 1, short, merge)
  }

  // The same, in terms of widths and wrapped lines.

  ghost predicate BelowFill(cue: RawCue, p: Profile) {
    p.measure(cue.text) < p.maxLineWidth * (p.maxLines as real) * p.minFill
  }

  /** The joined text takes too many lines. */
  ghost predicate TooLong(left: RawCue, right: RawCue, p: Profile, spaced: bool) {
    |Wrap(Join(left.text, right.text, spaced), p, true)| > p.maxLines
  }

  /** `next` is `first` with the texts of the cues of `others` joined on, one by one. */
  ghost predicate GrewFrom(first: RawCue, others: seq<RawCue>, next: RawCue, p: Profile, spaced: bool) {
    if others == [] then next == first
    else
      var last := |others| - 1;
      exists grown ::
        && GrewFrom(first, others[..last], grown, p, spaced)
        && !TooLong(grown, others[last], p, spaced)
        && next.text == Join(grown.text, others[last].text, spaced) && next.lines == Wrap(next.text, p, true)
  }

  /** A merge is refused exactly when the joined text is too long, and yields that text, wrapped. */
  lemma {:induction false} JoinsExactly(left: RawCue, right: RawCue, p: Profile, spaced: bool)
    ensures Joins(p, spaced)(left, right) ==
            if TooLong(left, right, p, spaced) then None
            else Some(RawCue(Join(left.text, right.text, spaced), Wrap(Join(left.text, right.text, spaced), p, true)))
  {
  }

  lemma {:induction false} GrownGrew(first: RawCue, others: seq<RawCue>, next: RawCue, p: Profile, spaced: bool, merge: Merger)
    requires merge == Joins(p, spaced) && Grown(first, others, merge) == Some(next)
    ensures GrewFrom(first, others, next, p, spaced)
  {
    if others != [] {
      var last := |others| - 1;
      var grown := Grown(first, others[..last], merge).value;
      GrownGrew(first, others[..last], grown, p, spaced, merge);
      JoinsExactly(grown, others[last], p, spaced);
    }
  }

  /** `cue` was too long together with the cue that has since grown, only to the right, into `next`. */
  ghost predicate TurnedAway(cue: RawCue, next: RawCue, p: Profile, spaced: bool) {
    exists first, others :: TooLong(cue, first, p, spaced) && GrewFrom(first, others, next, p, spaced)
  }

  lemma {:induction false} RefusedIsTurnedAway(cue: RawCue, next: RawCue, p: Profile, spaced: bool, merge: Merger)
    requires merge == Joins(p, spaced) && Refused(cue, next, merge)
    ensures TurnedAway(cue, next, p, spaced)
  {
    var first, others :| merge(cue, first).None? && Grown(first, others, merge) == Some(next);
    GrownGrew(first, others, next, p, spaced, merge);
    JoinsExactly(cue, first, p, spaced);
  }

  lemma {:induction false} AloneExactly(cues: seq<RawCue>, i: nat, p: Profile, spaced: bool, merge: Merger)
    requires i < |cues| && BelowFill(cues[i], p) && merge == Joins(p, spaced) && Alone(cues, i, Shorts(p), merge)
    ensures i > 0 ==> TooLong(cues[i - 1], cues[i], p, spaced)
    ensures i + 1 < |cues| ==> TurnedAway(cues[i], cues[i + 1], p, spaced)
  {
    if i > 0 {
      JoinsExactly(cues[i - 1], cues[i], p, spaced);
    }
    if i + 1 < |cues| {
      RefusedIsTurnedAway(cues[i], cues[i + 1], p, spaced, merge);
    }
  }

  /**
    * In the merged list no cue below the fill threshold could join its predecessor, and
    * at its last visit it could not join its successor, which has since grown only to the right.
    */
  lemma {:induction false} MergeIsComplete(cues: seq<RawCue>, p: Profile, spaced: bool, i: nat)
    requires i < |Merge(cues, p, spaced)| && BelowFill(Merge(cues, p, spaced)[i], p)
    ensures var out := Merge(cues, p, spaced);
            && (i > 0 ==> TooLong(out[i - 1], out[i], p, spaced))
            && (i + 1 < |out| ==> TurnedAway(out[i], out[i + 1], p, spaced))
  {
    var out := Merge(cues, p, spaced);
    MergeFromComplete(cues, 0, Shorts(p), Joins(p, spaced));
    assert Alone(out, i, Shorts(p), Joins(p, spaced));
    AloneExactly(out, i, p, spaced, Joins(p, spaced));
  }

  /** Too long together with either neighbour. */
  ghost predicate Apart(cues: seq<RawCue>, i: nat, p: Profile, spaced: bool)
    requires i < |cues|
  {
    && (i > 0 ==> TooLong(cues[i - 1], cues[i], p, spaced))
    && (i + 1 < |cues| ==> TooLong(cues[i], cues[i + 1], p, spaced))
  }

  lemma {:induction false} CandidateExactly(cues: seq<RawCue>, i: nat, p: Profile, spaced: bool, merge: Merger)
    requires i < |cues| && merge == Joins(p, spaced)
    ensures Candidate(cues, i, Shorts(p), merge) <==> BelowFill(cues[i], p) && !Apart(cues, i, p, spaced)
  {
    if i > 0 {
      JoinsExactly(cues[i - 1], cues[i], p, spaced);
    }
    if i + 1 < |cues| {
      JoinsExactly(cues[i], cues[i + 1], p, spaced);
    }
  }

  /** Merging changes nothing exactly when no cue below the threshold fits together with a neighbour. */
  lemma {:induction false} MergeIdleExactly(cues: seq<RawCue>, p: Profile, spaced: bool)
    ensures Merge(cues, p, spaced) == cues <==>
            forall i | 0 <= i < |cues| && BelowFill(cues[i], p) :: Apart(cues, i, p, spaced)
  {
    MergeFromIdle(cues, Shorts(p), Joins(p, spaced));
    forall i | 0 <= i < |cues|
      ensures Candidate(cues, i, Shorts(p), Joins(p, spaced)) <==> BelowFill(cues[i], p) && !Apart(cues, i, p, spaced)
    {
      CandidateExactly(cues, i, p, spaced, Joins(p, spaced));
    }
  }
}
