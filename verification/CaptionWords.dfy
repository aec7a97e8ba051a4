/**
  * What the text operations do to whole words: joining, normalizing and trimming never
  * run two words together, cut one, or leave doubled blanks, and the scanning expressions
  * find every word and every phrase.
  */
module CaptionWords {
  import opened CaptionText
  import opened CaptionCues

  // ----- trimming

  /** Trimming takes whitespace from both ends, all of it and nothing else. */
  lemma {:induction false} TrimExactly(t: Text) returns (a: nat, b: nat)
    ensures a <= b <= |t| && Trim(t) == t[a..b]
    ensures forall i | 0 <= i < |t| && (i < a || b <= i) :: t[i].kind.Blank? || t[i].kind.Gap? || t[i].kind.Newline?
    ensures a < b ==> Inked(t[a]) && Inked(t[b - 1])
  {
    a := TrimStartExactly(t);
    var rest := t[a..];
    var n := TrimEndExactly(rest);
    b := a + n;
    assert rest[..n] == t[a..b];
    assert forall i | b <= i < |t| :: t[i] == rest[i - a];
    TrimTrims(t);
  }

  lemma {:induction false} TrimStartExactly(t: Text) returns (a: nat)
    ensures a <= |t| && TrimStart(t) == t[a..]
    ensures forall i | 0 <= i < a :: IsSpace(t[i])
  {
    if t != [] && IsSpace(t[0]) {
      a := TrimStartExactly(t[1..]);
      assert forall i | 0 < i < a + 1 :: t[i] == t[1..][i - 1];
      a := a + 1;
    } else {
      a := 0;
    }
  }

  lemma {:induction false} TrimEndExactly(t: Text) returns (b: nat)
    ensures b <= |t| && TrimEnd(t) == t[..b]
    ensures forall i | b <= i < |t| :: IsSpace(t[i])
  {
    if t != [] && IsSpace(t[|t| - 1]) {
      b := TrimEndExactly(t[..|t| - 1]);
    } else {
      b := |t|;
    }
  }

  // ----- words

  /** The maximal runs of graphemes without whitespace. */
  function WordsOf(t: Text): (words: seq<Text>)
    ensures t != [] && !IsSpace(t[0]) ==> words != []
  {
    if t == [] then []
    else if IsSpace(t[0]) then WordsOf(t[1..])
    else if |t| == 1 || IsSpace(t[1]) then [[t[0]]] + WordsOf(t[1..])
    else
      var words := WordsOf(t[1..]);
      [[t[0]] + words[0]] + words[1..]
  }

  /** One more grapheme in front of the words of the rest. */
  function Grow(g: Grapheme, words: seq<Text>, apart: bool): seq<Text> {
    if IsSpace(g) then words
    else if apart || words == [] then [[g]] + words
    else [[g] + words[0]] + words[1..]
  }

  lemma {:induction false} WordsCons(g: Grapheme, t: Text)
    ensures WordsOf([g] + t) == Grow(g, WordsOf(t), t == [] || IsSpace(t[0]))
  {
    assert ([g] + t)[1..] == t;
  }

  lemma {:induction false} GrowConcat(g: Grapheme, a: seq<Text>, b: seq<Text>, apart: bool)
    requires apart || a != []
    ensures Grow(g, a + b, apart) == Grow(g, a, apart) + b
  {
    if IsSpace(g) {
    } else if apart {
      Reassociate([[g]], a, b);
    } else {
      assert (a + b)[0] == a[0] && (a + b)[1..] == a[1..] + b;
      Reassociate([[g] + a[0]], a[1..], b);
    }
  }

  /** Whitespace between two texts keeps their words apart. */
  lemma {:induction false} WordsConcat(a: Text, b: Text)
    requires a == [] || b == [] || IsSpace(a[|a| - 1]) || IsSpace(b[0])
    ensures WordsOf(a + b) == WordsOf(a) + WordsOf(b)
  {
    if a == [] {
      assert a + b == b;
    } else {
      WordsConcat(a[1..], b);
      WordsOneMore(a[0], a[1..], b);
      assert [a[0]] + a[1..] == a && [a[0]] + (a[1..] + b) == a + b;
    }
  }

  lemma {:induction false} WordsOneMore(g: Grapheme, rest: Text, b: Text)
    requires WordsOf(rest + b) == WordsOf(rest) + WordsOf(b)
    requires rest == [] ==> b == [] || IsSpace(g) || IsSpace(b[0])
    ensures WordsOf([g] + (rest + b)) == WordsOf([g] + rest) + WordsOf(b)
  {
    var apart := rest == [] || IsSpace(rest[0]);
    WordsCons(g, rest);
    WordsCons(g, rest + b);
    GrowConcat(g, WordsOf(rest), WordsOf(b), apart);
    if rest == [] {
      assert rest + b == b;
    }
  }

  lemma {:induction false} NoWords(t: Text)
    requires forall i | 0 <= i < |t| :: IsSpace(t[i])
    ensures WordsOf(t) == []
  {
    if t != [] {
      NoWords(t[1..]);
    }
  }

  lemma {:induction false} SkipSpaces(t: Text, n: nat)
    requires n <= |t| && forall i | 0 <= i < n :: IsSpace(t[i])
    ensures WordsOf(t) == WordsOf(t[n..])
  {
    assert t == t[..n] + t[n..];
    NoWords(t[..n]);
    WordsConcat(t[..n], t[n..]);
  }

  lemma {:induction false} TrimEndWords(t: Text)
    ensures WordsOf(TrimEnd(t)) == WordsOf(t)
  {
    var b := TrimEndExactly(t);
    assert t == t[..b] + t[b..];
    NoWords(t[b..]);
    WordsConcat(t[..b], t[b..]);
  }

  lemma {:induction false} TrimStartWords(t: Text)
    ensures WordsOf(TrimStart(t)) == WordsOf(t)
  {
    var a := TrimStartExactly(t);
    SkipSpaces(t, a);
  }

  lemma {:induction false} WordsAround(left: Text, right: Text)
    ensures WordsOf(left + [SPACE] + right) == WordsOf(left) + WordsOf(right)
  {
    WordsConcat(left + [SPACE], right);
    WordsConcat(left, [SPACE]);
    NoWords([SPACE]);
    assert WordsOf(left) + [] == WordsOf(left);
  }

  /** In a language written with spaces, joining keeps the words of both sides apart and whole. */
  lemma {:induction false} JoinKeepsWords(left: Text, right: Text)
    ensures WordsOf(Join(left, right, true)) == WordsOf(left) + WordsOf(right)
  {
    if left != [] && right != [] {
      TrimEndWords(left);
      TrimStartWords(right);
      WordsAround(TrimEnd(left), TrimStart(right));
    }
  }

  /** In the other languages, joining puts trimmed texts side by side. */
  lemma {:induction false} JoinIsTight(left: Text, right: Text)
    requires Trimmed(left) && Trimmed(right)
    ensures Join(left, right, false) == left + right
  {
  }

  function WordsOfAll(lines: seq<Text>): seq<Text> {
    if lines == [] then [] else WordsOf(lines[0]) + WordsOfAll(lines[1..])
  }

  /** The text of a cue has the words of its lines. */
  lemma {:induction false} JoinLinesWords(acc: Text, lines: seq<Text>)
    ensures WordsOf(JoinLines(acc, lines, true)) == WordsOf(acc) + WordsOfAll(lines)
    decreases |lines|
  {
    if lines != [] {
      JoinKeepsWords(acc, lines[0]);
      JoinLinesWords(Join(acc, lines[0], true), lines[1..]);
      Reassociate(WordsOf(acc), WordsOf(lines[0]), WordsOfAll(lines[1..]));
    }
  }

  // ----- normalization

  lemma {:induction false} SameHead(a: Text, b: Text, g: Grapheme)
    requires (a == [] <==> b == []) && (a != [] ==> IsSpace(a[0]) == IsSpace(b[0]))
    requires WordsOf(a) == WordsOf(b)
    ensures WordsOf([g] + a) == WordsOf([g] + b)
  {
    assert ([g] + a)[1..] == a && ([g] + b)[1..] == b;
  }

  lemma {:induction false} CollapseBlanksWords(t: Text)
    ensures var out := CollapseBlanks(t);
            (out == [] <==> t == []) && (t != [] ==> IsSpace(out[0]) == IsSpace(t[0])) && WordsOf(out) == WordsOf(t)
  {
    if t != [] {
      var out := CollapseBlanks(t[1..]);
      CollapseBlanksWords(t[1..]);
      assert [t[0]] + t[1..] == t;
      SameHead(out, t[1..], t[0]);
      if t[0].kind.Blank? {
        SkipSpaces([SPACE] + out, 1);
        assert ([SPACE] + out)[1..] == out;
      }
    }
  }

  lemma {:induction false} CollapseNewlinesWords(t: Text)
    ensures var out := CollapseNewlines(t);
            (out == [] <==> t == []) && (t != [] ==> IsSpace(out[0]) == IsSpace(t[0])) && WordsOf(out) == WordsOf(t)
    decreases |t|
  {
    if t != [] {
      var n := BreakLength(t);
      if n == 0 {
        CollapseNewlinesWords(t[1..]);
        assert [t[0]] + t[1..] == t;
        SameHead(CollapseNewlines(t[1..]), t[1..], t[0]);
      } else {
        var out := CollapseNewlines(t[n..]);
        CollapseNewlinesWords(t[n..]);
        BreakIsSpace(t);
        SkipSpaces(t, n);
        SkipSpaces([NEWLINE] + out, 1);
        assert ([NEWLINE] + out)[1..] == out;
      }
    }
  }

  /** Normalization keeps every word whole and apart from the next. */
  lemma {:induction false} NormalizeKeepsWords(t: Text)
    ensures WordsOf(Normalize(t)) == WordsOf(t)
  {
    CollapseBlanksWords(t);
    CollapseNewlinesWords(CollapseBlanks(t));
    TrimStartWords(CollapseNewlines(CollapseBlanks(t)));
    TrimEndWords(TrimStart(CollapseNewlines(CollapseBlanks(t))));
  }

  /** A blank is a plain space, and stands alone. */
  ghost predicate SingleBlanks(t: Text) {
    && (forall i | 0 <= i < |t| && t[i].kind.Blank? :: t[i] == SPACE)
    && (forall i | 0 < i < |t| :: !(t[i - 1].kind.Blank? && t[i].kind.Blank?))
  }

  /** No plain space stands beside a newline. */
  ghost predicate CleanBreaks(t: Text) {
    forall i | 0 < i < |t| :: !(t[i - 1] == SPACE && t[i].kind.Newline?) && !(t[i - 1].kind.Newline? && t[i] == SPACE)
  }

  lemma {:induction false} CollapseBlanksShape(t: Text)
    ensures SingleBlanks(CollapseBlanks(t))
    ensures t != [] ==> CollapseBlanks(t) != [] && CollapseBlanks(t)[0].kind.Blank? == t[0].kind.Blank?
  {
    if t != [] {
      CollapseBlanksShape(t[1..]);
    }
  }

  /** Where no break starts, none starts one grapheme later unless this one is no space. */
  lemma {:induction false} NoBreakYet(t: Text)
    requires t != [] && t[0] == SPACE && BreakLength(t) == 0
    ensures BreakLength(t[1..]) == 0
  {
    var rest := t[1..];
    var spaces := Run(rest, IsPlainSpace);
    assert Run(t, IsPlainSpace) == 1 + spaces;
    assert t[1 + spaces..] == rest[spaces..];
  }

  /** A break takes all the spaces after its newlines. */
  lemma {:induction false} BreakTakesSpaces(t: Text)
    requires BreakLength(t) > 0
    ensures BreakLength(t) < |t| ==> t[BreakLength(t)] != SPACE
  {
    var spaces := Run(t, IsPlainSpace);
    var after := t[spaces..];
    var lines := Run(after, IsNewline);
    var rest := after[lines..];
    RunFacts(rest, IsPlainSpace);
    var n := Run(rest, IsPlainSpace);
    assert n < |rest| ==> rest[n] == t[spaces + lines + n];
  }

  lemma {:induction false} CollapseNewlinesHead(t: Text)
    requires t != []
    ensures CollapseNewlines(t) != []
    ensures CollapseNewlines(t)[0] == if BreakLength(t) == 0 then t[0] else NEWLINE
  {
  }

  lemma {:induction false} NewlineStartsBreak(t: Text)
    requires t != [] && t[0].kind.Newline?
    ensures BreakLength(t) > 0
  {
    assert t[0..] == t;
  }

  lemma {:induction false} ConsShape(g: Grapheme, t: Text)
    requires SingleBlanks(t) && CleanBreaks(t) && (g.kind.Blank? ==> g == SPACE)
    requires t != [] && g == SPACE ==> !t[0].kind.Blank? && !t[0].kind.Newline?
    requires t != [] && g.kind.Newline? ==> t[0] != SPACE
    ensures SingleBlanks([g] + t) && CleanBreaks([g] + t)
  {
    var s := [g] + t;
    assert forall i | 0 < i < |s| :: s[i] == t[i - 1];
  }

  /** What follows a grapheme at which no break starts. */
  lemma {:induction false} HeadAfterPlain(t: Text)
    requires |t| > 1 && SingleBlanks(t) && BreakLength(t) == 0
    ensures var out := CollapseNewlines(t[1..]);
            && out != [] && !t[0].kind.Newline?
            && (t[0] == SPACE ==> !out[0].kind.Blank? && !out[0].kind.Newline?)
  {
    var rest := t[1..];
    CollapseNewlinesHead(rest);
    if t[0].kind.Newline? {
      NewlineStartsBreak(t);
    } else if t[0] == SPACE {
      assert t[0].kind.Blank? && rest[0] == t[1];
      NoBreakYet(t);
      if rest[0].kind.Newline? {
        NewlineStartsBreak(rest);
      }
    }
  }

  lemma {:induction false} CollapseNewlinesShape(t: Text)
    requires SingleBlanks(t)
    ensures SingleBlanks(CollapseNewlines(t)) && CleanBreaks(CollapseNewlines(t))
    decreases |t|
  {
    if t != [] {
      var n := BreakLength(t);
      var skip := if n == 0 then 1 else n;
      assert forall i | 0 <= i < |t| - skip :: t[skip..][i] == t[i + skip];
      CollapseNewlinesShape(t[skip..]);
      if n == 0 {
        if |t| > 1 {
          HeadAfterPlain(t);
        }
        ConsShape(t[0], CollapseNewlines(t[1..]));
      } else {
        BreakTakesSpaces(t);
        if n < |t| {
          CollapseNewlinesHead(t[n..]);
        }
        ConsShape(NEWLINE, CollapseNewlines(t[n..]));
      }
    }
  }

  lemma {:induction false} SliceShape(t: Text, a: nat, b: nat)
    requires a <= b <= |t| && SingleBlanks(t) && CleanBreaks(t)
    ensures SingleBlanks(t[a..b]) && CleanBreaks(t[a..b])
  {
    var s := t[a..b];
    assert forall i | 0 <= i < |s| :: s[i] == t[a + i];
  }

  /** A normalized text has no two blanks in a row and no space beside a newline. */
  lemma {:induction false} NormalizeShape(t: Text)
    ensures SingleBlanks(Normalize(t)) && CleanBreaks(Normalize(t))
  {
    var out := CollapseNewlines(CollapseBlanks(t));
    CollapseBlanksShape(t);
    CollapseNewlinesShape(CollapseBlanks(t));
    var a, b := TrimExactly(out);
    SliceShape(out, a, b);
  }

  // ----- the scanning expressions find everything

  lemma {:induction false} WordsOfRun(t: Text, n: nat)
    requires 0 < n <= |t| && (forall i | 0 <= i < n :: !IsSpace(t[i])) && (n < |t| ==> IsSpace(t[n]))
    ensures WordsOf(t) == [t[..n]] + WordsOf(t[n..])
  {
    var rest := t[1..];
    if n == 1 {
      assert t[..1] == [t[0]];
    } else {
      assert forall i | 0 <= i < |rest| :: rest[i] == t[i + 1];
      WordsOfRun(rest, n - 1);
      assert rest[n - 1..] == t[n..] && t[..n] == [t[0]] + rest[..n - 1];
    }
  }

  /** A run of words' graphemes and the whitespace after it. */
  lemma {:induction false} WordThenSpaces(t: Text, n: nat, k: nat)
    requires 0 < n && n + k <= |t| && (forall i | 0 <= i < n :: !IsSpace(t[i])) && (forall i | 0 <= i < k :: IsSpace(t[n..][i]))
    ensures Trim(t[..n + k]) == t[..n]
  {
    var word, gap := t[..n], t[n..][..k];
    assert t[..n + k] == word + gap;
    TrimDropsTail(word, gap);
  }

  /** The first match, and the words after it. */
  lemma {:induction false} FirstMatch(t: Text, n: nat, k: nat)
    requires t != [] && !IsSpace(t[0]) && n == Run(t, Inked) && k == Run(t[n..], IsSpace)
    ensures n > 0 && Trim(t[..n + k]) == t[..n] && WordsOf(t) == [t[..n]] + WordsOf(t[n + k..])
  {
    var rest := t[n..];
    RunFacts(t, Inked);
    RunFacts(rest, IsSpace);
    WordsOfRun(t, n);
    SkipSpaces(rest, k);
    assert rest[k..] == t[n + k..];
    WordThenSpaces(t, n, k);
  }

  lemma {:induction false} MatchStep(t: Text, n: nat, k: nat)
    requires t != [] && !IsSpace(t[0]) && n == Run(t, Inked) && k == Run(t[n..], IsSpace)
    ensures Words(t) == [t[..n + k]] + Words(t[n + k..])
  {
  }

  lemma {:induction false} TrimAllCons(t: Text, ts: seq<Text>)
    ensures TrimAll([t] + ts) == if Trim(t) == [] then TrimAll(ts) else [Trim(t)] + TrimAll(ts)
  {
    assert ([t] + ts)[1..] == ts;
  }

  /** The word expression finds every word, in order. */
  lemma {:induction false} WordsFindsAll(t: Text)
    ensures TrimAll(Words(t)) == WordsOf(t)
    decreases |t|
  {
    if t == [] {
    } else if IsSpace(t[0]) {
      WordsFindsAll(t[1..]);
    } else {
      var n := Run(t, Inked);
      var k := Run(t[n..], IsSpace);
      var rest := t[n + k..];
      FirstMatch(t, n, k);
      WordsFindsAll(rest);
      MatchStep(t, n, k);
      TrimAllCons(t[..n + k], Words(rest));
    }
  }

  /** A piece starts here: no mark, and a mark or the start before it. */
  ghost predicate StartsPiece(t: Text, i: nat, mark: Grapheme -> bool, afterMark: bool)
    requires i < |t|
  {
    !mark(t[i]) && if i == 0 then afterMark else mark(t[i - 1])
  }

  ghost function PieceStarts(t: Text, mark: Grapheme -> bool, afterMark: bool): set<nat> {
    set i: nat | i < |t| && StartsPiece(t, i, mark, afterMark)
  }

  /** The number of piece starts, from the left. */
  function Runs(t: Text, mark: Grapheme -> bool, afterMark: bool): nat {
    if t == [] then 0
    else (if !mark(t[0]) && afterMark then 1 else 0) + Runs(t[1..], mark, mark(t[0]))
  }

  lemma {:induction false} RunsLast(t: Text, mark: Grapheme -> bool, afterMark: bool)
    requires t != []
    ensures Runs(t, mark, afterMark) ==
            Runs(t[..|t| - 1], mark, afterMark) + if StartsPiece(t, |t| - 1, mark, afterMark) then 1 else 0
  {
    var n := |t| - 1;
    if n == 0 {
      assert t[1..] == [] && t[..0] == [];
    } else {
      RunsLast(t[1..], mark, mark(t[0]));
      assert t[..n][1..] == t[1..][..n - 1];
    }
  }

  lemma {:induction false} PieceStartsLast(t: Text, mark: Grapheme -> bool, afterMark: bool)
    requires t != []
    ensures PieceStarts(t, mark, afterMark) ==
            PieceStarts(t[..|t| - 1], mark, afterMark) + if StartsPiece(t, |t| - 1, mark, afterMark) then {|t| - 1} else {}
  {
    var front := t[..|t| - 1];
    assert forall i: nat | i < |front| :: front[i] == t[i];
    assert forall i: nat | i < |front| :: StartsPiece(t, i, mark, afterMark) <==> StartsPiece(front, i, mark, afterMark);
  }

  lemma {:induction false} RunsAreStarts(t: Text, mark: Grapheme -> bool, afterMark: bool)
    ensures Runs(t, mark, afterMark) == |PieceStarts(t, mark, afterMark)|
  {
    if t == [] {
      assert PieceStarts(t, mark, afterMark) == {};
    } else {
      RunsLast(t, mark, afterMark);
      RunsAreStarts(t[..|t| - 1], mark, afterMark);
      PieceStartsLast(t, mark, afterMark);
    }
  }

  lemma {:induction false} RunsSkip(t: Text, n: nat, mark: Grapheme -> bool)
    requires n <= |t| && forall i | 0 <= i < n :: !mark(t[i])
    ensures Runs(t, mark, false) == Runs(t[n..], mark, false)
  {
    if n > 0 {
      assert forall i | 0 <= i < n - 1 :: t[1..][i] == t[i + 1];
      RunsSkip(t[1..], n - 1, mark);
      assert t[1..][n - 1..] == t[n..];
    }
  }

  lemma {:induction false} RunsOfPiece(t: Text, mark: Grapheme -> bool, tail: Grapheme -> bool)
    requires t != [] && !mark(t[0]) && forall g | tail(g) :: mark(g)
    ensures Runs(t, mark, true) == 1 + Runs(t[PieceLength(t, mark, tail)..], mark, true)
  {
    var n, m := Run(t, g => !mark(g)), PieceLength(t, mark, tail);
    RunFacts(t, g => !mark(g));
    assert forall i | 0 <= i < n - 1 :: t[1..][i] == t[i + 1];
    RunsSkip(t[1..], n - 1, mark);
    assert t[1..][n - 1..] == t[n..];
    if n < |t| {
      assert t[n..][1..] == t[n + 1..];
    }
  }

  /** There are as many pieces as places where one starts: no piece is cut in two, and none is left out. */
  lemma {:induction false} PiecesCounted(t: Text, mark: Grapheme -> bool, tail: Grapheme -> bool)
    requires forall g | tail(g) :: mark(g)
    ensures |Pieces(t, mark, tail)| == |PieceStarts(t, mark, true)|
  {
    RunsAreStarts(t, mark, true);
    PiecesAreRuns(t, mark, tail);
  }

  lemma {:induction false} PiecesAreRuns(t: Text, mark: Grapheme -> bool, tail: Grapheme -> bool)
    requires forall g | tail(g) :: mark(g)
    ensures |Pieces(t, mark, tail)| == Runs(t, mark, true)
    decreases |t|
  {
    if t == [] {
    } else if mark(t[0]) {
      PiecesAreRuns(t[1..], mark, tail);
    } else {
      RunsOfPiece(t, mark, tail);
      PiecesAreRuns(t[PieceLength(t, mark, tail)..], mark, tail);
    }
  }

  // ----- the lines of a cue

  function LinesOf(cues: seq<RawCue>): seq<Text> {
    if cues == [] then [] else cues[0].lines + LinesOf(cues[1..])
  }

  /** A cue with the words of its lines, and as many lines as there may be, unless it is the last. */
  ghost predicate Filled(cue: RawCue, last: bool, size: nat, spaced: bool) {
    && 1 <= |cue.lines| <= size && (!last ==> |cue.lines| == size)
    && (spaced ==> WordsOf(cue.text) == WordsOfAll(cue.lines))
  }

  ghost predicate AllFilled(cues: seq<RawCue>, size: nat, spaced: bool) {
    forall i | 0 <= i < |cues| :: Filled(cues[i], i == |cues| - 1, size, spaced)
  }

  lemma {:induction false} FilledCons(cue: RawCue, cues: seq<RawCue>, size: nat, spaced: bool)
    requires Filled(cue, cues == [], size, spaced) && AllFilled(cues, size, spaced)
    ensures AllFilled([cue] + cues, size, spaced) && LinesOf([cue] + cues) == cue.lines + LinesOf(cues)
  {
    var all := [cue] + cues;
    assert all[1..] == cues;
    assert forall i | 0 < i < |all| :: all[i] == cues[i - 1];
  }

  /** Grouping keeps the lines in order, fills every cue but the last, and gives a cue the words of its lines. */
  lemma {:induction false} GroupExactly(lines: seq<Text>, size: nat, spaced: bool)
    requires size > 0
    ensures LinesOf(Group(lines, size, spaced)) == lines && AllFilled(Group(lines, size, spaced), size, spaced)
    decreases |lines|
  {
    if lines != [] {
      var n := if size < |lines| then size else |lines|;
      var cue, rest := RawCue(JoinLines([], lines[..n], spaced), lines[..n]), Group(lines[n..], size, spaced);
      GroupExactly(lines[n..], size, spaced);
      JoinLinesWords([], lines[..n]);
      FilledCons(cue, rest, size, spaced);
      assert lines[..n] + lines[n..] == lines;
    }
  }
}
