/**
  * Caption text as a sequence of graphemes, with the string operations that the
  * layout engine uses: trimming, joining, and the two scanning regular expressions.
  */
module CaptionText {

  /**
    * What the regular expressions of the source can tell about one grapheme.
    * `Blank` is tab, form feed, vertical tab or the space; `Gap` is any other
    * whitespace except the newline; `Strong` is a sentence mark, `Clause` a clause mark.
    */
  datatype Kind = Blank | Gap | Newline | Strong | Clause | Cjk | Letter | Pictograph | Plain

  datatype Grapheme = Grapheme(kind: Kind, code: nat)

  type Text = seq<Grapheme>

  const SPACE := Grapheme(Blank, 0x20)
  const NEWLINE := Grapheme(Newline, 0x0A)

  predicate IsSpace(g: Grapheme) { g.kind.Blank? || g.kind.Gap? || g.kind.Newline? }
  predicate IsStrong(g: Grapheme) { g.kind.Strong? || g.kind.Newline? }
  predicate IsSentenceMark(g: Grapheme) { g.kind.Strong? }
  predicate IsPhraseMark(g: Grapheme) { g.kind.Strong? || g.kind.Clause? }

  /** Graphemes that leave ink on the screen. */
  predicate Inked(g: Grapheme) { !IsSpace(g) }

  /** Inked graphemes that are not boundary marks. */
  predicate IsCore(g: Grapheme) { !IsSpace(g) && !g.kind.Strong? && !g.kind.Clause? }

  function Keep(t: Text, p: Grapheme -> bool): Text {
    if t == [] then [] else if p(t[0]) then [t[0]] + Keep(t[1..], p) else Keep(t[1..], p)
  }

  function Ink(t: Text): Text { Keep(t, Inked) }
  function Core(t: Text): Text { Keep(t, IsCore) }

  function Flatten(ts: seq<Text>): Text {
    if ts == [] then [] else ts[0] + Flatten(ts[1..])
  }

  function TrimStart(t: Text): (r: Text)
    ensures |r| <= |t|
  {
    if t != [] && IsSpace(t[0]) then TrimStart(t[1..]) else t
  }

  function TrimEnd(t: Text): (r: Text)
    ensures |r| <= |t|
  {
    if t != [] && IsSpace(t[|t| - 1]) then TrimEnd(t[..|t| - 1]) else t
  }

  function Trim(t: Text): Text { TrimEnd(TrimStart(t)) }

  predicate Trimmed(t: Text) {
    t != [] ==> !IsSpace(t[0]) && !IsSpace(t[|t| - 1])
  }

  /** `joinText`: one space between the parts in a space-separated language, none otherwise. */
  function Join(left: Text, right: Text, spaced: bool): Text {
    if left == [] then right
    else if right == [] then left
    else if spaced then TrimEnd(left) + [SPACE] + TrimStart(right)
    else TrimEnd(left) + TrimStart(right)
  }

  // ----- normalizeText

  /** Replace every maximal run of blanks by one space. */
  function CollapseBlanks(t: Text): Text {
    if t == [] then []
    else if !t[0].kind.Blank? then [t[0]] + CollapseBlanks(t[1..])
    else if |t| > 1 && t[1].kind.Blank? then CollapseBlanks(t[1..])
    else [SPACE] + CollapseBlanks(t[1..])
  }

  function Run(t: Text, p: Grapheme -> bool): (n: nat)
    ensures n <= |t|
  {
    if t != [] && p(t[0]) then 1 + Run(t[1..], p) else 0
  }

  predicate IsPlainSpace(g: Grapheme) { g == SPACE }
  predicate IsNewline(g: Grapheme) { g.kind.Newline? }

  /** How much of the start of `t` is newlines with the spaces around them; 0 if no newline is there. */
  function BreakLength(t: Text): (n: nat)
    ensures n <= |t|
  {
    var spaces := Run(t, IsPlainSpace);
    var lines := Run(t[spaces..], IsNewline);
    if lines == 0 then 0 else spaces + lines + Run(t[spaces..][lines..], IsPlainSpace)
  }

  /** Replace every run of newlines, with the spaces around it, by one newline. */
  function CollapseNewlines(t: Text): Text
    decreases |t|
  {
    if t == [] then []
    else if BreakLength(t) == 0 then [t[0]] + CollapseNewlines(t[1..])
    else [NEWLINE] + CollapseNewlines(t[BreakLength(t)..])
  }

  function Normalize(t: Text): Text { Trim(CollapseNewlines(CollapseBlanks(t))) }

  // ----- the scanning expressions  [^marks]+[tail]?

  function PieceLength(t: Text, mark: Grapheme -> bool, tail: Grapheme -> bool): (m: nat)
    ensures m <= |t|
    ensures t != [] && !mark(t[0]) ==> m > 0
  {
    var n := Run(t, g => !mark(g));
    if n < |t| && tail(t[n]) then n + 1 else n
  }

  /** All matches of one or more non-marks followed by an optional tail mark. */
  function Pieces(t: Text, mark: Grapheme -> bool, tail: Grapheme -> bool): seq<Text>
    decreases |t|
  {
    if t == [] then []
    else if mark(t[0]) then Pieces(t[1..], mark, tail)
    else
      var m := PieceLength(t, mark, tail);
      [t[..m]] + Pieces(t[m..], mark, tail)
  }

  /** `text.match(...) ?? [text]` */
  function PiecesOrWhole(t: Text, mark: Grapheme -> bool, tail: Grapheme -> bool): seq<Text> {
    var ps := Pieces(t, mark, tail);
    if ps == [] then [t] else ps
  }

  /** What one left-to-right scan keeps: a mark survives only if it is a tail and no mark precedes it. */
  function Kept(t: Text, mark: Grapheme -> bool, tail: Grapheme -> bool, afterMark: bool): Text {
    if t == [] then []
    else if !mark(t[0]) then [t[0]] + Kept(t[1..], mark, tail, false)
    else if !afterMark && tail(t[0]) then [t[0]] + Kept(t[1..], mark, tail, true)
    else Kept(t[1..], mark, tail, true)
  }

  function TrimAll(ts: seq<Text>): seq<Text> {
    if ts == [] then []
    else if Trim(ts[0]) == [] then TrimAll(ts[1..])
    else [Trim(ts[0])] + TrimAll(ts[1..])
  }

  /** `sentenceSpans` */
  function SentenceSpans(t: Text): seq<Text> {
    TrimAll(PiecesOrWhole(t, IsStrong, IsSentenceMark))
  }

  function SemanticPieces(t: Text): seq<Text> { PiecesOrWhole(t, IsPhraseMark, IsPhraseMark) }

  /** All matches of one word with the whitespace that follows it. */
  function Words(t: Text): seq<Text>
    decreases |t|
  {
    if t == [] then []
    else if IsSpace(t[0]) then Words(t[1..])
    else
      var n := Run(t, Inked);
      var m := n + Run(t[n..], IsSpace);
      [t[..m]] + Words(t[m..])
  }

  /** The units that a hard split never cuts. */
  function Tokens(t: Text, spaced: bool): seq<Text> {
    if spaced then (if Words(t) == [] then [t] else Words(t))
    else seq(|t|, i requires 0 <= i < |t| => [t[i]])
  }

  // ----- facts about Keep and Flatten

  ghost predicate SkipsSpace(p: Grapheme -> bool) { forall g | IsSpace(g) :: !p(g) }

  lemma {:induction false} Reassociate<T>(a: seq<T>, b: seq<T>, c: seq<T>)
    ensures (a + b) + c == a + (b + c)
  {
  }

  lemma {:induction false} Reassociate4<T>(a: seq<T>, b: seq<T>, c: seq<T>, d: seq<T>)
    ensures (a + b) + (c + d) == ((a + b) + c) + d == (a + (b + c)) + d
  {
    Reassociate(a + b, c, d);
    Reassociate(a, b, c);
  }

  lemma {:induction false} KeepConcat(a: Text, b: Text, p: Grapheme -> bool)
    ensures Keep(a + b, p) == Keep(a, p) + Keep(b, p)
  {
    if a == [] {
      assert a + b == b;
    } else {
      assert (a + b)[0] == a[0] && (a + b)[1..] == a[1..] + b;
      KeepConcat(a[1..], b, p);
      Reassociate([a[0]], Keep(a[1..], p), Keep(b, p));
    }
  }

  lemma {:induction false} KeepNone(t: Text, p: Grapheme -> bool)
    requires forall g | g in t :: !p(g)
    ensures Keep(t, p) == []
  {
    if t != [] {
      KeepNone(t[1..], p);
    }
  }

  lemma {:induction false} KeepKeep(t: Text)
    ensures Core(Ink(t)) == Core(t)
  {
    if t != [] {
      KeepKeep(t[1..]);
      if Inked(t[0]) {
        assert ([t[0]] + Ink(t[1..]))[1..] == Ink(t[1..]);
      }
    }
  }

  lemma {:induction false} FlattenConcat(a: seq<Text>, b: seq<Text>)
    ensures Flatten(a + b) == Flatten(a) + Flatten(b)
  {
    if a == [] {
      assert a + b == b;
    } else {
      assert (a + b)[0] == a[0] && (a + b)[1..] == a[1..] + b;
      FlattenConcat(a[1..], b);
      Reassociate(a[0], Flatten(a[1..]), Flatten(b));
    }
  }

  lemma {:induction false} TrimStartKeeps(t: Text, p: Grapheme -> bool)
    requires SkipsSpace(p)
    ensures Keep(TrimStart(t), p) == Keep(t, p)
  {
    if t != [] && IsSpace(t[0]) {
      TrimStartKeeps(t[1..], p);
    }
  }

  lemma {:induction false} TrimEndKeeps(t: Text, p: Grapheme -> bool)
    requires SkipsSpace(p)
    ensures Keep(TrimEnd(t), p) == Keep(t, p)
  {
    if t != [] && IsSpace(t[|t| - 1]) {
      var last := t[|t| - 1..];
      assert t == t[..|t| - 1] + last;
      KeepConcat(t[..|t| - 1], last, p);
      KeepNone(last, p);
      TrimEndKeeps(t[..|t| - 1], p);
    }
  }

  lemma {:induction false} TrimKeeps(t: Text, p: Grapheme -> bool)
    requires SkipsSpace(p)
    ensures Keep(Trim(t), p) == Keep(t, p)
  {
    TrimStartKeeps(t, p);
    TrimEndKeeps(TrimStart(t), p);
  }

  lemma {:induction false} TrimStartFacts(t: Text)
    ensures TrimStart(t) != [] ==> !IsSpace(TrimStart(t)[0])
  {
    if t != [] && IsSpace(t[0]) {
      TrimStartFacts(t[1..]);
    }
  }

  lemma {:induction false} TrimEndFacts(t: Text)
    ensures TrimEnd(t) != [] ==> TrimEnd(t)[0] == t[0] && !IsSpace(TrimEnd(t)[|TrimEnd(t)| - 1])
  {
    if t != [] && IsSpace(t[|t| - 1]) {
      TrimEndFacts(t[..|t| - 1]);
    }
  }

  lemma {:induction false} RunFacts(t: Text, p: Grapheme -> bool)
    ensures forall i | 0 <= i < Run(t, p) :: p(t[i])
    ensures Run(t, p) < |t| ==> !p(t[Run(t, p)])
  {
    if t != [] && p(t[0]) {
      RunFacts(t[1..], p);
      forall i | 0 <= i < Run(t, p)
        ensures p(t[i])
      {
        if i > 0 {
          assert t[i] == t[1..][i - 1];
        }
      }
    }
  }

  lemma {:induction false} TrimTrims(t: Text)
    ensures Trimmed(Trim(t))
    ensures Trim(t) == [] <==> Ink(t) == []
  {
    TrimKeeps(t, Inked);
    TrimStartFacts(t);
    TrimEndFacts(TrimStart(t));
  }

  /** Joining changes nothing but whitespace. */
  lemma {:induction false} JoinKeeps(left: Text, right: Text, spaced: bool, p: Grapheme -> bool)
    requires SkipsSpace(p)
    ensures Keep(Join(left, right, spaced), p) == Keep(left, p) + Keep(right, p)
  {
    if left != [] && right != [] {
      TrimEndKeeps(left, p);
      TrimStartKeeps(right, p);
      if spaced {
        KeepNone([SPACE], p);
        KeepConcat(TrimEnd(left) + [SPACE], TrimStart(right), p);
        KeepConcat(TrimEnd(left), [SPACE], p);
      } else {
        KeepConcat(TrimEnd(left), TrimStart(right), p);
      }
    }
  }

  // ----- normalization

  lemma {:induction false} CollapseBlanksKeeps(t: Text, p: Grapheme -> bool)
    requires SkipsSpace(p)
    ensures Keep(CollapseBlanks(t), p) == Keep(t, p)
  {
    if t != [] {
      CollapseBlanksKeeps(t[1..], p);
    }
  }

  lemma {:induction false} KeepSplit(t: Text, n: nat, p: Grapheme -> bool)
    requires n <= |t|
    requires forall i | 0 <= i < n :: !p(t[i])
    ensures Keep(t[n..], p) == Keep(t, p)
  {
    assert t == t[..n] + t[n..];
    KeepConcat(t[..n], t[n..], p);
    KeepNone(t[..n], p);
  }

  lemma {:induction false} BreakIsSpace(t: Text)
    ensures forall i | 0 <= i < BreakLength(t) :: IsSpace(t[i])
  {
    var spaces := Run(t, IsPlainSpace);
    var after := t[spaces..];
    var lines := Run(after, IsNewline);
    var rest := after[lines..];
    RunFacts(t, IsPlainSpace);
    RunFacts(after, IsNewline);
    RunFacts(rest, IsPlainSpace);
    forall i | 0 <= i < BreakLength(t)
      ensures IsSpace(t[i])
    {
      if i >= spaces + lines {
        assert t[i] == rest[i - spaces - lines];
      } else if i >= spaces {
        assert t[i] == after[i - spaces];
      }
    }
  }

  lemma {:induction false} KeepCons(g: Grapheme, t: Text, p: Grapheme -> bool)
    ensures Keep([g] + t, p) == if p(g) then [g] + Keep(t, p) else Keep(t, p)
  {
    assert ([g] + t)[1..] == t;
  }

  lemma {:induction false} CollapseNewlinesKeeps(t: Text, p: Grapheme -> bool)
    requires SkipsSpace(p)
    ensures Keep(CollapseNewlines(t), p) == Keep(t, p)
    decreases |t|
  {
    if t != [] {
      var n := BreakLength(t);
      if n == 0 {
        CollapseNewlinesKeeps(t[1..], p);
        KeepCons(t[0], CollapseNewlines(t[1..]), p);
      } else {
        CollapseNewlinesKeeps(t[n..], p);
        BreakIsSpace(t);
        KeepSplit(t, n, p);
        KeepCons(NEWLINE, CollapseNewlines(t[n..]), p);
      }
    }
  }

  /** Normalization keeps every inked grapheme and leaves no whitespace at either end. */
  lemma {:induction false} NormalizeKeeps(t: Text, p: Grapheme -> bool)
    requires SkipsSpace(p)
    ensures Keep(Normalize(t), p) == Keep(t, p)
    ensures Trimmed(Normalize(t))
  {
    CollapseBlanksKeeps(t, p);
    CollapseNewlinesKeeps(CollapseBlanks(t), p);
    TrimKeeps(CollapseNewlines(CollapseBlanks(t)), p);
    TrimTrims(CollapseNewlines(CollapseBlanks(t)));
  }

  // ----- scanning

  lemma {:induction false} KeptRun(t: Text, n: nat, mark: Grapheme -> bool, tail: Grapheme -> bool, after: bool)
    requires n <= |t|
    requires forall i | 0 <= i < n :: !mark(t[i])
    ensures Kept(t, mark, tail, after) == t[..n] + Kept(t[n..], mark, tail, if n == 0 then after else false)
  {
    if n == 0 {
      assert t[n..] == t;
    } else {
      assert t[1..][n - 1..] == t[n..];
      assert t[..n] == [t[0]] + t[1..][..n - 1];
      KeptRun(t[1..], n - 1, mark, tail, false);
    }
  }

  /** At a mark after a non-mark, the scan keeps a tail and drops anything else. */
  lemma {:induction false} KeptAtMark(rest: Text, mark: Grapheme -> bool, tail: Grapheme -> bool)
    requires rest != [] && mark(rest[0])
    ensures Kept(rest, mark, tail, false) ==
            if tail(rest[0]) then [rest[0]] + Kept(rest[1..], mark, tail, true) else Kept(rest, mark, tail, true)
  {
  }

  lemma {:induction false} KeptPiece(t: Text, mark: Grapheme -> bool, tail: Grapheme -> bool)
    requires t != [] && !mark(t[0]) && forall g | tail(g) :: mark(g)
    ensures var m := PieceLength(t, mark, tail);
            Kept(t, mark, tail, true) == t[..m] + Kept(t[m..], mark, tail, true)
  {
    var n := Run(t, g => !mark(g));
    RunFacts(t, g => !mark(g));
    KeptRun(t, n, mark, tail, true);
    PieceFromRun(t, n, mark, tail);
  }

  /** The piece is the run of non-marks and, if it comes next, a tail. */
  lemma {:induction false} PieceFromRun(t: Text, n: nat, mark: Grapheme -> bool, tail: Grapheme -> bool)
    requires 0 < n <= |t| && (n < |t| ==> mark(t[n]))
    requires Kept(t, mark, tail, true) == t[..n] + Kept(t[n..], mark, tail, false)
    ensures var m := if n < |t| && tail(t[n]) then n + 1 else n;
            Kept(t, mark, tail, true) == t[..m] + Kept(t[m..], mark, tail, true)
  {
    if n < |t| {
      var rest := t[n..];
      KeptAtMark(rest, mark, tail);
      if tail(t[n]) {
        assert rest[1..] == t[n + 1..];
        assert t[..n + 1] == t[..n] + [t[n]];
        Reassociate(t[..n], [t[n]], Kept(t[n + 1..], mark, tail, true));
      }
    } else {
      assert t[n..] == [];
    }
  }

  /** The scan drops exactly the marks that directly follow another mark, a newline or the start. */
  lemma {:induction false} PiecesAreKept(t: Text, mark: Grapheme -> bool, tail: Grapheme -> bool)
    requires forall g | tail(g) :: mark(g)
    ensures Flatten(Pieces(t, mark, tail)) == Kept(t, mark, tail, true)
    decreases |t|
  {
    if t == [] {
    } else if mark(t[0]) {
      PiecesAreKept(t[1..], mark, tail);
    } else {
      var m := PieceLength(t, mark, tail);
      var rest := Pieces(t[m..], mark, tail);
      PiecesAreKept(t[m..], mark, tail);
      KeptPiece(t, mark, tail);
      assert ([t[..m]] + rest)[1..] == rest;
    }
  }

  lemma {:induction false} KeptKeeps(t: Text, mark: Grapheme -> bool, tail: Grapheme -> bool, after: bool, p: Grapheme -> bool)
    requires forall g | mark(g) :: !p(g)
    ensures Keep(Kept(t, mark, tail, after), p) == Keep(t, p)
  {
    if t != [] {
      var rest := Kept(t[1..], mark, tail, mark(t[0]));
      KeptKeeps(t[1..], mark, tail, mark(t[0]), p);
      assert ([t[0]] + rest)[1..] == rest;
    }
  }

  lemma {:induction false} TrimAllKeeps(ts: seq<Text>, p: Grapheme -> bool)
    requires SkipsSpace(p)
    ensures Keep(Flatten(TrimAll(ts)), p) == Keep(Flatten(ts), p)
    ensures forall t | t in TrimAll(ts) :: Ink(t) != []
  {
    if ts != [] {
      var head, rest := ts[0], TrimAll(ts[1..]);
      TrimAllKeeps(ts[1..], p);
      TrimKeeps(head, p);
      TrimTrims(head);
      assert Ink(Trim(head)) == Ink(head) by { TrimKeeps(head, Inked); }
      KeepConcat(head, Flatten(ts[1..]), p);
      if Trim(head) == [] {
        assert TrimAll(ts) == rest;
      } else {
        assert TrimAll(ts) == [Trim(head)] + rest;
        assert Flatten(TrimAll(ts)) == Trim(head) + Flatten(rest);
        KeepConcat(Trim(head), Flatten(rest), p);
      }
    }
  }

  /** Exactly which inked graphemes reach the sentence spans. */
  function SentenceInk(t: Text): Text {
    var kept := Kept(t, IsStrong, IsSentenceMark, true);
    if Pieces(t, IsStrong, IsSentenceMark) == [] then Ink(t) else Ink(kept)
  }

  predicate MarkStays(t: Text, i: nat, afterMark: bool)
    requires i < |t|
  {
    IsSentenceMark(t[i]) ==> if i == 0 then !afterMark else !IsStrong(t[i - 1])
  }

  /** No sentence mark directly follows a strong mark, and none opens the text. */
  predicate NoDoubledMark(t: Text, afterMark: bool) { forall i | 0 <= i < |t| :: MarkStays(t, i, afterMark) }

  lemma {:induction false} KeptInk(t: Text, afterMark: bool)
    ensures var kept := Ink(Kept(t, IsStrong, IsSentenceMark, afterMark));
            if NoDoubledMark(t, afterMark) then kept == Ink(t) else |kept| < |Ink(t)|
  {
    if t != [] {
      var rest := Kept(t[1..], IsStrong, IsSentenceMark, IsStrong(t[0]));
      KeptInk(t[1..], IsStrong(t[0]));
      assert ([t[0]] + rest)[1..] == rest;
      DoubledMarkCons(t, afterMark);
    }
  }

  lemma {:induction false} DoubledMarkCons(t: Text, afterMark: bool)
    requires t != []
    ensures NoDoubledMark(t, afterMark) <==>
            (IsSentenceMark(t[0]) ==> !afterMark) && NoDoubledMark(t[1..], IsStrong(t[0]))
  {
    var rest := t[1..];
    if NoDoubledMark(t, afterMark) {
      assert MarkStays(t, 0, afterMark);
      forall i | 0 <= i < |rest|
        ensures MarkStays(rest, i, IsStrong(t[0]))
      {
        assert MarkStays(t, i + 1, afterMark);
      }
    }
    if (IsSentenceMark(t[0]) ==> !afterMark) && NoDoubledMark(rest, IsStrong(t[0])) {
      forall i | 0 <= i < |t|
        ensures MarkStays(t, i, afterMark)
      {
        assert i > 0 ==> MarkStays(rest, i - 1, IsStrong(t[0]));
      }
    }
  }

  predicate AllMarks(t: Text) { forall g | g in t :: IsStrong(g) }

  lemma {:induction false} NoPieces(t: Text)
    ensures Pieces(t, IsStrong, IsSentenceMark) == [] <==> AllMarks(t)
  {
    if t != [] && IsStrong(t[0]) {
      NoPieces(t[1..]);
      assert t == [t[0]] + t[1..];
    }
  }

  /** Splitting into sentences keeps all ink exactly when no sentence mark is doubled, or the text is marks only. */
  lemma {:induction false} SentenceInkExact(t: Text)
    ensures SentenceInk(t) == Ink(t) <==> AllMarks(t) || NoDoubledMark(t, true)
  {
    NoPieces(t);
    KeptInk(t, true);
  }

  /** A doubled mark is lost: of "a?!" only "a?" is shown. */
  lemma {:induction false} DoubledMarkIsLost()
    ensures var a, ask, bang := Grapheme(Letter, 0x61), Grapheme(Strong, 0x3F), Grapheme(Strong, 0x21);
            SentenceInk([a, ask, bang]) == [a, ask]
  {
    var a, ask, bang := Grapheme(Letter, 0x61), Grapheme(Strong, 0x3F), Grapheme(Strong, 0x21);
    var t := [a, ask, bang];
    assert t[1..] == [ask, bang] && [ask, bang][1..] == [bang] && [bang][1..] == [];
    assert Kept([bang], IsStrong, IsSentenceMark, true) == [];
    assert Kept([ask, bang], IsStrong, IsSentenceMark, false) == [ask];
    assert Kept(t, IsStrong, IsSentenceMark, true) == [a, ask];
    KeepCons(ask, [], Inked);
    KeepCons(a, [ask], Inked);
    assert [ask] + [] == [ask] && [a] + [ask] == [a, ask];
    NoPieces(t);
    assert a in t;
  }

  /** A piece starts with a non-mark and has a mark at most at its very end. */
  lemma {:induction false} PieceShape(t: Text, mark: Grapheme -> bool, tail: Grapheme -> bool)
    ensures forall piece | piece in Pieces(t, mark, tail) ::
              piece != [] && forall i | 0 <= i < |piece| && mark(piece[i]) :: 0 < i == |piece| - 1
    decreases |t|
  {
    if t == [] {
    } else if mark(t[0]) {
      PieceShape(t[1..], mark, tail);
    } else {
      var m := PieceLength(t, mark, tail);
      RunFacts(t, g => !mark(g));
      PieceShape(t[m..], mark, tail);
      assert Pieces(t, mark, tail) == [t[..m]] + Pieces(t[m..], mark, tail);
    }
  }

  lemma {:induction false} SentenceSpansKeep(t: Text)
    ensures Ink(Flatten(SentenceSpans(t))) == SentenceInk(t)
    ensures Core(Flatten(SentenceSpans(t))) == Core(t)
    ensures forall s | s in SentenceSpans(t) :: Ink(s) != []
  {
    var ps := PiecesOrWhole(t, IsStrong, IsSentenceMark);
    TrimAllKeeps(ps, Inked);
    TrimAllKeeps(ps, IsCore);
    PiecesAreKept(t, IsStrong, IsSentenceMark);
    KeptKeeps(t, IsStrong, IsSentenceMark, true, IsCore);
    assert Flatten([t]) == t;
  }

  lemma {:induction false} SemanticPiecesKeep(t: Text)
    ensures Core(Flatten(SemanticPieces(t))) == Core(t)
  {
    PiecesAreKept(t, IsPhraseMark, IsPhraseMark);
    KeptKeeps(t, IsPhraseMark, IsPhraseMark, true, IsCore);
    assert Flatten([t]) == t;
  }

  lemma {:induction false} WordsKeep(t: Text, p: Grapheme -> bool)
    requires SkipsSpace(p)
    ensures Keep(Flatten(Words(t)), p) == Keep(t, p)
    decreases |t|
  {
    if t == [] {
    } else if IsSpace(t[0]) {
      WordsKeep(t[1..], p);
    } else {
      var n := Run(t, Inked);
      var m := n + Run(t[n..], IsSpace);
      WordsKeep(t[m..], p);
      assert t == t[..m] + t[m..];
      KeepConcat(t[..m], t[m..], p);
      KeepConcat(t[..m], Flatten(Words(t[m..])), p);
    }
  }

  lemma {:induction false} SingletonsFlatten(t: Text)
    ensures Flatten(Tokens(t, false)) == t
  {
    if t != [] {
      assert Tokens(t, false)[1..] == Tokens(t[1..], false);
      SingletonsFlatten(t[1..]);
    }
  }

  lemma {:induction false} TokensKeep(t: Text, spaced: bool, p: Grapheme -> bool)
    requires SkipsSpace(p)
    ensures Keep(Flatten(Tokens(t, spaced)), p) == Keep(t, p)
  {
    WordsKeep(t, p);
    SingletonsFlatten(t);
    assert Flatten([t]) == t;
  }

  predicate NoSpaceIn(t: Text) { forall g | g in t :: !IsSpace(g) }

  lemma {:induction false} FirstWord(t: Text, n: nat, k: nat)
    requires 0 < n && n + k <= |t|
    requires forall i | 0 <= i < n :: !IsSpace(t[i])
    requires forall i | 0 <= i < k :: IsSpace(t[n..][i])
    ensures NoSpaceIn(Trim(t[..n + k]))
  {
    assert t[..n + k] == t[..n] + t[n..][..k];
    TrimDropsTail(t[..n], t[n..][..k]);
  }

  /** No token of a space-separated text has whitespace inside it. */
  lemma {:induction false} WordsAreWords(t: Text)
    ensures forall w | w in Words(t) :: NoSpaceIn(Trim(w))
    decreases |t|
  {
    if t == [] {
    } else if IsSpace(t[0]) {
      WordsAreWords(t[1..]);
    } else {
      var n := Run(t, Inked);
      var k := Run(t[n..], IsSpace);
      var word, rest := t[..n + k], Words(t[n + k..]);
      WordsAreWords(t[n + k..]);
      assert NoSpaceIn(Trim(word)) by {
        RunFacts(t, Inked);
        RunFacts(t[n..], IsSpace);
        FirstWord(t, n, k);
      }
      assert Words(t) == [word] + rest;
    }
  }

  lemma {:induction false} TrimEndDrops(word: Text, gap: Text)
    requires word != [] && !IsSpace(word[|word| - 1])
    requires forall g | g in gap :: IsSpace(g)
    ensures TrimEnd(word + gap) == word
  {
    if gap == [] {
      assert word + gap == word;
    } else {
      var shorter := gap[..|gap| - 1];
      assert (word + gap)[..|word + gap| - 1] == word + shorter;
      assert gap[|gap| - 1] in gap;
      TrimEndDrops(word, shorter);
    }
  }

  lemma {:induction false} TrimDropsTail(word: Text, gap: Text)
    requires word != [] && forall g | g in word :: !IsSpace(g)
    requires forall g | g in gap :: IsSpace(g)
    ensures Trim(word + gap) == word
  {
    assert word[0] in word && word[|word| - 1] in word;
    assert (word + gap)[0] == word[0];
    TrimEndDrops(word, gap);
  }
}
