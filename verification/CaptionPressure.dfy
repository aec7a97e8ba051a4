/**
  * Splitting cues that would have to be read too fast: at boundary marks first, and
  * inside a piece only between tokens.
  */
module CaptionPressure {
  import opened Outcome
  import opened CaptionText
  import opened ReadingUnits
  import opened CaptionCues

  function Pushed(pending: Text): seq<Text> {
    if Trim(pending) == [] then [] else [Trim(pending)]
  }

  // ----- hardSplitByReadingUnits

  /** The loop state after the first tokens: finished chunks, pending text and its units. */
  function PackTokens(tokens: seq<Text>, chunks: seq<Text>, pending: Text, units: nat, maxUnits: nat): seq<Text>
    decreases |tokens|
  {
    if tokens == [] then chunks + Pushed(pending)
    else
      var u := Units(tokens[0]);
      if pending != [] && units + u > maxUnits
      then PackTokens(tokens[1..], chunks + [Trim(pending)], tokens[0], u, maxUnits)
      else PackTokens(tokens[1..], chunks, pending + tokens[0], units + u, maxUnits)
  }

  function HardSplit(text: Text, spaced: bool, maxUnits: nat): seq<Text> {
    PackTokens(Tokens(text, spaced), [], [], 0, maxUnits)
  }

  method HardSplitByReadingUnits(text: Text, spaced: bool, maxUnits: nat) returns (chunks: seq<Text>)
    ensures chunks == HardSplit(text, spaced, maxUnits)
  {
    var tokens := Tokens(text, spaced);
    chunks := [];
    var pending: Text := [];
    var pendingUnits: nat := 0;
    for i := 0 to |tokens|
      invariant PackTokens(tokens[i..], chunks, pending, pendingUnits, maxUnits) == PackTokens(tokens, [], [], 0, maxUnits)
    {
      var token := tokens[i];
      var tokenUnits := CountUnits(token);
      assert tokens[i..][0] == token && tokens[i..][1..] == tokens[i + 1..];
      if pending != [] && pendingUnits + tokenUnits > maxUnits {
        chunks := chunks + [Trim(pending)];
        pending := token;
        pendingUnits := tokenUnits;
      } else {
        pending := pending + token;
        pendingUnits := pendingUnits + tokenUnits;
      }
    }
    if Trim(pending) != [] {
      chunks := chunks + [Trim(pending)];
    }
  }

  // ----- the semantic split inside splitForReadingPressure

  /** The loop state after the first pieces; `hard` splits a piece that is over budget by itself. */
  function PackPieces(pieces: seq<Text>, chunks: seq<Text>, pending: Text, units: nat, maxUnits: nat, spaced: bool,
                      hard: Text -> seq<Text>): seq<Text>
    decreases |pieces|
  {
    if pieces == [] then chunks + Pushed(pending)
    else
      var piece, u := pieces[0], Units(pieces[0]);
      if u > maxUnits then
        PackPieces(pieces[1..], chunks + Pushed(pending) + hard(piece), [], 0, maxUnits, spaced, hard)
      else if pending != [] && units + u > maxUnits then
        PackPieces(pieces[1..], chunks + Pushed(pending), piece, u, maxUnits, spaced, hard)
      else PackPieces(pieces[1..], chunks, Join(pending, piece, spaced), units + u, maxUnits, spaced, hard)
  }

  function HardSplitter(maxUnits: nat, spaced: bool): Text -> seq<Text> { piece => HardSplit(piece, spaced, maxUnits) }

  function Chunks(text: Text, maxUnits: nat, spaced: bool): seq<Text> {
    PackPieces(SemanticPieces(text), [], [], 0, maxUnits, spaced, HardSplitter(maxUnits, spaced))
  }

  /** The phrase loop; `hard` is what `HardSplitByReadingUnits` computes. */
  method PackPiecesPass(pieces: seq<Text>, maxUnits: nat, spaced: bool, ghost hard: Text -> seq<Text>) returns (chunks: seq<Text>)
    requires Agree(hard, HardSplitter(maxUnits, spaced))
    ensures chunks == PackPieces(pieces, [], [], 0, maxUnits, spaced, hard)
  {
    chunks := [];
    var pending: Text := [];
    var pendingUnits: nat := 0;
    for i := 0 to |pieces|
      invariant PackPieces(pieces[i..], chunks, pending, pendingUnits, maxUnits, spaced, hard)
             == PackPieces(pieces, [], [], 0, maxUnits, spaced, hard)
    {
      assert pieces[i..][0] == pieces[i] && pieces[i..][1..] == pieces[i + 1..];
      chunks, pending, pendingUnits := TakePiece(pieces[i..], chunks, pending, pendingUnits, maxUnits, spaced, hard);
    }
    chunks := chunks + Pushed(pending);
  }

  /** One turn of the loop: the first piece goes into the pending text or the finished chunks. */
  method TakePiece(pieces: seq<Text>, chunks: seq<Text>, pending: Text, units: nat, maxUnits: nat, spaced: bool,
                   ghost hard: Text -> seq<Text>)
    returns (done: seq<Text>, next: Text, nextUnits: nat)
    requires pieces != [] && Agree(hard, HardSplitter(maxUnits, spaced))
    ensures PackPieces(pieces[1..], done, next, nextUnits, maxUnits, spaced, hard)
         == PackPieces(pieces, chunks, pending, units, maxUnits, spaced, hard)
  {
    var piece := pieces[0];
    var pieceUnits := CountUnits(piece);
    if pieceUnits > maxUnits {
      var cut := HardSplitByReadingUnits(piece, spaced, maxUnits);
      assert At(piece) && cut == hard(piece);
      return chunks + Pushed(pending) + cut, [], 0;
    }
    done, next, nextUnits := chunks, pending, units;
    if next != [] && nextUnits + pieceUnits > maxUnits {
      done, next, nextUnits := done + Pushed(next), [], 0;
    }
    next, nextUnits := Join(next, piece, spaced), nextUnits + pieceUnits;
  }

  // ----- splitForReadingPressure

  function Relay(spans: seq<Text>, layout: Text -> seq<RawCue>): seq<RawCue> {
    if spans == [] then [] else layout(spans[0]) + Relay(spans[1..], layout)
  }

  function Layout(p: Profile, spaced: bool): Text -> seq<RawCue>
    requires p.maxLines > 0
  {
    span => RawCues(span, p, spaced)
  }

  /** Lays every span out, one after the other. */
  method LayOut(spans: seq<Text>, p: Profile, spaced: bool, ghost layout: Text -> seq<RawCue>) returns (cues: seq<RawCue>)
    requires p.maxLines > 0 && Agree(layout, Layout(p, spaced))
    ensures cues == Relay(spans, layout)
  {
    cues := [];
    for i := 0 to |spans|
      invariant cues + Relay(spans[i..], layout) == Relay(spans, layout)
    {
      var more := RawCuesForSpan(spans[i], p, spaced);
      assert At(spans[i]) && more == layout(spans[i]);
      assert spans[i..][0] == spans[i] && spans[i..][1..] == spans[i + 1..];
      Reassociate(cues, more, Relay(spans[i + 1..], layout));
      cues := cues + more;
    }
  }

  function SplitAll(cues: seq<RawCue>, split: RawCue -> seq<RawCue>): seq<RawCue> {
    if cues == [] then [] else split(cues[0]) + SplitAll(cues[1..], split)
  }

  function SplitCue(cue: RawCue, maxUnits: nat, p: Profile, spaced: bool): seq<RawCue>
    requires p.maxLines > 0
  {
    if Units(cue.text) <= maxUnits then [cue] else Relay(Chunks(cue.text, maxUnits, spaced), Layout(p, spaced))
  }

  function CueSplitter(maxUnits: nat, p: Profile, spaced: bool): RawCue -> seq<RawCue>
    requires p.maxLines > 0
  {
    cue => SplitCue(cue, maxUnits, p, spaced)
  }

  function TotalUnits(cues: seq<RawCue>): nat {
    if cues == [] then 0 else TotalUnits(cues[..|cues| - 1]) + Units(cues[|cues| - 1].text)
  }

  function Seconds(start: int, end: int): real { (end - start) as real / 1000.0 }

  function MaxUnits(start: int, end: int, p: Profile): nat {
    var budget := (p.maxUnitsPerSecond * Seconds(start, end)).Floor;
    if budget < 1 then 1 else budget
  }

  /** Whether the whole caption would have to be read faster than the profile allows. */
  predicate UnderPressure(cues: seq<RawCue>, start: Option<int>, end: Option<int>, p: Profile) {
    && start.Some? && end.Some? && start.value < end.value
    && TotalUnits(cues) as real / Seconds(start.value, end.value) > p.maxUnitsPerSecond
  }

  function PressureSplit(cues: seq<RawCue>, start: Option<int>, end: Option<int>, p: Profile, spaced: bool): seq<RawCue>
    requires p.maxLines > 0
  {
    if !UnderPressure(cues, start, end, p) then cues
    else SplitAll(cues, CueSplitter(MaxUnits(start.value, end.value, p), p, spaced))
  }

  method SplitOne(cue: RawCue, maxUnits: nat, p: Profile, spaced: bool) returns (out: seq<RawCue>)
    requires p.maxLines > 0
    ensures out == SplitCue(cue, maxUnits, p, spaced)
  {
    var units := CountUnits(cue.text);
    if units <= maxUnits {
      return [cue];
    }
    var chunks := PackPiecesPass(SemanticPieces(cue.text), maxUnits, spaced, HardSplitter(maxUnits, spaced));
    out := LayOut(chunks, p, spaced, Layout(p, spaced));
  }

  /** The cue loop; `split` is what `SplitOne` computes. */
  method SplitEach(cues: seq<RawCue>, maxUnits: nat, p: Profile, spaced: bool, ghost split: RawCue -> seq<RawCue>)
    returns (out: seq<RawCue>)
    requires p.maxLines > 0 && Agree(split, CueSplitter(maxUnits, p, spaced))
    ensures out == SplitAll(cues, split)
  {
    out := [];
    for i := 0 to |cues|
      invariant out + SplitAll(cues[i..], split) == SplitAll(cues, split)
    {
      var more := SplitOne(cues[i], maxUnits, p, spaced);
      assert At(cues[i]) && more == split(cues[i]);
      assert cues[i..][0] == cues[i] && cues[i..][1..] == cues[i + 1..];
      Reassociate(out, more, SplitAll(cues[i + 1..], split));
      out := out + more;
    }
  }

  /** The sum over the cues. */
  method SumUnits(cues: seq<RawCue>) returns (total: nat)
    ensures total == TotalUnits(cues)
  {
    total := 0;
    for i := 0 to |cues|
      invariant total == TotalUnits(cues[..i])
    {
      var units := CountUnits(cues[i].text);
      assert cues[..i + 1][..i] == cues[..i];
      total := total + units;
    }
    assert cues[..|cues|] == cues;
  }

  method SplitForReadingPressure(cues: seq<RawCue>, start: Option<int>, end: Option<int>, p: Profile, spaced: bool)
    returns (out: seq<RawCue>)
    requires p.maxLines > 0
    ensures out == PressureSplit(cues, start, end, p, spaced)
  {
    if start.None? || end.None? || end.value <= start.value {
      return cues;
    }
    var total := SumUnits(cues);
    if total as real / Seconds(start.value, end.value) <= p.maxUnitsPerSecond {
      return cues;
    }
    var maxUnits := MaxUnits(start.value, end.value, p);
    out := SplitEach(cues, maxUnits, p, spaced, CueSplitter(maxUnits, p, spaced));
  }

  // ----- nothing but boundary marks is lost

  /** The content of the finished chunks followed by the pending text and the text still to come. */
  function Content(chunks: seq<Text>, pending: Text, todo: seq<Text>, p: Grapheme -> bool): Text {
    Keep(Flatten(chunks), p) + Keep(pending, p) + Keep(Flatten(todo), p)
  }

  lemma {:induction false} AppendChunk(chunks: seq<Text>, chunk: Text, p: Grapheme -> bool)
    ensures Keep(Flatten(chunks + [chunk]), p) == Keep(Flatten(chunks), p) + Keep(chunk, p)
  {
    FlattenConcat(chunks, [chunk]);
    assert Flatten([chunk]) == chunk + Flatten([]) == chunk;
    KeepConcat(Flatten(chunks), chunk, p);
  }

  lemma {:induction false} AppendPushed(chunks: seq<Text>, pending: Text, p: Grapheme -> bool)
    requires SkipsSpace(p)
    ensures Keep(Flatten(chunks + Pushed(pending)), p) == Keep(Flatten(chunks), p) + Keep(pending, p)
  {
    TrimKeeps(pending, p);
    if Trim(pending) == [] {
      assert chunks + Pushed(pending) == chunks;
    } else {
      AppendChunk(chunks, Trim(pending), p);
    }
  }

  lemma {:induction false} NextPiece(todo: seq<Text>, p: Grapheme -> bool)
    requires todo != []
    ensures Keep(Flatten(todo), p) == Keep(todo[0], p) + Keep(Flatten(todo[1..]), p)
  {
    KeepConcat(todo[0], Flatten(todo[1..]), p);
  }

  /** The pending text becomes a chunk, and the next piece becomes pending. */
  lemma {:induction false} ContentPushed(chunks: seq<Text>, done: seq<Text>, pending: Text, todo: seq<Text>, p: Grapheme -> bool)
    requires todo != []
    requires Keep(Flatten(done), p) == Keep(Flatten(chunks), p) + Keep(pending, p)
    ensures Content(done, todo[0], todo[1..], p) == Content(chunks, pending, todo, p)
  {
    NextPiece(todo, p);
    Reassociate4(Keep(Flatten(chunks), p), Keep(pending, p), Keep(todo[0], p), Keep(Flatten(todo[1..]), p));
  }

  /** The next piece joins the pending text. */
  lemma {:induction false} ContentGrown(chunks: seq<Text>, pending: Text, grown: Text, todo: seq<Text>, p: Grapheme -> bool)
    requires todo != []
    requires Keep(grown, p) == Keep(pending, p) + Keep(todo[0], p)
    ensures Content(chunks, grown, todo[1..], p) == Content(chunks, pending, todo, p)
  {
    NextPiece(todo, p);
    Reassociate4(Keep(Flatten(chunks), p), Keep(pending, p), Keep(todo[0], p), Keep(Flatten(todo[1..]), p));
  }

  /** The pending text and the next piece become chunks. */
  lemma {:induction false} ContentHard(chunks: seq<Text>, pending: Text, hard: seq<Text>, todo: seq<Text>, p: Grapheme -> bool)
    requires todo != [] && SkipsSpace(p)
    requires Keep(Flatten(hard), p) == Keep(todo[0], p)
    ensures Content(chunks + Pushed(pending) + hard, [], todo[1..], p) == Content(chunks, pending, todo, p)
  {
    var a, b, c, d := Keep(Flatten(chunks), p), Keep(pending, p), Keep(todo[0], p), Keep(Flatten(todo[1..]), p);
    assert Keep(Flatten(todo), p) == c + d by {
      NextPiece(todo, p);
    }
    assert Keep(Flatten(chunks + Pushed(pending) + hard), p) == a + b + c by {
      AppendPushed(chunks, pending, p);
      FlattenConcat(chunks + Pushed(pending), hard);
      KeepConcat(Flatten(chunks + Pushed(pending)), Flatten(hard), p);
    }
    Regroup(a, b, c, d);
  }

  lemma {:induction false} Regroup(a: Text, b: Text, c: Text, d: Text)
    ensures a + b + c + [] + d == a + b + (c + d)
  {
  }

  lemma {:induction false} PackTokensKeeps(tokens: seq<Text>, chunks: seq<Text>, pending: Text, units: nat, maxUnits: nat, p: Grapheme -> bool)
    requires SkipsSpace(p)
    ensures Keep(Flatten(PackTokens(tokens, chunks, pending, units, maxUnits)), p) == Content(chunks, pending, tokens, p)
    decreases |tokens|
  {
    if tokens == [] {
      AppendPushed(chunks, pending, p);
    } else {
      var token, u := tokens[0], Units(tokens[0]);
      if pending != [] && units + u > maxUnits {
        AppendChunk(chunks, Trim(pending), p);
        TrimKeeps(pending, p);
        ContentPushed(chunks, chunks + [Trim(pending)], pending, tokens, p);
        PackTokensKeeps(tokens[1..], chunks + [Trim(pending)], token, u, maxUnits, p);
      } else {
        KeepConcat(pending, token, p);
        ContentGrown(chunks, pending, pending + token, tokens, p);
        PackTokensKeeps(tokens[1..], chunks, pending + token, units + u, maxUnits, p);
      }
    }
  }

  lemma {:induction false} HardSplitKeeps(text: Text, spaced: bool, maxUnits: nat, p: Grapheme -> bool)
    requires SkipsSpace(p)
    ensures Keep(Flatten(HardSplit(text, spaced, maxUnits)), p) == Keep(text, p)
  {
    PackTokensKeeps(Tokens(text, spaced), [], [], 0, maxUnits, p);
    TokensKeep(text, spaced, p);
  }

  lemma {:induction false} PackPiecesKeeps(pieces: seq<Text>, chunks: seq<Text>, pending: Text, units: nat, maxUnits: nat, spaced: bool,
                                           hard: Text -> seq<Text>, p: Grapheme -> bool)
    requires SkipsSpace(p)
    requires forall t :: Keep(Flatten(hard(t)), p) == Keep(t, p)
    ensures Keep(Flatten(PackPieces(pieces, chunks, pending, units, maxUnits, spaced, hard)), p) == Content(chunks, pending, pieces, p)
    decreases |pieces|
  {
    if pieces == [] {
      AppendPushed(chunks, pending, p);
    } else {
      var piece, u, todo := pieces[0], Units(pieces[0]), pieces[1..];
      if u > maxUnits {
        ContentHard(chunks, pending, hard(piece), pieces, p);
        PackPiecesKeeps(todo, chunks + Pushed(pending) + hard(piece), [], 0, maxUnits, spaced, hard, p);
      } else if pending != [] && units + u > maxUnits {
        AppendPushed(chunks, pending, p);
        ContentPushed(chunks, chunks + Pushed(pending), pending, pieces, p);
        PackPiecesKeeps(todo, chunks + Pushed(pending), piece, u, maxUnits, spaced, hard, p);
      } else {
        JoinKeeps(pending, piece, spaced, p);
        ContentGrown(chunks, pending, Join(pending, piece, spaced), pieces, p);
        PackPiecesKeeps(todo, chunks, Join(pending, piece, spaced), units + u, maxUnits, spaced, hard, p);
      }
    }
  }

  lemma {:induction false} ChunksKeep(text: Text, maxUnits: nat, spaced: bool)
    ensures Core(Flatten(Chunks(text, maxUnits, spaced))) == Core(text)
  {
    var hard := HardSplitter(maxUnits, spaced);
    forall t: Text ensures Keep(Flatten(hard(t)), IsCore) == Keep(t, IsCore) {
      HardSplitKeeps(t, spaced, maxUnits, IsCore);
    }
    PackPiecesKeeps(SemanticPieces(text), [], [], 0, maxUnits, spaced, hard, IsCore);
    SemanticPiecesKeep(text);
  }

  // ----- every chunk is within the budget or indivisible

  /** `chunk` is one word, as the source matches words, of one of the phrases of `text`. */
  ghost predicate WordOf(chunk: Text, text: Text) {
    exists piece, word :: piece in SemanticPieces(text) && word in Words(piece) && chunk == Trim(word)
  }

  /**
    * At most `maxUnits` reading units; only in a language written with spaces may a chunk be
    * over budget, and then it is a single word.
    */
  ghost predicate ChunkOk(chunk: Text, text: Text, maxUnits: nat, spaced: bool) {
    Units(chunk) <= maxUnits || (spaced && WordOf(chunk, text))
  }

  /** Within the budget, or one of the texts that may not be cut. */
  ghost predicate Within(chunk: Text, maxUnits: nat, whole: Text -> bool) { Units(chunk) <= maxUnits || whole(chunk) }

  ghost predicate AllWithin(chunks: seq<Text>, maxUnits: nat, whole: Text -> bool) {
    forall chunk | chunk in chunks :: Within(chunk, maxUnits, whole)
  }

  /** What the loop knows of its pending text. */
  ghost predicate PendingOk(pending: Text, units: nat, maxUnits: nat, whole: Text -> bool) {
    pending != [] ==> Units(pending) <= units && Within(Trim(pending), maxUnits, whole)
  }

  lemma {:induction false} PendingGrows(pending: Text, token: Text, units: nat, maxUnits: nat, whole: Text -> bool)
    requires PendingOk(pending, units, maxUnits, whole) && Within(Trim(token), maxUnits, whole)
    requires pending == [] || units + Units(token) <= maxUnits
    ensures PendingOk(pending + token, units + Units(token), maxUnits, whole)
  {
    if pending == [] {
      assert pending + token == token;
    } else {
      UnitsConcat(pending, token);
      TrimKeepsUnits(pending + token);
    }
  }

  lemma {:induction false} PackTokensBounded(tokens: seq<Text>, chunks: seq<Text>, pending: Text, units: nat, maxUnits: nat, whole: Text -> bool)
    requires AllWithin(chunks, maxUnits, whole) && PendingOk(pending, units, maxUnits, whole)
    requires forall token | token in tokens :: Within(Trim(token), maxUnits, whole)
    ensures AllWithin(PackTokens(tokens, chunks, pending, units, maxUnits), maxUnits, whole)
    decreases |tokens|
  {
    if tokens != [] {
      var token, u := tokens[0], Units(tokens[0]);
      if pending != [] && units + u > maxUnits {
        PackTokensBounded(tokens[1..], chunks + [Trim(pending)], token, u, maxUnits, whole);
      } else {
        PendingGrows(pending, token, units, maxUnits, whole);
        PackTokensBounded(tokens[1..], chunks, pending + token, units + u, maxUnits, whole);
      }
    }
  }

  lemma {:induction false} GraphemeUnits(g: Grapheme)
    ensures Units(Trim([g])) == 1
  {
    TrimKeepsUnits([g]);
    assert Count([g][1..], true) == 0 && Count([g][1..], false) == 0;
  }

  lemma {:induction false} SpaceUnits(t: Text, inWord: bool)
    requires Ink(t) == []
    ensures Count(t, inWord) == 0
  {
    if t != [] {
      KeepConcat([t[0]], t[1..], Inked);
      assert t == [t[0]] + t[1..];
      assert IsSpace(t[0]) by {
        assert Keep([t[0]], Inked) == [];
      }
      SpaceUnits(t[1..], false);
    }
  }

  /** A token is within any budget, or it is a word and the language is written with spaces. */
  lemma {:induction false} TokensWithin(text: Text, spaced: bool, maxUnits: nat, whole: Text -> bool)
    requires maxUnits >= 1 && (spaced ==> forall word | word in Words(text) :: whole(Trim(word)))
    ensures forall token | token in Tokens(text, spaced) :: Within(Trim(token), maxUnits, whole)
  {
    forall token | token in Tokens(text, spaced)
      ensures Within(Trim(token), maxUnits, whole)
    {
      if !spaced {
        GraphemeUnits(token[0]);
      } else if Words(text) == [] {
        WordsKeep(text, Inked);
        SpaceUnits(text, false);
        TrimKeepsUnits(text);
      }
    }
  }

  lemma {:induction false} HardSplitBounded(text: Text, spaced: bool, maxUnits: nat, whole: Text -> bool)
    requires maxUnits >= 1 && (spaced ==> forall word | word in Words(text) :: whole(Trim(word)))
    ensures AllWithin(HardSplit(text, spaced, maxUnits), maxUnits, whole)
  {
    TokensWithin(text, spaced, maxUnits, whole);
    PackTokensBounded(Tokens(text, spaced), [], [], 0, maxUnits, whole);
  }

  lemma {:induction false} PackPiecesBounded(pieces: seq<Text>, chunks: seq<Text>, pending: Text, units: nat, maxUnits: nat, spaced: bool,
                                             hard: Text -> seq<Text>, whole: Text -> bool)
    requires maxUnits >= 1 && AllWithin(chunks, maxUnits, whole)
    requires pending != [] ==> Units(pending) <= units && Units(pending) <= maxUnits
    requires forall piece | piece in pieces :: AllWithin(hard(piece), maxUnits, whole)
    ensures AllWithin(PackPieces(pieces, chunks, pending, units, maxUnits, spaced, hard), maxUnits, whole)
    decreases |pieces|
  {
    TrimKeepsUnits(pending);
    if pieces != [] {
      var piece, u := pieces[0], Units(pieces[0]);
      if u > maxUnits {
        PackPiecesBounded(pieces[1..], chunks + Pushed(pending) + hard(piece), [], 0, maxUnits, spaced, hard, whole);
      } else if pending != [] && units + u > maxUnits {
        PackPiecesBounded(pieces[1..], chunks + Pushed(pending), piece, u, maxUnits, spaced, hard, whole);
      } else {
        UnitsJoin(pending, piece, spaced);
        PackPiecesBounded(pieces[1..], chunks, Join(pending, piece, spaced), units + u, maxUnits, spaced, hard, whole);
      }
    }
  }

  /** The reading-speed promise, before the chunks are laid out again. */
  lemma {:induction false} ChunksBounded(text: Text, maxUnits: nat, spaced: bool)
    requires maxUnits >= 1
    ensures forall chunk | chunk in Chunks(text, maxUnits, spaced) :: ChunkOk(chunk, text, maxUnits, spaced)
  {
    var hard := HardSplitter(maxUnits, spaced);
    var whole := chunk => spaced && WordOf(chunk, text);
    forall piece | piece in SemanticPieces(text)
      ensures AllWithin(hard(piece), maxUnits, whole)
    {
      HardSplitBounded(piece, spaced, maxUnits, whole);
    }
    PackPiecesBounded(SemanticPieces(text), [], [], 0, maxUnits, spaced, hard, whole);
    forall chunk | chunk in Chunks(text, maxUnits, spaced)
      ensures ChunkOk(chunk, text, maxUnits, spaced)
    {
      assert Within(chunk, maxUnits, whole);
    }
  }

  // ----- the split as a whole

  lemma {:induction false} RelayOk(chunks: seq<Text>, p: Profile, spaced: bool)
    requires p.maxLines > 0
    ensures var out := Relay(chunks, Layout(p, spaced));
            && Core(TextOf(out)) == Core(Flatten(chunks))
            && (TrimNeverWidens(p) ==> CuesOk(out, p))
  {
    var layout := Layout(p, spaced);
    if chunks != [] {
      var head, rest := layout(chunks[0]), Relay(chunks[1..], layout);
      RelayOk(chunks[1..], p, spaced);
      RawCuesOk(chunks[0], p, spaced);
      KeepKeep(TextOf(head));
      KeepKeep(chunks[0]);
      TextOfConcat(head, rest, IsCore);
      KeepConcat(chunks[0], Flatten(chunks[1..]), IsCore);
    }
  }

  lemma {:induction false} SplitCueOk(cue: RawCue, maxUnits: nat, p: Profile, spaced: bool)
    requires p.maxLines > 0
    ensures Core(TextOf(SplitCue(cue, maxUnits, p, spaced))) == Core(cue.text)
    ensures TrimNeverWidens(p) && CueOk(cue, p) ==> CuesOk(SplitCue(cue, maxUnits, p, spaced), p)
  {
    if Units(cue.text) <= maxUnits {
      assert TextOf([cue]) == cue.text + TextOf([]) == cue.text;
    } else {
      ChunksKeep(cue.text, maxUnits, spaced);
      RelayOk(Chunks(cue.text, maxUnits, spaced), p, spaced);
    }
  }

  lemma {:induction false} SplitAllOk(cues: seq<RawCue>, maxUnits: nat, p: Profile, spaced: bool)
    requires p.maxLines > 0
    ensures var out := SplitAll(cues, CueSplitter(maxUnits, p, spaced));
            && Core(TextOf(out)) == Core(TextOf(cues))
            && (TrimNeverWidens(p) && CuesOk(cues, p) ==> CuesOk(out, p))
  {
    var split := CueSplitter(maxUnits, p, spaced);
    if cues != [] {
      var head, rest := split(cues[0]), SplitAll(cues[1..], split);
      SplitAllOk(cues[1..], maxUnits, p, spaced);
      SplitCueOk(cues[0], maxUnits, p, spaced);
      TextOfConcat(head, rest, IsCore);
      KeepConcat(cues[0].text, TextOf(cues[1..]), IsCore);
    }
  }

  /** Splitting under pressure keeps every grapheme except boundary marks, and keeps cues displayable. */
  lemma {:induction false} PressureSplitOk(cues: seq<RawCue>, start: Option<int>, end: Option<int>, p: Profile, spaced: bool)
    requires p.maxLines > 0
    ensures Core(TextOf(PressureSplit(cues, start, end, p, spaced))) == Core(TextOf(cues))
    ensures TrimNeverWidens(p) && CuesOk(cues, p) ==> CuesOk(PressureSplit(cues, start, end, p, spaced), p)
  {
    if UnderPressure(cues, start, end, p) {
      SplitAllOk(cues, MaxUnits(start.value, end.value, p), p, spaced);
    }
  }

  // ----- when and how much

  lemma {:induction false} Scaled(x: real, y: real, rate: real)
    requires y > 0.0
    ensures x / y > rate <==> x > rate * y
  {
    assert x == (x / y) * y;
  }

  /** A caption is under pressure exactly when its units exceed what the rate allows in its milliseconds. */
  lemma {:induction false} PressureExactly(cues: seq<RawCue>, start: Option<int>, end: Option<int>, p: Profile)
    ensures UnderPressure(cues, start, end, p) <==>
            && start.Some? && end.Some? && start.value < end.value
            && 1000.0 * TotalUnits(cues) as real > p.maxUnitsPerSecond * (end.value - start.value) as real
  {
    if start.Some? && end.Some? && start.value < end.value {
      var ms := (end.value - start.value) as real;
      Scaled(TotalUnits(cues) as real, ms / 1000.0, p.maxUnitsPerSecond);
      assert p.maxUnitsPerSecond * (ms / 1000.0) == p.maxUnitsPerSecond * ms / 1000.0;
    }
  }

  /** The budget of one cue is the largest number of units within the rate, and one at least. */
  lemma {:induction false} BudgetExactly(start: int, end: int, p: Profile)
    ensures var budget, allowed := MaxUnits(start, end, p), p.maxUnitsPerSecond * (end - start) as real;
            && budget >= 1
            && (budget == 1 || 1000.0 * budget as real <= allowed)
            && 1000.0 * (budget + 1) as real > allowed
  {
    var ms := (end - start) as real;
    var r := p.maxUnitsPerSecond * (ms / 1000.0);
    assert r == p.maxUnitsPerSecond * ms / 1000.0;
    assert r.Floor as real <= r < (r.Floor + 1) as real;
  }

  lemma {:induction false} WithinStays(cues: seq<RawCue>, maxUnits: nat, split: RawCue -> seq<RawCue>)
    requires forall cue | cue in cues :: Units(cue.text) <= maxUnits && split(cue) == [cue]
    ensures SplitAll(cues, split) == cues
  {
    if cues != [] {
      WithinStays(cues[1..], maxUnits, split);
    }
  }

  /** Nothing changes unless the caption as a whole is too fast and some cue is over its budget. */
  lemma {:induction false} PressureLeaves(cues: seq<RawCue>, start: Option<int>, end: Option<int>, p: Profile, spaced: bool)
    requires p.maxLines > 0
    ensures start.None? || end.None? || end.value <= start.value ==> PressureSplit(cues, start, end, p, spaced) == cues
    ensures start.Some? && end.Some?
            && 1000.0 * TotalUnits(cues) as real <= p.maxUnitsPerSecond * (end.value - start.value) as real
            ==> PressureSplit(cues, start, end, p, spaced) == cues
    ensures start.Some? && end.Some? && (forall cue | cue in cues :: Units(cue.text) <= MaxUnits(start.value, end.value, p))
            ==> PressureSplit(cues, start, end, p, spaced) == cues
  {
    PressureExactly(cues, start, end, p);
    if UnderPressure(cues, start, end, p) {
      var budget := MaxUnits(start.value, end.value, p);
      if forall cue | cue in cues :: Units(cue.text) <= budget {
        WithinStays(cues, budget, CueSplitter(budget, p, spaced));
      }
    }
  }

  // ----- the packing is greedy

  function SumOf(texts: seq<Text>): nat {
    if texts == [] then 0 else SumOf(texts[..|texts| - 1]) + Units(texts[|texts| - 1])
  }

  /** The first `n` tokens make one chunk: they are within the budget, or one alone, and the next one would be too much. */
  ghost predicate FullGroup(tokens: seq<Text>, n: nat, maxUnits: nat) {
    && 1 <= n <= |tokens| && (n == 1 || SumOf(tokens[..n]) <= maxUnits)
    && (n < |tokens| ==> SumOf(tokens[..n + 1]) > maxUnits)
  }

  ghost predicate PackedTokens(tokens: seq<Text>, chunks: seq<Text>, maxUnits: nat)
    decreases |tokens|
  {
    if tokens == [] then chunks == []
    else exists n :: FullGroup(tokens, n, maxUnits) && TakesTokens(tokens, n, chunks, maxUnits)
  }

  /** The last group is dropped if it is blank. */
  ghost predicate TakesTokens(tokens: seq<Text>, n: nat, chunks: seq<Text>, maxUnits: nat)
    requires 1 <= n <= |tokens|
    decreases |tokens|, 0
  {
    var chunk := Trim(Flatten(tokens[..n]));
    if n == |tokens| then chunks == if chunk == [] then [] else [chunk]
    else chunks != [] && chunks[0] == chunk && PackedTokens(tokens[n..], chunks[1..], maxUnits)
  }

  lemma {:induction false} FlattenLast(texts: seq<Text>, t: Text)
    ensures Flatten(texts + [t]) == Flatten(texts) + t && SumOf(texts + [t]) == SumOf(texts) + Units(t)
  {
    FlattenConcat(texts, [t]);
    assert Flatten([t]) == t + Flatten([]) == t;
    assert (texts + [t])[..|texts|] == texts;
  }

  lemma {:induction false} FlattenSingle(t: Text)
    ensures Flatten([t]) == t && SumOf([t]) == Units(t)
  {
    assert [] + [t] == [t];
    FlattenLast([], t);
  }

  /** The last group. */
  lemma {:induction false} CloseLast(group: seq<Text>, maxUnits: nat)
    requires group != [] && (|group| == 1 || SumOf(group) <= maxUnits)
    ensures PackedTokens(group, Pushed(Flatten(group)), maxUnits)
  {
    var n := |group|;
    assert group[..n] == group;
    assert FullGroup(group, n, maxUnits) && TakesTokens(group, n, Pushed(Flatten(group)), maxUnits);
  }

  /** A group that is full before `tokens`. */
  lemma {:induction false} GroupIsFull(group: seq<Text>, tokens: seq<Text>, maxUnits: nat)
    requires group != [] && tokens != [] && (|group| == 1 || SumOf(group) <= maxUnits) && SumOf(group) + Units(tokens[0]) > maxUnits
    ensures FullGroup(group + tokens, |group|, maxUnits)
  {
    var all, n := group + tokens, |group|;
    assert all[..n] == group;
    FlattenLast(group, tokens[0]);
    assert all[..n + 1] == group + [tokens[0]];
  }

  lemma {:induction false} CloseGroup(group: seq<Text>, tokens: seq<Text>, more: seq<Text>, maxUnits: nat)
    requires group != [] && tokens != [] && FullGroup(group + tokens, |group|, maxUnits) && PackedTokens(tokens, more, maxUnits)
    ensures PackedTokens(group + tokens, [Trim(Flatten(group))] + more, maxUnits)
  {
    var all, n, rest := group + tokens, |group|, [Trim(Flatten(group))] + more;
    assert all[..n] == group && all[n..] == tokens && rest[1..] == more;
    assert TakesTokens(all, n, rest, maxUnits);
  }

  /** From the given state the loop adds `rest`, and that packs the pending and the coming tokens. */
  ghost predicate AddsTokens(group: seq<Text>, tokens: seq<Text>, chunks: seq<Text>, rest: seq<Text>, maxUnits: nat) {
    && PackTokens(tokens, chunks, Flatten(group), SumOf(group), maxUnits) == chunks + rest
    && PackedTokens(group + tokens, rest, maxUnits)
  }

  lemma {:induction false} EndTokens(group: seq<Text>, chunks: seq<Text>, maxUnits: nat)
    requires group != [] && (|group| == 1 || SumOf(group) <= maxUnits)
    ensures AddsTokens(group, [], chunks, Pushed(Flatten(group)), maxUnits)
  {
    CloseLast(group, maxUnits);
    assert group + [] == group;
  }

  lemma {:induction false} PushTokens(group: seq<Text>, tokens: seq<Text>, chunks: seq<Text>, more: seq<Text>, maxUnits: nat)
    requires group != [] && Flatten(group) != [] && (|group| == 1 || SumOf(group) <= maxUnits)
    requires tokens != [] && SumOf(group) + Units(tokens[0]) > maxUnits
    requires AddsTokens([tokens[0]], tokens[1..], chunks + [Trim(Flatten(group))], more, maxUnits)
    ensures AddsTokens(group, tokens, chunks, [Trim(Flatten(group))] + more, maxUnits)
  {
    assert [tokens[0]] + tokens[1..] == tokens;
    FlattenSingle(tokens[0]);
    GroupIsFull(group, tokens, maxUnits);
    CloseGroup(group, tokens, more, maxUnits);
    Reassociate(chunks, [Trim(Flatten(group))], more);
  }

  lemma {:induction false} GrowTokens(group: seq<Text>, tokens: seq<Text>, chunks: seq<Text>, rest: seq<Text>, maxUnits: nat)
    requires tokens != [] && SumOf(group) + Units(tokens[0]) <= maxUnits
    requires AddsTokens(group + [tokens[0]], tokens[1..], chunks, rest, maxUnits)
    ensures AddsTokens(group, tokens, chunks, rest, maxUnits)
  {
    assert [tokens[0]] + tokens[1..] == tokens;
    FlattenLast(group, tokens[0]);
    Reassociate(group, [tokens[0]], tokens[1..]);
  }

  /** The loop with the tokens of `group` pending. */
  lemma {:induction false} PackTokensGreedy(group: seq<Text>, tokens: seq<Text>, chunks: seq<Text>, maxUnits: nat) returns (rest: seq<Text>)
    requires group != [] && (|group| == 1 || SumOf(group) <= maxUnits) && (tokens != [] ==> Flatten(group) != [])
    requires forall i | 0 <= i < |tokens| :: tokens[i] != []
    ensures AddsTokens(group, tokens, chunks, rest, maxUnits)
    decreases |tokens|
  {
    if tokens == [] {
      rest := Pushed(Flatten(group));
      EndTokens(group, chunks, maxUnits);
    } else if SumOf(group) + Units(tokens[0]) > maxUnits {
      FlattenSingle(tokens[0]);
      var more := PackTokensGreedy([tokens[0]], tokens[1..], chunks + [Trim(Flatten(group))], maxUnits);
      rest := [Trim(Flatten(group))] + more;
      PushTokens(group, tokens, chunks, more, maxUnits);
    } else {
      FlattenLast(group, tokens[0]);
      rest := PackTokensGreedy(group + [tokens[0]], tokens[1..], chunks, maxUnits);
      GrowTokens(group, tokens, chunks, rest, maxUnits);
    }
  }

  lemma {:induction false} WordsNonempty(t: Text)
    ensures forall i | 0 <= i < |Words(t)| :: Words(t)[i] != []
    decreases |t|
  {
    if t == [] {
    } else if IsSpace(t[0]) {
      WordsNonempty(t[1..]);
    } else {
      var n := Run(t, Inked);
      var m := n + Run(t[n..], IsSpace);
      WordsNonempty(t[m..]);
    }
  }

  /** Cutting inside a phrase is greedy: no chunk could take the next token as well. */
  lemma {:induction false} HardSplitGreedy(text: Text, spaced: bool, maxUnits: nat)
    ensures PackedTokens(Tokens(text, spaced), HardSplit(text, spaced, maxUnits), maxUnits)
  {
    var tokens := Tokens(text, spaced);
    WordsNonempty(text);
    if tokens != [] {
      var token, todo := tokens[0], tokens[1..];
      FlattenSingle(token);
      assert [] + token == token && [token] + todo == tokens;
      var rest := PackTokensGreedy([token], todo, [], maxUnits);
      assert [] + rest == rest;
    }
  }

  /** Phrases over the budget are cut on their own; the others are joined as long as the budget lasts. */
  ghost predicate PackedPieces(pieces: seq<Text>, chunks: seq<Text>, maxUnits: nat, spaced: bool, hard: Text -> seq<Text>)
    decreases |pieces|
  {
    if pieces == [] then chunks == []
    else if Units(pieces[0]) > maxUnits then
      exists rest :: chunks == hard(pieces[0]) + rest && PackedPieces(pieces[1..], rest, maxUnits, spaced, hard)
    else
      exists n: nat, rest :: FullGroup(pieces, n, maxUnits) && chunks == Pushed(JoinLines([], pieces[..n], spaced)) + rest
                             && PackedPieces(pieces[n..], rest, maxUnits, spaced, hard)
  }

  lemma {:induction false} JoinLast(acc: Text, texts: seq<Text>, t: Text, spaced: bool)
    ensures JoinLines(acc, texts + [t], spaced) == Join(JoinLines(acc, texts, spaced), t, spaced)
    decreases |texts|
  {
    if texts == [] {
      assert [] + [t] == [t] && [t][1..] == [];
    } else {
      assert (texts + [t])[0] == texts[0] && (texts + [t])[1..] == texts[1..] + [t];
      JoinLast(Join(acc, texts[0], spaced), texts[1..], t, spaced);
    }
  }

  lemma {:induction false} JoinSingle(t: Text, spaced: bool)
    ensures JoinLines([], [t], spaced) == t && SumOf([t]) == Units(t)
  {
    FlattenSingle(t);
    assert [t][1..] == [];
  }

  lemma {:induction false} JoinedHasInk(left: Text, right: Text, spaced: bool)
    requires Ink(right) != []
    ensures Ink(Join(left, right, spaced)) != []
  {
    JoinKeeps(left, right, spaced, Inked);
  }

  lemma {:induction false} ClosePhrase(group: seq<Text>, pieces: seq<Text>, more: seq<Text>, maxUnits: nat, spaced: bool, hard: Text -> seq<Text>)
    requires group != [] && Units(group[0]) <= maxUnits && FullGroup(group + pieces, |group|, maxUnits)
    requires PackedPieces(pieces, more, maxUnits, spaced, hard)
    ensures PackedPieces(group + pieces, Pushed(JoinLines([], group, spaced)) + more, maxUnits, spaced, hard)
  {
    var all, n := group + pieces, |group|;
    assert all[..n] == group && all[n..] == pieces && all[0] == group[0];
  }

  lemma {:induction false} LastPhraseIsFull(group: seq<Text>, maxUnits: nat)
    requires group != [] && SumOf(group) <= maxUnits
    ensures FullGroup(group + [], |group|, maxUnits)
  {
    assert group + [] == group && group[..|group|] == group;
  }

  /** The pending phrases are pushed, if there are any, before `pieces`, whose first one is too much. */
  lemma {:induction false} PushPhrases(group: seq<Text>, pieces: seq<Text>, more: seq<Text>, maxUnits: nat, spaced: bool, hard: Text -> seq<Text>)
    requires pieces != [] && SumOf(group) <= maxUnits && SumOf(group) + Units(pieces[0]) > maxUnits
    requires group != [] ==> Units(group[0]) <= maxUnits
    requires PackedPieces(pieces, more, maxUnits, spaced, hard)
    ensures PackedPieces(group + pieces, Pushed(JoinLines([], group, spaced)) + more, maxUnits, spaced, hard)
  {
    if group == [] {
      assert group + pieces == pieces && Pushed([]) + more == more;
    } else {
      GroupIsFull(group, pieces, maxUnits);
      ClosePhrase(group, pieces, more, maxUnits, spaced, hard);
    }
  }

  lemma {:induction false} LastPhrases(group: seq<Text>, maxUnits: nat, spaced: bool, hard: Text -> seq<Text>)
    requires SumOf(group) <= maxUnits && (group != [] ==> Units(group[0]) <= maxUnits)
    ensures PackedPieces(group, Pushed(JoinLines([], group, spaced)), maxUnits, spaced, hard)
  {
    if group != [] {
      LastPhraseIsFull(group, maxUnits);
      ClosePhrase(group, [], [], maxUnits, spaced, hard);
      assert group + [] == group && Pushed(JoinLines([], group, spaced)) + [] == Pushed(JoinLines([], group, spaced));
    }
  }

  /** What the phrase loop knows: its pending text is the joined phrases of `group`, and every phrase but the last has ink. */
  ghost predicate PhraseState(group: seq<Text>, pending: Text, units: nat, pieces: seq<Text>, maxUnits: nat, spaced: bool) {
    && pending == JoinLines([], group, spaced) && units == SumOf(group) <= maxUnits
    && (group != [] ==> Units(group[0]) <= maxUnits && (pieces != [] ==> Ink(pending) != []))
    && forall i | 0 <= i < |pieces| - 1 :: Ink(pieces[i]) != []
  }

  lemma {:induction false} StartPhrase(piece: Text, todo: seq<Text>, maxUnits: nat, spaced: bool)
    requires Units(piece) <= maxUnits && forall i | 0 <= i < |todo| :: Ink(([piece] + todo)[i]) != []
    ensures PhraseState([piece], piece, Units(piece), todo, maxUnits, spaced)
  {
    JoinSingle(piece, spaced);
    assert todo != [] ==> ([piece] + todo)[0] == piece;
    assert forall i | 0 <= i < |todo| - 1 :: ([piece] + todo)[i + 1] == todo[i];
  }

  lemma {:induction false} GrowPhrase(group: seq<Text>, pending: Text, units: nat, pieces: seq<Text>, maxUnits: nat, spaced: bool)
    requires PhraseState(group, pending, units, pieces, maxUnits, spaced) && pieces != [] && units + Units(pieces[0]) <= maxUnits
    ensures PhraseState(group + [pieces[0]], Join(pending, pieces[0], spaced), units + Units(pieces[0]), pieces[1..], maxUnits, spaced)
  {
    var piece := pieces[0];
    JoinLast([], group, piece, spaced);
    FlattenLast(group, piece);
    assert (group + [piece])[0] == if group == [] then piece else group[0];
    if |pieces| > 1 {
      JoinedHasInk(pending, piece, spaced);
    }
  }

  /** From the given state the loop adds `rest`, and that packs the pending and the coming phrases. */
  ghost predicate Adds(group: seq<Text>, pending: Text, units: nat, pieces: seq<Text>, chunks: seq<Text>, rest: seq<Text>,
                       maxUnits: nat, spaced: bool, hard: Text -> seq<Text>)
  {
    && PackPieces(pieces, chunks, pending, units, maxUnits, spaced, hard) == chunks + rest
    && PackedPieces(group + pieces, rest, maxUnits, spaced, hard)
  }

  lemma {:induction false} EndCase(group: seq<Text>, pending: Text, units: nat, chunks: seq<Text>, maxUnits: nat, spaced: bool, hard: Text -> seq<Text>)
    requires PhraseState(group, pending, units, [], maxUnits, spaced)
    ensures Adds(group, pending, units, [], chunks, Pushed(pending), maxUnits, spaced, hard)
  {
    LastPhrases(group, maxUnits, spaced, hard);
    assert group + [] == group;
  }

  /** The three ways in which the loop goes on. */
  lemma {:induction false} PieceStep(pieces: seq<Text>, chunks: seq<Text>, pending: Text, units: nat, maxUnits: nat, spaced: bool, hard: Text -> seq<Text>)
    requires pieces != []
    ensures var piece, u, todo := pieces[0], Units(pieces[0]), pieces[1..];
            PackPieces(pieces, chunks, pending, units, maxUnits, spaced, hard) ==
            if u > maxUnits then PackPieces(todo, chunks + Pushed(pending) + hard(piece), [], 0, maxUnits, spaced, hard)
            else if pending != [] && units + u > maxUnits then PackPieces(todo, chunks + Pushed(pending), piece, u, maxUnits, spaced, hard)
            else PackPieces(todo, chunks, Join(pending, piece, spaced), units + u, maxUnits, spaced, hard)
  {
  }

  /** A phrase over the budget: what is pending is pushed and the phrase is cut. */
  lemma {:induction false} CutCase(group: seq<Text>, pending: Text, units: nat, pieces: seq<Text>, chunks: seq<Text>, more: seq<Text>,
                                   maxUnits: nat, spaced: bool, hard: Text -> seq<Text>)
    requires PhraseState(group, pending, units, pieces, maxUnits, spaced) && pieces != [] && Units(pieces[0]) > maxUnits
    requires Adds([], [], 0, pieces[1..], chunks + Pushed(pending) + hard(pieces[0]), more, maxUnits, spaced, hard)
    ensures Adds(group, pending, units, pieces, chunks, Pushed(pending) + (hard(pieces[0]) + more), maxUnits, spaced, hard)
  {
    PieceStep(pieces, chunks, pending, units, maxUnits, spaced, hard);
    assert [] + pieces[1..] == pieces[1..];
    PushPhrases(group, pieces, hard(pieces[0]) + more, maxUnits, spaced, hard);
    Reassociate(chunks + Pushed(pending), hard(pieces[0]), more);
    Reassociate(chunks, Pushed(pending), hard(pieces[0]) + more);
  }

  /** A phrase that no longer fits beside what is pending. */
  lemma {:induction false} PushCase(group: seq<Text>, pending: Text, units: nat, pieces: seq<Text>, chunks: seq<Text>, more: seq<Text>,
                                    maxUnits: nat, spaced: bool, hard: Text -> seq<Text>)
    requires PhraseState(group, pending, units, pieces, maxUnits, spaced) && pieces != [] && Units(pieces[0]) <= maxUnits
    requires pending != [] && units + Units(pieces[0]) > maxUnits
    requires Adds([pieces[0]], pieces[0], Units(pieces[0]), pieces[1..], chunks + Pushed(pending), more, maxUnits, spaced, hard)
    ensures Adds(group, pending, units, pieces, chunks, Pushed(pending) + more, maxUnits, spaced, hard)
  {
    PieceStep(pieces, chunks, pending, units, maxUnits, spaced, hard);
    assert [pieces[0]] + pieces[1..] == pieces;
    PushPhrases(group, pieces, more, maxUnits, spaced, hard);
    Reassociate(chunks, Pushed(pending), more);
  }

  /** A phrase that still fits. */
  lemma {:induction false} GrowCase(group: seq<Text>, pending: Text, units: nat, pieces: seq<Text>, chunks: seq<Text>, rest: seq<Text>,
                                    maxUnits: nat, spaced: bool, hard: Text -> seq<Text>)
    requires pieces != [] && units + Units(pieces[0]) <= maxUnits
    requires Adds(group + [pieces[0]], Join(pending, pieces[0], spaced), units + Units(pieces[0]), pieces[1..], chunks, rest, maxUnits, spaced, hard)
    ensures Adds(group, pending, units, pieces, chunks, rest, maxUnits, spaced, hard)
  {
    PieceStep(pieces, chunks, pending, units, maxUnits, spaced, hard);
    assert [pieces[0]] + pieces[1..] == pieces;
    Reassociate(group, [pieces[0]], pieces[1..]);
  }

  /** What is pending has ink, or nothing is pending. */
  lemma {:induction false} PendingOrNone(group: seq<Text>, pending: Text, units: nat, pieces: seq<Text>, maxUnits: nat, spaced: bool)
    requires PhraseState(group, pending, units, pieces, maxUnits, spaced) && pieces != []
    ensures pending == [] ==> units == 0
  {
    assert pending == [] ==> Ink(pending) == [];
  }

  lemma {:induction false} NoPhrase(pieces: seq<Text>, maxUnits: nat, spaced: bool)
    requires forall i | 0 <= i < |pieces| - 1 :: Ink(pieces[i]) != []
    ensures PhraseState([], [], 0, pieces, maxUnits, spaced)
    ensures pieces != [] ==> PhraseState([], [], 0, pieces[1..], maxUnits, spaced)
  {
  }

  lemma {:induction false} PackPiecesGreedy(group: seq<Text>, pending: Text, units: nat, pieces: seq<Text>, chunks: seq<Text>,
                                            maxUnits: nat, spaced: bool, hard: Text -> seq<Text>)
    returns (rest: seq<Text>)
    requires PhraseState(group, pending, units, pieces, maxUnits, spaced)
    ensures Adds(group, pending, units, pieces, chunks, rest, maxUnits, spaced, hard)
    decreases |pieces|
  {
    if pieces == [] {
      rest := Pushed(pending);
      EndCase(group, pending, units, chunks, maxUnits, spaced, hard);
      return;
    }
    var piece, u, todo := pieces[0], Units(pieces[0]), pieces[1..];
    if u > maxUnits {
      NoPhrase(pieces, maxUnits, spaced);
      var more := PackPiecesGreedy([], [], 0, todo, chunks + Pushed(pending) + hard(piece), maxUnits, spaced, hard);
      CutCase(group, pending, units, pieces, chunks, more, maxUnits, spaced, hard);
      rest := Pushed(pending) + (hard(piece) + more);
    } else if pending != [] && units + u > maxUnits {
      assert [piece] + todo == pieces;
      StartPhrase(piece, todo, maxUnits, spaced);
      var more := PackPiecesGreedy([piece], piece, u, todo, chunks + Pushed(pending), maxUnits, spaced, hard);
      PushCase(group, pending, units, pieces, chunks, more, maxUnits, spaced, hard);
      rest := Pushed(pending) + more;
    } else {
      PendingOrNone(group, pending, units, pieces, maxUnits, spaced);
      GrowPhrase(group, pending, units, pieces, maxUnits, spaced);
      rest := PackPiecesGreedy(group + [piece], Join(pending, piece, spaced), units + u, todo, chunks, maxUnits, spaced, hard);
      GrowCase(group, pending, units, pieces, chunks, rest, maxUnits, spaced, hard);
    }
  }

  ghost predicate EndsIn(t: Text, mark: Grapheme -> bool) { t != [] && mark(t[|t| - 1]) }

  /** Every phrase but the last ends in its boundary mark. */
  lemma {:induction false} PhraseEnds(t: Text, mark: Grapheme -> bool)
    ensures forall i | 0 <= i < |Pieces(t, mark, mark)| - 1 :: EndsIn(Pieces(t, mark, mark)[i], mark)
    decreases |t|
  {
    if t == [] {
    } else if mark(t[0]) {
      PhraseEnds(t[1..], mark);
      assert Pieces(t, mark, mark) == Pieces(t[1..], mark, mark);
    } else {
      var m, n := PieceLength(t, mark, mark), Run(t, g => !mark(g));
      var rest := Pieces(t[m..], mark, mark);
      RunFacts(t, g => !mark(g));
      PhraseEnds(t[m..], mark);
      assert Pieces(t, mark, mark) == [t[..m]] + rest;
      assert n == |t| ==> rest == [];
      assert n < |t| ==> EndsIn(t[..m], mark);
    }
  }

  lemma {:induction false} MarkedHasInk(t: Text)
    requires EndsIn(t, IsPhraseMark)
    ensures Ink(t) != []
  {
    var n := |t| - 1;
    assert t == t[..n] + [t[n]];
    KeepConcat(t[..n], [t[n]], Inked);
    KeepCons(t[n], [], Inked);
    assert [t[n]] + [] == [t[n]];
  }

  lemma {:induction false} PhrasesHaveInk(t: Text)
    ensures forall i | 0 <= i < |SemanticPieces(t)| - 1 :: Ink(SemanticPieces(t)[i]) != []
  {
    var ps := SemanticPieces(t);
    PhraseEnds(t, IsPhraseMark);
    forall i | 0 <= i < |ps| - 1
      ensures Ink(ps[i]) != []
    {
      assert ps == Pieces(t, IsPhraseMark, IsPhraseMark);
      MarkedHasInk(ps[i]);
    }
  }

  /** Splitting a cue is greedy: phrases share a chunk as long as the budget lasts, and only one over budget is cut. */
  lemma {:induction false} ChunksGreedy(text: Text, maxUnits: nat, spaced: bool)
    ensures PackedPieces(SemanticPieces(text), Chunks(text, maxUnits, spaced), maxUnits, spaced, HardSplitter(maxUnits, spaced))
  {
    var ps := SemanticPieces(text);
    PhrasesHaveInk(text);
    NoPhrase(ps, maxUnits, spaced);
    var rest := PackPiecesGreedy([], [], 0, ps, [], maxUnits, spaced, HardSplitter(maxUnits, spaced));
    assert [] + ps == ps && [] + rest == rest;
  }

  // ----- the split of a whole caption, cue by cue

  /** The largest number of units that the rate allows in the interval, and one at least. */
  ghost predicate Budget(b: nat, start: int, end: int, p: Profile) {
    var allowed := p.maxUnitsPerSecond * (end - start) as real;
    b >= 1 && (b == 1 || 1000.0 * b as real <= allowed) && 1000.0 * (b + 1) as real > allowed
  }

  /** What one cue becomes: itself within the budget, else its phrases, packed greedily and laid out again. */
  ghost predicate Becomes(cue: RawCue, part: seq<RawCue>, budget: nat, p: Profile, spaced: bool)
    requires p.maxLines > 0
  {
    if Units(cue.text) <= budget then part == [cue]
    else
      exists chunks ::
        && PackedPieces(SemanticPieces(cue.text), chunks, budget, spaced, HardSplitter(budget, spaced))
        && part == Relay(chunks, Layout(p, spaced))
  }

  function Together(parts: seq<seq<RawCue>>): seq<RawCue> {
    if parts == [] then [] else parts[0] + Together(parts[1..])
  }

  ghost function Becoming(budget: nat, p: Profile, spaced: bool): (RawCue, seq<RawCue>) -> bool
    requires p.maxLines > 0
  {
    (cue: RawCue, part: seq<RawCue>) => Becomes(cue, part, budget, p, spaced)
  }

  /** Cue by cue. */
  ghost predicate AllBecome(cues: seq<RawCue>, parts: seq<seq<RawCue>>, becomes: (RawCue, seq<RawCue>) -> bool) {
    |parts| == |cues| && forall i | 0 <= i < |cues| :: becomes(cues[i], parts[i])
  }

  lemma {:induction false} SplitCueBecomes(cue: RawCue, budget: nat, p: Profile, spaced: bool)
    requires p.maxLines > 0
    ensures Becomes(cue, SplitCue(cue, budget, p, spaced), budget, p, spaced)
  {
    ChunksGreedy(cue.text, budget, spaced);
  }

  lemma {:induction false} SplitAllBecomes(cues: seq<RawCue>, split: RawCue -> seq<RawCue>, becomes: (RawCue, seq<RawCue>) -> bool)
    returns (parts: seq<seq<RawCue>>)
    requires forall cue :: becomes(cue, split(cue))
    ensures AllBecome(cues, parts, becomes) && Together(parts) == SplitAll(cues, split)
  {
    if cues == [] {
      parts := [];
    } else {
      var rest := SplitAllBecomes(cues[1..], split, becomes);
      parts := [split(cues[0])] + rest;
      assert parts[1..] == rest;
      assert forall i | 0 < i < |cues| :: cues[i] == cues[1..][i - 1] && parts[i] == rest[i - 1];
    }
  }

  /** The units of the cues exceed what the rate allows in the milliseconds from `start` to `end`. */
  ghost predicate TooFast(cues: seq<RawCue>, start: int, end: int, p: Profile) {
    start < end && 1000.0 * TotalUnits(cues) as real > p.maxUnitsPerSecond * (end - start) as real
  }

  lemma {:induction false} TooFastIsPressure(cues: seq<RawCue>, start: int, end: int, p: Profile)
    requires TooFast(cues, start, end, p)
    ensures UnderPressure(cues, Some(start), Some(end), p)
  {
    PressureExactly(cues, Some(start), Some(end), p);
  }

  lemma {:induction false} PressureSplits(cues: seq<RawCue>, start: int, end: int, p: Profile, spaced: bool, splitter: RawCue -> seq<RawCue>)
    requires p.maxLines > 0 && UnderPressure(cues, Some(start), Some(end), p)
    requires splitter == CueSplitter(MaxUnits(start, end, p), p, spaced)
    ensures PressureSplit(cues, Some(start), Some(end), p, spaced) == SplitAll(cues, splitter)
  {
  }

  lemma {:induction false} BudgetFits(start: int, end: int, p: Profile)
    ensures Budget(MaxUnits(start, end, p), start, end, p)
  {
    BudgetExactly(start, end, p);
  }

  lemma {:induction false} SplitterBecomes(budget: nat, p: Profile, spaced: bool)
    requires p.maxLines > 0
    ensures forall cue :: Becoming(budget, p, spaced)(cue, CueSplitter(budget, p, spaced)(cue))
  {
    forall cue
      ensures Becomes(cue, SplitCue(cue, budget, p, spaced), budget, p, spaced)
    {
      SplitCueBecomes(cue, budget, p, spaced);
    }
  }

  /** Under pressure every cue is kept or cut on its own, by one budget that is the rate times the caption's length. */
  lemma {:induction false} PressureCueByCue(cues: seq<RawCue>, start: int, end: int, p: Profile, spaced: bool)
    returns (parts: seq<seq<RawCue>>, budget: nat)
    requires p.maxLines > 0 && TooFast(cues, start, end, p)
    ensures Budget(budget, start, end, p) && AllBecome(cues, parts, Becoming(budget, p, spaced))
    ensures PressureSplit(cues, Some(start), Some(end), p, spaced) == Together(parts)
  {
    budget := MaxUnits(start, end, p);
    var splitter := CueSplitter(budget, p, spaced);
    BudgetFits(start, end, p);
    TooFastIsPressure(cues, start, end, p);
    PressureSplits(cues, start, end, p, spaced, splitter);
    SplitterBecomes(budget, p, spaced);
    parts := SplitAllBecomes(cues, splitter, Becoming(budget, p, spaced));
  }
}
