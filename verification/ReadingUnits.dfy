/** The stateful reading-unit counter and how it behaves under joining and trimming. */
module ReadingUnits {
  import opened CaptionText

  /** Units of `t`, given whether the scan enters it inside a word of letters and digits. */
  function Count(t: Text, inWord: bool): nat {
    if t == [] then 0
    else match t[0].kind
         case Cjk => 1 + Count(t[1..], false)
         case Letter => (if inWord then 0 else 1) + Count(t[1..], true)
         case Pictograph => 1 + Count(t[1..], false)
         case _ => Count(t[1..], false)
  }

  function Units(t: Text): nat {
    var n := Count(t, false);
    if n < 1 then 1 else n
  }

  /** `readingUnits`, the loop of the source. */
  method CountUnits(t: Text) returns (n: nat)
    ensures n == Units(t)
  {
    var units: nat := 0;
    var inWord := false;
    for i := 0 to |t|
      invariant units + Count(t[i..], inWord) == Count(t, false)
    {
      assert t[i..][1..] == t[i + 1..];
      if t[i].kind.Cjk? {
        units := units + 1;
        inWord := false;
      } else if t[i].kind.Letter? {
        if !inWord {
          units := units + 1;
        }
        inWord := true;
      } else {
        if t[i].kind.Pictograph? {
          units := units + 1;
        }
        inWord := false;
      }
    }
    n := if units < 1 then 1 else units;
  }

  // ----- what is counted

  /** A CJK grapheme, a pictograph, or the first of a run of letters and digits. */
  ghost predicate StartsUnit(t: Text, i: nat, inWord: bool)
    requires i < |t|
  {
    || t[i].kind.Cjk? || t[i].kind.Pictograph?
    || (t[i].kind.Letter? && if i == 0 then !inWord else !t[i - 1].kind.Letter?)
  }

  ghost function UnitStarts(t: Text, inWord: bool): set<nat> {
    set i: nat | i < |t| && StartsUnit(t, i, inWord)
  }

  lemma {:induction false} CountLast(t: Text, inWord: bool)
    requires t != []
    ensures Count(t, inWord) == Count(t[..|t| - 1], inWord) + if StartsUnit(t, |t| - 1, inWord) then 1 else 0
  {
    var n := |t| - 1;
    if n == 0 {
      assert t[1..] == [] && t[..0] == [];
    } else {
      var rest := t[1..];
      CountLast(rest, t[0].kind.Letter?);
      assert t[..n][1..] == rest[..n - 1];
    }
  }

  lemma {:induction false} StartsLast(t: Text, inWord: bool)
    requires t != []
    ensures UnitStarts(t, inWord) ==
            UnitStarts(t[..|t| - 1], inWord) + if StartsUnit(t, |t| - 1, inWord) then {|t| - 1} else {}
  {
    var front := t[..|t| - 1];
    assert forall i: nat | i < |front| :: front[i] == t[i];
    assert forall i: nat | i < |front| :: StartsUnit(t, i, inWord) <==> StartsUnit(front, i, inWord);
  }

  lemma {:induction false} CountIsStarts(t: Text, inWord: bool)
    ensures Count(t, inWord) == |UnitStarts(t, inWord)|
  {
    if t == [] {
      assert UnitStarts(t, inWord) == {};
    } else {
      CountLast(t, inWord);
      CountIsStarts(t[..|t| - 1], inWord);
      StartsLast(t, inWord);
    }
  }

  /** The units of a text: its CJK graphemes, its pictographs and its maximal runs of letters and digits; one at least. */
  lemma {:induction false} UnitsExactly(t: Text)
    ensures var starts := |UnitStarts(t, false)|; Units(t) == if starts == 0 then 1 else starts
  {
    CountIsStarts(t, false);
  }

  // ----- joining and trimming

  lemma {:induction false} EnteringInWord(t: Text)
    ensures Count(t, true) <= Count(t, false) <= Count(t, true) + 1
  {
  }

  lemma {:induction false} CountConcat(a: Text, b: Text, inWord: bool)
    ensures Count(a + b, inWord) <= Count(a, inWord) + Count(b, false)
  {
    if a == [] {
      assert a + b == b;
      EnteringInWord(b);
    } else {
      assert (a + b)[1..] == a[1..] + b;
      CountConcat(a[1..], b, a[0].kind.Letter?);
    }
  }

  lemma {:induction false} CountTrimStart(t: Text)
    ensures Count(TrimStart(t), false) == Count(t, false)
  {
    if t != [] && IsSpace(t[0]) {
      CountTrimStart(t[1..]);
    }
  }

  /** A trailing space adds nothing. */
  lemma {:induction false} CountDropLast(t: Text, inWord: bool)
    requires t != [] && IsSpace(t[|t| - 1])
    ensures Count(t[..|t| - 1], inWord) == Count(t, inWord)
  {
    if |t| == 1 {
    } else {
      assert t[..|t| - 1][1..] == t[1..][..|t| - 2];
      CountDropLast(t[1..], t[0].kind.Letter?);
    }
  }

  lemma {:induction false} CountTrimEnd(t: Text)
    ensures Count(TrimEnd(t), false) == Count(t, false)
  {
    if t != [] && IsSpace(t[|t| - 1]) {
      CountDropLast(t, false);
      CountTrimEnd(t[..|t| - 1]);
    }
  }

  lemma {:induction false} TrimKeepsUnits(t: Text)
    ensures Units(Trim(t)) == Units(t)
  {
    CountTrimStart(t);
    CountTrimEnd(TrimStart(t));
  }

  /** Subadditivity under plain concatenation. */
  lemma {:induction false} UnitsConcat(a: Text, b: Text)
    ensures Units(a + b) <= Units(a) + Units(b)
  {
    CountConcat(a, b, false);
  }

  /** Subadditivity under `joinText`, which trims and may insert a space. */
  lemma {:induction false} UnitsJoin(a: Text, b: Text, spaced: bool)
    ensures Units(Join(a, b, spaced)) <= Units(a) + Units(b)
  {
    CountTrimEnd(a);
    CountTrimStart(b);
    if a != [] && b != [] {
      if spaced {
        CountConcat(TrimEnd(a) + [SPACE], TrimStart(b), false);
        CountConcat(TrimEnd(a), [SPACE], false);
      } else {
        CountConcat(TrimEnd(a), TrimStart(b), false);
      }
    }
  }
}
