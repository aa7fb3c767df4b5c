/** Trimming white space, as strings.TrimSpace does on ASCII text. */
module Text {

  predicate IsBlank(ch: char) { ch in " \t\n\r" || ch as int in {11, 12} }

  predicate AllBlank(s: string) {
    forall i :: 0 <= i < |s| ==> IsBlank(s[i])
  }

  /** Space, tab, LF, VT, FF and CR. */
  lemma {:induction false} BlankSays(ch: char)
    ensures IsBlank(ch) <==> ch as int in {9, 10, 11, 12, 13, 32}
  {
    assert " \t\n\r"[0] as int == 32 && " \t\n\r"[1] as int == 9;
    assert " \t\n\r"[2] as int == 10 && " \t\n\r"[3] as int == 13;
  }

  /** No blank at either end. */
  predicate Tight(s: string) {
    s != "" ==> !IsBlank(s[0]) && !IsBlank(s[|s| - 1])
  }

  function TrimBlanks(s: string): (r: string)
    ensures Tight(r) && |r| <= |s|
  {
    if s != "" && IsBlank(s[0]) then TrimBlanks(s[1..])
    else if s != "" && IsBlank(s[|s| - 1]) then TrimBlanks(s[..|s| - 1])
    else s
  }

  lemma {:induction false} TrimPaddedLeft(before: string, s: string)
    requires AllBlank(before)
    ensures TrimBlanks(before + s) == TrimBlanks(s)
  {
    if before == "" {
      assert before + s == s;
    } else {
      var t := before + s;
      assert t[0] == before[0] && t[1..] == before[1..] + s;
      TrimPaddedLeft(before[1..], s);
    }
  }

  lemma {:induction false} TrimPaddedRight(s: string, after: string)
    requires AllBlank(after) && Tight(s) && s != ""
    ensures TrimBlanks(s + after) == s
  {
    if after == "" {
      assert s + after == s;
    } else {
      var t, rest := s + after, after[..|after| - 1];
      assert t[0] == s[0] && t[|t| - 1] == after[|after| - 1];
      assert t[..|t| - 1] == s + rest;
      TrimPaddedRight(s, rest);
    }
  }

  /** Whatever surrounds a tight text, if blank, is exactly what trimming removes. */
  lemma {:induction false} TrimUndoesPadding(before: string, s: string, after: string)
    requires AllBlank(before) && AllBlank(after) && Tight(s) && s != ""
    ensures TrimBlanks(before + s + after) == s
  {
    assert before + s + after == before + (s + after);
    TrimPaddedLeft(before, s + after);
    TrimPaddedRight(s, after);
  }

  lemma TrimTight(s: string)
    requires Tight(s)
    ensures TrimBlanks(s) == s
  {}

  lemma TrimLeft(before: string, s: string)
    requires AllBlank(before) && Tight(s) && s != ""
    ensures TrimBlanks(before + s) == s
  {
    TrimPaddedLeft(before, s);
  }

  lemma TrimRight(s: string, after: string)
    requires AllBlank(after) && Tight(s) && s != ""
    ensures TrimBlanks(s + after) == s
  {
    TrimPaddedRight(s, after);
  }

  lemma MoreInFront(t: string, x: char, before: string, core: string, after: string)
    requires AllBlank(before) && IsBlank(x) && t == before + core + after
    ensures AllBlank([x] + before) && [x] + t == ([x] + before) + core + after
  {}

  lemma MoreBehind(t: string, before: string, core: string, after: string, x: char)
    requires AllBlank(after) && IsBlank(x) && t == before + core + after
    ensures AllBlank(after + [x]) && t + [x] == before + core + (after + [x])
  {}

  lemma FirstAndRest(s: string)
    requires s != ""
    ensures s == [s[0]] + s[1..] && s == s[..|s| - 1] + [s[|s| - 1]]
  {}

  /** Every text is its trimmed form between blanks. */
  lemma {:induction false} Padding(s: string) returns (before: string, after: string)
    ensures AllBlank(before) && AllBlank(after) && s == before + TrimBlanks(s) + after
  {
    var core := TrimBlanks(s);
    if s != "" && IsBlank(s[0]) {
      var x, rest := s[0], s[1..];
      FirstAndRest(s);
      before, after := Padding(rest);
      assert core == TrimBlanks(rest);
      MoreInFront(rest, x, before, core, after);
      before := [x] + before;
    } else if s != "" && IsBlank(s[|s| - 1]) {
      var x, rest := s[|s| - 1], s[..|s| - 1];
      FirstAndRest(s);
      before, after := Padding(rest);
      assert core == TrimBlanks(rest);
      MoreBehind(rest, before, core, after, x);
      after := after + [x];
    } else {
      before, after := "", "";
      assert s == "" + s + "";
    }
  }

  lemma {:induction false} TrimOfBlanks(s: string)
    ensures AllBlank(s) <==> TrimBlanks(s) == ""
  {
    var before, after := Padding(s);
    if TrimBlanks(s) != "" {
      assert s[|before|] == TrimBlanks(s)[0];
    }
  }

  // ----- what growing a text does to its trimmed form -----

  lemma {:induction false} TrimOfJoined(before: string, core: string, gap: string, core': string, after: string)
    requires AllBlank(before) && AllBlank(after)
    requires Tight(core) && core != "" && Tight(core') && core' != ""
    ensures TrimBlanks(before + core + gap + core' + after) == core + gap + core'
  {
    var whole := core + gap + core';
    assert whole[|whole| - 1] == core'[|core'| - 1] && whole[0] == core[0];
    TrimUndoesPadding(before, whole, after);
    assert before + whole + after == before + core + gap + core' + after;
  }

  /** A text that grows by blanks keeps its trimmed form. */
  lemma {:induction false} TrimOfBlankGrowth(s: string, more: string)
    requires AllBlank(more)
    ensures TrimBlanks(s + more) == TrimBlanks(s)
  {
    var before, after := Padding(s);
    if TrimBlanks(s) == "" {
      TrimOfBlanks(s);
      TrimOfBlanks(s + more);
    } else {
      assert s + more == before + TrimBlanks(s) + (after + more);
      TrimUndoesPadding(before, TrimBlanks(s), after + more);
    }
  }

  /** A text that grows keeps its trimmed form as a prefix. What follows it there
    is a blank, or else the first new character. */
  lemma {:induction false} TrimOfGrowth(s: string, more: string)
    requires !AllBlank(more) && TrimBlanks(s) != ""
    ensures TrimBlanks(s) <= TrimBlanks(s + more) && |TrimBlanks(s)| < |TrimBlanks(s + more)|
    ensures IsBlank(TrimBlanks(s + more)[|TrimBlanks(s)|]) || TrimBlanks(s + more)[|TrimBlanks(s)|] == more[0]
  {
    var before, after := Padding(s);
    var left, right := Padding(more);
    var core, core' := TrimBlanks(s), TrimBlanks(more);
    TrimOfBlanks(more);
    var gap := after + left;
    assert s + more == before + core + gap + core' + right;
    TrimOfJoined(before, core, gap, core', right);
    var next := (core + gap + core')[|core|];
    if gap == "" {
      assert next == core'[0] == more[0];
    } else {
      assert next == gap[0] && AllBlank(gap);
    }
  }

  // ----- how many non-blank characters -----

  function NonBlanks(s: string): nat {
    if s == "" then 0 else (if IsBlank(s[0]) then 0 else 1) + NonBlanks(s[1..])
  }

  lemma {:induction false} NonBlanksConcat(s: string, t: string)
    ensures NonBlanks(s + t) == NonBlanks(s) + NonBlanks(t)
  {
    if s == "" {
      assert s + t == t;
    } else {
      assert (s + t)[1..] == s[1..] + t;
      NonBlanksConcat(s[1..], t);
    }
  }

  lemma {:induction false} NoneNonBlank(s: string)
    ensures NonBlanks(s) == 0 <==> AllBlank(s)
  {
    if s != "" {
      NoneNonBlank(s[1..]);
      assert AllBlank(s) <==> IsBlank(s[0]) && AllBlank(s[1..]) by {
        assert s == [s[0]] + s[1..];
      }
    }
  }

  lemma {:induction false} TrimKeepsNonBlanks(s: string)
    ensures NonBlanks(TrimBlanks(s)) == NonBlanks(s)
  {
    var before, after := Padding(s);
    NonBlanksConcat(before + TrimBlanks(s), after);
    NonBlanksConcat(before, TrimBlanks(s));
    NoneNonBlank(before);
    NoneNonBlank(after);
  }

  // ----- texts inside longer ones -----

  /** s is left when some characters of t are struck out. */
  predicate Within(s: string, t: string) {
    s == "" || (t != "" && ((s[0] == t[0] && Within(s[1..], t[1..])) || Within(s, t[1..])))
  }

  lemma {:induction false} WithinPadded(before: string, s: string, after: string)
    ensures Within(s, before + s + after)
    decreases |before| + |s|
  {
    var t := before + s + after;
    if s != "" && before != "" {
      assert t[1..] == before[1..] + s + after;
      WithinPadded(before[1..], s, after);
    } else if s != "" {
      assert t[1..] == before + s[1..] + after;
      WithinPadded(before, s[1..], after);
    }
  }

  lemma {:induction false} WithinConcat(s: string, t: string, s': string, t': string)
    requires Within(s, t) && Within(s', t')
    ensures Within(s + s', t + t')
    decreases |t|
  {
    if t == "" {
      assert s + s' == s' && t + t' == t';
    } else {
      assert (t + t')[1..] == t[1..] + t';
      if s != "" && s[0] == t[0] && Within(s[1..], t[1..]) {
        WithinConcat(s[1..], t[1..], s', t');
        assert (s + s')[1..] == s[1..] + s';
      } else {
        WithinConcat(s, t[1..], s', t');
      }
    }
  }

  lemma {:induction false} WithinTrans(s: string, t: string, u: string)
    requires Within(s, t) && Within(t, u)
    ensures Within(s, u)
    decreases |u|
  {
    if s != "" {
      if t[0] == u[0] && Within(t[1..], u[1..]) {
        if s[0] == t[0] && Within(s[1..], t[1..]) {
          WithinTrans(s[1..], t[1..], u[1..]);
        } else {
          WithinTrans(s, t[1..], u[1..]);
        }
      } else {
        WithinTrans(s, t, u[1..]);
      }
    }
  }

  lemma {:induction false} WithinLength(s: string, t: string)
    requires Within(s, t)
    ensures |s| <= |t|
    decreases t
  {
    if s != "" {
      if s[0] == t[0] && Within(s[1..], t[1..]) {
        WithinLength(s[1..], t[1..]);
      } else {
        WithinLength(s, t[1..]);
      }
    }
  }

  lemma {:induction false} NotWithinBlanks(s: string, t: string)
    requires s != "" && !IsBlank(s[|s| - 1]) && AllBlank(t)
    ensures !Within(s, t)
    decreases t
  {
    if t != "" {
      if |s| > 1 {
        NotWithinBlanks(s[1..], t[1..]);
      }
      NotWithinBlanks(s, t[1..]);
    }
  }

  /** Blanks around a text do not help to hold a tight one. */
  lemma {:induction false} BlanksHoldNothing(s: string, before: string, t: string, after: string)
    requires s != "" && !IsBlank(s[|s| - 1]) && AllBlank(after)
    requires before == "" || (AllBlank(before) && !IsBlank(s[0]))
    requires Within(s, before + t + after)
    ensures Within(s, t)
    decreases |before| + |t|
  {
    var u := before + t + after;
    if before != "" {
      assert u[0] == before[0] && u[1..] == before[1..] + t + after;
      BlanksHoldNothing(s, before[1..], t, after);
    } else if t != "" {
      assert u[0] == t[0] && u[1..] == before + t[1..] + after;
      if s[0] == t[0] && Within(s[1..], u[1..]) {
        if |s| > 1 {
          BlanksHoldNothing(s[1..], before, t[1..], after);
        }
      } else {
        BlanksHoldNothing(s, before, t[1..], after);
      }
    } else {
      assert u == after;
      NotWithinBlanks(s, after);
    }
  }

  lemma {:induction false} TrimWithin(s: string)
    ensures Within(TrimBlanks(s), s)
  {
    var before, after := Padding(s);
    WithinPadded(before, TrimBlanks(s), after);
  }

  lemma {:induction false} TightWithinTrim(s: string, t: string)
    requires Tight(s) && Within(s, t)
    ensures Within(s, TrimBlanks(t))
  {
    var left, right := Padding(t);
    if s != "" {
      BlanksHoldNothing(s, left, TrimBlanks(t), right);
    }
  }

  /** A text inside another stays inside it, and no longer, when both are trimmed. */
  lemma {:induction false} WithinTrim(s: string, t: string)
    requires Within(s, t)
    ensures Within(TrimBlanks(s), TrimBlanks(t)) && |TrimBlanks(s)| <= |TrimBlanks(t)|
  {
    TrimWithin(s);
    WithinTrans(TrimBlanks(s), s, t);
    TightWithinTrim(TrimBlanks(s), t);
    WithinLength(TrimBlanks(s), TrimBlanks(t));
  }

  predicate EndsWith(s: string, suffix: string) {
    |suffix| <= |s| && s[|s| - |suffix|..] == suffix
  }

  function DropSuffix(s: string, suffix: string): string {
    if EndsWith(s, suffix) then s[..|s| - |suffix|] else s
  }

  lemma DropSuffixUndoes(s: string, suffix: string)
    ensures EndsWith(s + suffix, suffix) && DropSuffix(s + suffix, suffix) == s
  {
    assert (s + suffix)[|s|..] == suffix;
    assert (s + suffix)[..|s|] == s;
  }
}
