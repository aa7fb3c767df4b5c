/** Newline-delimited text, one char standing for one byte.

  ScanLines is what a bufio.Scanner with its default split function returns:
  split at LF, drop one trailing CR from each line, and return a non-empty
  unterminated remainder as a last line. Unlines is what the writers of this
  program produce: each line followed by one LF. */
module Lines {

  datatype Option<+T> = None | Some(value: T)

  predicate NoLF(s: string) {
    '\n' !in s
  }

  predicate EndsInCR(s: string) {
    s != "" && s[|s| - 1] == '\r'
  }

  function StripCR(s: string): string {
    if EndsInCR(s) then s[..|s| - 1] else s
  }

  /** Position of the first LF, or the length when there is none. */
  function IndexLF(s: string): (i: nat)
    ensures i <= |s|
    ensures NoLF(s[..i])
    ensures i < |s| ==> s[i] == '\n'
  {
    if s == "" || s[0] == '\n' then 0
    else
      var j := IndexLF(s[1..]);
      assert s[..j + 1] == [s[0]] + s[1..][..j];
      j + 1
  }

  function ScanLines(s: string): seq<string> {
    if s == "" then []
    else
      var i := IndexLF(s);
      if i == |s| then [StripCR(s)]
      else [StripCR(s[..i])] + ScanLines(s[i + 1..])
  }

  function Unlines(ls: seq<string>): string {
    if ls == [] then "" else ls[0] + "\n" + Unlines(ls[1..])
  }

  function StripAll(ls: seq<string>): (r: seq<string>)
    ensures |r| == |ls|
    ensures forall i :: 0 <= i < |ls| ==> r[i] == StripCR(ls[i])
  {
    if ls == [] then [] else [StripCR(ls[0])] + StripAll(ls[1..])
  }

  /** What is written of a line when the write fails after n bytes; at the line's
    length or beyond it is the newline that is missing. */
  function CutAt(line: string, n: nat): string {
    if n < |line| then line[..n] else line
  }

  /** The lines LineReader.Next and readLines hand out: blank ones are skipped. */
  function NonBlank(ls: seq<string>): (r: seq<string>)
    ensures forall l :: l in r <==> l in ls && l != ""
  {
    if ls == [] then [] else (if ls[0] == "" then [] else [ls[0]]) + NonBlank(ls[1..])
  }

  function Records(s: string): seq<string> {
    NonBlank(ScanLines(s))
  }

  predicate AllNoLF(ls: seq<string>) {
    forall l :: l in ls ==> NoLF(l)
  }

  lemma {:induction false} IndexOfFirst(l: string, rest: string)
    requires NoLF(l)
    ensures IndexLF(l + "\n" + rest) == |l|
  {
    var s := l + "\n" + rest;
    assert s[|l|] == '\n';
    assert forall k :: 0 <= k < |l| ==> s[k] == l[k];
    assert forall k :: 0 <= k < IndexLF(s) ==> s[k] == s[..IndexLF(s)][k];
  }

  lemma {:induction false} ScanOne(l: string, rest: string)
    requires NoLF(l)
    ensures ScanLines(l + "\n" + rest) == [StripCR(l)] + ScanLines(rest)
  {
    IndexOfFirst(l, rest);
    var s := l + "\n" + rest;
    assert s[..|l|] == l && s[|l| + 1..] == rest;
  }

  lemma {:induction false} ScanUnlines(ls: seq<string>, rest: string)
    requires AllNoLF(ls)
    ensures ScanLines(Unlines(ls) + rest) == StripAll(ls) + ScanLines(rest)
  {
    if ls == [] {
      assert Unlines(ls) + rest == rest;
    } else {
      UnlinesStep(ls, rest);
      ScanOne(ls[0], Unlines(ls[1..]) + rest);
      ScanUnlines(ls[1..], rest);
      ConsAssociates(StripCR(ls[0]), StripAll(ls[1..]), ScanLines(rest));
    }
  }

  lemma ConsAssociates<T>(x: T, a: seq<T>, b: seq<T>)
    ensures [x] + (a + b) == ([x] + a) + b
  {}

  lemma UnlinesStep(ls: seq<string>, rest: string)
    requires ls != []
    ensures Unlines(ls) + rest == ls[0] + "\n" + (Unlines(ls[1..]) + rest)
  {}

  /** Scanning undoes printing exactly when no line ends in CR. */
  lemma {:induction false} ScanUndoesUnlines(ls: seq<string>)
    requires AllNoLF(ls)
    ensures ScanLines(Unlines(ls)) == StripAll(ls)
    ensures ScanLines(Unlines(ls)) == ls <==> forall l :: l in ls ==> !EndsInCR(l)
  {
    ScanUnlines(ls, "");
    assert Unlines(ls) + "" == Unlines(ls);
    if forall l :: l in ls ==> !EndsInCR(l) {
      assert StripAll(ls) == ls;
    } else {
      var i :| 0 <= i < |ls| && EndsInCR(ls[i]);
      assert |StripAll(ls)[i]| < |ls[i]|;
    }
  }

  /** A non-empty unterminated last line is scanned as if it were terminated. */
  lemma {:induction false} ScanReadsRemainder(ls: seq<string>, rest: string)
    requires AllNoLF(ls) && NoLF(rest) && rest != ""
    ensures ScanLines(Unlines(ls) + rest) == StripAll(ls) + [StripCR(rest)] == ScanLines(Unlines(ls + [rest]))
  {
    ScanUnlines(ls, rest);
    assert forall i :: 0 <= i < |rest| ==> rest[i] in rest;
    UnlinesConcat(ls, [rest]);
    assert Unlines([rest]) == rest + "\n" + "";
    ScanOne(rest, "");
    ScanUnlines(ls, rest + "\n" + "");
  }

  lemma {:induction false} ScannedLinesHaveNoLF(s: string)
    ensures AllNoLF(ScanLines(s))
    decreases |s|
  {
    if s != "" {
      var i := IndexLF(s);
      if i == |s| {
        assert s[..i] == s;
      } else {
        ScannedLinesHaveNoLF(s[i + 1..]);
      }
    }
  }

  lemma {:induction false} UnlinesConcat(a: seq<string>, b: seq<string>)
    ensures Unlines(a + b) == Unlines(a) + Unlines(b)
  {
    if a == [] {
      assert a + b == b;
    } else {
      assert (a + b)[1..] == a[1..] + b;
      UnlinesConcat(a[1..], b);
    }
  }

  lemma {:induction false} NonBlankConcat(a: seq<string>, b: seq<string>)
    ensures NonBlank(a + b) == NonBlank(a) + NonBlank(b)
  {
    if a == [] {
      assert a + b == b;
    } else {
      assert (a + b)[1..] == a[1..] + b;
      NonBlankConcat(a[1..], b);
    }
  }

  lemma {:induction false} NonBlankKeepsAll(ls: seq<string>)
    requires forall l :: l in ls ==> l != ""
    ensures NonBlank(ls) == ls
  {
    if ls != [] {
      assert ls[0] in ls && forall l :: l in ls[1..] ==> l in ls;
      NonBlankKeepsAll(ls[1..]);
      assert ls == [ls[0]] + ls[1..];
    }
  }
}
