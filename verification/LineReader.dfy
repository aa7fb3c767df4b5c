/** LineReader (internal/jsonl/iter.go): the lines of a file one at a time. */
module LineReader {
  import opened Lines

  class LineReader {
    /** What the scanner has not handed out yet. */
    var rest: seq<string>

    constructor (text: string)
      ensures rest == ScanLines(text)
    {
      rest := ScanLines(text);
    }

    /** The next line that is not blank, or the end of the file. */
    method Next() returns (line: Option<string>)
      modifies this
      ensures line.None? <==> NonBlank(old(rest)) == []
      ensures line.None? ==> rest == []
      ensures line.Some? ==> NonBlank(old(rest)) == [line.value] + NonBlank(rest) && |rest| < |old(rest)|
    {
      while rest != []
        invariant NonBlank(rest) == NonBlank(old(rest)) && |rest| <= |old(rest)|
        decreases |rest|
      {
        var l := rest[0];
        rest := rest[1..];
        if |l| > 0 {
          return Some(l);
        }
      }
      return None;
    }
  }

  lemma {:induction false} Regroup(a: seq<string>, x: string, b: seq<string>)
    ensures a + ([x] + b) == (a + [x]) + b
  {
  }

  /** Reading to the end hands out exactly the records of the file, in order. */
  method ReadAll(text: string) returns (lines: seq<string>)
    ensures lines == Records(text)
  {
    var reader := new LineReader(text);
    lines := [];
    assert lines + NonBlank(reader.rest) == Records(text);
    while true
      invariant lines + NonBlank(reader.rest) == Records(text)
      decreases |reader.rest|
    {
      ghost var left := NonBlank(reader.rest);
      var line := reader.Next();
      if line.None? {
        assert lines + left == lines;
        return;
      }
      Regroup(lines, line.value, NonBlank(reader.rest));
      lines := lines + [line.value];
    }
  }
}
