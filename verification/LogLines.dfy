/** Reading an access-log sink back line by line. */
module LogLines {

  // What the JSON encoder writes for one entry: one line feed, at the end.
  predicate IsLine(line: string) {
    line != "" && line[|line| - 1] == '\n' && forall k :: 0 <= k < |line| - 1 ==> line[k] != '\n'
  }

  function Concat(lines: seq<string>): string {
    if lines == [] then "" else Concat(lines[..|lines| - 1]) + lines[|lines| - 1]
  }

  // Splits after every line feed; the second part is what no line feed ends.
  function Split(text: string): (seq<string>, string) {
    if text == "" then ([], "")
    else
      var (lines, rest) := Split(text[..|text| - 1]);
      var c := text[|text| - 1];
      if c == '\n' then (lines + [rest + [c]], "") else (lines, rest + [c])
  }

  lemma {:induction false} SplitPartial(text: string, tail: string)
    requires forall k :: 0 <= k < |tail| ==> tail[k] != '\n'
    ensures Split(text + tail) == (Split(text).0, Split(text).1 + tail)
  {
    if tail == "" {
      assert text + tail == text;
      assert Split(text).1 + "" == Split(text).1;
    } else {
      var front, c := tail[..|tail| - 1], tail[|tail| - 1];
      SplitPartial(text, front);
      assert (text + tail)[..|text + tail| - 1] == text + front;
      assert Split(text).1 + front + [c] == Split(text).1 + tail;
    }
  }

  // A sink made of whole lines and a partial one reads back as those lines.
  lemma {:induction false} LinesReadBack(lines: seq<string>, partial: string)
    requires forall k :: 0 <= k < |lines| ==> IsLine(lines[k])
    requires forall k :: 0 <= k < |partial| ==> partial[k] != '\n'
    ensures Split(Concat(lines) + partial) == (lines, partial)
  {
    SplitPartial(Concat(lines), partial);
    if lines == [] {
      assert Concat(lines) == "";
      assert "" + partial == partial;
    } else {
      var front, last := lines[..|lines| - 1], lines[|lines| - 1];
      var body := last[..|last| - 1];
      LinesReadBack(front, body);
      assert Concat(lines) == Concat(front) + body + ['\n'];
      assert (Concat(front) + body + ['\n'])[..|Concat(front) + body|] == Concat(front) + body;
      assert last == body + ['\n'];
      assert lines == front + [body + ['\n']];
      assert "" + partial == partial;
    }
  }
}
