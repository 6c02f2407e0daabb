/**
 * The line handling of `reformatTrace`: a stack trace is split on '\n', the
 * entry at index 1 (the registry's own frame) is spliced out, and the lines
 * are joined again with '\n'.
 */
module StackLines {

  /** `s.split('\n')`: the pieces between newlines; never empty, since a
      string without a newline (the empty string included) is one piece. */
  function Split(s: string): (lines: seq<string>)
    ensures |lines| >= 1
    ensures forall i :: 0 <= i < |lines| ==> '\n' !in lines[i]
  {
    if s == [] then [""]
    else
      var rest := Split(s[1..]);
      if s[0] == '\n' then [""] + rest
      else [[s[0]] + rest[0]] + rest[1..]
  }

  /** `lines.join('\n')`. */
  function Join(lines: seq<string>): string
  {
    if lines == [] then ""
    else if |lines| == 1 then lines[0]
    else lines[0] + "\n" + Join(lines[1..])
  }

  /** `lines.splice(1, 1)`: drops the entry at index 1 when there is one. */
  function Splice1(lines: seq<string>): (r: seq<string>)
    ensures |lines| <= 1 ==> r == lines
    ensures |lines| > 1 ==> |r| == |lines| - 1 && r[0] == lines[0]
    ensures |lines| > 1 ==> forall i :: 1 <= i < |r| ==> r[i] == lines[i + 1]
  {
    if |lines| <= 1 then lines else [lines[0]] + lines[2..]
  }

  /** The stack `reformatTrace` leaves behind. */
  function TrimTrace(stack: string): string
  {
    Join(Splice1(Split(stack)))
  }

  /** Joining the pieces of a split gives back the string. */
  lemma {:induction false} JoinSplit(s: string)
    ensures Join(Split(s)) == s
    decreases |s|
  {
    if s != [] {
      var rest := Split(s[1..]);
      JoinSplit(s[1..]);
      if s[0] == '\n' {
        assert ([""] + rest)[1..] == rest;
      } else if |rest| > 1 {
        assert ([[s[0]] + rest[0]] + rest[1..])[1..] == rest[1..];
        assert Join(rest) == rest[0] + "\n" + Join(rest[1..]);
      }
    }
  }

  /** Splitting joined newline-free lines gives back the lines. */
  lemma {:induction false} SplitJoin(lines: seq<string>)
    requires |lines| >= 1
    requires forall i :: 0 <= i < |lines| ==> '\n' !in lines[i]
    ensures Split(Join(lines)) == lines
    decreases |lines|
  {
    if |lines| == 1 {
      SplitLine(lines[0], []);
    } else {
      SplitJoin(lines[1..]);
      SplitLine(lines[0], lines[1..]);
    }
  }

  /** A newline-free prefix becomes part of the first piece. */
  lemma {:induction false} SplitLine(line: string, more: seq<string>)
    requires '\n' !in line
    requires more != [] ==> Split(Join(more)) == more
    ensures more == [] ==> Split(line) == [line]
    ensures more != [] ==> Split(line + "\n" + Join(more)) == [line] + more
    decreases |line|
  {
    if line == [] {
      if more != [] {
        assert ([] + "\n" + Join(more))[1..] == Join(more);
      }
    } else {
      SplitLine(line[1..], more);
      if more == [] {
        assert line == [line[0]] + line[1..];
      } else {
        var t := line + "\n" + Join(more);
        assert t[1..] == line[1..] + "\n" + Join(more);
        assert t[0] == line[0];
        var rest := Split(t[1..]);
        assert rest[0] == line[1..] && rest[1..] == more;
        assert [line[0]] + line[1..] == line;
      }
    }
  }

  /** `reformatTrace` removes exactly the line at index 1 and keeps every
      other line, in order; a stack of one line is left as it was. */
  lemma TrimTraceLines(stack: string)
    ensures Split(TrimTrace(stack)) == Splice1(Split(stack))
    ensures |Split(stack)| == 1 ==> TrimTrace(stack) == stack
  {
    SplitJoin(Splice1(Split(stack)));
    JoinSplit(stack);
  }
}
