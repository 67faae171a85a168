/**
 * `BufferedReader.readLine()` over the characters still to be read: a line
 * ends at "\r", "\n" or "\r\n" (the terminator is consumed, not returned),
 * the last line may end at the end of input, and only an exhausted input
 * yields `null` (here `None`).
 */
module LineReader {
  import opened JavaLang

  predicate IsBreak(c: char) { c == '\r' || c == '\n' }

  /** A string a `readLine()` can return: it holds no line terminator. */
  predicate NoBreak(s: string) { '\r' !in s && '\n' !in s }

  /** The index of the first CR or LF of `text`, or `|text|` if none. */
  function LineEnd(text: string): (e: nat)
    ensures e <= |text|
    ensures e < |text| ==> IsBreak(text[e])
    decreases |text|
  {
    if |text| == 0 || IsBreak(text[0]) then 0 else 1 + LineEnd(text[1..])
  }

  /** No terminator comes before `LineEnd`. */
  lemma {:induction false} LineEndNoBreak(text: string)
    ensures NoBreak(text[..LineEnd(text)])
    decreases |text|
  {
    if |text| > 0 && !IsBreak(text[0]) {
      var e := LineEnd(text);
      LineEndNoBreak(text[1..]);
      assert text[..e] == [text[0]] + text[1..][..e - 1];
    }
  }

  /** One line read, and the input that remains after its terminator. */
  datatype Line = Line(line: string, rest: string)

  /** The terminators `readLine()` accepts, and the empty one at end of input. */
  predicate IsTerminator(t: string)
  {
    t == "" || t == "\r" || t == "\n" || t == "\r\n"
  }

  function ReadLine(text: string): (r: Option<Line>)
    ensures r.None? <==> text == []
    ensures r.Some? ==> |r.value.rest| < |text|
  {
    if text == [] then None
    else
      var e := LineEnd(text);
      var skip :=
        if e == |text| then e
        else if text[e] == '\r' && e + 1 < |text| && text[e + 1] == '\n' then e + 2
        else e + 1;
      Some(Line(text[..e], text[skip..]))
  }

  /**
   * A line read is the text up to its first terminator: the text is the line,
   * one terminator (none only at the end of input), then what remains; a
   * lone "\r" is never followed by a "\n" it left unread.
   */
  lemma ReadLineSplits(text: string)
    requires text != []
    ensures var Line(line, rest) := ReadLine(text).value;
      |line| + |rest| <= |text| && NoBreak(line) &&
      var term := text[|line|..|text| - |rest|];
      && text == line + term + rest
      && IsTerminator(term)
      && (term == "" ==> rest == [])
      && (term == "\r" ==> !StartsWith(rest, "\n"))
  {
    var e := LineEnd(text);
    var Line(line, rest) := ReadLine(text).value;
    LineEndNoBreak(text);
    assert text == text[..e] + text[e..|text| - |rest|] + rest;
  }

  lemma {:induction false} LineEndOfTerminated(s: string, tail: string)
    requires NoBreak(s)
    requires tail != [] && IsBreak(tail[0])
    ensures LineEnd(s + tail) == |s|
    decreases |s|
  {
    if |s| > 0 {
      assert (s + tail)[1..] == s[1..] + tail;
      assert s[0] in s;
      LineEndOfTerminated(s[1..], tail);
    }
  }

  /** A break-free line written with "\r\n" is read back as it was written. */
  lemma ReadTerminatedLine(s: string, rest: string)
    requires NoBreak(s)
    ensures ReadLine(s + "\r\n" + rest) == Some(Line(s, rest))
  {
    var text := s + "\r\n" + rest;
    assert text == s + ("\r\n" + rest);
    LineEndOfTerminated(s, "\r\n" + rest);
    assert text[..|s|] == s;
    assert text[|s| + 2..] == rest;
  }

  /**
   * The lines successive `readLine()` calls return before the first `null`:
   * a reader that only ever reads lines sees its input as this sequence.
   */
  function Lines(text: string): (ls: seq<string>)
    ensures |ls| <= |text|
    decreases |text|
  {
    match ReadLine(text)
    case None => []
    case Some(Line(line, rest)) => [line] + Lines(rest)
  }

  /** No line a reader sees holds a line terminator. */
  lemma {:induction false} LinesHaveNoBreak(text: string)
    ensures forall i :: 0 <= i < |Lines(text)| ==> NoBreak(Lines(text)[i])
    decreases |text|
  {
    if text != [] {
      var Line(line, rest) := ReadLine(text).value;
      LineEndNoBreak(text);
      LinesHaveNoBreak(rest);
      assert Lines(text) == [line] + Lines(rest);
    }
  }

  /** Lines written with "\r\n" are read back one by one. */
  lemma LinesOfTerminated(s: string, rest: string)
    requires NoBreak(s)
    ensures Lines(s + "\r\n" + rest) == [s] + Lines(rest)
  {
    ReadTerminatedLine(s, rest);
  }

  lemma LinesOfTwo(a: string, b: string, rest: string)
    requires NoBreak(a) && NoBreak(b)
    ensures Lines(a + "\r\n" + (b + "\r\n" + rest)) == [a, b] + Lines(rest)
  {
    var tail := b + "\r\n" + rest;
    var more := Lines(rest);
    assert Lines(tail) == [b] + more by {
      LinesOfTerminated(b, rest);
    }
    assert Lines(a + "\r\n" + tail) == [a] + Lines(tail) by {
      LinesOfTerminated(a, tail);
    }
    ConsTwo(a, b, more);
  }

  lemma ConsTwo(a: string, b: string, more: seq<string>)
    ensures [a] + ([b] + more) == [a, b] + more
  {
  }
}
