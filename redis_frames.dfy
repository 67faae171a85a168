/**
 * How `SimpleRedisServer.handleClient` cuts the lines it reads into
 * requests: a line `*<count>` announces `count` elements, each a
 * `$<length>` line followed, unless the length is -1, by the element's own
 * line. Lines that do not start with `*` are skipped. The declared length
 * is otherwise ignored. The input is the sequence of lines `readLine()`
 * returns (`LineReader.Lines`).
 */
module RedisFrames {
  import opened JavaLang
  import opened LineReader

  /**
   * The elements read for one request (fewer than announced when the loop
   * broke early) and the lines left, or `BadLength` when
   * `Integer.parseInt` rejected a length.
   */
  datatype Bulks = Bulks(items: seq<JString>, rest: seq<string>) | BadLength

  /** `items` read before the bulks `b`. */
  function PrependAll(items: seq<JString>, b: Bulks): Bulks
  {
    match b
    case BadLength => BadLength
    case Bulks(more, rest) => Bulks(items + more, rest)
  }

  /** One pass of the inner `for` loop. */
  datatype BulkStep =
    | Stop(rest: seq<string>)                     // end of input, or a line not starting with `$`
    | BadHeader                                   // `Integer.parseInt` threw on the length
    | Element(item: JString, rest: seq<string>)

  /**
   * Reads one element: a `$<length>` line, then, unless the length is -1,
   * the element's own line (null when the input is exhausted). A line that
   * does not start with `$` is consumed and lost.
   */
  function ReadBulk(lines: seq<string>): (b: BulkStep)
    ensures !b.BadHeader? ==> |b.rest| <= |lines|
    ensures b.Element? ==> |b.rest| < |lines|
  {
    if |lines| == 0 then Stop(lines)
    else if !StartsWith(lines[0], "$") then Stop(lines[1..])
    else match ParseInt(lines[0][1..])
      case None => BadHeader
      case Some(length) =>
        if length == -1 || |lines| == 1 then Element(None, lines[1..])
        else Element(Some(lines[1]), lines[2..])
  }

  /** The inner `for` loop, reading up to `n` elements. */
  function ReadBulks(lines: seq<string>, n: nat): (b: Bulks)
    ensures b.Bulks? ==> |b.items| <= n && |b.rest| <= |lines|
    decreases n
  {
    if n == 0 then Bulks([], lines)
    else match ReadBulk(lines)
      case Stop(rest) => Bulks([], rest)
      case BadHeader => BadLength
      case Element(item, rest) => PrependAll([item], ReadBulks(rest, n - 1))
  }

  lemma PrependAllTwice(a: seq<JString>, b: seq<JString>, bulks: Bulks)
    ensures PrependAll(a, PrependAll(b, bulks)) == PrependAll(a + b, bulks)
  {
    if bulks.Bulks? {
      assert a + (b + bulks.items) == (a + b) + bulks.items;
    }
  }

  lemma PrependNothing(b: Bulks)
    ensures PrependAll([], b) == b
  {
    if b.Bulks? {
      assert [] + b.items == b.items;
    }
  }

  /** The steps of the inner loop, each stated on what is left to read. */
  lemma StopEndsBulks(total: Bulks, read: seq<JString>, lines: seq<string>, n: nat, after: seq<string>)
    requires n > 0 && ReadBulk(lines) == Stop(after)
    requires total == PrependAll(read, ReadBulks(lines, n))
    ensures total == Bulks(read, after)
  {
    assert read + [] == read;
  }

  lemma BadHeaderEndsBulks(total: Bulks, read: seq<JString>, lines: seq<string>, n: nat)
    requires n > 0 && ReadBulk(lines) == BadHeader
    requires total == PrependAll(read, ReadBulks(lines, n))
    ensures total == BadLength
  {
  }

  lemma ElementExtendsBulks(total: Bulks, read: seq<JString>, lines: seq<string>, n: nat, item: JString, after: seq<string>)
    requires n > 0 && ReadBulk(lines) == Element(item, after)
    requires total == PrependAll(read, ReadBulks(lines, n))
    ensures total == PrependAll(read + [item], ReadBulks(after, n - 1))
  {
    PrependAllTwice(read, [item], ReadBulks(after, n - 1));
  }

  /** `n` nulls: the slots of `new String[n]` the loop never filled. */
  function Nulls(n: nat): (r: seq<JString>)
    ensures |r| == n && forall i :: 0 <= i < n ==> r[i] == None
  {
    seq(n, _ => None)
  }

  /** The outcome of one pass of the outer `while` loop. */
  datatype Frame =
    | EndOfInput                                  // readLine() returned null
    | Malformed                                   // an exception ends the connection
    | NotArray(rest: seq<string>)                 // a line skipped
    | Request(elements: seq<JString>, rest: seq<string>)

  function NextFrame(lines: seq<string>): (f: Frame)
    ensures f.EndOfInput? <==> lines == []
    ensures (f.NotArray? || f.Request?) ==> |f.rest| < |lines|
  {
    if |lines| == 0 then EndOfInput
    else if !StartsWith(lines[0], "*") then NotArray(lines[1..])
    else match ParseInt(lines[0][1..])
      case None => Malformed
      case Some(count) =>
        if count < 0 then Malformed
        else match ReadBulks(lines[1..], count)
          case BadLength => Malformed
          case Bulks(items, after) => Request(items + Nulls(count - |items|), after)
  }

  /** A line that does not start with `*` is skipped. */
  lemma NonArrayLineSkipped(line: string, rest: seq<string>)
    requires !StartsWith(line, "*")
    ensures NextFrame([line] + rest) == NotArray(rest)
  {
    assert ([line] + rest)[1..] == rest;
  }

  /** A count `Integer.parseInt` rejects, or a negative one, ends the connection. */
  lemma BadCountIsMalformed(count: string, rest: seq<string>)
    requires ParseInt(count).None? || ParseInt(count).value < 0
    ensures NextFrame(["*" + count] + rest) == Malformed
  {
    assert ("*" + count)[1..] == count;
  }

  /** A request always has exactly the number of elements its `*` line announced. */
  lemma {:induction false} RequestHasAnnouncedLength(lines: seq<string>)
    requires NextFrame(lines).Request?
    ensures |lines| > 0 && ParseInt(lines[0][1..]).Some?
    ensures |NextFrame(lines).elements| == ParseInt(lines[0][1..]).value
  {
  }

  /** Reading `m + n` elements is reading `m`, then `n` more from where those stopped. */
  lemma {:induction false} ReadBulksSplit(lines: seq<string>, m: nat, n: nat)
    requires ReadBulks(lines, m).Bulks? && |ReadBulks(lines, m).items| == m
    ensures var first := ReadBulks(lines, m);
      ReadBulks(lines, m + n) == PrependAll(first.items, ReadBulks(first.rest, n))
    decreases m
  {
    if m == 0 {
      PrependNothing(ReadBulks(lines, n));
    } else {
      var step := ReadBulk(lines);
      if !step.Element? {
        assert false;
      }
      var tail := ReadBulks(step.rest, m - 1);
      assert ReadBulks(lines, m) == PrependAll([step.item], tail);
      ReadBulksSplit(step.rest, m - 1, n);
      assert m + n - 1 == (m - 1) + n;
      PrependAllTwice([step.item], tail.items, ReadBulks(tail.rest, n));
    }
  }

  /**
   * A length `Integer.parseInt` rejects ends the connection, whatever was
   * read before it: here the first `m` of the announced elements were read
   * in full and the next element line carries the bad length.
   */
  lemma BadLengthIsMalformed(countText: string, elements: seq<string>, m: nat, header: string)
    requires ParseInt(countText).Some? && m < ParseInt(countText).value
    requires ParseInt(header).None?
    requires var first := ReadBulks(elements, m);
      first.Bulks? && |first.items| == m && |first.rest| > 0 && first.rest[0] == "$" + header
    ensures NextFrame(["*" + countText] + elements) == Malformed
  {
    var lines := ["*" + countText] + elements;
    assert lines[0][1..] == countText;
    assert lines[1..] == elements;
    var count := ParseInt(countText).value;
    var first := ReadBulks(elements, m);
    ReadBulksSplit(elements, m, count - m);
    assert first.rest[0][1..] == header;
    assert ReadBulk(first.rest) == BadHeader;
    assert m + (count - m) == count;
  }
}
