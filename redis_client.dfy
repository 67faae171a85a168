/**
 * `SimpleRedisClient`: the request encoder `sendCommand`, the three reply
 * readers and the commands built from them. The socket is replaced by the
 * text written so far (`sent`) and the reply lines not yet read
 * (`replies`), the lines `readLine()` would return.
 */
module RedisClient {
  import opened JavaLang
  import opened LineReader

  /** What `sendCommand` writes for one part: `$-1` for null, else its UTF-8 byte count and the part. */
  function EncodeBulk(part: JString): (t: string)
    ensures StartsWith(t, "$")
    ensures part.Some? ==> |t| > |part.value| + 2 && t[|t| - |part.value| - 2..] == part.value + "\r\n"
  {
    match part
    case None => "$" + DecimalString(-1) + "\r\n"
    case Some(p) => "$" + DecimalString(Utf8Length(p)) + "\r\n" + (p + "\r\n")
  }

  /** The bulk strings of `parts`, in order (built as the `for` loop appends them). */
  function EncodeParts(parts: seq<JString>): string
  {
    if |parts| == 0 then "" else EncodeParts(parts[..|parts| - 1]) + EncodeBulk(parts[|parts| - 1])
  }

  lemma ConcatAssoc(a: string, b: string, c: string)
    ensures a + (b + c) == (a + b) + c
  {
  }

  lemma EncodePartsSnoc(parts: seq<JString>, i: nat)
    requires i < |parts|
    ensures EncodeParts(parts[..i + 1]) == EncodeParts(parts[..i]) + EncodeBulk(parts[i])
  {
    assert parts[..i + 1][..i] == parts[..i];
  }

  /** Everything `sendCommand(parts)` writes: the array header, then one bulk string per part. */
  function EncodeCommand(parts: seq<JString>): (t: string)
    ensures StartsWith(t, "*")
  {
    "*" + DecimalString(|parts|) + "\r\n" + EncodeParts(parts)
  }

  /** The parts are written front to back: the first part's bulk string comes first. */
  lemma {:induction false} EncodePartsCons(part: JString, parts: seq<JString>)
    ensures EncodeParts([part] + parts) == EncodeBulk(part) + EncodeParts(parts)
    decreases |parts|
  {
    var all := [part] + parts;
    if |parts| > 0 {
      assert all[..|all| - 1] == [part] + parts[..|parts| - 1];
      EncodePartsCons(part, parts[..|parts| - 1]);
    } else {
      assert all[..0] == [];
    }
  }

  /** Why a read failed: the `IOException` or `NumberFormatException` message. */
  datatype Failure = IOError(message: string) | NumberFormat(message: string)

  datatype Result<T> = Ok(value: T) | Fail(failure: Failure)

  /** What a reader returned, and the reply lines it left unread. */
  datatype Reply<T> = Reply(result: Result<T>, rest: seq<string>)

  const ConnectionClosed := IOError("Connection closed")

  /** `readSimpleString`: the text after a leading `+`. */
  function ReadSimpleString(lines: seq<string>): (r: Reply<string>)
    ensures r.result.Ok? <==> |lines| > 0 && StartsWith(lines[0], "+")
    ensures r.result.Ok? ==> lines[0] == "+" + r.result.value
    ensures |lines| == 0 ==> r == Reply(Fail(ConnectionClosed), lines)
    ensures |lines| > 0 ==> r.rest == lines[1..]
  {
    if |lines| == 0 then Reply(Fail(ConnectionClosed), lines)
    else
      var line := lines[0];
      if !StartsWith(line, "+") then Reply(Fail(IOError("Expected simple string, got: " + line)), lines[1..])
      else
        assert line == "+" + line[1..];
        Reply(Ok(line[1..]), lines[1..])
  }

  /**
   * `readBulkString`: null for `$-1`, otherwise the next line (null when
   * there is none). Any other length is not checked against that line.
   */
  function ReadBulkString(lines: seq<string>): (r: Reply<JString>)
    ensures |lines| == 0 ==> r == Reply(Fail(ConnectionClosed), lines)
    ensures |lines| > 0 && !StartsWith(lines[0], "$") ==> r.result.Fail? && r.rest == lines[1..]
    ensures r.result.Ok? ==> StartsWith(lines[0], "$") && ParseInt(lines[0][1..]).Some?
    ensures r.result == Ok(None) <==>
      |lines| > 0 && StartsWith(lines[0], "$") && (ParseInt(lines[0][1..]) == Some(-1) || (ParseInt(lines[0][1..]).Some? && |lines| == 1))
    ensures r.result.Ok? && r.result.value.Some? ==> |lines| > 1 && r.result.value.value == lines[1] && r.rest == lines[2..]
  {
    if |lines| == 0 then Reply(Fail(ConnectionClosed), lines)
    else
      var line := lines[0];
      if !StartsWith(line, "$") then Reply(Fail(IOError("Expected bulk string, got: " + line)), lines[1..])
      else match ParseInt(line[1..])
        case None => Reply(Fail(NumberFormat(NumberFormatMessage(Some(line[1..])))), lines[1..])
        case Some(length) =>
          if length == -1 then Reply(Ok(None), lines[1..])
          else if |lines| == 1 then Reply(Ok(None), lines[1..])
          else Reply(Ok(Some(lines[1])), lines[2..])
  }

  /** `readInteger`: the `int` after a leading `:`. */
  function ReadInteger(lines: seq<string>): (r: Reply<Int>)
    ensures |lines| == 0 ==> r == Reply(Fail(ConnectionClosed), lines)
    ensures r.result.Ok? <==>
      |lines| > 0 && StartsWith(lines[0], ":") && ParseInt(lines[0][1..]).Some?
    ensures r.result.Ok? ==> Some(r.result.value) == ParseInt(lines[0][1..])
    ensures |lines| > 0 ==> r.rest == lines[1..]
  {
    if |lines| == 0 then Reply(Fail(ConnectionClosed), lines)
    else
      var line := lines[0];
      if !StartsWith(line, ":") then Reply(Fail(IOError("Expected integer, got: " + line)), lines[1..])
      else match ParseInt(line[1..])
        case None => Reply(Fail(NumberFormat(NumberFormatMessage(Some(line[1..])))), lines[1..])
        case Some(n) => Reply(Ok(n), lines[1..])
  }

  /** `readInteger() == 1`, as `exists` and `del` return it. */
  function IsOne(r: Result<Int>): (b: Result<bool>)
    ensures b.Ok? <==> r.Ok?
    ensures b.Ok? ==> (b.value <==> r.value == 1)
    ensures b.Fail? ==> b.failure == r.failure
  {
    match r
    case Ok(n) => Ok(n == 1)
    case Fail(f) => Fail(f)
  }

  /** A `set` that completed, or the exception it threw. */
  function Completed(r: Result<string>): (c: Result<()>)
    ensures c.Ok? <==> r.Ok?
    ensures c.Fail? ==> c.failure == r.failure
  {
    match r
    case Ok(_) => Ok(())
    case Fail(f) => Fail(f)
  }

  class SimpleRedisClient {
    /** Everything written to the socket so far. */
    var sent: string
    /** The reply lines not yet read. */
    var replies: seq<string>

    constructor (replies: seq<string>)
      ensures sent == "" && this.replies == replies
    {
      sent := "";
      this.replies := replies;
    }

    /**
     * `sendCommand`: the parts are written into the `BufferedWriter`'s
     * buffer (`buffer`), which `flush()` then appends to what was sent.
     * Nothing is read.
     */
    method SendCommand(parts: seq<JString>)
      modifies this
      ensures sent == old(sent) + EncodeCommand(parts)
      ensures replies == old(replies)
    {
      var buffer := "*" + DecimalString(|parts|) + "\r\n";
      ghost var header := buffer;
      for i := 0 to |parts|
        invariant buffer == header + EncodeParts(parts[..i])
        invariant sent == old(sent) && replies == old(replies)
      {
        ghost var before := buffer;
        var part := parts[i];
        if part.None? {
          buffer := buffer + ("$" + DecimalString(-1) + "\r\n");
        } else {
          var lengthLine := "$" + DecimalString(Utf8Length(part.value)) + "\r\n";
          buffer := buffer + lengthLine;
          buffer := buffer + (part.value + "\r\n");
          ConcatAssoc(before, lengthLine, part.value + "\r\n");
        }
        EncodePartsSnoc(parts, i);
        ConcatAssoc(header, EncodeParts(parts[..i]), EncodeBulk(part));
      }
      assert parts[..|parts|] == parts;
      sent := sent + buffer;
    }

    method ReadSimple() returns (r: Result<string>)
      modifies this
      ensures Reply(r, replies) == ReadSimpleString(old(replies))
      ensures sent == old(sent)
    {
      if |replies| == 0 {
        return Fail(ConnectionClosed);
      }
      var line := replies[0];
      replies := replies[1..];
      if !StartsWith(line, "+") {
        return Fail(IOError("Expected simple string, got: " + line));
      }
      return Ok(line[1..]);
    }

    method ReadBulk() returns (r: Result<JString>)
      modifies this
      ensures Reply(r, replies) == ReadBulkString(old(replies))
      ensures sent == old(sent)
    {
      if |replies| == 0 {
        return Fail(ConnectionClosed);
      }
      var line := replies[0];
      replies := replies[1..];
      if !StartsWith(line, "$") {
        return Fail(IOError("Expected bulk string, got: " + line));
      }
      var length := ParseInt(line[1..]);
      if length.None? {
        return Fail(NumberFormat(NumberFormatMessage(Some(line[1..]))));
      }
      if length.value == -1 {
        return Ok(None);
      }
      if |replies| == 0 {
        return Ok(None);
      }
      var value := replies[0];
      replies := replies[1..];
      return Ok(Some(value));
    }

    method ReadInt() returns (r: Result<Int>)
      modifies this
      ensures Reply(r, replies) == ReadInteger(old(replies))
      ensures sent == old(sent)
    {
      if |replies| == 0 {
        return Fail(ConnectionClosed);
      }
      var line := replies[0];
      replies := replies[1..];
      if !StartsWith(line, ":") {
        return Fail(IOError("Expected integer, got: " + line));
      }
      var n := ParseInt(line[1..]);
      if n.None? {
        return Fail(NumberFormat(NumberFormatMessage(Some(line[1..]))));
      }
      return Ok(n.value);
    }

    method Ping() returns (r: Result<string>)
      modifies this
      ensures sent == old(sent) + EncodeCommand([Some("PING")])
      ensures Reply(r, replies) == ReadSimpleString(old(replies))
    {
      SendCommand([Some("PING")]);
      r := ReadSimple();
    }

    method Set(key: JString, value: JString) returns (r: Result<()>)
      modifies this
      ensures sent == old(sent) + EncodeCommand([Some("SET"), key, value])
      ensures var reply := ReadSimpleString(old(replies));
        r == Completed(reply.result) && replies == reply.rest
    {
      SendCommand([Some("SET"), key, value]);
      var ok := ReadSimple();
      r := Completed(ok);
    }

    method SetWithExpiration(key: JString, value: JString, ttlMillis: Long) returns (r: Result<()>)
      modifies this
      ensures sent == old(sent) + EncodeCommand([Some("SET"), key, value, Some("PX"), Some(DecimalString(ttlMillis))])
      ensures var reply := ReadSimpleString(old(replies));
        r == Completed(reply.result) && replies == reply.rest
    {
      SendCommand([Some("SET"), key, value, Some("PX"), Some(DecimalString(ttlMillis))]);
      var ok := ReadSimple();
      r := Completed(ok);
    }

    method Get(key: JString) returns (r: Result<JString>)
      modifies this
      ensures sent == old(sent) + EncodeCommand([Some("GET"), key])
      ensures Reply(r, replies) == ReadBulkString(old(replies))
    {
      SendCommand([Some("GET"), key]);
      r := ReadBulk();
    }

    method Exists(key: JString) returns (r: Result<bool>)
      modifies this
      ensures sent == old(sent) + EncodeCommand([Some("EXISTS"), key])
      ensures var reply := ReadInteger(old(replies));
        r == IsOne(reply.result) && replies == reply.rest
    {
      SendCommand([Some("EXISTS"), key]);
      var n := ReadInt();
      r := IsOne(n);
    }

    method Del(key: JString) returns (r: Result<bool>)
      modifies this
      ensures sent == old(sent) + EncodeCommand([Some("DEL"), key])
      ensures var reply := ReadInteger(old(replies));
        r == IsOne(reply.result) && replies == reply.rest
    {
      SendCommand([Some("DEL"), key]);
      var n := ReadInt();
      r := IsOne(n);
    }
  }
}
