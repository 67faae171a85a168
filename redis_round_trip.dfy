/**
 * The client and the server read each other's output: what `sendCommand`
 * writes is decoded by `handleClient` into exactly the parts that were
 * sent, and the replies `handleCommand` writes are read back by the
 * client's readers as the values they carry.
 */
module RedisRoundTrip {
  import opened JavaLang
  import opened LineReader
  import opened RedisCommands
  import opened RedisFrames
  import opened RedisServer
  import opened RedisClient

  /**
   * Parts `sendCommand` can deliver intact: no part holds a line break
   * (the server reads values with `readLine()`). The two bounds hold for
   * every Java array, whose length is an `int`.
   */
  predicate Encodable(parts: seq<JString>)
  {
    && |parts| <= MaxInt
    && forall i :: 0 <= i < |parts| && parts[i].Some? ==>
         NoBreak(parts[i].value) && Utf8Length(parts[i].value) <= MaxInt
  }

  /** `"$" + n` printed, then read back by `Integer.parseInt(line.substring(1))`. */
  lemma HeaderLine(prefix: char, n: Int)
    requires !IsBreak(prefix)
    ensures NoBreak([prefix] + DecimalString(n))
    ensures StartsWith([prefix] + DecimalString(n), [prefix])
    ensures ParseInt(([prefix] + DecimalString(n))[1..]) == Some(n)
  {
    DecimalStringHasNoBreak(n);
    assert ([prefix] + DecimalString(n))[1..] == DecimalString(n);
    ParseIntString(n);
  }

  /** The server's inner loop reads one encoded part back as it was sent. */
  lemma ReadEncodedBulk(part: JString, rest: string)
    requires part.Some? ==> NoBreak(part.value) && Utf8Length(part.value) <= MaxInt
    ensures ReadBulk(Lines(EncodeBulk(part) + rest)) == Element(part, Lines(rest))
  {
    match part
    case None =>
      var header := ['$'] + DecimalString(-1);
      HeaderLine('$', -1);
      assert EncodeBulk(part) + rest == header + "\r\n" + rest;
      LinesOfTerminated(header, rest);
      ReadNullElementOfLines(header, Lines(rest));
    case Some(p) =>
      var n: Int := Utf8Length(p);
      var header := ['$'] + DecimalString(n);
      HeaderLine('$', n);
      EncodedBulkText(p, rest);
      LinesOfTwo(header, p, rest);
      ReadElementOfLines(header, p, Lines(rest));
  }

  lemma EncodedBulkText(p: string, rest: string)
    ensures EncodeBulk(Some(p)) + rest
      == (['$'] + DecimalString(Utf8Length(p))) + "\r\n" + (p + "\r\n" + rest)
  {
  }

  lemma ReadNullElementOfLines(header: string, more: seq<string>)
    requires StartsWith(header, "$") && ParseInt(header[1..]) == Some(-1)
    ensures ReadBulk([header] + more) == Element(None, more)
  {
    assert ([header] + more)[1..] == more;
  }

  lemma ReadElementOfLines(header: string, value: string, more: seq<string>)
    requires StartsWith(header, "$") && ParseInt(header[1..]).Some? && ParseInt(header[1..]).value != -1
    ensures ReadBulk([header, value] + more) == Element(Some(value), more)
  {
    assert ([header, value] + more)[2..] == more;
  }

  /** The inner loop recovers every encoded part, nulls included. */
  lemma {:induction false} ReadEncodedBulks(parts: seq<JString>, rest: string)
    requires Encodable(parts)
    ensures ReadBulks(Lines(EncodeParts(parts) + rest), |parts|) == Bulks(parts, Lines(rest))
    decreases |parts|
  {
    if |parts| == 0 {
      assert EncodeParts(parts) + rest == rest;
    } else {
      var tail := parts[1..];
      var after := EncodeParts(tail) + rest;
      assert Lines(EncodeParts(parts) + rest) == Lines(EncodeBulk(parts[0]) + after) by {
        assert parts == [parts[0]] + tail;
        EncodePartsCons(parts[0], tail);
        ConcatAssoc(EncodeBulk(parts[0]), EncodeParts(tail), rest);
      }
      assert ReadBulk(Lines(EncodeBulk(parts[0]) + after)) == Element(parts[0], Lines(after)) by {
        ReadEncodedBulk(parts[0], after);
      }
      assert Encodable(tail) by {
        forall i | 0 <= i < |tail| && tail[i].Some?
          ensures NoBreak(tail[i].value) && Utf8Length(tail[i].value) <= MaxInt
        {
          assert tail[i] == parts[i + 1];
        }
      }
      ReadEncodedBulks(tail, rest);
      assert [parts[0]] + tail == parts;
    }
  }

  /**
   * Round trip: the server decodes what `sendCommand(parts)` wrote into a
   * request holding exactly `parts`, and goes on with the text after it.
   */
  lemma FrameRoundTrip(parts: seq<JString>, rest: string)
    requires Encodable(parts)
    ensures NextFrame(Lines(EncodeCommand(parts) + rest)) == Request(parts, Lines(rest))
  {
    var n: Int := |parts|;
    HeaderLine('*', n);
    assert EncodeCommand(parts) + rest == ['*'] + DecimalString(n) + "\r\n" + (EncodeParts(parts) + rest);
    LinesOfTerminated(['*'] + DecimalString(n), EncodeParts(parts) + rest);
    ReadEncodedBulks(parts, rest);
    var lines := Lines(EncodeCommand(parts) + rest);
    assert lines[1..] == Lines(EncodeParts(parts) + rest);
    assert parts + Nulls(0) == parts;
  }

  /**
   * After the lines of any encoded parts, fewer than the count announced,
   * an element line whose length `Integer.parseInt` rejects ends the
   * connection.
   */
  lemma BadLengthAfterEncodedParts(count: Int, prefix: seq<JString>, header: string, rest: string)
    requires Encodable(prefix) && |prefix| < count
    requires NoBreak(header) && ParseInt(header).None?
    ensures NextFrame(Lines(['*'] + DecimalString(count) + "\r\n" + (EncodeParts(prefix) + (['$'] + header + "\r\n" + rest))))
      == Malformed
  {
    var bad := ['$'] + header;
    var tail := bad + "\r\n" + rest;
    var countLine := ['*'] + DecimalString(count);
    HeaderLine('*', count);
    ParseIntString(count);
    LinesOfTerminated(countLine, EncodeParts(prefix) + tail);
    ReadEncodedBulks(prefix, tail);
    assert NoBreak(bad);
    LinesOfTerminated(bad, rest);
    BadLengthIsMalformed(DecimalString(count), Lines(EncodeParts(prefix) + tail), |prefix|, header);
  }

  /** A connection serves an encoded command, then carries on with what follows. */
  lemma SessionServesEncoded(s: Store, parts: seq<JString>, rest: string, clock: nat -> Long, k: nat)
    requires Encodable(parts) && Dispatchable(parts)
    ensures var step := Dispatch(s, parts, clock(k));
      RunSession(s, Lines(EncodeCommand(parts) + rest), clock, k)
        == Prefixed(step.reply, RunSession(step.store, Lines(rest), clock, k + 1))
  {
    FrameRoundTrip(parts, rest);
  }

  /** `readSimpleString` reads `+OK` back as "OK". */
  lemma ReadOkReply(rest: string)
    ensures ReadSimpleString(Lines(OkReply + rest)) == Reply(Ok("OK"), Lines(rest))
  {
    assert OkReply + rest == "+OK" + "\r\n" + rest;
    LinesOfTerminated("+OK", rest);
  }

  /** `readBulkString` reads the GET reply for a stored value back as that value. */
  lemma ReadBulkReply(value: string, rest: string)
    requires NoBreak(value) && Utf16Length(value) <= MaxInt
    ensures ReadBulkString(Lines(BulkReply(value) + rest)) == Reply(Ok(Some(value)), Lines(rest))
  {
    var n: Int := Utf16Length(value);
    var header := ['$'] + DecimalString(n);
    HeaderLine('$', n);
    BulkReplyText(value, rest);
    LinesOfTwo(header, value, rest);
    ReadBulkOfLines(header, value, Lines(rest));
  }

  lemma BulkReplyText(value: string, rest: string)
    ensures BulkReply(value) + rest
      == (['$'] + DecimalString(Utf16Length(value))) + "\r\n" + (value + "\r\n" + rest)
  {
  }

  lemma ReadBulkOfLines(header: string, value: string, more: seq<string>)
    requires StartsWith(header, "$") && ParseInt(header[1..]).Some? && ParseInt(header[1..]).value != -1
    ensures ReadBulkString([header, value] + more) == Reply(Ok(Some(value)), more)
  {
    assert ([header, value] + more)[2..] == more;
  }

  /** `readBulkString` reads the null bulk string back as null. */
  lemma ReadNullBulkReply(rest: string)
    ensures ReadBulkString(Lines(NullBulkReply + rest)) == Reply(Ok(None), Lines(rest))
  {
    HeaderLine('$', -1);
    assert NullBulkReply + rest == ['$'] + DecimalString(-1) + "\r\n" + rest;
    LinesOfTerminated(['$'] + DecimalString(-1), rest);
  }

  /** `readInteger` reads `:1` and `:0` back, so `exists`/`del` see true and false. */
  lemma ReadIntegerReplies(rest: string)
    ensures ReadInteger(Lines(OneReply + rest)) == Reply(Ok(1), Lines(rest))
    ensures ReadInteger(Lines(ZeroReply + rest)) == Reply(Ok(0), Lines(rest))
    ensures IsOne(Ok(1)) == Ok(true) && IsOne(Ok(0)) == Ok(false)
  {
    HeaderLine(':', 1);
    HeaderLine(':', 0);
    assert OneReply + rest == [':'] + DecimalString(1) + "\r\n" + rest;
    assert ZeroReply + rest == [':'] + DecimalString(0) + "\r\n" + rest;
    LinesOfTerminated([':'] + DecimalString(1), rest);
    LinesOfTerminated([':'] + DecimalString(0), rest);
  }

  /**
   * End to end: the client's `set(key, value)` then `get(key)` over one
   * connection, for a key with no deadline, reads back `+OK` and then the
   * value itself, whatever the connection carries afterwards.
   */
  lemma ClientSetThenGet(s: Store, key: string, value: string, rest: string, clock: nat -> Long, k: nat)
    requires Some(key) !in s.expiry
    requires NoBreak(key) && Utf8Length(key) <= MaxInt
    requires NoBreak(value) && Utf8Length(value) <= MaxInt && Utf16Length(value) <= MaxInt
    ensures var setCmd, getCmd := [Some("SET"), Some(key), Some(value)], [Some("GET"), Some(key)];
      var output := RunSession(s, Lines(EncodeCommand(setCmd) + (EncodeCommand(getCmd) + rest)), clock, k).output;
      var ok := ReadSimpleString(Lines(output));
      ok.result == Ok("OK") && ReadBulkString(ok.rest).result == Ok(Some(value))
  {
    var setCmd, getCmd := [Some("SET"), Some(key), Some(value)], [Some("GET"), Some(key)];
    assert Encodable(setCmd) && Encodable(getCmd);
    UpperCaseNames();
    var stored := Dispatch(s, setCmd, clock(k));
    SetThenGet(s, Some(key), value, clock(k), clock(k + 1));
    SessionServesEncoded(s, setCmd, EncodeCommand(getCmd) + rest, clock, k);
    SessionServesEncoded(stored.store, getCmd, rest, clock, k + 1);
    var later := RunSession(stored.store, Lines(rest), clock, k + 2).output;
    var output := RunSession(s, Lines(EncodeCommand(setCmd) + (EncodeCommand(getCmd) + rest)), clock, k).output;
    assert output == OkReply + (BulkReply(value) + later);
    ReadOkReply(BulkReply(value) + later);
    ReadBulkReply(value, later);
  }
}
