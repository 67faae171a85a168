/**
 * `SimpleRedisServer`: the two maps it updates in place, one method per
 * command, and the per-connection loop `handleClient` that decodes requests
 * into an array and dispatches them. `System.currentTimeMillis()` is the
 * parameter `now` of each command; for a whole connection it is `clock(k)`,
 * the time read by the k-th dispatched request.
 */
module RedisServer {
  import opened JavaLang
  import opened LineReader
  import opened RedisCommands
  import opened RedisFrames

  /** Why a connection ended. */
  datatype Closure = EndOfStream | ProtocolError

  /** The maps when the connection ends, what it was sent, and why it ended. */
  datatype Session = Session(store: Store, output: string, closure: Closure)

  /** `output` written before the session `t`. */
  function Prefixed(output: string, t: Session): Session
  {
    t.(output := output + t.output)
  }

  lemma PrefixedTwice(a: string, b: string, t: Session)
    ensures Prefixed(a, Prefixed(b, t)) == Prefixed(a + b, t)
  {
    assert a + (b + t.output) == (a + b) + t.output;
  }

  /**
   * One connection from the store `s` over the input `text`: requests are
   * served in arrival order, each reply written before the next line is
   * read; a frame that is announced but whose element 0 is null, or that
   * has no elements, is read and dropped.
   */
  function RunSession(s: Store, lines: seq<string>, clock: nat -> Long, k: nat): Session
    decreases |lines|
  {
    match NextFrame(lines)
    case EndOfInput => Session(s, "", EndOfStream)
    case Malformed => Session(s, "", ProtocolError)
    case NotArray(rest) => RunSession(s, rest, clock, k)
    case Request(elements, rest) =>
      if Dispatchable(elements) then
        var step := Dispatch(s, elements, clock(k));
        Prefixed(step.reply, RunSession(step.store, rest, clock, k + 1))
      else RunSession(s, rest, clock, k)
  }

  /** A connection never leaves a deadline without a stored key. */
  lemma {:induction false} RunSessionKeepsExpiryWithinData(s: Store, lines: seq<string>, clock: nat -> Long, k: nat)
    requires ExpiryWithinData(s)
    ensures ExpiryWithinData(RunSession(s, lines, clock, k).store)
    decreases |lines|
  {
    match NextFrame(lines)
    case EndOfInput =>
    case Malformed =>
    case NotArray(rest) => RunSessionKeepsExpiryWithinData(s, rest, clock, k);
    case Request(elements, rest) =>
      if Dispatchable(elements) {
        var step := Dispatch(s, elements, clock(k));
        DispatchKeepsExpiryWithinData(s, elements, clock(k));
        RunSessionKeepsExpiryWithinData(step.store, rest, clock, k + 1);
      } else {
        RunSessionKeepsExpiryWithinData(s, rest, clock, k);
      }
  }

  /**
   * The inner decoding loop of `handleClient`: fills a fresh
   * `String[count]` index by index from `lines`.
   */
  method ReadCommands(lines: seq<string>, count: nat) returns (commands: array<JString>, rest: seq<string>, malformed: bool)
    ensures fresh(commands) && commands.Length == count
    ensures malformed <==> ReadBulks(lines, count).BadLength?
    ensures !malformed ==>
      var b := ReadBulks(lines, count);
      commands[..] == b.items + Nulls(count - |b.items|) && rest == b.rest
  {
    commands := new JString[count](_ => None);
    rest := lines;
    malformed := false;
    var i, left := 0, count;
    ghost var total, read := ReadBulks(lines, count), [];
    PrependNothing(total);
    while i < count
      invariant 0 <= i <= count && left == count - i
      invariant |read| == i && forall j :: 0 <= j < i ==> commands[j] == read[j]
      invariant forall j :: i <= j < count ==> commands[j] == None
      invariant total == PrependAll(read, ReadBulks(rest, left))
    {
      if |rest| == 0 {
        StopEndsBulks(total, read, rest, left, rest);
        break;
      }
      var header := rest[0];
      if !StartsWith(header, "$") {
        StopEndsBulks(total, read, rest, left, rest[1..]);
        rest := rest[1..];
        break;
      }
      var length := ParseInt(header[1..]);
      if length.None? {
        BadHeaderEndsBulks(total, read, rest, left);
        malformed := true;
        return;
      }
      var item, after;
      if length.value == -1 || |rest| == 1 {
        item, after := None, rest[1..];
      } else {
        item, after := Some(rest[1]), rest[2..];
      }
      ElementExtendsBulks(total, read, rest, left, item, after);
      commands[i] := item;
      read := read + [item];
      rest := after;
      i, left := i + 1, left - 1;
    }
    assert commands[..] == read + commands[i..];
    assert commands[i..] == Nulls(count - i);
  }

  class SimpleRedisServer {
    var dataStore: map<JString, JString>
    var expirationTimes: map<JString, Long>

    function Model(): Store
      reads this
    {
      Store(dataStore, expirationTimes)
    }

    constructor ()
      ensures dataStore == map[] && expirationTimes == map[]
      ensures ExpiryWithinData(Model())
    {
      dataStore := map[];
      expirationTimes := map[];
    }

    method Set(commands: seq<JString>, now: Long) returns (reply: string)
      modifies this
      ensures Step(Model(), reply) == SetCommand(old(Model()), commands, now)
      ensures ExpiryWithinData(old(Model())) ==> ExpiryWithinData(Model())
    {
      if |commands| < 3 {
        reply := ArityError("set");
        return;
      }
      var key := commands[1];
      dataStore := dataStore[key := commands[2]];
      if |commands| >= 5 && IsPx(commands[3]) {
        var ttl := ParseLongArg(commands[4]);
        if ttl.None? {
          reply := ExceptionReply(NumberFormatMessage(commands[4]));
          return;
        }
        expirationTimes := expirationTimes[key := WrapLong(now + ttl.value)];
      }
      reply := OkReply;
    }

    method Get(commands: seq<JString>, now: Long) returns (reply: string)
      modifies this
      ensures Step(Model(), reply) == GetCommand(old(Model()), commands, now)
      ensures ExpiryWithinData(old(Model())) ==> ExpiryWithinData(Model())
    {
      if |commands| < 2 {
        reply := ArityError("get");
        return;
      }
      var key := commands[1];
      var value := if key in dataStore then dataStore[key] else None;
      if value.Some? && key in expirationTimes && now > expirationTimes[key] {
        dataStore := dataStore - {key};
        expirationTimes := expirationTimes - {key};
        value := None;
      }
      reply := if value.Some? then BulkReply(value.value) else NullBulkReply;
    }

    method Del(commands: seq<JString>) returns (reply: string)
      modifies this
      ensures Step(Model(), reply) == DelCommand(old(Model()), commands)
      ensures ExpiryWithinData(old(Model())) ==> ExpiryWithinData(Model())
    {
      if |commands| < 2 {
        reply := ArityError("del");
        return;
      }
      var key := commands[1];
      var value := if key in dataStore then dataStore[key] else None;
      dataStore := dataStore - {key};
      expirationTimes := expirationTimes - {key};
      reply := if value.Some? then OneReply else ZeroReply;
    }

    method Exists(commands: seq<JString>, now: Long) returns (reply: string)
      modifies this
      ensures Step(Model(), reply) == ExistsCommand(old(Model()), commands, now)
      ensures ExpiryWithinData(old(Model())) ==> ExpiryWithinData(Model())
    {
      if |commands| < 2 {
        reply := ArityError("exists");
        return;
      }
      var key := commands[1];
      var present := key in dataStore;
      if present && key in expirationTimes && now > expirationTimes[key] {
        dataStore := dataStore - {key};
        expirationTimes := expirationTimes - {key};
        present := false;
      }
      reply := if present then OneReply else ZeroReply;
    }

    /** `handleCommand`: switch on the upper-cased name. */
    method HandleCommand(commands: seq<JString>, now: Long) returns (reply: string)
      requires Dispatchable(commands)
      modifies this
      ensures Step(Model(), reply) == Dispatch(old(Model()), commands, now)
      ensures ExpiryWithinData(old(Model())) ==> ExpiryWithinData(Model())
    {
      var command := UpperCase(commands[0].value);
      if command == "PING" {
        reply := PongReply;
      } else if command == "SET" {
        reply := Set(commands, now);
      } else if command == "GET" {
        reply := Get(commands, now);
      } else if command == "DEL" {
        reply := Del(commands);
      } else if command == "EXISTS" {
        reply := Exists(commands, now);
      } else if command == "KEYS" {
        reply := EmptyArrayReply;
      } else if command == "SUBSCRIBE" {
        reply := SubscribeCommand(commands);
      } else if command == "PUBLISH" {
        reply := PublishCommand(commands);
      } else if command == "UNSUBSCRIBE" {
        reply := UnsubscribeReply;
      } else {
        reply := UnknownCommandReply(command);
      }
    }

    /**
     * `handleClient` for one connection whose input is read as the lines
     * `input`: returns everything written back and why the connection ended.
     */
    method HandleClient(input: seq<string>, clock: nat -> Long) returns (output: string, closure: Closure)
      modifies this
      ensures RunSession(old(Model()), input, clock, 0) == Session(Model(), output, closure)
      ensures ExpiryWithinData(old(Model())) ==> ExpiryWithinData(Model())
    {
      var lines := input;
      var k := 0;
      output := "";
      while true
        invariant RunSession(old(Model()), input, clock, 0) == Prefixed(output, RunSession(Model(), lines, clock, k))
        invariant ExpiryWithinData(old(Model())) ==> ExpiryWithinData(Model())
        decreases |lines|
      {
        if |lines| == 0 {
          closure := EndOfStream;
          assert output + "" == output;
          return;
        }
        var line := lines[0];
        if StartsWith(line, "*") {
          var count := ParseInt(line[1..]);
          if count.None? || count.value < 0 {
            closure := ProtocolError;
            assert output + "" == output;
            return;
          }
          var commands, after, malformed := ReadCommands(lines[1..], count.value);
          if malformed {
            closure := ProtocolError;
            assert output + "" == output;
            return;
          }
          assert NextFrame(lines) == Request(commands[..], after);
          if commands.Length > 0 && commands[0].Some? {
            ghost var before := Model();
            var reply := HandleCommand(commands[..], clock(k));
            assert RunSession(before, lines, clock, k) == Prefixed(reply, RunSession(Model(), after, clock, k + 1));
            PrefixedTwice(output, reply, RunSession(Model(), after, clock, k + 1));
            output := output + reply;
            k := k + 1;
          }
          lines := after;
        } else {
          lines := lines[1..];
        }
      }
    }
  }
}
