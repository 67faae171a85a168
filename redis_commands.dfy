/**
 * What `SimpleRedisServer.handleCommand` does to the server's two maps and
 * which reply it writes, as functions of the maps before the command, the
 * decoded argument array and the clock reading `now`.
 *
 * `data` is `dataStore` (key to value) and `expiry` is `expirationTimes`
 * (key to absolute deadline in milliseconds). Expiry is lazy: only GET and
 * EXISTS look at a deadline, and only when `now` is strictly past it.
 */
module RedisCommands {
  import opened JavaLang

  datatype Store = Store(data: map<JString, JString>, expiry: map<JString, Long>)

  /** Every recorded deadline belongs to a stored key. */
  predicate ExpiryWithinData(s: Store)
  {
    s.expiry.Keys <= s.data.Keys
  }

  /** The maps after one command, and the characters written back. */
  datatype Step = Step(store: Store, reply: string)

  const OkReply := "+OK\r\n"
  const PongReply := "+PONG\r\n"
  const NullBulkReply := "$-1\r\n"
  const OneReply := ":1\r\n"
  const ZeroReply := ":0\r\n"
  const EmptyArrayReply := "*0\r\n"
  const SubscribeHeader := "*3\r\n$9\r\nsubscribe\r\n"
  const UnsubscribeReply := "*3\r\n$11\r\nunsubscribe\r\n$0\r\n\r\n:0\r\n"

  /**
   * The message of the NullPointerException that `channel.length()` throws
   * for a null channel (helpful NullPointerException text of JDK 15 and
   * later, for classes compiled with local variable names).
   */
  const NullChannelMessage := "Cannot invoke \"String.length()\" because \"channel\" is null"

  function ArityError(name: string): string
  {
    "-ERR wrong number of arguments for '" + name + "' command\r\n"
  }

  /** The reply the `catch (Exception e)` clause appends. */
  function ExceptionReply(message: string): string
  {
    "-ERR " + message + "\r\n"
  }

  function UnknownCommandReply(command: string): string
  {
    "-ERR unknown command '" + command + "'\r\n"
  }

  /** A bulk string reply; its length is `String.length()` in UTF-16 units. */
  function BulkReply(value: string): string
  {
    "$" + DecimalString(Utf16Length(value)) + "\r\n" + value + "\r\n"
  }

  /** `"PX".equalsIgnoreCase(arg)`: false for null. */
  predicate IsPx(arg: JString)
  {
    arg.Some? && UpperCase(arg.value) == "PX"
  }

  /** `Long.parseLong(arg)`: `None` where it throws, null included. */
  function ParseLongArg(arg: JString): Option<Long>
  {
    match arg
    case None => None
    case Some(text) => ParseLong(text)
  }

  /** `dataStore.get(key)`: null both for a missing key and a null value. */
  function Lookup(s: Store, key: JString): JString
  {
    if key in s.data then s.data[key] else None
  }

  /** The key has a deadline and `now` is strictly past it. */
  predicate Expired(s: Store, key: JString, now: Long)
  {
    key in s.expiry && now > s.expiry[key]
  }

  /** `dataStore.remove(key); expirationTimes.remove(key);` */
  function Evict(s: Store, key: JString): Store
  {
    Store(s.data - {key}, s.expiry - {key})
  }

  function SetCommand(s: Store, commands: seq<JString>, now: Long): Step
  {
    if |commands| < 3 then Step(s, ArityError("set"))
    else
      var key := commands[1];
      var data := s.data[key := commands[2]];
      if |commands| >= 5 && IsPx(commands[3]) then
        match ParseLongArg(commands[4])
        case Some(ttl) =>
          Step(Store(data, s.expiry[key := WrapLong(now + ttl)]), OkReply)
        case None =>
          Step(Store(data, s.expiry), ExceptionReply(NumberFormatMessage(commands[4])))
      else Step(Store(data, s.expiry), OkReply)
  }

  function GetCommand(s: Store, commands: seq<JString>, now: Long): Step
  {
    if |commands| < 2 then Step(s, ArityError("get"))
    else
      var key := commands[1];
      var value := Lookup(s, key);
      if value.Some? && Expired(s, key, now) then Step(Evict(s, key), NullBulkReply)
      else if value.Some? then Step(s, BulkReply(value.value))
      else Step(s, NullBulkReply)
  }

  function DelCommand(s: Store, commands: seq<JString>): Step
  {
    if |commands| < 2 then Step(s, ArityError("del"))
    else
      var key := commands[1];
      Step(Evict(s, key), if Lookup(s, key).Some? then OneReply else ZeroReply)
  }

  function ExistsCommand(s: Store, commands: seq<JString>, now: Long): Step
  {
    if |commands| < 2 then Step(s, ArityError("exists"))
    else
      var key := commands[1];
      if key in s.data && Expired(s, key, now) then Step(Evict(s, key), ZeroReply)
      else Step(s, if key in s.data then OneReply else ZeroReply)
  }

  /**
   * SUBSCRIBE only acknowledges. A null channel throws inside the reply, after
   * the first three lines were already written.
   */
  function SubscribeCommand(commands: seq<JString>): string
  {
    if |commands| < 2 then ArityError("subscribe")
    else match commands[1]
      case None => SubscribeHeader + ExceptionReply(NullChannelMessage)
      case Some(channel) => SubscribeHeader + BulkReply(channel) + OneReply
  }

  function PublishCommand(commands: seq<JString>): string
  {
    if |commands| < 3 then ArityError("publish") else ZeroReply
  }

  /** A request the session hands to `handleCommand`. */
  predicate Dispatchable(commands: seq<JString>)
  {
    |commands| > 0 && commands[0].Some?
  }

  function CommandName(commands: seq<JString>): string
    requires Dispatchable(commands)
  {
    UpperCase(commands[0].value)
  }

  function Dispatch(s: Store, commands: seq<JString>, now: Long): Step
    requires Dispatchable(commands)
  {
    var command := CommandName(commands);
    if command == "PING" then Step(s, PongReply)
    else if command == "SET" then SetCommand(s, commands, now)
    else if command == "GET" then GetCommand(s, commands, now)
    else if command == "DEL" then DelCommand(s, commands)
    else if command == "EXISTS" then ExistsCommand(s, commands, now)
    else if command == "KEYS" then Step(s, EmptyArrayReply)
    else if command == "SUBSCRIBE" then Step(s, SubscribeCommand(commands))
    else if command == "PUBLISH" then Step(s, PublishCommand(commands))
    else if command == "UNSUBSCRIBE" then Step(s, UnsubscribeReply)
    else Step(s, UnknownCommandReply(command))
  }

  // ---------------------------------------------------------------------
  // Properties of the dispatcher

  /** The literal names the lemmas below send are already upper case. */
  lemma UpperCaseNames()
    ensures UpperCase("GET") == "GET" && UpperCase("SET") == "SET"
    ensures UpperCase("DEL") == "DEL" && UpperCase("EXISTS") == "EXISTS"
    ensures UpperCase("PX") == "PX"
  {
    assert UpperCase("GET") == "GET";
    assert UpperCase("SET") == "SET";
    assert UpperCase("DEL") == "DEL";
    assert UpperCase("EXISTS") == "EXISTS";
    assert UpperCase("PX") == "PX";
  }

  /** No command records a deadline for a key that is not stored. */
  lemma DispatchKeepsExpiryWithinData(s: Store, commands: seq<JString>, now: Long)
    requires Dispatchable(commands) && ExpiryWithinData(s)
    ensures ExpiryWithinData(Dispatch(s, commands, now).store)
  {
  }

  /** Only the name's upper-case form matters. */
  lemma CommandNamesIgnoreCase(s: Store, commands: seq<JString>, now: Long, name: string)
    requires Dispatchable(commands)
    requires UpperCase(name) == CommandName(commands)
    ensures Dispatch(s, commands[0 := Some(name)], now) == Dispatch(s, commands, now)
  {
  }

  /** PING, KEYS, SUBSCRIBE, PUBLISH, UNSUBSCRIBE and unknown names touch neither map. */
  lemma NonStoreCommandsChangeNothing(s: Store, commands: seq<JString>, now: Long)
    requires Dispatchable(commands)
    requires CommandName(commands) !in {"SET", "GET", "DEL", "EXISTS"}
    ensures Dispatch(s, commands, now).store == s
  {
  }

  /** The fixed replies of the stub commands and of an unknown name. */
  lemma StubReplies(s: Store, commands: seq<JString>, now: Long)
    requires Dispatchable(commands)
    ensures var command, reply := CommandName(commands), Dispatch(s, commands, now).reply;
      && (command == "PING" ==> reply == "+PONG\r\n")
      && (command == "KEYS" ==> reply == "*0\r\n")
      && (command == "PUBLISH" && |commands| >= 3 ==> reply == ":0\r\n")
      && (command == "SUBSCRIBE" && |commands| >= 2 && commands[1].Some? ==>
            reply == "*3\r\n$9\r\nsubscribe\r\n" + BulkReply(commands[1].value) + ":1\r\n")
      && (command == "UNSUBSCRIBE" ==> reply == "*3\r\n$11\r\nunsubscribe\r\n$0\r\n\r\n:0\r\n")
      && (command !in {"PING", "SET", "GET", "DEL", "EXISTS", "KEYS", "SUBSCRIBE", "PUBLISH", "UNSUBSCRIBE"} ==>
            reply == "-ERR unknown command '" + command + "'\r\n")
  {
  }

  /**
   * Too few arguments: an error naming the command in lower case, and no
   * change to either map.
   */
  lemma ShortCommandsAreRejected(s: Store, commands: seq<JString>, now: Long)
    requires Dispatchable(commands)
    requires var command := CommandName(commands);
      (command in {"SET", "PUBLISH"} && |commands| < 3) ||
      (command in {"GET", "DEL", "EXISTS", "SUBSCRIBE"} && |commands| < 2)
    ensures Dispatch(s, commands, now) ==
      Step(s, "-ERR wrong number of arguments for '" + LowerCase(CommandName(commands)) + "' command\r\n")
  {
    var command := CommandName(commands);
    if command == "SET" {
      assert LowerCase(command) == "set";
    } else if command == "PUBLISH" {
      assert LowerCase(command) == "publish";
    } else if command == "GET" {
      assert LowerCase(command) == "get";
    } else if command == "DEL" {
      assert LowerCase(command) == "del";
    } else if command == "EXISTS" {
      assert LowerCase(command) == "exists";
    } else {
      assert LowerCase(command) == "subscribe";
    }
  }

  /**
   * SET stores the value whatever follows it. With `PX <ttl>` it records the
   * deadline `now + ttl` (as a wrapping `long` sum); with an unparsable ttl
   * the value stays stored and the reply is the exception's message; without
   * PX any earlier deadline is left in place.
   */
  lemma SetStoresValue(s: Store, commands: seq<JString>, now: Long)
    requires Dispatchable(commands) && CommandName(commands) == "SET" && |commands| >= 3
    ensures var r := Dispatch(s, commands, now);
      && r.store.data == s.data[commands[1] := commands[2]]
      && (!(|commands| >= 5 && IsPx(commands[3])) ==> r.store.expiry == s.expiry && r.reply == "+OK\r\n")
      && (|commands| >= 5 && IsPx(commands[3]) ==>
            match ParseLongArg(commands[4])
            case Some(ttl) =>
              r.store.expiry == s.expiry[commands[1] := WrapLong(now + ttl)] && r.reply == "+OK\r\n"
              && (MinLong <= now + ttl <= MaxLong ==> r.store.expiry[commands[1]] == now + ttl)
            case None =>
              r.store.expiry == s.expiry && r.reply == "-ERR " + NumberFormatMessage(commands[4]) + "\r\n")
  {
  }

  /** A missing key reads as the null bulk string and nothing changes. */
  lemma GetMissingKey(s: Store, key: JString, now: Long)
    requires key !in s.data
    ensures Dispatch(s, [Some("GET"), key], now) == Step(s, "$-1\r\n")
  {
    UpperCaseNames();
  }

  /**
   * GET and EXISTS on a stored key whose deadline is strictly before `now`
   * remove it from both maps and answer "absent"; at the deadline itself the
   * key is still live.
   */
  lemma ExpiredReadsEvict(s: Store, key: JString, value: string, now: Long)
    requires key in s.data && s.data[key] == Some(value) && key in s.expiry
    ensures now > s.expiry[key] ==>
      && Dispatch(s, [Some("GET"), key], now) == Step(Evict(s, key), "$-1\r\n")
      && Dispatch(s, [Some("EXISTS"), key], now) == Step(Evict(s, key), ":0\r\n")
      && key !in Evict(s, key).data && key !in Evict(s, key).expiry
    ensures now <= s.expiry[key] ==>
      && Dispatch(s, [Some("GET"), key], now) == Step(s, BulkReply(value))
      && Dispatch(s, [Some("EXISTS"), key], now) == Step(s, ":1\r\n")
  {
    UpperCaseNames();
  }

  /**
   * EXISTS evicts any stored key past its deadline, a key holding null
   * included, and answers 0; at or before the deadline it answers 1. GET
   * instead leaves a stored null in place, whatever its deadline.
   */
  lemma ExistsEvictsWhateverIsStored(s: Store, key: JString, now: Long)
    requires key in s.data && key in s.expiry
    ensures now > s.expiry[key] ==>
      Dispatch(s, [Some("EXISTS"), key], now) == Step(Evict(s, key), ":0\r\n")
    ensures now <= s.expiry[key] ==>
      Dispatch(s, [Some("EXISTS"), key], now) == Step(s, ":1\r\n")
    ensures s.data[key].None? ==>
      Dispatch(s, [Some("GET"), key], now) == Step(s, "$-1\r\n")
  {
    UpperCaseNames();
  }

  /**
   * DEL removes the key from both maps whatever its deadline, and answers 1
   * exactly when `dataStore.remove` returned a non-null value; a second DEL
   * of the same key answers 0.
   */
  lemma DelIgnoresDeadlines(s: Store, key: JString, now1: Long, now2: Long)
    ensures var first := Dispatch(s, [Some("DEL"), key], now1);
      && first.store == Evict(s, key)
      && (first.reply == ":1\r\n" <==> key in s.data && s.data[key].Some?)
      && (first.reply == ":0\r\n" <==> !(key in s.data && s.data[key].Some?))
      && Dispatch(first.store, [Some("DEL"), key], now2) == Step(first.store, ":0\r\n")
  {
    UpperCaseNames();
  }

  /** SET then GET of a key with no deadline returns the value just stored. */
  lemma SetThenGet(s: Store, key: JString, value: string, now1: Long, now2: Long)
    requires key !in s.expiry
    ensures var stored := Dispatch(s, [Some("SET"), key, Some(value)], now1);
      && stored.reply == "+OK\r\n"
      && Dispatch(stored.store, [Some("GET"), key], now2) == Step(stored.store, BulkReply(value))
  {
    UpperCaseNames();
  }

  /**
   * SET with `PX ttl` then GET: live up to and including the deadline, gone
   * (from both maps) once `now` is past it.
   */
  lemma SetWithTtlThenGet(s: Store, key: JString, value: string, ttlText: string, now1: Long, now2: Long)
    requires ParseLong(ttlText).Some?
    ensures var stored := Dispatch(s, [Some("SET"), key, Some(value), Some("PX"), Some(ttlText)], now1);
      var deadline := WrapLong(now1 + ParseLong(ttlText).value);
      var get := Dispatch(stored.store, [Some("GET"), key], now2);
      && stored.reply == "+OK\r\n"
      && (now2 <= deadline ==> get == Step(stored.store, BulkReply(value)))
      && (now2 > deadline ==> get.reply == "$-1\r\n" && key !in get.store.data && key !in get.store.expiry)
  {
    UpperCaseNames();
  }

  /**
   * SET without PX keeps an older deadline: a key set with a ttl and then
   * set again without one still expires at the first deadline.
   */
  lemma SetKeepsOldDeadline(s: Store, key: JString, v1: string, v2: string, ttlText: string, now1: Long, now2: Long, now3: Long)
    requires ParseLong(ttlText).Some?
    requires now3 > WrapLong(now1 + ParseLong(ttlText).value)
    ensures var first := Dispatch(s, [Some("SET"), key, Some(v1), Some("PX"), Some(ttlText)], now1).store;
      var second := Dispatch(first, [Some("SET"), key, Some(v2)], now2).store;
      Dispatch(second, [Some("GET"), key], now3) == Step(Evict(second, key), "$-1\r\n")
  {
    UpperCaseNames();
  }

  /**
   * The deadline is a `long` sum that wraps: a ttl of `Long.MAX_VALUE` set at
   * time 1 (any text `Long.parseLong` reads as that value) lands at
   * `Long.MIN_VALUE`, so the key is already expired.
   */
  lemma HugeTtlWrapsToPast(s: Store, key: JString, value: string, ttlText: string)
    requires ParseLong(ttlText) == Some(MaxLong)
    ensures var stored := Dispatch(s, [Some("SET"), key, Some(value), Some("PX"), Some(ttlText)], 1);
      && key in stored.store.expiry && stored.store.expiry[key] == MinLong
      && Dispatch(stored.store, [Some("GET"), key], 1).reply == "$-1\r\n"
  {
    assert WrapLong(1 + MaxLong) == MinLong;
    UpperCaseNames();
  }
}
