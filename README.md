# DBWrapper core in Dafny

A model of the parts of DBWrapper that compute rather than do I/O:

- the built-in Redis-compatible server `SimpleRedisServer`: the per-connection
  decoder of RESP2 request frames (`handleClient`) and the command dispatcher
  (`handleCommand`) over its two maps `dataStore` and `expirationTimes`;
- its client `SimpleRedisClient`: the request encoder `sendCommand`, the three
  reply readers and the commands built from them;
- `OSUtils`: the classification of `os.name` and `os.arch`;
- from `BinaryManager`: the stripping of the top-level directory from zip entry
  names, the extraction loop over the entries, and the byte counting, MB total
  and percentage of the download loop;
- from `DBWrapperCommands`: the database-name check, the `CREATE DATABASE`
  statement and the control flow of `createDatabase`.

## Layout

| file | module | what |
|---|---|---|
| java_lang.dfy | `JavaLang` | nullable strings (`JString`), `int`/`long` ranges and wrap-around, ASCII case mapping, `contains`/`indexOf`, `String.valueOf` and `Integer.parseInt`/`Long.parseLong`, UTF-8 and UTF-16 lengths |
| line_reader.dfy | `LineReader` | `BufferedReader.readLine()` and the sequence of lines a reader sees |
| redis_commands.dfy | `RedisCommands` | each command of `handleCommand` as a function of the maps, the arguments and the clock; properties of the dispatcher |
| redis_frames.dfy | `RedisFrames` | how the lines read are cut into requests |
| redis_server.dfy | `RedisServer` | a whole connection as a function (`RunSession`), the decoding loop over a `String[]` array, and the class `SimpleRedisServer` whose methods update the two maps in place |
| redis_client.dfy | `RedisClient` | the encoder, the reply readers, and the class `SimpleRedisClient` over the text sent and the reply lines not yet read |
| redis_round_trip.dfy | `RedisRoundTrip` | the server decodes what the client encodes; the client reads back what the server replies |
| os_utils.dfy | `OSUtils` | platform and architecture names |
| binary_manager.dfy | `BinaryManager` | entry-name stripping, extraction loop, download progress |
| db_commands.dfy | `DBWrapperCommands` | name check, SQL text, `createDatabase` |

Java `null` is `None` of `JString = Option<string>`. The clock
(`System.currentTimeMillis()`) is a parameter: `now` for one command, and
`clock(k)`, the reading taken by the k-th dispatched request, for a whole
connection. A socket's input is the sequence of lines `readLine()` returns
(`LineReader.Lines` relates it to the raw characters); its output is the text
written.

## Behaviour that differs from Redis

- SET without `PX` leaves an earlier deadline in place; it does not clear it
  (`RedisCommands.SetKeepsOldDeadline`).
- DEL answers `:1` for a key whose deadline has passed, since it never looks
  at deadlines (`RedisCommands.DelIgnoresDeadlines`).
- A malformed frame does not always end the connection: a line not starting
  with `*` is skipped, an element line not starting with `$` ends the
  element loop (that line is lost) and the rest of the array stays null, and
  a short read leaves null elements. Only a count or a length that
  `Integer.parseInt` rejects, or a negative count, ends the connection.
- Declared bulk lengths are never checked: the server reads one line per
  element whatever the length says, the client sends the UTF-8 byte count,
  and GET answers with the UTF-16 length (`String.length()`).
- There is no authentication and no publish/subscribe fan-out: SUBSCRIBE,
  PUBLISH, UNSUBSCRIBE and KEYS answer fixed frames.

## Model

| member | source | states |
|---|---|---|
| JavaLang.WrapLong | src/main/java/savage/dbwrapper/database/redis/SimpleRedisServer.java:131 | the `long` sum: equal to the exact sum when it fits, otherwise congruent to it modulo 2^64 and inside the `long` range |
| JavaLang.WrapInt | src/main/java/savage/dbwrapper/utils/BinaryManager.java:162 | the `(int)` cast: the value itself when it fits, otherwise congruent modulo 2^32 and inside the `int` range |
| JavaLang.TruncDiv | src/main/java/savage/dbwrapper/utils/BinaryManager.java:148 | Java's `/` rounds toward zero: the quotient has the sign of the dividend and the remainder `a - q*b` has the dividend's sign and is smaller than the divisor |
| JavaLang.UpperCase | src/main/java/savage/dbwrapper/database/redis/SimpleRedisServer.java:113 | `toUpperCase()`: same length, every character upper-cased |
| JavaLang.LowerCase | src/main/java/savage/dbwrapper/utils/OSUtils.java:4 | `toLowerCase()`: same length, every character lower-cased |
| JavaLang.ContainsOccurs | src/main/java/savage/dbwrapper/utils/OSUtils.java:7 | `contains(t)` holds exactly when `t` occurs at some index |
| JavaLang.IndexOf | src/main/java/savage/dbwrapper/utils/BinaryManager.java:60 | `indexOf(c)` is -1 exactly when `c` is absent, otherwise the first index holding `c` |
| JavaLang.DecimalString | src/main/java/savage/dbwrapper/database/redis/SimpleRedisClient.java:68 | `String.valueOf` of a number is never empty |
| JavaLang.ParseDecimal | src/main/java/savage/dbwrapper/database/redis/SimpleRedisServer.java:80 | an accepted text is an optional sign and digits, and its value lies in the type's range |
| JavaLang.ParseIntString | src/main/java/savage/dbwrapper/database/redis/SimpleRedisServer.java:88 | `Integer.parseInt` reads back every `int` that `String.valueOf` printed |
| JavaLang.ParseLongString | src/main/java/savage/dbwrapper/database/redis/SimpleRedisClient.java:47 | `Long.parseLong` reads back every `long` that `String.valueOf` printed |
| JavaLang.DecimalStringHasNoBreak | src/main/java/savage/dbwrapper/database/redis/SimpleRedisClient.java:68 | a printed number holds no CR or LF |
| JavaLang.Utf16Length | src/main/java/savage/dbwrapper/database/redis/SimpleRedisServer.java:157 | `length()` lies between the number of characters and twice it |
| JavaLang.Utf8Length | src/main/java/savage/dbwrapper/database/redis/SimpleRedisClient.java:75-76 | `getBytes().length` lies between the number of characters and four times it |
| LineReader.LineEnd | src/main/java/savage/dbwrapper/database/redis/SimpleRedisServer.java:75 | the end of the line is the end of input or a CR/LF |
| LineReader.LineEndNoBreak | src/main/java/savage/dbwrapper/database/redis/SimpleRedisServer.java:75 | no CR/LF comes before the end of the line |
| LineReader.ReadLine | src/main/java/savage/dbwrapper/database/redis/SimpleRedisServer.java:75-76 | `readLine()` returns null exactly when the input is exhausted, and otherwise consumes input |
| LineReader.ReadLineSplits | src/main/java/savage/dbwrapper/database/redis/SimpleRedisServer.java:75 | the input is the line, then one terminator (CR, LF or CRLF; none only at end of input), then what remains; the line holds no terminator |
| LineReader.ReadTerminatedLine | src/main/java/savage/dbwrapper/database/redis/SimpleRedisServer.java:75 | a break-free line followed by CRLF is read back as written, the CRLF consumed |
| LineReader.Lines | src/main/java/savage/dbwrapper/database/redis/SimpleRedisServer.java:74-76 | a reader never sees more lines than there are characters |
| LineReader.LinesHaveNoBreak | src/main/java/savage/dbwrapper/database/redis/SimpleRedisServer.java:75 | no line read holds a terminator |
| LineReader.LinesOfTerminated | src/main/java/savage/dbwrapper/database/redis/SimpleRedisClient.java:68 | a CRLF-terminated line written before any text is the first line read, followed by the lines of that text |
| LineReader.LinesOfTwo | src/main/java/savage/dbwrapper/database/redis/SimpleRedisClient.java:76-77 | two CRLF-terminated lines are read back as those two lines |
| RedisCommands.DispatchKeepsExpiryWithinData | src/main/java/savage/dbwrapper/database/redis/SimpleRedisServer.java:112-267 | no command leaves a deadline for a key that is not stored |
| RedisCommands.CommandNamesIgnoreCase | src/main/java/savage/dbwrapper/database/redis/SimpleRedisServer.java:113-116 | two names with the same upper-case form dispatch alike |
| RedisCommands.NonStoreCommandsChangeNothing | src/main/java/savage/dbwrapper/database/redis/SimpleRedisServer.java:117-261 | PING, KEYS, SUBSCRIBE, PUBLISH, UNSUBSCRIBE and unknown names change neither map |
| RedisCommands.StubReplies | src/main/java/savage/dbwrapper/database/redis/SimpleRedisServer.java:117-261 | the fixed replies of PING, KEYS, PUBLISH, SUBSCRIBE and UNSUBSCRIBE, and `-ERR unknown command '<NAME>'` with the upper-cased name |
| RedisCommands.ShortCommandsAreRejected | src/main/java/savage/dbwrapper/database/redis/SimpleRedisServer.java:122-245 | fewer than 3 arguments for SET or PUBLISH, or fewer than 2 for GET, DEL, EXISTS or SUBSCRIBE: the arity error naming the command in lower case, and both maps unchanged |
| RedisCommands.SetStoresValue | src/main/java/savage/dbwrapper/database/redis/SimpleRedisServer.java:122-140 | SET stores the value; with `PX n` it records the deadline now+n (wrapping) and replies `+OK`; a ttl `parseLong` rejects still stores the value and replies `-ERR` with the exception's message; without PX the deadlines are unchanged |
| RedisCommands.GetMissingKey | src/main/java/savage/dbwrapper/database/redis/SimpleRedisServer.java:142-163 | GET of a missing key replies `$-1` and changes nothing |
| RedisCommands.ExpiredReadsEvict | src/main/java/savage/dbwrapper/database/redis/SimpleRedisServer.java:142-208 | GET and EXISTS strictly past the deadline remove the key from both maps and answer absent; at the deadline itself the key is live |
| RedisCommands.ExistsEvictsWhateverIsStored | src/main/java/savage/dbwrapper/database/redis/SimpleRedisServer.java:142-208 | EXISTS evicts any expired key it finds, a stored null included, and answers `:0` (`:1` up to the deadline); GET leaves a stored null in place and answers `$-1` |
| RedisCommands.DelIgnoresDeadlines | src/main/java/savage/dbwrapper/database/redis/SimpleRedisServer.java:170-186 | DEL removes the key from both maps, answers `:1` exactly when a non-null value was stored, and a second DEL answers `:0` |
| RedisCommands.SetThenGet | src/main/java/savage/dbwrapper/database/redis/SimpleRedisServer.java:122-163 | SET then GET of a key without deadline replies `+OK`, then the value as a bulk string |
| RedisCommands.SetWithTtlThenGet | src/main/java/savage/dbwrapper/database/redis/SimpleRedisServer.java:122-168 | SET with PX then GET: the value up to and including the deadline, absent and evicted after it |
| RedisCommands.SetKeepsOldDeadline | src/main/java/savage/dbwrapper/database/redis/SimpleRedisServer.java:126-132 | a later SET without PX keeps the first deadline, so GET past it evicts the key |
| RedisCommands.HugeTtlWrapsToPast | src/main/java/savage/dbwrapper/database/redis/SimpleRedisServer.java:130-131 | a ttl of `Long.MAX_VALUE` at time 1 wraps to a deadline of `Long.MIN_VALUE`, so the next GET answers absent |
| RedisFrames.ReadBulk | src/main/java/savage/dbwrapper/database/redis/SimpleRedisServer.java:85-93 | a read that is not a rejected length never adds lines, and an element read consumes at least its header line |
| RedisFrames.ReadBulks | src/main/java/savage/dbwrapper/database/redis/SimpleRedisServer.java:83-94 | the element loop reads at most the announced number of elements |
| RedisFrames.Nulls | src/main/java/savage/dbwrapper/database/redis/SimpleRedisServer.java:81 | the unfilled slots of `new String[n]` are n nulls |
| RedisFrames.NextFrame | src/main/java/savage/dbwrapper/database/redis/SimpleRedisServer.java:74-94 | only exhausted input ends the loop normally; a skipped line or a request consumes input |
| RedisFrames.NonArrayLineSkipped | src/main/java/savage/dbwrapper/database/redis/SimpleRedisServer.java:79 | a line not starting with `*` is skipped |
| RedisFrames.BadCountIsMalformed | src/main/java/savage/dbwrapper/database/redis/SimpleRedisServer.java:80-81 | a count `parseInt` rejects, or a negative count, ends the connection |
| RedisFrames.ReadBulksSplit | src/main/java/savage/dbwrapper/database/redis/SimpleRedisServer.java:83-94 | reading m + n elements is reading m, then n more from where those m stopped |
| RedisFrames.BadLengthIsMalformed | src/main/java/savage/dbwrapper/database/redis/SimpleRedisServer.java:80-94 | after any number of elements read in full, fewer than the count `parseInt` accepted, an element length `parseInt` rejects ends the connection |
| RedisFrames.RequestHasAnnouncedLength | src/main/java/savage/dbwrapper/database/redis/SimpleRedisServer.java:81-94 | every request has exactly as many elements as `parseInt` read from its `*` line, whatever the count's spelling |
| RedisServer.RunSessionKeepsExpiryWithinData | src/main/java/savage/dbwrapper/database/redis/SimpleRedisServer.java:74-99 | a whole connection never leaves a deadline for a key that is not stored |
| RedisServer.ReadCommands | src/main/java/savage/dbwrapper/database/redis/SimpleRedisServer.java:80-94 | the array filled index by index holds the elements read followed by nulls, and the loop stops at a rejected length exactly when the frame is malformed |
| RedisServer.SimpleRedisServer.constructor | src/main/java/savage/dbwrapper/database/redis/SimpleRedisServer.java:29-30 | both maps start empty |
| RedisServer.SimpleRedisServer.Set | src/main/java/savage/dbwrapper/database/redis/SimpleRedisServer.java:122-140 | the maps and reply after SET are those of `SetCommand`, and the deadline invariant is kept |
| RedisServer.SimpleRedisServer.Get | src/main/java/savage/dbwrapper/database/redis/SimpleRedisServer.java:142-168 | the maps and reply after GET are those of `GetCommand`, and the invariant is kept |
| RedisServer.SimpleRedisServer.Del | src/main/java/savage/dbwrapper/database/redis/SimpleRedisServer.java:170-186 | the maps and reply after DEL are those of `DelCommand`, and the invariant is kept |
| RedisServer.SimpleRedisServer.Exists | src/main/java/savage/dbwrapper/database/redis/SimpleRedisServer.java:188-208 | the maps and reply after EXISTS are those of `ExistsCommand`, and the invariant is kept |
| RedisServer.SimpleRedisServer.HandleCommand | src/main/java/savage/dbwrapper/database/redis/SimpleRedisServer.java:112-267 | the switch on the upper-cased name does what `Dispatch` describes, and the invariant is kept |
| RedisServer.SimpleRedisServer.HandleClient | src/main/java/savage/dbwrapper/database/redis/SimpleRedisServer.java:70-110 | the text written, the maps left and the reason the connection ended are those of `RunSession` over the lines read, and the invariant is kept |
| RedisClient.EncodeBulk | src/main/java/savage/dbwrapper/database/redis/SimpleRedisClient.java:72-78 | the bulk string starts with `$`, and a non-null part ends it in full, followed by CRLF; `ReadEncodedBulk` reads it back |
| RedisClient.EncodeCommand | src/main/java/savage/dbwrapper/database/redis/SimpleRedisClient.java:66-82 | a request starts with the array marker `*` |
| RedisClient.EncodePartsCons | src/main/java/savage/dbwrapper/database/redis/SimpleRedisClient.java:71-79 | the parts are written front to back |
| RedisClient.ReadSimpleString | src/main/java/savage/dbwrapper/database/redis/SimpleRedisClient.java:84-89 | succeeds exactly on a line starting with `+` and returns the rest of it; fails with "Connection closed" at end of input |
| RedisClient.ReadBulkString | src/main/java/savage/dbwrapper/database/redis/SimpleRedisClient.java:91-102 | null exactly for `$-1` (or when no line follows), otherwise the next line; fails at end of input or on a line not starting with `$` |
| RedisClient.ReadInteger | src/main/java/savage/dbwrapper/database/redis/SimpleRedisClient.java:104-109 | succeeds exactly on `:` followed by text `parseInt` accepts, returning that value |
| RedisClient.IsOne | src/main/java/savage/dbwrapper/database/redis/SimpleRedisClient.java:58 | true exactly when the integer read is 1; failures pass through |
| RedisClient.Completed | src/main/java/savage/dbwrapper/database/redis/SimpleRedisClient.java:43 | `set` completes exactly when its reply was read |
| RedisClient.SimpleRedisClient.constructor | src/main/java/savage/dbwrapper/database/redis/SimpleRedisClient.java:24-27 | nothing sent yet |
| RedisClient.SimpleRedisClient.SendCommand | src/main/java/savage/dbwrapper/database/redis/SimpleRedisClient.java:66-82 | appends exactly the encoding of the parts to what was sent, and reads nothing |
| RedisClient.SimpleRedisClient.ReadSimple | src/main/java/savage/dbwrapper/database/redis/SimpleRedisClient.java:84-89 | returns what `ReadSimpleString` reads and consumes the same lines |
| RedisClient.SimpleRedisClient.ReadBulk | src/main/java/savage/dbwrapper/database/redis/SimpleRedisClient.java:91-102 | returns what `ReadBulkString` reads and consumes the same lines |
| RedisClient.SimpleRedisClient.ReadInt | src/main/java/savage/dbwrapper/database/redis/SimpleRedisClient.java:104-109 | returns what `ReadInteger` reads and consumes the same lines |
| RedisClient.SimpleRedisClient.Ping | src/main/java/savage/dbwrapper/database/redis/SimpleRedisClient.java:36-39 | sends `[PING]` and returns the simple string read |
| RedisClient.SimpleRedisClient.Set | src/main/java/savage/dbwrapper/database/redis/SimpleRedisClient.java:41-44 | sends `[SET, key, value]` and reads one simple string |
| RedisClient.SimpleRedisClient.SetWithExpiration | src/main/java/savage/dbwrapper/database/redis/SimpleRedisClient.java:46-49 | sends `[SET, key, value, PX, String.valueOf(ttl)]` and reads one simple string |
| RedisClient.SimpleRedisClient.Get | src/main/java/savage/dbwrapper/database/redis/SimpleRedisClient.java:51-54 | sends `[GET, key]` and returns the bulk string read |
| RedisClient.SimpleRedisClient.Exists | src/main/java/savage/dbwrapper/database/redis/SimpleRedisClient.java:56-59 | sends `[EXISTS, key]` and returns whether the integer read is 1 |
| RedisClient.SimpleRedisClient.Del | src/main/java/savage/dbwrapper/database/redis/SimpleRedisClient.java:61-64 | sends `[DEL, key]` and returns whether the integer read is 1 |
| RedisRoundTrip.HeaderLine | src/main/java/savage/dbwrapper/database/redis/SimpleRedisClient.java:76 | a `$n` or `*n` header holds no line break and `parseInt` of its tail gives back n |
| RedisRoundTrip.ReadEncodedBulk | src/main/java/savage/dbwrapper/database/redis/SimpleRedisServer.java:85-93 | the element loop reads one encoded part back as it was sent, null included |
| RedisRoundTrip.ReadEncodedBulks | src/main/java/savage/dbwrapper/database/redis/SimpleRedisServer.java:83-94 | the element loop recovers every encoded part, in order |
| RedisRoundTrip.BadLengthAfterEncodedParts | src/main/java/savage/dbwrapper/database/redis/SimpleRedisServer.java:80-94 | after the lines of any encoded parts, fewer than announced, an element length `parseInt` rejects ends the connection |
| RedisRoundTrip.FrameRoundTrip | src/main/java/savage/dbwrapper/database/redis/SimpleRedisServer.java:79-94 | the server decodes what `sendCommand` wrote into a request holding exactly the parts sent, for parts without CR or LF |
| RedisRoundTrip.SessionServesEncoded | src/main/java/savage/dbwrapper/database/redis/SimpleRedisServer.java:96-97 | a connection serves an encoded command and then carries on with what follows |
| RedisRoundTrip.ReadOkReply | src/main/java/savage/dbwrapper/database/redis/SimpleRedisClient.java:84-89 | the client reads `+OK` back as "OK" |
| RedisRoundTrip.ReadBulkReply | src/main/java/savage/dbwrapper/database/redis/SimpleRedisClient.java:91-102 | the client reads the GET reply for a stored value back as that value |
| RedisRoundTrip.ReadNullBulkReply | src/main/java/savage/dbwrapper/database/redis/SimpleRedisClient.java:97-99 | the client reads `$-1` back as null |
| RedisRoundTrip.ReadIntegerReplies | src/main/java/savage/dbwrapper/database/redis/SimpleRedisClient.java:104-109 | the client reads `:1` and `:0` back as 1 and 0, so `exists`/`del` see true and false |
| RedisRoundTrip.ClientSetThenGet | src/main/java/savage/dbwrapper/database/redis/SimpleRedisClient.java:41-54 | over one connection, `set(key, value)` then `get(key)` reads back `OK` and then the value itself |
| OSUtils.OSName | src/main/java/savage/dbwrapper/utils/OSUtils.java:22-32 | one of winx64, macos, linux, unknown, each exactly when the tests in order say so |
| OSUtils.Architecture | src/main/java/savage/dbwrapper/utils/OSUtils.java:34-45 | one of x64, x86, arm, unknown, with "64" tested before "86" and "86" before "arm" |
| OSUtils.BinarySuffix | src/main/java/savage/dbwrapper/utils/OSUtils.java:47-53 | ".exe" exactly on Windows, otherwise empty |
| OSUtils.UnixIsMacOrLinux | src/main/java/savage/dbwrapper/utils/OSUtils.java:18-20 | off Windows, Unix exactly when the name is macos or linux |
| OSUtils.ClassificationIgnoresCase | src/main/java/savage/dbwrapper/utils/OSUtils.java:4 | an upper-cased property classifies alike |
| OSUtils.SixtyFourBitArchitectures | src/main/java/savage/dbwrapper/utils/OSUtils.java:36-37 | "x86_64", "amd64" and "aarch64" are all x64 |
| OSUtils.KnownPlatforms | src/main/java/savage/dbwrapper/utils/OSUtils.java:6-16 | "Windows 10" is winx64 with ".exe"; "Linux" is Linux and Unix |
| BinaryManager.SeparatorIndex | src/main/java/savage/dbwrapper/utils/BinaryManager.java:60-61 | the first `/`, or failing that the first `\`, or -1 when there is neither |
| BinaryManager.StrippedName | src/main/java/savage/dbwrapper/utils/BinaryManager.java:63-65 | kept exactly when a separator exists before the last character; the name is prefix, separator and the non-empty, shorter stripped name |
| BinaryManager.StripTopLevel | src/main/java/savage/dbwrapper/utils/BinaryManager.java:59-65 | stripping undoes prefixing a path with a top-level directory |
| BinaryManager.ForwardSlashTakesPrecedence | src/main/java/savage/dbwrapper/utils/BinaryManager.java:60-61 | a `/` wins over an earlier `\` |
| BinaryManager.ExtractEntry | src/main/java/savage/dbwrapper/utils/BinaryManager.java:63-73 | a kept entry gives one action on its stripped name, a directory creation exactly for a directory entry (one whose name ends with `/`); a skipped entry gives none |
| BinaryManager.ExtractedAppend | src/main/java/savage/dbwrapper/utils/BinaryManager.java:55-77 | entries are handled one at a time, in order |
| BinaryManager.TopLevelDirectorySkipped | src/main/java/savage/dbwrapper/utils/BinaryManager.java:63 | the archive's top-level directory entry writes nothing |
| BinaryManager.ExtractEntries | src/main/java/savage/dbwrapper/utils/BinaryManager.java:55-77 | the loop over the entries performs exactly `Extracted(entries)` |
| BinaryManager.TotalMB | src/main/java/savage/dbwrapper/utils/BinaryManager.java:148 | the whole number of MB below the size; 0 below 1 MB |
| BinaryManager.TotalSizeText | src/main/java/savage/dbwrapper/utils/BinaryManager.java:150 | "Unknown" below 1 MB, otherwise the number of MB |
| BinaryManager.PercentInRange | src/main/java/savage/dbwrapper/utils/BinaryManager.java:161-162 | the percentage lies in 0..100 and is 100 once every byte has arrived |
| BinaryManager.Downloaded | src/main/java/savage/dbwrapper/utils/BinaryManager.java:152-171 | at most one progress line per read |
| BinaryManager.DownloadCountsBytes | src/main/java/savage/dbwrapper/utils/BinaryManager.java:152-171 | until the `long` count overflows the loop counts every byte, and with an unknown size no logged line carries a percentage |
| BinaryManager.DownloadPercentsInRange | src/main/java/savage/dbwrapper/utils/BinaryManager.java:152-171 | when the true size was announced every logged line carries a percentage in 0..100 |
| BinaryManager.DownloadFile | src/main/java/savage/dbwrapper/utils/BinaryManager.java:152-171 | the byte count and the progress lines are those of `Downloaded` |
| DBWrapperCommands.IsValidDatabaseName | src/main/java/savage/dbwrapper/commands/DBWrapperCommands.java:80-82 | accepted exactly when non-empty and every character is a letter, digit or underscore |
| DBWrapperCommands.EmptyNameRejected | src/main/java/savage/dbwrapper/commands/DBWrapperCommands.java:81 | the empty name is rejected |
| DBWrapperCommands.NoBacktickInValidName | src/main/java/savage/dbwrapper/commands/DBWrapperCommands.java:80-82 | an accepted name holds no backtick |
| DBWrapperCommands.SqlBackticks | src/main/java/savage/dbwrapper/commands/DBWrapperCommands.java:53 | the statement adds exactly two backticks to those of the name |
| DBWrapperCommands.SqlQuotesName | src/main/java/savage/dbwrapper/commands/DBWrapperCommands.java:53 | for an accepted name the statement holds exactly two backticks: one right before the name, one at the end |
| DBWrapperCommands.FailureMessage | src/main/java/savage/dbwrapper/commands/DBWrapperCommands.java:58-65 | every exception is reported with `sendError` |
| DBWrapperCommands.CreateDatabase | src/main/java/savage/dbwrapper/commands/DBWrapperCommands.java:33-78 | returns 1 exactly when the name is valid and all three JDBC calls complete; an invalid name sends only the error and attempts no connection; the statement executed is the `CREATE DATABASE` text; the `finally` block closes exactly what was opened; the messages sent on success, and the error last on failure |

## Left out

- Sockets, the accept loop, the thread pool, the `running` flag, `start`,
  `stop`, `isRunning` and `getPort` of `SimpleRedisServer`: networking and
  threads. One connection is modelled, its requests served in order.
- Concurrency: several connections share the two unsynchronized `HashMap`s;
  the model has one connection at a time.
- `channelSubscriptions`: declared but never used by the server.
- `System.currentTimeMillis()`: a parameter (`now`, `clock`).
- `BufferedWriter` buffering and `flush()`: a reply is modelled as written
  at once; `SendCommand` appends its whole request at `flush()`.
- `connect`, `close` and `isConnected` of `SimpleRedisClient`: socket handling.
- Exceptions the JVM may raise beyond those modelled: `OutOfMemoryError` for a
  huge announced count, and I/O errors of the socket.
- UpperCase, LowerCase: ASCII letters only; `toUpperCase()`/`toLowerCase()` also
  map other letters and depend on the default locale.
- ParseDecimal: ASCII digits only; `Integer.parseInt` also accepts other
  Unicode decimal digits.
- Utf8Length: assumes UTF-8 is the default charset.
- RedisCommands.NullChannelMessage and JavaLang.NumberFormatMessage: the
  exception texts of JDK 17; other JDKs word them differently.
- PercentInRange: proved only when `fileSize * 100` fits in a `long`; beyond
  that the `long` product wraps and the model computes the wrapped value but
  states no range.
- DownloadPercentsInRange: proved only when the bytes read do not exceed the
  announced size and `fileSize * 100` fits in a `long`.
- ClientSetThenGet: only for a key with no deadline recorded.
- The bytes of a download, the HTTP connection, the zip and tar I/O, POSIX
  permissions and the MB amounts shown as `double`: I/O and floating point.
- RedisManager, MariaDBManager, DBWrapper, DatabaseManager, the configuration
  classes, ConfigLoader and ProcessUtils are not part of this model: process
  launching, JDBC, configuration files and lifecycle hooks.
- The command registration with Brigadier and the logger calls of
  `createDatabase`; errors from closing the statement or connection are only
  logged there and do not change the result or the messages.
