/**
 * `DBWrapperCommands`: the `/dbwrapper database mariadb create <name>`
 * command. The name is checked against `^[a-zA-Z0-9_]+$` before any
 * connection is made; the database is created with
 * ``CREATE DATABASE `<name>` ``. JDBC is replaced by the outcome of each of
 * its three calls.
 */
module DBWrapperCommands {
  import opened JavaLang

  /** A character of the class `[a-zA-Z0-9_]`. */
  predicate IsNameChar(c: char)
  {
    IsAsciiLower(c) || IsAsciiUpper(c) || IsAsciiDigit(c) || c == '_'
  }

  /**
   * `databaseName.matches("^[a-zA-Z0-9_]+$")`: one character of the class,
   * then any number more, up to the end of the name.
   */
  function IsValidDatabaseName(name: string): (r: bool)
    ensures r <==> |name| > 0 && forall i :: 0 <= i < |name| ==> IsNameChar(name[i])
    decreases |name|
  {
    |name| > 0 && IsNameChar(name[0]) && (|name| == 1 || IsValidDatabaseName(name[1..]))
  }

  /** The `+` quantifier: the empty name is rejected. */
  lemma EmptyNameRejected()
    ensures !IsValidDatabaseName("")
  {
  }

  function CreateDatabaseSql(name: string): string
  {
    "CREATE DATABASE `" + name + "`"
  }

  const CreatePrefix := "CREATE DATABASE `"

  /**
   * An accepted name is quoted whole: the statement holds exactly two
   * backticks, the first right before the name and the last at the end.
   */
  lemma SqlQuotesName(name: string)
    requires IsValidDatabaseName(name)
    ensures var sql := CreateDatabaseSql(name);
      && multiset(sql)['`'] == 2
      && sql[..|CreatePrefix|] == CreatePrefix
      && sql[|CreatePrefix|..|sql| - 1] == name
      && sql[|sql| - 1] == '`'
  {
    NoBacktickInValidName(name);
    SqlBackticks(name);
    assert CreateDatabaseSql(name) == CreatePrefix + name + "`";
    QuotedSlices(CreatePrefix, name, '`');
  }

  lemma QuotedSlices(prefix: string, body: string, quote: char)
    ensures var s := prefix + body + [quote];
      && s[..|prefix|] == prefix && s[|prefix|..|s| - 1] == body && s[|s| - 1] == quote
  {
    var s := prefix + body + [quote];
    assert s[..|prefix|] == prefix;
    assert s[|prefix|..|s| - 1] == body;
  }

  lemma NoBacktickInValidName(name: string)
    requires IsValidDatabaseName(name)
    ensures multiset(name)['`'] == 0
  {
  }

  /** The statement adds two backticks to those of the name. */
  lemma SqlBackticks(name: string)
    ensures multiset(CreateDatabaseSql(name))['`'] == multiset(name)['`'] + 2
  {
    var keyword := "CREATE DATABASE ";
    assert '`' !in keyword;
    assert CreateDatabaseSql(name) == keyword + "`" + name + "`";
    assert multiset(CreateDatabaseSql(name)) == multiset(keyword) + multiset("`") + multiset(name) + multiset("`");
  }

  /** What a JDBC call did: returned, or threw an `SQLException` or another exception. */
  datatype JdbcCall = Completes | ThrowsSql(message: JString) | ThrowsOther(message: JString)

  /** A message to the command's source: `sendFeedback` (with its broadcast flag) or `sendError`. */
  datatype Message = Feedback(text: string, broadcast: bool) | Error(text: string)

  const InvalidNameMessage := "Invalid database name. Only alphanumeric characters and underscores are allowed."
  const ConnectingMessage := "Connecting to MariaDB..."

  function ConnectedMessage(name: string): string
  {
    "Connection successful. Creating database '" + name + "'..."
  }

  function CreatedMessage(name: string): string
  {
    "Database '" + name + "' created successfully."
  }

  /** `"..." + e.getMessage()`: a null message prints as "null". */
  function MessageText(message: JString): string
  {
    match message
    case None => "null"
    case Some(text) => text
  }

  /** The error the `catch` clauses send for a call that threw. */
  function FailureMessage(call: JdbcCall): (m: Message)
    requires !call.Completes?
    ensures m.Error?
  {
    match call
    case ThrowsSql(message) => Error("Error creating database: " + MessageText(message))
    case ThrowsOther(message) => Error("An unexpected error occurred: " + MessageText(message))
  }

  /**
   * `createDatabase`: `getConnection`, `createStatement` and `executeUpdate`
   * behave as `connect`, `createStatement` and `executeUpdate` say. Returns
   * the command's result, the messages sent to the source, the statement
   * executed (if one was), whether a connection was attempted, and whether
   * the `finally` block closed a statement and a connection.
   */
  method CreateDatabase(name: string, connect: JdbcCall, createStatement: JdbcCall, executeUpdate: JdbcCall)
    returns (result: int, messages: seq<Message>, executed: Option<string>,
             connectAttempted: bool, statementClosed: bool, connectionClosed: bool)
    ensures result == 0 || result == 1
    ensures result == 1 <==>
      IsValidDatabaseName(name) && connect.Completes? && createStatement.Completes? && executeUpdate.Completes?
    ensures !IsValidDatabaseName(name) ==>
      && messages == [Error(InvalidNameMessage)] && !connectAttempted && executed == None
      && !statementClosed && !connectionClosed
    ensures connectAttempted <==> IsValidDatabaseName(name)
    ensures executed.Some? <==> IsValidDatabaseName(name) && connect.Completes? && createStatement.Completes?
    ensures executed.Some? ==> executed.value == CreateDatabaseSql(name)
    ensures connectionClosed <==> connectAttempted && connect.Completes?
    ensures statementClosed <==> executed.Some?
    ensures result == 1 ==>
      messages == [Feedback(ConnectingMessage, false), Feedback(ConnectedMessage(name), false), Feedback(CreatedMessage(name), true)]
    ensures IsValidDatabaseName(name) && result == 0 ==>
      && |messages| >= 2 && messages[0] == Feedback(ConnectingMessage, false)
      && messages[|messages| - 1] ==
           (if !connect.Completes? then FailureMessage(connect)
            else if !createStatement.Completes? then FailureMessage(createStatement)
            else FailureMessage(executeUpdate))
  {
    executed := None;
    statementClosed, connectionClosed := false, false;
    if !IsValidDatabaseName(name) {
      messages := [Error(InvalidNameMessage)];
      connectAttempted := false;
      return 0, messages, executed, connectAttempted, statementClosed, connectionClosed;
    }
    connectAttempted := true;
    var conn := false;
    var stmt := false;
    messages := [Feedback(ConnectingMessage, false)];
    // try
    if !connect.Completes? {
      messages := messages + [FailureMessage(connect)];
      result := 0;
    } else {
      conn := true;
      messages := messages + [Feedback(ConnectedMessage(name), false)];
      if !createStatement.Completes? {
        messages := messages + [FailureMessage(createStatement)];
        result := 0;
      } else {
        stmt := true;
        var sql := "CREATE DATABASE `" + name + "`";
        executed := Some(sql);
        if !executeUpdate.Completes? {
          messages := messages + [FailureMessage(executeUpdate)];
          result := 0;
        } else {
          messages := messages + [Feedback(CreatedMessage(name), true)];
          result := 1;
        }
      }
    }
    // finally
    if stmt {
      statementClosed := true;
    }
    if conn {
      connectionClosed := true;
    }
  }
}
