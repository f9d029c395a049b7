/**
 The MySQL backend of mysql_metadata_source.cc under the flags of metadata_source.cc: queries run on
 server sessions, and a session that the server has closed is replaced when a transaction starts.
 */
module MySqlSource {
  import opened Statuses
  import opened SqlText

  /******* USE queries *******/

  /** The number of leading characters that are not spaces. */
  function WordLength(s: string): (n: nat)
    ensures n <= |s| && (n < |s| ==> s[n] == ' ') && forall i | 0 <= i < n :: s[i] != ' '
  {
    if s == "" || s[0] == ' ' then 0 else 1 + WordLength(s[1..])
  }

  /** Split at spaces, without empty tokens. */
  function Tokens(s: string): seq<string>
    decreases |s|
  {
    if s == "" then [] else
    var n := WordLength(s);
    if n == 0 then Tokens(s[1..]) else [s[..n]] + Tokens(s[n..])
  }

  predicate IsAsciiSpace(c: char) {
    c == ' ' || '\t' <= c <= '\r'
  }

  function StripLeft(s: string): string {
    if s != "" && IsAsciiSpace(s[0]) then StripLeft(s[1..]) else s
  }

  function StripRight(s: string): string {
    if s != "" && IsAsciiSpace(s[|s| - 1]) then StripRight(s[..|s| - 1]) else s
  }

  /** MaybeUpdateDatabaseNameFromQuery: the database named by a two-token USE query. */
  function UseTarget(query: string): Option<string> {
    var tokens := Tokens(query);
    if |tokens| == 2 && ToLower(StripRight(StripLeft(tokens[0]))) == "use" then Some(tokens[1]) else None
  }

  predicate IsName(s: string) {
    s != "" && ' ' !in s
  }

  lemma OneToken(s: string)
    requires IsName(s)
    ensures Tokens(s) == [s]
  {
    assert WordLength(s) == |s|;
    assert s[|s|..] == "" && s[..|s|] == s;
  }

  lemma TokensAreNames(s: string)
    ensures forall t | t in Tokens(s) :: IsName(t)
    decreases |s|
  {
    if s != "" {
      var n := WordLength(s);
      TokensAreNames(if n == 0 then s[1..] else s[n..]);
    }
  }

  /** The query that ConnectImpl sends selects the name it was built from. */
  lemma UseRoundTrip(name: string)
    requires IsName(name)
    ensures UseTarget("USE " + name) == Some(name)
  {
    var s := "USE " + name;
    assert s[3] == ' ' && WordLength(s) == 3 by {
      assert s[0] == 'U' && s[1..][0] == 'S' && s[1..][1..][0] == 'E' && s[1..][1..][1..][0] == ' ';
    }
    assert s[..3] == "USE" && s[3..] == " " + name;
    assert WordLength(s[3..]) == 0 && s[3..][1..] == name;
    OneToken(name);
    assert Tokens(s) == ["USE"] + Tokens(s[3..]) && Tokens(s[3..]) == [name];
    assert StripLeft("USE") == "USE" && StripRight("USE") == "USE";
    assert ToLower("USE") == "use";
  }

  /******* Server and client *******/

  /** What the library answers: success, success without the expected result, or an error number. */
  datatype Reply = Done | NullResult | Error(code: int)

  const GONE_AWAY := 2006
  const DEADLOCK := 1213
  const LOCK_TIMEOUT := 1205

  datatype Query = StartTransaction | CommitQuery | RollbackQuery | CheckEngine | CreateDatabase(name: string) | Text(sql: string)

  /** A query that the server carried out, and the transaction on whose behalf it was sent. */
  datatype Entry = Entry(session: int, query: Query, txn: Option<int>)

  /** `sessions` and `txns` number the sessions and transactions; `current` is each session's database. */
  datatype Server = Server(sessions: int, txns: int, current: map<int, Option<string>>, log: seq<Entry>)

  /** Which database a text selects, by the server's grammar. */
  type Grammar = string -> Option<string>

  datatype Config = Config(database: string, createsDatabase: bool, transactional: bool)

  /**
   `session` is absent when the handle is null, and `alive` until the server closes it. The `replies`
   are those still to come; after them all is well. `crashed` follows a query on a null handle.
   `ready` says that the last attempt to connect succeeded.
   */
  datatype Client = Client(
    connected: bool, open: bool, session: Option<int>, alive: bool, ready: bool, name: string, replies: seq<Reply>,
    crashed: bool, server: Server)

  function NextReply(c: Client): Reply {
    if c.replies == [] then Done else c.replies[0]
  }

  function Rest(c: Client): seq<Reply> {
    if c.replies == [] then [] else c.replies[1..]
  }

  predicate IsStart(q: Query) {
    q.StartTransaction? || q == Text("START TRANSACTION")
  }

  /** mysql_query: on a closed session it fails again and again. */
  function Send(g: Grammar, c: Client, q: Query, txn: Option<int>): (Client, Reply) {
    if c.session.None? then (c.(crashed := true), Done)
    else if !c.alive then (c, Error(GONE_AWAY))
    else
      var reply, c' := NextReply(c), c.(replies := Rest(c));
      if reply.Error? then (c'.(alive := reply.code != GONE_AWAY), reply) else
      var id := c.session.value;
      var selected := if q.Text? then g(q.sql) else None;
      var used := if q.Text? then UseTarget(q.sql) else None;
      (c'.(server := c.server.(log := c.server.log + [Entry(id, q, txn)],
                               current := if selected.Some? then c.server.current[id := selected] else c.server.current),
           name := if used.Some? then used.value else c.name), reply)
  }

  function StatusOf(reply: Reply): Status {
    match reply
    case Done => Ok
    case NullResult => Internal
    case Error(code) => if code == DEADLOCK || code == LOCK_TIMEOUT then Aborted else Internal
  }

  /** RunQuery for queries that are not replayed. */
  function RunOther(g: Grammar, c: Client, q: Query, txn: Option<int>): (Client, Status) {
    var (c', reply) := Send(g, c, q, txn);
    (c', if c'.crashed then Internal else StatusOf(reply))
  }

  /** A new session, or a null handle. */
  function Opened(c: Client): Client {
    var id := c.server.sessions;
    if NextReply(c) != Done then c.(session := None, alive := false, ready := false, replies := Rest(c))
    else c.(session := Some(id), alive := true, ready := false, replies := Rest(c),
            server := c.server.(sessions := id + 1, current := c.server.current[id := None]))
  }

  /** The tail of ConnectImpl, on a new session. */
  function Prepared(g: Grammar, k: Config, c: Client): (Client, Status) {
    var (c1, checked) := RunOther(g, c, CheckEngine, None);
    if checked != Ok then (c1, checked)
    else if !k.transactional then (c1, Internal)
    else
      var (c2, created) := if k.createsDatabase then RunOther(g, c1, CreateDatabase(k.database), None) else (c1, Ok);
      if created != Ok then (c2, created) else
      var c3 := c2.(name := if c2.name == "" then k.database else c2.name);
      var (c4, used) := RunOther(g, c3, Text("USE " + c3.name), None);
      (c4.(ready := used == Ok), used)
  }

  function ConnectImpl(g: Grammar, k: Config, c: Client): (Client, Status) {
    var c1 := Opened(c);
    if c1.session.None? then (c1, Internal) else Prepared(g, k, c1)
  }

  function CloseImpl(c: Client): Client {
    c.(session := None, alive := false, ready := false)
  }

  lemma OtherConsumes(g: Grammar, c: Client, q: Query, txn: Option<int>)
    ensures var (c', status) := RunOther(g, c, q, txn);
            && |c'.replies| <= |c.replies| && c'.session == c.session
            && (status == Ok ==> c'.alive == c.alive && c'.session.Some? && !c'.crashed)
  {
    hide UseTarget;
  }

  lemma ConnectConsumes(g: Grammar, k: Config, c: Client)
    ensures var (c', status) := ConnectImpl(g, k, c);
            |c'.replies| <= |c.replies| && (status == Ok ==> c'.alive && c'.session.Some?)
  {
    hide RunOther;
    var c1 := Opened(c);
    if c1.session.Some? {
      OtherConsumes(g, c1, CheckEngine, None);
      var (c2, checked) := RunOther(g, c1, CheckEngine, None);
      OtherConsumes(g, c2, CreateDatabase(k.database), None);
      var c3 := if k.createsDatabase then RunOther(g, c2, CreateDatabase(k.database), None).0 else c2;
      var c4 := c3.(name := if c3.name == "" then k.database else c3.name);
      OtherConsumes(g, c4, Text("USE " + c4.name), None);
    }
  }

  /** RunQuery; a lost session is replaced only to start a transaction. It ends because errors do. */
  function RunQuery(g: Grammar, k: Config, c: Client, q: Query, txn: Option<int>): (Client, Status)
    decreases |c.replies|, if c.alive then 0 else 1
  {
    var (c', reply) := Send(g, c, q, txn);
    if !c'.crashed && reply == Error(GONE_AWAY) && IsStart(q) then
      ConnectConsumes(g, k, CloseImpl(c'));
      var (c'', status) := ConnectImpl(g, k, CloseImpl(c'));
      if status != Ok then (c'', status) else RunQuery(g, k, c'', q, txn)
    else (c', if c'.crashed then Internal else StatusOf(reply))
  }

  /******* The interface *******/

  datatype Op = Connect | Close | Begin | Execute(sql: string) | Commit | Rollback

  function Current(c: Client): Option<int> {
    Some(c.server.txns - 1)
  }

  function Step(g: Grammar, k: Config, c: Client, op: Op): (Client, Status) {
    if c.crashed then (c, Internal) else
    match op
    case Connect =>
      if c.connected then (c, FailedPrecondition) else
      var (c', status) := ConnectImpl(g, k, c);
      (c'.(connected := status == Ok), status)
    case Close =>
      if !c.connected then (c, FailedPrecondition) else (CloseImpl(c).(connected := false), Ok)
    case Begin =>
      if !c.connected || c.open then (c, FailedPrecondition) else
      var c0 := c.(server := c.server.(txns := c.server.txns + 1));
      var (c', status) := RunQuery(g, k, c0, StartTransaction, Current(c0));
      (c'.(open := status == Ok), status)
    case Execute(sql) =>
      if !c.connected || !c.open then (c, FailedPrecondition) else RunQuery(g, k, c, Text(sql), Current(c))
    case Commit =>
      if !c.connected || !c.open then (c, FailedPrecondition) else
      var (c', status) := RunQuery(g, k, c, CommitQuery, Current(c));
      (c'.(open := status != Ok), status)
    case Rollback =>
      if !c.connected || !c.open then (c, FailedPrecondition) else
      var (c', status) := RunQuery(g, k, c, RollbackQuery, Current(c));
      (c'.(open := status != Ok), status)
  }

  function Run(g: Grammar, k: Config, c: Client, ops: seq<Op>): Client
    decreases |ops|
  {
    if ops == [] then c else Run(g, k, Step(g, k, c, ops[0]).0, ops[1..])
  }

  function Initial(replies: seq<Reply>): Client {
    Client(false, false, None, false, false, "", replies, false, Server(0, 0, map[], []))
  }

  /******* The source itself *******/

  class Source {
    const grammar: Grammar
    const config: Config
    var client: Client

    constructor (g: Grammar, k: Config, replies: seq<Reply>)
      ensures grammar == g && config == k && client == Initial(replies)
    {
      grammar, config, client := g, k, Initial(replies);
    }

    method Query(q: Query, txn: Option<int>) returns (reply: Reply)
      modifies this
      ensures (client, reply) == Send(grammar, old(client), q, txn)
    {
      var sent := Send(grammar, client, q, txn);
      client := sent.0;
      return sent.1;
    }

    method DoConnect() returns (status: Status)
      modifies this
      ensures (client, status) == ConnectImpl(grammar, config, old(client))
    {
      client := Opened(client);
      if client.session.None? {
        return Internal;
      }
      hide Opened, Send, StatusOf;
      var reply := Query(CheckEngine, None);
      status := if client.crashed then Internal else StatusOf(reply);
      if status != Ok {
        return;
      }
      if !config.transactional {
        return Internal;
      }
      if config.createsDatabase {
        reply := Query(CreateDatabase(config.database), None);
        status := if client.crashed then Internal else StatusOf(reply);
        if status != Ok {
          return;
        }
      }
      if client.name == "" {
        client := client.(name := config.database);
      }
      reply := Query(Text("USE " + client.name), None);
      status := if client.crashed then Internal else StatusOf(reply);
      client := client.(ready := status == Ok);
    }

    /** RunQuery calls itself after it has reconnected. */
    method DoRunQuery(q: Query, txn: Option<int>) returns (status: Status)
      modifies this
      ensures (client, status) == RunQuery(grammar, config, old(client), q, txn)
      decreases |client.replies|, if client.alive then 0 else 1
    {
      var reply := Query(q, txn);
      if client.crashed {
        return Internal;
      }
      if reply == Error(GONE_AWAY) && IsStart(q) {
        client := CloseImpl(client);
        ConnectConsumes(grammar, config, client);
        hide ConnectImpl, Opened;
        status := DoConnect();
        if status != Ok {
          return;
        }
        status := DoRunQuery(q, txn);
        return;
      }
      return StatusOf(reply);
    }

    method Perform(op: Op) returns (status: Status)
      modifies this
      ensures (client, status) == Step(grammar, config, old(client), op)
    {
      hide RunQuery, ConnectImpl;
      if client.crashed {
        return Internal;
      }
      match op {
        case Connect =>
          if client.connected {
            return FailedPrecondition;
          }
          status := DoConnect();
          client := client.(connected := status == Ok);
        case Close =>
          if !client.connected {
            return FailedPrecondition;
          }
          client := CloseImpl(client).(connected := false);
          return Ok;
        case Begin =>
          if !client.connected || client.open {
            return FailedPrecondition;
          }
          client := client.(server := client.server.(txns := client.server.txns + 1));
          status := DoRunQuery(StartTransaction, Current(client));
          client := client.(open := status == Ok);
        case Execute(sql) =>
          if !client.connected || !client.open {
            return FailedPrecondition;
          }
          status := DoRunQuery(Text(sql), Current(client));
        case Commit =>
          if !client.connected || !client.open {
            return FailedPrecondition;
          }
          status := DoRunQuery(CommitQuery, Current(client));
          client := client.(open := status != Ok);
        case Rollback =>
          if !client.connected || !client.open {
            return FailedPrecondition;
          }
          status := DoRunQuery(RollbackQuery, Current(client));
          client := client.(open := status != Ok);
      }
    }
  }
}
