/** Which session a transaction's statements run on, and which database is selected there. */
module MySqlSessions {
  import opened Statuses
  import opened MySqlSource

  /** No transaction has statements on two sessions. */
  predicate Whole(log: seq<Entry>) {
    forall a, b | a in log && b in log && a.txn.Some? && a.txn == b.txn :: a.session == b.session
  }

  /** When connecting succeeded, the session's database is the one that `USE name` selects. */
  predicate Selected(g: Grammar, c: Client) {
    c.ready ==> c.session.Some? && c.session.value in c.server.current && c.name != "" &&
                c.server.current[c.session.value] == g("USE " + c.name)
  }

  predicate Logged(c: Client) {
    && Whole(c.server.log)
    && (forall a | a in c.server.log && a.txn.Some? :: a.txn.value < c.server.txns)
    && (forall a | a in c.server.log :: a.session < c.server.sessions)
    && (c.session.Some? ==> c.session.value < c.server.sessions)
  }

  predicate Sound(g: Grammar, c: Client) {
    Logged(c) && (c.name == "" || IsName(c.name)) && Selected(g, c)
  }

  /** The statements sent so far for `txn` went to the present session. */
  predicate Here(c: Client, txn: Option<int>) {
    forall a | a in c.server.log && a.txn == txn :: c.session == Some(a.session)
  }

  ghost predicate Inv(g: Grammar, c: Client) {
    && Sound(g, c)
    && (c.open && !c.crashed ==> c.connected && c.session.Some? && Here(c, Current(c)))
  }

  /** The client notices every change of database, and can repeat it. */
  predicate Agrees(g: Grammar, sql: string) {
    match UseTarget(sql)
    case None => g(sql).None?
    case Some(name) => g(sql).Some? && g("USE " + name) == g(sql)
  }

  /** `USE name` is understood by the server. */
  ghost predicate Understands(g: Grammar) {
    forall name | IsName(name) :: g("USE " + name).Some?
  }

  lemma OwnUseAgrees(g: Grammar, name: string)
    requires Understands(g) && IsName(name)
    ensures Agrees(g, "USE " + name) && UseTarget("USE " + name) == Some(name)
  {
    UseRoundTrip(name);
  }

  lemma TargetIsName(sql: string)
    ensures UseTarget(sql).Some? ==> IsName(UseTarget(sql).value)
  {
    TokensAreNames(sql);
  }

  lemma SendLogs(g: Grammar, c: Client, q: Query, txn: Option<int>)
    requires Logged(c) && (txn.Some? ==> txn.value < c.server.txns && Here(c, txn))
    ensures var c' := Send(g, c, q, txn).0;
            && Logged(c') && c'.session == c.session && c'.server.txns == c.server.txns
            && (txn.Some? ==> Here(c', txn))
            && (forall a | a in c'.server.log :: a in c.server.log || a.txn == txn)
  {
    hide UseTarget;
    var c' := Send(g, c, q, txn).0;
    assert forall a | a in c'.server.log :: a in c.server.log || (a.txn == txn && c.session == Some(a.session));
  }

  lemma SendKeeps(g: Grammar, c: Client, q: Query, txn: Option<int>)
    requires Sound(g, c) && (q.Text? ==> Agrees(g, q.sql))
    requires txn.Some? ==> txn.value < c.server.txns && Here(c, txn)
    ensures var (c', reply) := Send(g, c, q, txn);
            && Sound(g, c') && c'.session == c.session && c'.server.txns == c.server.txns
            && (txn.Some? ==> Here(c', txn))
            && (forall a | a in c'.server.log :: a in c.server.log || a.txn == txn)
  {
    hide UseTarget, IsName, Logged;
    if q.Text? { TargetIsName(q.sql); }
    SendLogs(g, c, q, txn);
  }

  /** Only entries without a transaction are added, and the numbers stay. */
  predicate Beside(c: Client, c': Client) {
    c'.server.txns == c.server.txns && forall a | a in c'.server.log :: a in c.server.log || a.txn.None?
  }

  lemma ConnectKeeps(g: Grammar, k: Config, c: Client)
    requires Sound(g, c) && Understands(g) && IsName(k.database)
    ensures var (c', status) := ConnectImpl(g, k, c);
            Sound(g, c') && Beside(c, c') && (status == Ok ==> c'.ready)
  {
    var c1 := Opened(c);
    assert Sound(g, c1) && Beside(c, c1);
    if c1.session.Some? {
      hide Sound, Opened;
      PreparedKeeps(g, k, c1);
    }
  }

  lemma PreparedKeeps(g: Grammar, k: Config, c: Client)
    requires Sound(g, c) && Understands(g) && IsName(k.database)
    ensures var (c', status) := Prepared(g, k, c);
            Sound(g, c') && Beside(c, c') && (status == Ok ==> c'.ready)
  {
    hide Send, Sound, Agrees, UseTarget;
    SendKeeps(g, c, CheckEngine, None);
    var (c1, checked) := RunOther(g, c, CheckEngine, None);
    SendKeeps(g, c1, CreateDatabase(k.database), None);
    var c2 := if k.createsDatabase then RunOther(g, c1, CreateDatabase(k.database), None).0 else c1;
    var c3 := c2.(name := if c2.name == "" then k.database else c2.name);
    NameKept(g, k, c2);
    OwnUseAgrees(g, c3.name);
    SendKeeps(g, c3, Text("USE " + c3.name), None);
    UseSelects(g, c3);
  }

  lemma NameKept(g: Grammar, k: Config, c: Client)
    requires Sound(g, c) && IsName(k.database)
    ensures var c' := c.(name := if c.name == "" then k.database else c.name);
            Sound(g, c') && IsName(c'.name)
  {
  }

  /** A successful `USE name` selects the database of that name. */
  lemma UseSelects(g: Grammar, c: Client)
    requires Sound(g, c) && Understands(g) && IsName(c.name)
    ensures var (c', status) := RunOther(g, c, Text("USE " + c.name), None);
            Sound(g, c') ==> Sound(g, c'.(ready := status == Ok))
  {
    UseRoundTrip(c.name);
    hide UseTarget;
    assert g("USE " + c.name).Some?;
  }

  /** Starting a transaction leaves all of it, which is one statement at most, on the session in use. */
  lemma StartKeeps(g: Grammar, k: Config, c: Client, txn: int)
    requires Sound(g, c) && Understands(g) && IsName(k.database) && txn < c.server.txns
    requires forall a | a in c.server.log :: a.txn != Some(txn)
    ensures var (c', status) := RunQuery(g, k, c, StartTransaction, Some(txn));
            && Sound(g, c') && Here(c', Some(txn)) && c'.server.txns == c.server.txns
            && (status == Ok ==> c'.session.Some?)
    decreases |c.replies|, if c.alive then 0 else 1
  {
    hide Sound, Opened, ConnectImpl, StatusOf;
    SendKeeps(g, c, StartTransaction, Some(txn));
    var (c', reply) := Send(g, c, StartTransaction, Some(txn));
    if !c'.crashed && reply == Error(GONE_AWAY) {
      var closed := CloseImpl(c');
      assert Sound(g, closed) by { Closing(g, c'); }
      ConnectKeeps(g, k, closed);
      ConnectConsumes(g, k, closed);
      var (c'', status) := ConnectImpl(g, k, closed);
      if status == Ok { StartKeeps(g, k, c'', txn); }
    }
  }

  lemma Closing(g: Grammar, c: Client)
    requires Sound(g, c)
    ensures Sound(g, CloseImpl(c))
  {
  }

  /** Close is not called inside a transaction, and no text starts one or changes the database unnoticed. */
  predicate Disciplined(g: Grammar, c: Client, op: Op) {
    && (op.Close? ==> !c.open)
    && (op.Execute? ==> op.sql != "START TRANSACTION" && Agrees(g, op.sql))
  }

  lemma OtherKeeps(g: Grammar, k: Config, c: Client, q: Query)
    requires Inv(g, c) && !c.crashed && c.connected && c.open && !IsStart(q) && (q.Text? ==> Agrees(g, q.sql)) && c.server.txns > 0
    ensures var (c', status) := RunQuery(g, k, c, q, Current(c));
            Inv(g, c') && Inv(g, c'.(open := status != Ok)) && c'.server.txns == c.server.txns
  {
    hide Agrees, Sound;
    SendKeeps(g, c, q, Current(c));
    var (c', status) := RunQuery(g, k, c, q, Current(c));
    assert c' == Send(g, c, q, Current(c)).0;
    assert c'.connected == c.connected && c'.open == c.open;
    OpenIrrelevant(g, c', status != Ok);
  }

  lemma OpenIrrelevant(g: Grammar, c: Client, open: bool)
    requires Sound(g, c)
    ensures Sound(g, c.(open := open)) && forall b :: Sound(g, c.(connected := b))
  {
  }

  lemma StepKeeps(g: Grammar, k: Config, c: Client, op: Op)
    requires Inv(g, c) && Understands(g) && IsName(k.database) && Disciplined(g, c, op) && c.server.txns >= 0
    requires c.open ==> c.server.txns > 0
    ensures var c' := Step(g, k, c, op).0;
            Inv(g, c') && c'.server.txns >= 0 && (c'.open ==> c'.server.txns > 0)
  {
    hide Sound, Agrees, ConnectImpl, RunQuery;
    if !c.crashed {
      match op {
        case Connect =>
          if !c.connected {
            ConnectKeeps(g, k, c);
            ConnectOpen(g, k, c);
            var (c', status) := ConnectImpl(g, k, c);
            OpenIrrelevant(g, c', c'.open);
          }
        case Close => if c.connected { Closing(g, c); OpenIrrelevant(g, CloseImpl(c), false); }
        case Begin =>
          if c.connected && !c.open {
            var c0 := c.(server := c.server.(txns := c.server.txns + 1));
            NewTransaction(g, c);
            StartKeeps(g, k, c0, c.server.txns);
            StartConnected(g, k, c0, Some(c.server.txns));
            var (c', status) := RunQuery(g, k, c0, StartTransaction, Current(c0));
            OpenIrrelevant(g, c', status == Ok);
          }
        case Execute(sql) => if c.connected && c.open { OtherKeeps(g, k, c, Text(sql)); }
        case Commit => if c.connected && c.open { OtherKeeps(g, k, c, CommitQuery); }
        case Rollback => if c.connected && c.open { OtherKeeps(g, k, c, RollbackQuery); }
      }
    }
  }

  lemma OtherFlags(g: Grammar, c: Client, q: Query, txn: Option<int>)
    ensures var c' := RunOther(g, c, q, txn).0;
            c'.open == c.open && c'.connected == c.connected
  {
    hide UseTarget;
  }

  lemma ConnectOpen(g: Grammar, k: Config, c: Client)
    ensures ConnectImpl(g, k, c).0.open == c.open && ConnectImpl(g, k, c).0.connected == c.connected
  {
    hide RunOther;
    var c1 := Opened(c);
    OtherFlags(g, c1, CheckEngine, None);
    var c2 := RunOther(g, c1, CheckEngine, None).0;
    OtherFlags(g, c2, CreateDatabase(k.database), None);
    var c3 := if k.createsDatabase then RunOther(g, c2, CreateDatabase(k.database), None).0 else c2;
    var c4 := c3.(name := if c3.name == "" then k.database else c3.name);
    OtherFlags(g, c4, Text("USE " + c4.name), None);
  }

  lemma StartConnected(g: Grammar, k: Config, c: Client, txn: Option<int>)
    ensures RunQuery(g, k, c, StartTransaction, txn).0.connected == c.connected
    decreases |c.replies|, if c.alive then 0 else 1
  {
    hide ConnectImpl, UseTarget;
    var (c', reply) := Send(g, c, StartTransaction, txn);
    if !c'.crashed && reply == Error(GONE_AWAY) {
      ConnectConsumes(g, k, CloseImpl(c'));
      ConnectOpen(g, k, CloseImpl(c'));
      var (c'', status) := ConnectImpl(g, k, CloseImpl(c'));
      if status == Ok { StartConnected(g, k, c'', txn); }
    }
  }

  lemma NewTransaction(g: Grammar, c: Client)
    requires Sound(g, c)
    ensures Sound(g, c.(server := c.server.(txns := c.server.txns + 1)))
    ensures forall a | a in c.server.log :: a.txn != Some(c.server.txns)
  {
  }

  ghost predicate DisciplinedRun(g: Grammar, k: Config, c: Client, ops: seq<Op>)
    decreases |ops|
  {
    ops == [] || (Disciplined(g, c, ops[0]) && DisciplinedRun(g, k, Step(g, k, c, ops[0]).0, ops[1..]))
  }

  lemma RunKeeps(g: Grammar, k: Config, c: Client, ops: seq<Op>)
    requires Inv(g, c) && Understands(g) && IsName(k.database) && DisciplinedRun(g, k, c, ops) && c.server.txns >= 0
    requires c.open ==> c.server.txns > 0
    ensures Inv(g, Run(g, k, c, ops))
    decreases |ops|
  {
    hide Inv, Step, Disciplined;
    if ops != [] {
      StepKeeps(g, k, c, ops[0]);
      RunKeeps(g, k, Step(g, k, c, ops[0]).0, ops[1..]);
    }
  }

  /**
   Whatever the server answers and whenever it closes sessions, no transaction is spread over two
   sessions, and a session to which the client has connected has the database last selected.
   */
  lemma TransactionsAreWhole(g: Grammar, k: Config, replies: seq<Reply>, ops: seq<Op>)
    requires Understands(g) && IsName(k.database) && DisciplinedRun(g, k, Initial(replies), ops)
    ensures var c := Run(g, k, Initial(replies), ops);
            Whole(c.server.log) && Selected(g, c)
  {
    RunKeeps(g, k, Initial(replies), ops);
  }

  /** A lost session is not replaced inside a transaction: until Close, everything fails and nothing changes. */
  lemma {:induction false} LostSession(g: Grammar, k: Config, c: Client, ops: seq<Op>)
    requires c.connected && c.open && c.session.Some? && !c.alive && !c.crashed
    requires forall op | op in ops :: !op.Close? && op != Execute("START TRANSACTION")
    ensures Run(g, k, c, ops) == c && forall op | op in ops :: Step(g, k, c, op).1 != Ok
    decreases |ops|
  {
    if ops != [] {
      assert ops[0] in ops;
      assert Step(g, k, c, ops[0]).0 == c;
      LostSession(g, k, c, ops[1..]);
      forall op | op in ops ensures Step(g, k, c, op).1 != Ok { assert op == ops[0] || op in ops[1..]; }
    }
  }

  /** Close inside a transaction is what breaks it: after reconnecting the rest runs on another session. */
  lemma CloseSpreads(g: Grammar, k: Config, c: Client, sql: string)
    requires Inv(g, c) && !c.crashed && c.connected && c.open && c.replies == [] && k.transactional
    requires exists a :: a in c.server.log && a.txn == Current(c)
    ensures !Whole(Run(g, k, c, [Close, Connect, Execute(sql)]).server.log)
  {
    hide UseTarget, ConnectImpl;
    var a :| a in c.server.log && a.txn == Current(c);
    var ops := [Close, Connect, Execute(sql)];
    var c1 := CloseImpl(c).(connected := false);
    Reconnected(g, k, c1);
    var c2 := ConnectImpl(g, k, c1).0.(connected := true);
    var c3 := Send(g, c2, Text(sql), Current(c)).0;
    var b := Entry(c.server.sessions, Text(sql), Current(c));
    assert b in c3.server.log && a in c3.server.log && a.session != b.session;
    assert Step(g, k, c2, ops[2]).0 == c3;
    hide Send, Step, RunQuery;
    RunThree(g, k, c, ops, c1, c2, c3);
  }

  lemma RunThree(g: Grammar, k: Config, c: Client, ops: seq<Op>, c1: Client, c2: Client, c3: Client)
    requires |ops| == 3 && Step(g, k, c, ops[0]).0 == c1 && Step(g, k, c1, ops[1]).0 == c2 && Step(g, k, c2, ops[2]).0 == c3
    ensures Run(g, k, c, ops) == c3
  {
    hide Step;
    assert Run(g, k, c2, ops[1..][1..]) == c3;
    assert Run(g, k, c1, ops[1..]) == Run(g, k, c2, ops[1..][1..]);
  }

  /** Without errors connecting opens the next session and keeps the log. */
  lemma Reconnected(g: Grammar, k: Config, c: Client)
    requires c.replies == [] && k.transactional && !c.crashed
    ensures var (c', status) := ConnectImpl(g, k, c);
            && status == Ok && c'.session == Some(c.server.sessions) && c'.alive && c'.replies == [] && !c'.crashed
            && c'.open == c.open && c'.server.txns == c.server.txns
            && forall a | a in c.server.log :: a in c'.server.log
  {
    hide UseTarget;
  }
}
