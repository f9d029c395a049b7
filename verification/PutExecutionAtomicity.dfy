/**
 PutExecution in its transaction: whole or nothing as long as the database does not end the transaction
 at the insertion of an event, and what happens when it does.
 */
module PutExecutionAtomicity {
  import opened Statuses
  import opened GraphStore
  import opened PutExecution
  import opened PutExecutionEffect
  import T = Transactions

  /******* A transaction ends only at an event *******/

  lemma PairEnds(s: Session, pair: Pair, answer: Answer)
    ensures UpsertPair(s, pair, answer).session.ended ==> s.ended || Ends(pair, answer)
  {
    hide UpsertNode;
  }

  lemma BoundEnds(given: NodeGiven, executionId: int, pair: Pair, answer: Answer)
    ensures var bound := BindEvent(given, executionId, pair);
            bound.Success? ==> (Ends(bound.value, answer) <==> Ends(pair, answer))
  {
  }

  lemma {:induction false} PairsEnd(s: Session, given: NodeGiven, executionId: int, pairs: seq<Pair>, answers: seq<Answer>)
    requires |answers| == |pairs|
    ensures UpsertPairs(s, given, executionId, pairs, answers).session.ended ==> s.ended || SomeEnds(pairs, answers)
    decreases |pairs|
  {
    hide UpsertPair, BindEvent, Ends, SomeEnds;
    if pairs != [] {
      SomeEndsCons(pairs, answers);
      BoundEnds(given, executionId, pairs[0], answers[0]);
      var bound := BindEvent(given, executionId, pairs[0]);
      if bound.Success? {
        PairEnds(s, bound.value, answers[0]);
        var one := UpsertPair(s, bound.value, answers[0]);
        if one.result.Success? { PairsEnd(one.session, given, executionId, pairs[1..], answers[1..]); }
      }
    }
  }

  lemma PutEnds(db: Db, q: Request, answers: seq<Answer>)
    requires |answers| == |q.pairs| && Integrity(db)
    ensures Put(Begun(db), q, answers).session.ended ==> SomeEnds(q.pairs, answers)
  {
    hide UpsertExecution, UpsertPairs, LinkContexts, Integrity, Spans, SomeEnds;
    BegunSound(db);
    if q.execution.Some? {
      ExecutionFollows(Begun(db), q.execution.value);
      var one := UpsertExecution(Begun(db), q.execution.value);
      if one.result.Success? {
        var id := one.result.value;
        PairsEnd(one.session, q.execution.value, id, q.pairs, answers);
        PairsFollow(one.session, q.execution.value, id, q.pairs, answers);
        var two := UpsertPairs(one.session, q.execution.value, id, q.pairs, answers);
        if two.result.Success? { LinksEffect(two.session, q.contexts, q.reuseContext, id, two.result.value); }
      }
    }
  }

  /******* Whole or nothing *******/

  /** The body succeeds and the COMMIT takes effect. */
  predicate Through(s: T.State<Db>, q: Request, answers: seq<Answer>, f: T.Faults)
    requires |answers| == |q.pairs|
  {
    s.connected && !s.open && f.begin == Ok && Put(Begun(s.committed), q, answers).result.Success? && !f.commit.Refused?
  }

  /**
   Integrity is kept and nothing is deleted, whatever the database answers. Unless it ends the transaction
   at an event, PutExecution has its effect or none, and reports which, unless the answer to COMMIT is lost.
   */
  lemma PutIsAtomic(s: T.State<Db>, q: Request, answers: seq<Answer>, f: T.Faults)
    requires |answers| == |q.pairs| && Integrity(s.committed)
    ensures var (s', status) := Executed(s, q, answers, f);
            && Integrity(s'.committed) && Spans(s.committed, s'.committed)
            && (status == Ok <==> Through(s, q, answers, f) && f.commit.Committed?)
            && (!SomeEnds(q.pairs, answers) ==>
                  s'.committed == if Through(s, q, answers, f) then Put(Begun(s.committed), q, answers).session.db else s.committed)
  {
    hide Put, Integrity, SomeEnds, Grows;
    BegunSound(s.committed);
    PutFollows(Begun(s.committed), q, answers);
    PutEnds(s.committed, q, answers);
  }

  /**
   On OK the execution is stored as given if and only if no insertion of an event made the database end the
   transaction, or it was stored so before. A new execution is found under the id returned if and only if none did.
   */
  lemma ExecutionStoredExactly(s: T.State<Db>, q: Request, answers: seq<Answer>, f: T.Faults)
    requires |answers| == |q.pairs| && Integrity(s.committed) && Executed(s, q, answers, f).1 == Ok
    ensures var s', did := Executed(s, q, answers, f).0, Put(Begun(s.committed), q, answers);
            && did.result.Success? && q.execution.Some?
            && var upserted := UpsertExecution(Begun(s.committed), q.execution.value).session.db.executions;
            && (s'.committed.executions == upserted <==> !SomeEnds(q.pairs, answers) || upserted == s.committed.executions)
            && (q.execution.value.id.None? ==>
                  (did.result.value.executionId in s'.committed.executions.rows <==> !SomeEnds(q.pairs, answers)))
  {
    hide Put, Integrity, SomeEnds, UpsertExecution, Spans;
    PutEffect(s.committed, q, answers);
  }

  /** A new execution whose transaction was ended cannot be linked to a context: the request fails. */
  lemma LostExecutionFails(db: Db, q: Request, answers: seq<Answer>)
    requires |answers| == |q.pairs| && Integrity(db) && SomeEnds(q.pairs, answers) && q.contexts != []
    requires q.execution.Some? && q.execution.value.id.None?
    ensures Put(Begun(db), q, answers).result.Failure?
  {
    hide Put, SomeEnds, UpsertExecution, ValidTable;
    if Put(Begun(db), q, answers).result.Success? {
      PutEffect(db, q, answers);
      var did := Put(Begun(db), q, answers);
      CrossMember(did.result.value.contextIds, [did.result.value.executionId], did.result.value.contextIds[0], did.result.value.executionId);
    }
  }

  /******* The same request in an unbroken transaction *******/

  /** Every failing insertion undoes only itself. */
  function Tamed(answers: seq<Answer>): (tamed: seq<Answer>)
    ensures |tamed| == |answers| && forall i | 0 <= i < |answers| :: tamed[i] == Tame(answers[i])
  {
    seq(|answers|, i requires 0 <= i < |answers| => Tame(answers[i]))
  }

  function Tame(answer: Answer): Answer {
    if answer.Ended? then Failed else answer
  }

  lemma TamedTail(answers: seq<Answer>)
    requires answers != []
    ensures Tamed(answers)[1..] == Tamed(answers[1..]) && Tamed(answers)[0] == Tame(answers[0])
  {
  }

  lemma TamedEnds(pairs: seq<Pair>, answers: seq<Answer>)
    requires |answers| == |pairs|
    ensures !SomeEnds(pairs, Tamed(answers))
  {
  }

  /** Two connections that see the same database. */
  predicate Alike<T(==)>(a: Did<T>, b: Did<T>) {
    a.result == b.result && a.session.db == b.session.db
  }

  /** After the end of the transaction the pairs are handled as inside one, only that everything is committed at once. */
  lemma PairAlike(s: Session, u: Session, pair: Pair, answer: Answer)
    requires s.ended && s.db == s.committed && !u.ended && u.db == s.db
    ensures Alike(UpsertPair(s, pair, answer), UpsertPair(u, pair, Tame(answer)))
    ensures var s', u' := UpsertPair(s, pair, answer).session, UpsertPair(u, pair, Tame(answer)).session;
            s'.ended && s'.db == s'.committed && !u'.ended
  {
    hide UpsertNode;
  }

  lemma {:induction false} PairsAlike(s: Session, u: Session, given: NodeGiven, executionId: int, pairs: seq<Pair>, answers: seq<Answer>)
    requires |answers| == |pairs| && s.ended && s.db == s.committed && !u.ended && u.db == s.db
    ensures Alike(UpsertPairs(s, given, executionId, pairs, answers), UpsertPairs(u, given, executionId, pairs, Tamed(answers)))
    decreases |pairs|
  {
    hide UpsertPair, BindEvent, Tame;
    if pairs != [] {
      TamedTail(answers);
      var bound := BindEvent(given, executionId, pairs[0]);
      if bound.Success? {
        PairAlike(s, u, bound.value, answers[0]);
        var one, other := UpsertPair(s, bound.value, answers[0]), UpsertPair(u, bound.value, Tame(answers[0]));
        if one.result.Success? { PairsAlike(one.session, other.session, given, executionId, pairs[1..], answers[1..]); }
      }
    }
  }

  lemma {:induction false} AttributeAlike(s: Session, u: Session, contextId: int, artifactIds: seq<int>)
    requires s.db == u.db
    ensures Alike(Attribute(s, contextId, artifactIds), Attribute(u, contextId, artifactIds))
    decreases |artifactIds|
  {
    if artifactIds != [] {
      var one, other := InsertAttribution(s, contextId, artifactIds[0]), InsertAttribution(u, contextId, artifactIds[0]);
      if one.result.Success? { AttributeAlike(one.session, other.session, contextId, artifactIds[1..]); }
    }
  }

  lemma LinkAlike(s: Session, u: Session, g: NodeGiven, reuse: bool, executionId: int, artifactIds: seq<int>)
    requires s.db == u.db
    ensures Alike(LinkContext(s, g, reuse, executionId, artifactIds), LinkContext(u, g, reuse, executionId, artifactIds))
  {
    hide UpsertNode, FindContext, Attribute;
    var one, other := UpsertContext(s, g, reuse), UpsertContext(u, g, reuse);
    assert Alike(one, other);
    if one.result.Success? {
      var id := one.result.value;
      var two, another := InsertAssociation(one.session, id, executionId), InsertAssociation(other.session, id, executionId);
      if two.result.Success? { AttributeAlike(two.session, another.session, id, artifactIds); }
    }
  }

  lemma {:induction false} LinksAlike(s: Session, u: Session, gs: seq<NodeGiven>, reuse: bool, executionId: int, artifactIds: seq<int>)
    requires s.db == u.db
    ensures Alike(LinkContexts(s, gs, reuse, executionId, artifactIds), LinkContexts(u, gs, reuse, executionId, artifactIds))
    decreases |gs|
  {
    hide LinkContext;
    if gs != [] {
      LinkAlike(s, u, gs[0], reuse, executionId, artifactIds);
      var one, other := LinkContext(s, gs[0], reuse, executionId, artifactIds), LinkContext(u, gs[0], reuse, executionId, artifactIds);
      if one.result.Success? { LinksAlike(one.session, other.session, gs[1..], reuse, executionId, artifactIds); }
    }
  }

  /** An answer matters only where there is an event. */
  lemma PairTamed(s: Session, pair: Pair, answer: Answer)
    requires !Ends(pair, answer)
    ensures UpsertPair(s, pair, answer) == UpsertPair(s, pair, Tame(answer))
  {
    hide UpsertNode;
  }

  /** Up to the first end, and if nothing is pending when it comes, the pairs are handled as in an unbroken transaction. */
  ghost predicate NothingPending(s: Session, given: NodeGiven, executionId: int, pairs: seq<Pair>, answers: seq<Answer>)
    requires |answers| == |pairs|
    decreases |pairs|
  {
    pairs != [] ==>
      var bound := BindEvent(given, executionId, pairs[0]);
      bound.Success? ==>
        var one := UpsertPair(s, bound.value, Tame(answers[0]));
        if Ends(pairs[0], answers[0]) then one.session.db == s.committed
        else one.result.Success? ==> NothingPending(one.session, given, executionId, pairs[1..], answers[1..])
  }

  lemma EndsAlike(s: Session, pair: Pair, answer: Answer)
    requires Sound(s) && !s.ended && Ends(pair, answer) && UpsertPair(s, pair, Tame(answer)).session.db == s.committed
    ensures var one, other := UpsertPair(s, pair, answer), UpsertPair(s, pair, Tame(answer));
            && Alike(one, other) && !other.session.ended
            && (one.result.Success? ==> one.session.ended && one.session.db == one.session.committed)
  {
    hide UpsertNode;
  }

  lemma {:induction false} PendingAlike(s: Session, given: NodeGiven, executionId: int, pairs: seq<Pair>, answers: seq<Answer>)
    requires |answers| == |pairs| && Sound(s) && !s.ended && NothingPending(s, given, executionId, pairs, answers)
    ensures Alike(UpsertPairs(s, given, executionId, pairs, answers), UpsertPairs(s, given, executionId, pairs, Tamed(answers)))
    decreases |pairs|
  {
    hide UpsertPair, BindEvent, Tame, Ends, Sound;
    if pairs != [] {
      TamedTail(answers);
      BoundEnds(given, executionId, pairs[0], answers[0]);
      var bound := BindEvent(given, executionId, pairs[0]);
      if bound.Success? {
        var one, other := UpsertPair(s, bound.value, answers[0]), UpsertPair(s, bound.value, Tame(answers[0]));
        if Ends(pairs[0], answers[0]) {
          EndsAlike(s, bound.value, answers[0]);
          if one.result.Success? { PairsAlike(one.session, other.session, given, executionId, pairs[1..], answers[1..]); }
        } else {
          PairTamed(s, bound.value, answers[0]);
          PairFollows(s, bound.value, answers[0]);
          PairEnds(s, bound.value, answers[0]);
          if one.result.Success? { PendingAlike(one.session, given, executionId, pairs[1..], answers[1..]); }
        }
      }
    }
  }

  /** What the request does in a transaction that is not broken. */
  function Promised(db: Db, q: Request, answers: seq<Answer>): Did<Response>
    requires |answers| == |q.pairs|
  {
    Put(Begun(db), q, Tamed(answers))
  }

  /** If nothing has been written when the transaction ends, the request has its whole effect nevertheless. */
  lemma NothingToLose(db: Db, q: Request, answers: seq<Answer>)
    requires |answers| == |q.pairs| && Integrity(db)
    requires q.execution.Some? ==>
               var one := UpsertExecution(Begun(db), q.execution.value);
               one.result.Success? ==> NothingPending(one.session, q.execution.value, one.result.value, q.pairs, answers)
    ensures Alike(Put(Begun(db), q, answers), Promised(db, q, answers))
  {
    hide UpsertExecution, UpsertPairs, LinkContexts, Integrity, Spans, SomeEnds, NothingPending;
    BegunSound(db);
    if q.execution.Some? {
      ExecutionFollows(Begun(db), q.execution.value);
      var one := UpsertExecution(Begun(db), q.execution.value);
      if one.result.Success? {
        var id := one.result.value;
        PendingAlike(one.session, q.execution.value, id, q.pairs, answers);
        var two, other := UpsertPairs(one.session, q.execution.value, id, q.pairs, answers),
                          UpsertPairs(one.session, q.execution.value, id, q.pairs, Tamed(answers));
        if two.result.Success? { LinksAlike(two.session, other.session, q.contexts, q.reuseContext, id, two.result.value); }
      }
    }
  }

  lemma {:induction false} NoEndNothingPending(s: Session, given: NodeGiven, executionId: int, pairs: seq<Pair>, answers: seq<Answer>)
    requires |answers| == |pairs| && !SomeEnds(pairs, answers)
    ensures NothingPending(s, given, executionId, pairs, answers)
    decreases |pairs|
  {
    hide UpsertPair, BindEvent, Tame, SomeEnds;
    if pairs != [] {
      SomeEndsCons(pairs, answers);
      var bound := BindEvent(given, executionId, pairs[0]);
      if bound.Success? {
        var one := UpsertPair(s, bound.value, Tame(answers[0]));
        if one.result.Success? { NoEndNothingPending(one.session, given, executionId, pairs[1..], answers[1..]); }
      }
    }
  }

  /**
   A request that stores a new or changed execution has its whole effect, when it succeeds in the broken and
   in the unbroken transaction, if and only if no insertion of an event ends the transaction.
   */
  lemma WholeExactly(db: Db, q: Request, answers: seq<Answer>)
    requires |answers| == |q.pairs| && Integrity(db) && Put(Begun(db), q, answers).result.Success?
    ensures q.execution.Some?
    ensures !SomeEnds(q.pairs, answers) ==> Alike(Put(Begun(db), q, answers), Promised(db, q, answers))
    ensures UpsertExecution(Begun(db), q.execution.value).session.db != db ==>
              (Alike(Put(Begun(db), q, answers), Promised(db, q, answers)) <==> !SomeEnds(q.pairs, answers))
  {
    hide Put, Integrity, SomeEnds, UpsertExecution, Spans, Tamed;
    PutEffect(db, q, answers);
    BegunSound(db);
    ExecutionFollows(Begun(db), q.execution.value);
    if !SomeEnds(q.pairs, answers) {
      var one := UpsertExecution(Begun(db), q.execution.value);
      NoEndNothingPending(one.session, q.execution.value, one.result.value, q.pairs, answers);
      NothingToLose(db, q, answers);
    } else if Promised(db, q, answers).result.Success? {
      TamedEnds(q.pairs, answers);
      PutEffect(db, q, Tamed(answers));
    }
  }

  /******* Requests that go wrong *******/

  /** An execution with one event of a stored artifact. */
  function WithEvent(execution: NodeGiven, artifactId: int, eventType: int, contexts: seq<NodeGiven>): Request {
    Request(Some(execution), [Pair(None, Some(EventGiven(Some(artifactId), None, Some(eventType))))], contexts, false)
  }

  lemma WithEventPairs(s: Session, g: NodeGiven, executionId: int, artifactId: int, eventType: int, answer: Answer)
    requires executionId in s.db.executions.rows && artifactId in s.db.artifacts.rows && !answer.Served?
    ensures UpsertPairs(s, g, executionId, WithEvent(g, artifactId, eventType, []).pairs, [answer]) ==
            Did(if answer.Ended? then Session(s.committed, s.committed, true) else s, Success([artifactId]))
  {
    var pairs := WithEvent(g, artifactId, eventType, []).pairs;
    var bound := BindEvent(g, executionId, pairs[0]).value;
    var s' := if answer.Ended? then Session(s.committed, s.committed, true) else s;
    assert UpsertPair(s, bound, answer) == Did(s', Success(artifactId));
    assert pairs[1..] == [] && [answer][1..] == [] && [artifactId] + [] == [artifactId];
    assert UpsertPairs(s', g, executionId, [], []) == Did(s', Success([]));
  }

  /** A stored execution sent as it is: the insertion of its only event fails, OK is reported, and nothing is stored. */
  lemma EventLost(s: T.State<Db>, executionId: int, artifactId: int, eventType: int)
    requires s.connected && !s.open && executionId in s.committed.executions.rows && artifactId in s.committed.artifacts.rows
    requires s.committed.executions.rows[executionId].typeId in s.committed.executionTypes
    ensures var e := s.committed.executions.rows[executionId];
            var q := WithEvent(NodeGiven(Some(executionId), Some(e.typeId), e.name, e.content), artifactId, eventType, []);
            var (s', status) := Executed(s, q, [Failed], T.Faults(Ok, T.Committed, Ok));
            status == Ok && s'.committed == s.committed
  {
    var e := s.committed.executions.rows[executionId];
    var g := NodeGiven(Some(executionId), Some(e.typeId), e.name, e.content);
    assert UpsertExecution(Begun(s.committed), g) == Did(Begun(s.committed), Success(executionId));
    WithEventPairs(Begun(s.committed), g, executionId, artifactId, eventType, Failed);
  }

  /** A new execution that the store accepts. */
  predicate NewNode(t: Table, types: set<int>, g: NodeGiven) {
    && g.id.None? && g.typeId.Some? && g.typeId.value in types && g.name.Some? && g.name.value != ""
    && !NameTaken(t, g.typeId.value, g.name, None)
  }

  /** A deadlock at its event: OK is reported, and the new execution is not stored either. */
  lemma DeadlockLoses(s: T.State<Db>, g: NodeGiven, artifactId: int, eventType: int, rollback: Status)
    requires s.connected && !s.open && artifactId in s.committed.artifacts.rows
    requires NewNode(s.committed.executions, s.committed.executionTypes, g)
    ensures var (s', status) := Executed(s, WithEvent(g, artifactId, eventType, []), [Ended], T.Faults(Ok, T.Committed, rollback));
            status == Ok && s'.committed == s.committed
  {
    NewPairs(s.committed, g, artifactId, eventType);
  }

  lemma NewPairs(db: Db, g: NodeGiven, artifactId: int, eventType: int)
    requires artifactId in db.artifacts.rows && NewNode(db.executions, db.executionTypes, g)
    ensures var one := UpsertExecution(Begun(db), g);
            && one.result == Success(db.executions.next)
            && UpsertPairs(one.session, g, db.executions.next, WithEvent(g, artifactId, eventType, []).pairs, [Ended]) ==
               Did(Session(db, db, true), Success([artifactId]))
  {
    var one := UpsertExecution(Begun(db), g);
    WithEventPairs(one.session, g, db.executions.next, artifactId, eventType, Ended);
  }

  /** With a new context the request fails after the deadlock, and the context stays behind. */
  lemma DeadlockLeaves(s: T.State<Db>, g: NodeGiven, artifactId: int, eventType: int, c: NodeGiven, f: T.Faults)
    requires s.connected && !s.open && f.begin == Ok && Integrity(s.committed) && artifactId in s.committed.artifacts.rows
    requires NewNode(s.committed.executions, s.committed.executionTypes, g)
    requires NewNode(s.committed.contexts, s.committed.contextTypes, c)
    ensures var (s', status) := Executed(s, WithEvent(g, artifactId, eventType, [c]), [Ended], f);
            && status == InvalidArgument && s.committed.contexts.next !in s.committed.contexts.rows
            && s'.committed == s.committed.(contexts :=
                 Table(s.committed.contexts.rows[s.committed.contexts.next := Node(c.typeId.value, c.name, c.content)], s.committed.contexts.next + 1))
  {
    var db := s.committed;
    NewPairs(db, g, artifactId, eventType);
    ContextLeft(db, db.executions.next, artifactId, c);
  }

  lemma ContextLeft(db: Db, executionId: int, artifactId: int, c: NodeGiven)
    requires executionId !in db.executions.rows && NewNode(db.contexts, db.contextTypes, c)
    ensures LinkContexts(Session(db, db, true), [c], false, executionId, [artifactId]) ==
            var db' := db.(contexts := Table(db.contexts.rows[db.contexts.next := Node(c.typeId.value, c.name, c.content)], db.contexts.next + 1));
            Did(Session(db', db', true), Failure(InvalidArgument))
  {
    var one := UpsertContext(Session(db, db, true), c, false);
    assert one.result == Success(db.contexts.next);
    assert InsertAssociation(one.session, db.contexts.next, executionId).result == Failure(InvalidArgument);
  }
}
