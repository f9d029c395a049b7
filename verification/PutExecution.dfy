/**
 MetadataStore::PutExecution: upsert an execution, its artifacts and events, and its contexts, and
 link every context to the execution and to every artifact, all in one transaction.
 */
module PutExecution {
  import opened Statuses
  import opened GraphStore
  import Transactions

  datatype Pair = Pair(artifact: Option<NodeGiven>, event: Option<EventGiven>)

  datatype Request = Request(
    execution: Option<NodeGiven>, pairs: seq<Pair>, contexts: seq<NodeGiven>, reuseContext: bool)

  datatype Response = Response(executionId: int, artifactIds: seq<int>, contextIds: seq<int>)

  const NO_ID := -1

  /******* The operations as functions *******/

  /** The check of an event against the request's execution, and the id it is given. */
  function BindEvent(given: NodeGiven, executionId: int, pair: Pair): Result<Pair> {
    match pair.event
    case None => Success(pair)
    case Some(e) =>
      if e.executionId.Some? && given.id != e.executionId then Failure(InvalidArgument)
      else Success(pair.(event := Some(e.(executionId := Some(executionId)))))
  }

  function UpsertArtifact(s: Session, g: NodeGiven): Did<int> {
    match UpsertNode(s.db.artifacts, s.db.artifactTypes, g, false)
    case Failure(e) => Did(s, Failure(e))
    case Success((t, id)) => Did(Write(s, s.db.(artifacts := t)), Success(id))
  }

  function UpsertExecution(s: Session, g: NodeGiven): Did<int> {
    match UpsertNode(s.db.executions, s.db.executionTypes, g, false)
    case Failure(e) => Did(s, Failure(e))
    case Success((t, id)) => Did(Write(s, s.db.(executions := t)), Success(id))
  }

  /** UpsertArtifactAndEvent */
  function UpsertPair(s: Session, pair: Pair, answer: Answer): Did<int> {
    if pair.artifact.None? && pair.event.None? then Did(s, Success(NO_ID)) else
    var eventArtifact := if pair.event.Some? then pair.event.value.artifactId else None;
    if pair.artifact.None? && eventArtifact.None? then Did(s, Failure(InvalidArgument))
    else if pair.artifact.Some? && eventArtifact.Some? && pair.artifact.value.id != eventArtifact then
      Did(s, Failure(InvalidArgument))
    else
      var (s', id) :- if pair.artifact.Some? then UpsertArtifact(s, pair.artifact.value)
                      else Did(s, Success(eventArtifact.value));
      if pair.event.None? then Did(s', Success(id)) else
      var (s'', _) :- CreateEvent(s', pair.event.value.(artifactId := Some(id)), answer);
      Did(s'', Success(id))
  }

  /** `answers[i]` is how the database answers the insertion of the event of `pairs[i]`. */
  function UpsertPairs(s: Session, given: NodeGiven, executionId: int, pairs: seq<Pair>, answers: seq<Answer>): Did<seq<int>>
    requires |answers| == |pairs|
    decreases |pairs|
  {
    if pairs == [] then Did(s, Success([])) else
    var bound := BindEvent(given, executionId, pairs[0]);
    if bound.Failure? then Did(s, Failure(bound.error)) else
    var (s', id) :- UpsertPair(s, bound.value, answers[0]);
    var (s'', ids) :- UpsertPairs(s', given, executionId, pairs[1..], answers[1..]);
    Did(s'', Success([id] + ids))
  }

  predicate IsContext(db: Db, g: NodeGiven, id: int) {
    id in db.contexts.rows && Some(db.contexts.rows[id].typeId) == g.typeId && db.contexts.rows[id].name == g.name
  }

  /** FindContextByTypeIdAndContextName */
  function FindContext(db: Db, g: NodeGiven): Option<int> {
    var found := set i | i in db.contexts.rows && IsContext(db, g, i);
    if found == {} then None else Some(Least(found))
  }

  /** UpsertContextWithOptions */
  function UpsertContext(s: Session, g: NodeGiven, reuse: bool): Did<int> {
    if g.typeId.None? || g.name.None? then Did(s, Failure(InvalidArgument)) else
    var found := if reuse && g.id.None? then FindContext(s.db, g) else None;
    if found.Some? then Did(s, Success(found.value))
    else
      match UpsertNode(s.db.contexts, s.db.contextTypes, g, true)
      case Failure(e) => Did(s, Failure(if reuse && e == AlreadyExists then Aborted else e))
      case Success((t, id)) => Did(Write(s, s.db.(contexts := t)), Success(id))
  }

  function Attribute(s: Session, contextId: int, artifactIds: seq<int>): Did<()>
    decreases |artifactIds|
  {
    if artifactIds == [] then Did(s, Success(())) else
    var (s', _) :- InsertAttribution(s, contextId, artifactIds[0]);
    Attribute(s', contextId, artifactIds[1..])
  }

  function LinkContext(s: Session, g: NodeGiven, reuse: bool, executionId: int, artifactIds: seq<int>): Did<int> {
    var (s1, id) :- UpsertContext(s, g, reuse);
    var (s2, _) :- InsertAssociation(s1, id, executionId);
    var (s3, _) :- Attribute(s2, id, artifactIds);
    Did(s3, Success(id))
  }

  function LinkContexts(s: Session, gs: seq<NodeGiven>, reuse: bool, executionId: int, artifactIds: seq<int>): Did<seq<int>>
    decreases |gs|
  {
    if gs == [] then Did(s, Success([])) else
    var (s', id) :- LinkContext(s, gs[0], reuse, executionId, artifactIds);
    var (s'', ids) :- LinkContexts(s', gs[1..], reuse, executionId, artifactIds);
    Did(s'', Success([id] + ids))
  }

  /** The transaction body of PutExecution. */
  function Put(s: Session, q: Request, answers: seq<Answer>): Did<Response>
    requires |answers| == |q.pairs|
  {
    if q.execution.None? then Did(s, Failure(InvalidArgument)) else
    var (s1, executionId) :- UpsertExecution(s, q.execution.value);
    var (s2, artifactIds) :- UpsertPairs(s1, q.execution.value, executionId, q.pairs, answers);
    var (s3, contextIds) :- LinkContexts(s2, q.contexts, q.reuseContext, executionId, artifactIds);
    Did(s3, Success(Response(executionId, artifactIds, contextIds)))
  }

  /** PutExecution in its transaction; the database may have ended the transaction before COMMIT or ROLLBACK. */
  function Executed(s: Transactions.State<Db>, q: Request, answers: seq<Answer>, f: Transactions.Faults)
    : (Transactions.State<Db>, Status)
    requires |answers| == |q.pairs|
  {
    if !s.connected || s.open then (s, FailedPrecondition)
    else if f.begin != Ok then (s, f.begin)
    else
      var did := Put(Session(s.committed, s.committed, false), q, answers);
      Transactions.Concluded(
        s, if did.result.Success? then Ok else did.result.error, did.session.db, did.session.committed, f)
  }

  /******* The operations as they run *******/

  /** The access object over the connection of one transaction body. */
  class MetadataStore {
    var session: Session

    constructor (s: Session)
      ensures session == s
    {
      session := s;
    }

    method DoUpsertPair(pair: Pair, answer: Answer) returns (r: Result<int>)
      modifies this
      ensures Did(session, r) == UpsertPair(old(session), pair, answer)
    {
      if pair.artifact.None? && pair.event.None? {
        return Success(NO_ID);
      }
      var eventArtifact := if pair.event.Some? then pair.event.value.artifactId else None;
      if pair.artifact.None? && eventArtifact.None? {
        return Failure(InvalidArgument);
      }
      if pair.artifact.Some? && eventArtifact.Some? && pair.artifact.value.id != eventArtifact {
        return Failure(InvalidArgument);
      }
      var artifactId := NO_ID;
      if pair.artifact.Some? {
        var upserted := UpsertArtifact(session, pair.artifact.value);
        session := upserted.session;
        if upserted.result.Failure? {
          return upserted.result;
        }
        artifactId := upserted.result.value;
      } else {
        artifactId := eventArtifact.value;
      }
      if pair.event.Some? {
        var created := CreateEvent(session, pair.event.value.(artifactId := Some(artifactId)), answer);
        session := created.session;
        if created.result.Failure? {
          return Failure(created.result.error);
        }
      }
      return Success(artifactId);
    }

    /** Step 2 of PutExecution. */
    method DoUpsertPairs(given: NodeGiven, executionId: int, pairs: seq<Pair>, answers: seq<Answer>)
      returns (r: Result<seq<int>>)
      requires |answers| == |pairs|
      modifies this
      ensures Did(session, r) == UpsertPairs(old(session), given, executionId, pairs, answers)
    {
      hide UpsertPair;
      var artifactIds: seq<int> := [];
      ghost var whole := UpsertPairs(session, given, executionId, pairs, answers);
      assert pairs[0..] == pairs && answers[0..] == answers;
      NothingBefore(whole);
      for i := 0 to |pairs|
        invariant whole == Before(artifactIds, UpsertPairs(session, given, executionId, pairs[i..], answers[i..]))
      {
        assert pairs[i..][1..] == pairs[i + 1..] && answers[i..][1..] == answers[i + 1..];
        var bound := BindEvent(given, executionId, pairs[i]);
        if bound.Failure? {
          return Failure(bound.error);
        }
        var one := DoUpsertPair(bound.value, answers[i]);
        if one.Failure? {
          return Failure(one.error);
        }
        BeforeSnoc(artifactIds, one.value, UpsertPairs(session, given, executionId, pairs[i + 1..], answers[i + 1..]));
        artifactIds := artifactIds + [one.value];
      }
      assert pairs[|pairs|..] == [] && artifactIds + [] == artifactIds;
      return Success(artifactIds);
    }

    method DoLinkContext(g: NodeGiven, reuse: bool, executionId: int, artifactIds: seq<int>) returns (r: Result<int>)
      modifies this
      ensures Did(session, r) == LinkContext(old(session), g, reuse, executionId, artifactIds)
    {
      hide UpsertContext, InsertAssociation;
      var upserted := UpsertContext(session, g, reuse);
      session := upserted.session;
      if upserted.result.Failure? {
        return upserted.result;
      }
      var contextId := upserted.result.value;
      var linked := InsertAssociation(session, contextId, executionId);
      session := linked.session;
      if linked.result.Failure? {
        return Failure(linked.result.error);
      }
      ghost var whole := Attribute(session, contextId, artifactIds);
      assert artifactIds[0..] == artifactIds;
      for i := 0 to |artifactIds|
        invariant whole == Attribute(session, contextId, artifactIds[i..])
      {
        assert artifactIds[i..][1..] == artifactIds[i + 1..];
        var attributed := InsertAttribution(session, contextId, artifactIds[i]);
        session := attributed.session;
        if attributed.result.Failure? {
          return Failure(attributed.result.error);
        }
      }
      return Success(contextId);
    }

    /** Step 3 of PutExecution. */
    method DoLinkContexts(gs: seq<NodeGiven>, reuse: bool, executionId: int, artifactIds: seq<int>)
      returns (r: Result<seq<int>>)
      modifies this
      ensures Did(session, r) == LinkContexts(old(session), gs, reuse, executionId, artifactIds)
    {
      hide LinkContext;
      var contextIds: seq<int> := [];
      ghost var whole := LinkContexts(session, gs, reuse, executionId, artifactIds);
      assert gs[0..] == gs;
      NothingBefore(whole);
      for i := 0 to |gs|
        invariant whole == Before(contextIds, LinkContexts(session, gs[i..], reuse, executionId, artifactIds))
      {
        assert gs[i..][1..] == gs[i + 1..];
        var one := DoLinkContext(gs[i], reuse, executionId, artifactIds);
        if one.Failure? {
          return Failure(one.error);
        }
        BeforeSnoc(contextIds, one.value, LinkContexts(session, gs[i + 1..], reuse, executionId, artifactIds));
        contextIds := contextIds + [one.value];
      }
      assert gs[|gs|..] == [] && contextIds + [] == contextIds;
      return Success(contextIds);
    }

    /** The body that PutExecution hands to the transaction executor. */
    method PutExecution(q: Request, answers: seq<Answer>) returns (r: Result<Response>)
      requires |answers| == |q.pairs|
      modifies this
      ensures Did(session, r) == Put(old(session), q, answers)
    {
      hide UpsertExecution, UpsertPairs, LinkContexts;
      if q.execution.None? {
        return Failure(InvalidArgument);
      }
      var upserted := UpsertExecution(session, q.execution.value);
      session := upserted.session;
      if upserted.result.Failure? {
        return Failure(upserted.result.error);
      }
      var executionId := upserted.result.value;
      var artifactIds := DoUpsertPairs(q.execution.value, executionId, q.pairs, answers);
      if artifactIds.Failure? {
        return Failure(artifactIds.error);
      }
      var contextIds := DoLinkContexts(q.contexts, q.reuseContext, executionId, artifactIds.value);
      if contextIds.Failure? {
        return Failure(contextIds.error);
      }
      return Success(Response(executionId, artifactIds.value, contextIds.value));
    }
  }

  /** The outcome of a loop that has found `ids` before. */
  function Before(ids: seq<int>, d: Did<seq<int>>): Did<seq<int>> {
    if d.result.Failure? then d else d.(result := Success(ids + d.result.value))
  }

  lemma NothingBefore(d: Did<seq<int>>)
    ensures Before([], d) == d
  {
    assert d.result.Success? ==> [] + d.result.value == d.result.value;
  }

  lemma BeforeSnoc(ids: seq<int>, id: int, d: Did<seq<int>>)
    ensures d.result.Success? ==>
              Before(ids, d.(result := Success([id] + d.result.value))) == Before(ids + [id], d)
  {
    if d.result.Success? { assert ids + ([id] + d.result.value) == (ids + [id]) + d.result.value; }
  }
}
