/**
 What a successful PutExecution changes, what a failed one leaves, and what becomes of both when the
 database ends the transaction by itself.
 */
module PutExecutionEffect {
  import opened Statuses
  import opened GraphStore
  import opened PutExecution
  import T = Transactions

  function Cross(xs: seq<int>, ys: seq<int>): set<(int, int)> {
    set x, y | x in xs && y in ys :: (x, y)
  }

  predicate EmptyPair(p: Pair) {
    p.artifact.None? && p.event.None?
  }

  /** The id reported for a pair: the given one, the one just created, or that of the event. */
  predicate IdFor(db: Db, p: Pair, id: int) {
    if p.artifact.Some? then
      if p.artifact.value.id.Some? then p.artifact.value.id == Some(id) else id >= db.artifacts.next
    else if p.event.Some? then p.event.value.artifactId == Some(id)
    else id == NO_ID
  }

  /** The events of a list of pairs, given the ids reported for the pairs. */
  function NewEvents(pairs: seq<Pair>, ids: seq<int>, executionId: int): set<EventRow>
    requires |pairs| == |ids|
  {
    if pairs == [] then {} else
    NewEvent(pairs[0], ids[0], executionId) + NewEvents(pairs[1..], ids[1..], executionId)
  }

  function NewEvent(p: Pair, id: int, executionId: int): set<EventRow> {
    if p.event.Some? && p.event.value.eventType.Some?
    then {EventRow(id, executionId, p.event.value.eventType.value)} else {}
  }

  function EventCount(pairs: seq<Pair>): nat {
    if pairs == [] then 0 else (if pairs[0].event.Some? then 1 else 0) + EventCount(pairs[1..])
  }

  /** The insertion of the pair's event makes the database roll the transaction back. */
  predicate Ends(pair: Pair, answer: Answer) {
    pair.event.Some? && answer.Ended?
  }

  predicate SomeEnds(pairs: seq<Pair>, answers: seq<Answer>)
    requires |answers| == |pairs|
  {
    exists i :: 0 <= i < |pairs| && Ends(pairs[i], answers[i])
  }

  /** An insertion of an event fails for a reason other than a duplicate. */
  predicate SomeFails(pairs: seq<Pair>, answers: seq<Answer>)
    requires |answers| == |pairs|
  {
    exists i :: 0 <= i < |pairs| && pairs[i].event.Some? && !answers[i].Served?
  }

  /**
   The pairs without the events that are lost: those whose insertion fails, and, unless the transaction
   was over before, those inserted before it ends.
   */
  function Kept(pairs: seq<Pair>, answers: seq<Answer>, ended: bool): (kept: seq<Pair>)
    requires |answers| == |pairs|
    ensures |kept| == |pairs|
  {
    if pairs == [] then [] else
    var lost := !answers[0].Served? || (!ended && SomeEnds(pairs[1..], answers[1..]));
    [if lost then pairs[0].(event := None) else pairs[0]] +
    Kept(pairs[1..], answers[1..], ended || Ends(pairs[0], answers[0]))
  }

  lemma SomeEndsCons(pairs: seq<Pair>, answers: seq<Answer>)
    requires |answers| == |pairs| && pairs != []
    ensures SomeEnds(pairs, answers) <==> Ends(pairs[0], answers[0]) || SomeEnds(pairs[1..], answers[1..])
  {
    hide Ends;
    if i :| 0 <= i < |pairs| && Ends(pairs[i], answers[i]) {
      assert i > 0 ==> Ends(pairs[1..][i - 1], answers[1..][i - 1]);
    }
    if i :| 0 <= i < |pairs| - 1 && Ends(pairs[1..][i], answers[1..][i]) {
      assert Ends(pairs[i + 1], answers[i + 1]);
    }
  }

  lemma SomeFailsCons(pairs: seq<Pair>, answers: seq<Answer>)
    requires |answers| == |pairs| && pairs != []
    ensures SomeFails(pairs, answers) <==>
            (pairs[0].event.Some? && !answers[0].Served?) || SomeFails(pairs[1..], answers[1..])
  {
    if i :| 0 <= i < |pairs| && pairs[i].event.Some? && !answers[i].Served? {
      assert i > 0 ==> pairs[1..][i - 1] == pairs[i] && answers[1..][i - 1] == answers[i];
    }
    if i :| 0 <= i < |pairs| - 1 && pairs[1..][i].event.Some? && !answers[1..][i].Served? {
      assert pairs[i + 1].event.Some? && !answers[i + 1].Served?;
    }
  }

  lemma EndingFails(pairs: seq<Pair>, answers: seq<Answer>)
    requires |answers| == |pairs|
    ensures SomeEnds(pairs, answers) ==> SomeFails(pairs, answers)
  {
  }

  lemma {:induction false} KeptCount(pairs: seq<Pair>, answers: seq<Answer>, ended: bool)
    requires |answers| == |pairs|
    ensures EventCount(Kept(pairs, answers, ended)) <= EventCount(pairs)
    ensures if SomeFails(pairs, answers) then EventCount(Kept(pairs, answers, ended)) < EventCount(pairs)
            else Kept(pairs, answers, ended) == pairs
    decreases |pairs|
  {
    hide SomeEnds, SomeFails;
    if pairs != [] {
      KeptCount(pairs[1..], answers[1..], ended || Ends(pairs[0], answers[0]));
      SomeFailsCons(pairs, answers);
      EndingFails(pairs[1..], answers[1..]);
      var kept := Kept(pairs, answers, ended);
      assert kept[1..] == Kept(pairs[1..], answers[1..], ended || Ends(pairs[0], answers[0]));
      assert pairs == [pairs[0]] + pairs[1..] && kept == [kept[0]] + kept[1..];
      if !SomeFails(pairs, answers) {
        assert kept[0] == pairs[0];
      } else if pairs[0].event.Some? && !answers[0].Served? {
        assert kept[0].event.None?;
      }
    } else {
      NothingEnds();
    }
  }

  /******* What every operation keeps *******/

  /** Nothing is deleted, and the types are those of before. */
  predicate Spans(a: Db, b: Db) {
    && Grows(a.artifacts, b.artifacts) && Grows(a.executions, b.executions) && Grows(a.contexts, b.contexts)
    && a.artifactTypes == b.artifactTypes && a.executionTypes == b.executionTypes && a.contextTypes == b.contextTypes
  }

  predicate Sound(s: Session) {
    Integrity(s.db) && Integrity(s.committed) && Spans(s.committed, s.db) && (s.ended ==> s.db == s.committed)
  }

  /** The connection after an operation: inside its transaction nothing is committed. */
  predicate Follows(s: Session, s': Session) {
    && Sound(s') && Spans(s.committed, s'.committed)
    && (s.ended ==> s'.ended) && (!s'.ended ==> s'.committed == s.committed)
  }

  lemma FollowsTransitive(a: Session, b: Session, c: Session)
    requires Follows(a, b) && Follows(b, c)
    ensures Follows(a, c)
  {
    hide Integrity;
  }

  lemma WriteFollows(s: Session, db: Db)
    requires Sound(s) && Integrity(db) && Spans(s.db, db)
    ensures Follows(s, Write(s, db))
  {
    hide Integrity;
  }

  lemma EndpointsGrow(db: Db, db': Db)
    requires Endpoints(db) && Spans(db, db')
    requires db'.events == db.events && db'.associations == db.associations && db'.attributions == db.attributions
    ensures Endpoints(db')
  {
  }

  lemma ArtifactFollows(s: Session, g: NodeGiven)
    requires Sound(s)
    ensures var did := UpsertArtifact(s, g);
            && Follows(s, did.session) && did.session.ended == s.ended
            && (did.result.Failure? ==> did.session == s)
            && did.session.db == s.db.(artifacts := did.session.db.artifacts)
            && Grows(s.db.artifacts, did.session.db.artifacts)
            && (did.result.Success? ==>
                  && did.result.value in did.session.db.artifacts.rows
                  && if g.id.Some? then g.id == Some(did.result.value) else did.result.value >= s.db.artifacts.next)
  {
    hide UpsertNode, ValidTable, Endpoints;
    if UpsertArtifact(s, g).result.Success? {
      UpsertNodeKeeps(s.db.artifacts, s.db.artifactTypes, g, false);
      var db := s.db.(artifacts := UpsertNode(s.db.artifacts, s.db.artifactTypes, g, false).value.0);
      EndpointsGrow(s.db, db);
      WriteFollows(s, db);
    }
  }

  lemma ExecutionFollows(s: Session, g: NodeGiven)
    requires Sound(s)
    ensures var did := UpsertExecution(s, g);
            && Follows(s, did.session) && did.session.ended == s.ended
            && did.session.db == s.db.(executions := did.session.db.executions)
            && (did.result.Success? ==>
                  && did.result.value in did.session.db.executions.rows
                  && if g.id.Some? then g.id == Some(did.result.value) && did.result.value in s.db.executions.rows
                     else did.result.value !in s.db.executions.rows)
  {
    hide UpsertNode, ValidTable, Endpoints;
    if UpsertExecution(s, g).result.Success? {
      UpsertNodeKeeps(s.db.executions, s.db.executionTypes, g, false);
      var db := s.db.(executions := UpsertNode(s.db.executions, s.db.executionTypes, g, false).value.0);
      EndpointsGrow(s.db, db);
      WriteFollows(s, db);
    }
  }

  lemma ContextFollows(s: Session, g: NodeGiven, reuse: bool)
    requires Sound(s)
    ensures var did := UpsertContext(s, g, reuse);
            && Follows(s, did.session) && did.session.ended == s.ended
            && did.session.db == s.db.(contexts := did.session.db.contexts)
            && Grows(s.db.contexts, did.session.db.contexts)
            && (did.result.Success? ==> did.result.value in did.session.db.contexts.rows &&
                                        (g.id.Some? ==> g.id == Some(did.result.value)))
  {
    hide UpsertNode, ValidTable, Endpoints;
    var did := UpsertContext(s, g, reuse);
    if UpsertNode(s.db.contexts, s.db.contextTypes, g, true).Success? {
      UpsertNodeKeeps(s.db.contexts, s.db.contextTypes, g, true);
      var db := s.db.(contexts := UpsertNode(s.db.contexts, s.db.contextTypes, g, true).value.0);
      EndpointsGrow(s.db, db);
      WriteFollows(s, db);
    }
  }

  /** A context is found by type and name when there is one and it may be reused. */
  lemma ContextFound(s: Session, g: NodeGiven, id: int)
    requires Sound(s) && g.id.None? && g.typeId.Some? && g.name.Some? && IsContext(s.db, g, id)
    ensures UpsertContext(s, g, true) == Did(s, Success(id))
  {
    var found := set i | i in s.db.contexts.rows && IsContext(s.db, g, i);
    assert id in found;
    forall i | i in found ensures i == id { }
  }

  lemma EventFollows(s: Session, e: EventGiven, answer: Answer)
    requires Sound(s)
    ensures Follows(s, CreateEvent(s, e, answer).session)
  {
    hide ValidTable;
  }

  lemma EventEffect(s: Session, e: EventGiven, answer: Answer)
    requires Sound(s) && CreateEvent(s, e, answer).result.Success?
    ensures var s' := CreateEvent(s, e, answer).session;
            && s'.ended == (s.ended || answer.Ended?)
            && e.artifactId.Some? && e.artifactId.value in s.db.artifacts.rows && e.executionId.Some? && e.eventType.Some?
            && (answer.Ended? && !s.ended ==> s'.db == s.committed && s'.committed == s.committed)
            && (!answer.Ended? || s.ended ==>
                  var event := if answer.Served? then {EventRow(e.artifactId.value, e.executionId.value, e.eventType.value)} else {};
                  s'.db == s.db.(events := s.db.events + event) && event !! s.db.events)
  {
  }

  /******* Artifacts and events *******/

  /** Everything but artifacts and events is as before. */
  predicate OnlyArtifactsAndEvents(db: Db, db': Db) {
    db' == db.(artifacts := db'.artifacts, events := db'.events)
  }

  lemma PairFollows(s: Session, pair: Pair, answer: Answer)
    requires Sound(s)
    ensures Follows(s, UpsertPair(s, pair, answer).session)
  {
    hide UpsertArtifact, CreateEvent, Sound, Spans;
    FollowsSelf(s);
    if pair.artifact.Some? { ArtifactFollows(s, pair.artifact.value); }
    var did := if pair.artifact.Some? then UpsertArtifact(s, pair.artifact.value) else Did(s, Success(NO_ID));
    if pair.event.Some? {
      var eventArtifact := pair.event.value.artifactId;
      var id := if pair.artifact.Some? && did.result.Success? then did.result.value
                else if eventArtifact.Some? then eventArtifact.value else NO_ID;
      var e := pair.event.value.(artifactId := Some(id));
      EventFollows(did.session, e, answer);
      FollowsTransitive(s, did.session, CreateEvent(did.session, e, answer).session);
    }
  }

  lemma FollowsSelf(s: Session)
    requires Sound(s)
    ensures Follows(s, s)
  {
    hide Integrity;
  }

  lemma PairEffect(s: Session, given: NodeGiven, executionId: int, pair: Pair, bound: Pair, answer: Answer)
    requires Sound(s) && BindEvent(given, executionId, pair) == Success(bound)
    requires UpsertPair(s, bound, answer).result.Success?
    ensures var s', id := UpsertPair(s, bound, answer).session, UpsertPair(s, bound, answer).result.value;
            && s'.ended == (s.ended || Ends(pair, answer)) && IdFor(s.db, pair, id)
            && (Ends(pair, answer) && !s.ended ==> s'.db == s.committed && s'.committed == s.committed)
            && (!Ends(pair, answer) || s.ended ==>
                  var event := if answer.Served? then NewEvent(pair, id, executionId) else {};
                  && OnlyArtifactsAndEvents(s.db, s'.db) && Grows(s.db.artifacts, s'.db.artifacts)
                  && (!EmptyPair(pair) ==> id in s'.db.artifacts.rows)
                  && s'.db.events == s.db.events + event && event !! s.db.events
                  && |event| == if pair.event.Some? && answer.Served? then 1 else 0)
  {
    hide UpsertArtifact, CreateEvent, Sound, Spans;
    FollowsSelf(s);
    if pair.artifact.Some? { ArtifactFollows(s, pair.artifact.value); }
    if pair.event.Some? {
      var did := if pair.artifact.Some? then UpsertArtifact(s, pair.artifact.value) else Did(s, Success(pair.event.value.artifactId.value));
      EventEffect(did.session, bound.event.value.(artifactId := Some(did.result.value)), answer);
    }
  }

  lemma IdForEarlier(db: Db, db': Db, p: Pair, id: int)
    requires Spans(db, db') && IdFor(db', p, id)
    ensures IdFor(db, p, id)
  {
  }

  lemma {:induction false} PairsFollow(s: Session, given: NodeGiven, executionId: int, pairs: seq<Pair>, answers: seq<Answer>)
    requires |answers| == |pairs| && Sound(s)
    ensures Follows(s, UpsertPairs(s, given, executionId, pairs, answers).session)
    decreases |pairs|
  {
    hide UpsertPair, BindEvent, Sound, Spans;
    FollowsSelf(s);
    if pairs != [] {
      var bound := BindEvent(given, executionId, pairs[0]);
      if bound.Success? {
        PairFollows(s, bound.value, answers[0]);
        var did := UpsertPair(s, bound.value, answers[0]);
        if did.result.Success? {
          PairsFollow(did.session, given, executionId, pairs[1..], answers[1..]);
          FollowsTransitive(s, did.session, UpsertPairs(did.session, given, executionId, pairs[1..], answers[1..]).session);
        }
      }
    }
  }

  /** The database from which the pairs' effect counts: what was written before the transaction ended is gone. */
  function Start(s: Session, pairs: seq<Pair>, answers: seq<Answer>): Db
    requires |answers| == |pairs|
  {
    if !s.ended && SomeEnds(pairs, answers) then s.committed else s.db
  }

  lemma {:induction false} PairsEffect(s: Session, given: NodeGiven, executionId: int, pairs: seq<Pair>, answers: seq<Answer>)
    requires |answers| == |pairs|
    requires Sound(s) && UpsertPairs(s, given, executionId, pairs, answers).result.Success?
    ensures var did := UpsertPairs(s, given, executionId, pairs, answers);
            var s', ids, from := did.session, did.result.value, Start(s, pairs, answers);
            && s'.ended == (s.ended || SomeEnds(pairs, answers))
            && OnlyArtifactsAndEvents(from, s'.db) && Grows(from.artifacts, s'.db.artifacts)
            && |ids| == |pairs| && EventsAdded(from.events, pairs, answers, s.ended, ids, executionId, s'.db.events)
    decreases |pairs|
  {
    hide Sound, UpsertPair, BindEvent, IdFor, EmptyPair, SomeEnds, Spans, EventsAdded, NewEvent;
    if pairs != [] {
      var bound := BindEvent(given, executionId, pairs[0]).value;
      PairEffect(s, given, executionId, pairs[0], bound, answers[0]);
      PairFollows(s, bound, answers[0]);
      SomeEndsCons(pairs, answers);
      var one := UpsertPair(s, bound, answers[0]);
      PairsEffect(one.session, given, executionId, pairs[1..], answers[1..]);
      var did := UpsertPairs(s, given, executionId, pairs, answers);
      var s', ids := did.session, did.result.value;
      assert ids[1..] == UpsertPairs(one.session, given, executionId, pairs[1..], answers[1..]).result.value;
      if s.ended || !SomeEnds(pairs, answers) {
        var event := if answers[0].Served? then NewEvent(pairs[0], ids[0], executionId) else {};
        FirstStays(s.db.events, event, pairs, answers, s.ended, ids, executionId, s'.db.events);
      } else {
        FirstLost(s.committed.events, pairs, answers, s.ended, ids, executionId, s'.db.events);
      }
    } else {
      NothingEnds();
      NoEvents(s.db.events, s.ended, executionId);
    }
  }

  /** One new event for each pair that keeps its event. */
  predicate EventsAdded(
    from: set<EventRow>, pairs: seq<Pair>, answers: seq<Answer>, ended: bool, ids: seq<int>, executionId: int, to: set<EventRow>)
    requires |answers| == |pairs| == |ids|
  {
    var kept := Kept(pairs, answers, ended);
    to == from + NewEvents(kept, ids, executionId) && |to| == |from| + EventCount(kept)
  }

  lemma NoEvents(events: set<EventRow>, ended: bool, executionId: int)
    ensures EventsAdded(events, [], [], ended, [], executionId, events)
  {
  }

  /** The event of the first pair is lost. */
  lemma FirstLost(
    from: set<EventRow>, pairs: seq<Pair>, answers: seq<Answer>, ended: bool, ids: seq<int>, executionId: int, to: set<EventRow>)
    requires |answers| == |pairs| == |ids| && pairs != [] && !ended && SomeEnds(pairs, answers)
    requires EventsAdded(from, pairs[1..], answers[1..], Ends(pairs[0], answers[0]), ids[1..], executionId, to)
    ensures EventsAdded(from, pairs, answers, ended, ids, executionId, to)
  {
    hide SomeEnds, NewEvent, NewEvents, EventCount;
    SomeEndsCons(pairs, answers);
    var kept := Kept(pairs, answers, ended);
    assert kept[1..] == Kept(pairs[1..], answers[1..], Ends(pairs[0], answers[0]));
    KeepsCons(kept, ids, executionId);
    NoEvent(kept[0], ids[0], executionId);
    assert from + ({} + NewEvents(kept[1..], ids[1..], executionId)) == from + NewEvents(kept[1..], ids[1..], executionId);
  }

  /** The event of the first pair stays, if there is one and its insertion does not fail. */
  lemma FirstStays(
    from: set<EventRow>, event: set<EventRow>, pairs: seq<Pair>, answers: seq<Answer>, ended: bool, ids: seq<int>,
    executionId: int, to: set<EventRow>)
    requires |answers| == |pairs| == |ids| && pairs != [] && (ended || !SomeEnds(pairs, answers))
    requires event == if answers[0].Served? then NewEvent(pairs[0], ids[0], executionId) else {}
    requires event !! from && |event| == if pairs[0].event.Some? && answers[0].Served? then 1 else 0
    requires EventsAdded(from + event, pairs[1..], answers[1..], ended, ids[1..], executionId, to)
    ensures EventsAdded(from, pairs, answers, ended, ids, executionId, to)
  {
    hide SomeEnds, NewEvent, NewEvents, EventCount;
    SomeEndsCons(pairs, answers);
    var kept := Kept(pairs, answers, ended);
    assert kept[1..] == Kept(pairs[1..], answers[1..], ended);
    KeepsCons(kept, ids, executionId);
    NoEvent(kept[0], ids[0], executionId);
    AddedCons(from, event, from + event, NewEvents(kept[1..], ids[1..], executionId), EventCount(kept[1..]), to);
  }

  lemma NoEvent(p: Pair, id: int, executionId: int)
    ensures p.event.None? ==> NewEvent(p, id, executionId) == {}
  {
  }

  lemma KeepsCons(pairs: seq<Pair>, ids: seq<int>, executionId: int)
    requires |pairs| == |ids| && pairs != []
    ensures NewEvents(pairs, ids, executionId) == NewEvent(pairs[0], ids[0], executionId) + NewEvents(pairs[1..], ids[1..], executionId)
    ensures EventCount(pairs) == (if pairs[0].event.Some? then 1 else 0) + EventCount(pairs[1..])
  {
  }

  lemma AddedCons(a: set<EventRow>, event: set<EventRow>, b: set<EventRow>, rest: set<EventRow>, n: nat, c: set<EventRow>)
    requires b == a + event && event !! a && c == b + rest && |c| == |b| + n
    ensures c == a + (event + rest) && |c| == |a| + |event| + n
  {
  }

  lemma {:induction false} PairIds(s: Session, given: NodeGiven, executionId: int, pairs: seq<Pair>, answers: seq<Answer>, i: nat)
    requires |answers| == |pairs| && i < |pairs|
    requires Sound(s) && UpsertPairs(s, given, executionId, pairs, answers).result.Success?
    ensures var did := UpsertPairs(s, given, executionId, pairs, answers);
            && |did.result.value| == |pairs| && IdFor(s.committed, pairs[i], did.result.value[i])
            && ((s.ended || !SomeEnds(pairs, answers)) && !EmptyPair(pairs[i]) ==>
                  did.result.value[i] in did.session.db.artifacts.rows)
    decreases |pairs|
  {
    hide Sound, UpsertPair, BindEvent, IdFor, EmptyPair, SomeEnds, Spans, EventsAdded, NewEvent;
    var bound := BindEvent(given, executionId, pairs[0]).value;
    PairEffect(s, given, executionId, pairs[0], bound, answers[0]);
    PairFollows(s, bound, answers[0]);
    SomeEndsCons(pairs, answers);
    var one := UpsertPair(s, bound, answers[0]);
    PairsEffect(one.session, given, executionId, pairs[1..], answers[1..]);
    if i == 0 {
      IdForCommitted(s, pairs[0], one.result.value);
    } else {
      PairIds(one.session, given, executionId, pairs[1..], answers[1..], i - 1);
      IdForEarlier(s.committed, one.session.committed, pairs[i],
        UpsertPairs(one.session, given, executionId, pairs[1..], answers[1..]).result.value[i - 1]);
    }
  }

  lemma NothingEnds()
    ensures !SomeEnds([], []) && !SomeFails([], [])
  {
  }

  lemma IdForCommitted(s: Session, p: Pair, id: int)
    requires Sound(s) && IdFor(s.db, p, id)
    ensures IdFor(s.committed, p, id)
  {
    hide Integrity;
    IdForEarlier(s.committed, s.db, p, id);
  }

  /******* Contexts *******/

  predicate OnlyContextsAndLinks(db: Db, db': Db) {
    db' == db.(contexts := db'.contexts, associations := db'.associations, attributions := db'.attributions)
  }

  lemma AssociationFollows(s: Session, contextId: int, executionId: int)
    requires Sound(s)
    ensures var did := InsertAssociation(s, contextId, executionId);
            && Follows(s, did.session) && did.session.ended == s.ended
            && (did.result.Success? ==>
                  && executionId in s.db.executions.rows
                  && did.session.db == s.db.(associations := s.db.associations + {(contextId, executionId)}))
  {
    hide ValidTable;
  }

  lemma AttributionFollows(s: Session, contextId: int, artifactId: int)
    requires Sound(s)
    ensures var did := InsertAttribution(s, contextId, artifactId);
            && Follows(s, did.session) && did.session.ended == s.ended
            && (did.result.Success? ==>
                  && artifactId in s.db.artifacts.rows
                  && did.session.db == s.db.(attributions := s.db.attributions + {(contextId, artifactId)}))
  {
    hide ValidTable;
  }

  lemma {:induction false} AttributeEffect(s: Session, contextId: int, artifactIds: seq<int>)
    requires Sound(s)
    ensures var did := Attribute(s, contextId, artifactIds);
            && Follows(s, did.session) && did.session.ended == s.ended
            && (did.result.Success? ==>
                  && did.session.db == s.db.(attributions := s.db.attributions + Cross([contextId], artifactIds))
                  && forall a | a in artifactIds :: a in s.db.artifacts.rows)
    decreases |artifactIds|
  {
    hide InsertAttribution, Sound, Spans;
    FollowsSelf(s);
    if artifactIds != [] {
      AttributionFollows(s, contextId, artifactIds[0]);
      var one := InsertAttribution(s, contextId, artifactIds[0]);
      if one.result.Success? {
        AttributeEffect(one.session, contextId, artifactIds[1..]);
        FollowsTransitive(s, one.session, Attribute(one.session, contextId, artifactIds[1..]).session);
        assert forall a :: a in artifactIds <==> a == artifactIds[0] || a in artifactIds[1..];
        assert Cross([contextId], artifactIds) == {(contextId, artifactIds[0])} + Cross([contextId], artifactIds[1..]);
      }
    } else {
      assert s.db.attributions + Cross([contextId], artifactIds) == s.db.attributions;
    }
  }

  lemma LinkEffect(s: Session, g: NodeGiven, reuse: bool, executionId: int, artifactIds: seq<int>)
    requires Sound(s)
    ensures var did := LinkContext(s, g, reuse, executionId, artifactIds);
            && Follows(s, did.session) && did.session.ended == s.ended
            && (did.result.Success? ==>
                  var db', id := did.session.db, did.result.value;
                  && OnlyContextsAndLinks(s.db, db') && Grows(s.db.contexts, db'.contexts)
                  && (g.id.Some? ==> g.id == Some(id)) && executionId in s.db.executions.rows
                  && (forall a | a in artifactIds :: a in s.db.artifacts.rows)
                  && db'.associations == s.db.associations + Cross([id], [executionId])
                  && db'.attributions == s.db.attributions + Cross([id], artifactIds))
  {
    hide UpsertContext, InsertAssociation, Attribute, Sound, Spans;
    ContextFollows(s, g, reuse);
    var one := UpsertContext(s, g, reuse);
    if one.result.Success? {
      var id := one.result.value;
      AssociationFollows(one.session, id, executionId);
      var two := InsertAssociation(one.session, id, executionId);
      FollowsTransitive(s, one.session, two.session);
      if two.result.Success? {
        AttributeEffect(two.session, id, artifactIds);
        FollowsTransitive(s, two.session, Attribute(two.session, id, artifactIds).session);
        assert Cross([id], [executionId]) == {(id, executionId)};
      }
    }
  }

  lemma CrossCons(x: int, xs: seq<int>, ys: seq<int>)
    ensures Cross([x] + xs, ys) == Cross([x], ys) + Cross(xs, ys)
  {
    assert forall z :: z in [x] + xs <==> z == x || z in xs;
  }

  lemma {:induction false} LinksEffect(s: Session, gs: seq<NodeGiven>, reuse: bool, executionId: int, artifactIds: seq<int>)
    requires Sound(s)
    ensures var did := LinkContexts(s, gs, reuse, executionId, artifactIds);
            && Follows(s, did.session) && did.session.ended == s.ended
            && (did.result.Success? ==>
                  var db', ids := did.session.db, did.result.value;
                  && OnlyContextsAndLinks(s.db, db') && Grows(s.db.contexts, db'.contexts)
                  && |ids| == |gs| && (forall i | 0 <= i < |gs| && gs[i].id.Some? :: gs[i].id == Some(ids[i]))
                  && (gs != [] ==> executionId in s.db.executions.rows && forall a | a in artifactIds :: a in s.db.artifacts.rows)
                  && db'.associations == s.db.associations + Cross(ids, [executionId])
                  && db'.attributions == s.db.attributions + Cross(ids, artifactIds))
    decreases |gs|
  {
    hide Sound, Spans, LinkContext, Cross;
    FollowsSelf(s);
    if gs != [] {
      LinkEffect(s, gs[0], reuse, executionId, artifactIds);
      var one := LinkContext(s, gs[0], reuse, executionId, artifactIds);
      if one.result.Success? {
        LinksEffect(one.session, gs[1..], reuse, executionId, artifactIds);
        var rest := LinkContexts(one.session, gs[1..], reuse, executionId, artifactIds);
        FollowsTransitive(s, one.session, rest.session);
        if rest.result.Success? {
          var id, ids := one.result.value, rest.result.value;
          CrossCons(id, ids, [executionId]);
          CrossCons(id, ids, artifactIds);
          forall i | 0 <= i < |gs| && gs[i].id.Some? ensures gs[i].id == Some(([id] + ids)[i]) {
            if i > 0 { assert gs[i] == gs[1..][i - 1]; }
          }
        }
      }
    } else {
      CrossEmpty([executionId]);
      CrossEmpty(artifactIds);
    }
  }

  lemma CrossMember(xs: seq<int>, ys: seq<int>, x: int, y: int)
    requires x in xs && y in ys
    ensures (x, y) in Cross(xs, ys)
  {
  }

  lemma CrossEmpty(ys: seq<int>)
    ensures Cross([], ys) == {}
  {
  }

  /******* The whole call *******/

  /** The connection at the start of a transaction body. */
  function Begun(db: Db): Session {
    Session(db, db, false)
  }

  lemma BegunSound(db: Db)
    requires Integrity(db)
    ensures Sound(Begun(db))
  {
    hide Integrity;
  }

  /** Whether it succeeds or not, PutExecution keeps integrity and deletes nothing, and commits nothing inside its transaction. */
  lemma PutFollows(s: Session, q: Request, answers: seq<Answer>)
    requires |answers| == |q.pairs| && Sound(s)
    ensures Follows(s, Put(s, q, answers).session)
  {
    hide UpsertExecution, UpsertPairs, LinkContexts, Sound, Spans;
    FollowsSelf(s);
    if q.execution.Some? {
      var g := q.execution.value;
      ExecutionFollows(s, g);
      var one := UpsertExecution(s, g);
      if one.result.Success? {
        PairsFollow(one.session, g, one.result.value, q.pairs, answers);
        var two := UpsertPairs(one.session, g, one.result.value, q.pairs, answers);
        FollowsTransitive(s, one.session, two.session);
        if two.result.Success? {
          LinksEffect(two.session, q.contexts, q.reuseContext, one.result.value, two.result.value);
          FollowsTransitive(s, two.session,
            LinkContexts(two.session, q.contexts, q.reuseContext, one.result.value, two.result.value).session);
        }
      }
    }
  }

  /**
   On success the associations grow by contexts x {execution}, the attributions by contexts x artifacts,
   and the events by one per pair that carries one whose insertion did not fail, except that those before
   the end of the transaction are lost, and the execution with them. Ids are aligned with the request.
   */
  lemma PutEffect(db: Db, q: Request, answers: seq<Answer>)
    requires |answers| == |q.pairs| && Integrity(db) && Put(Begun(db), q, answers).result.Success?
    ensures var did, lost := Put(Begun(db), q, answers), SomeEnds(q.pairs, answers);
            var s', db', r := did.session, did.session.db, did.result.value;
            && Integrity(db') && Spans(db, db') && s'.ended == lost && s'.committed == (if lost then db' else db)
            && q.execution.Some? && UpsertExecution(Begun(db), q.execution.value).result == Success(r.executionId)
            && db'.executions == (if lost then db else UpsertExecution(Begun(db), q.execution.value).session.db).executions
            && (r.executionId in db'.executions.rows <==> !lost || q.execution.value.id.Some?)
            && (q.execution.value.id.Some? ==> q.execution.value.id == Some(r.executionId))
            && db'.associations == db.associations + Cross(r.contextIds, [r.executionId])
            && db'.attributions == db.attributions + Cross(r.contextIds, r.artifactIds)
            && |r.artifactIds| == |q.pairs| && |r.contextIds| == |q.contexts|
            && EventsAdded(db.events, q.pairs, answers, false, r.artifactIds, r.executionId, db'.events)
            && (forall i | 0 <= i < |q.pairs| :: IdFor(db, q.pairs[i], r.artifactIds[i]))
            && (!lost ==> forall i | 0 <= i < |q.pairs| && !EmptyPair(q.pairs[i]) :: r.artifactIds[i] in db'.artifacts.rows)
            && (forall i | 0 <= i < |q.contexts| && q.contexts[i].id.Some? :: q.contexts[i].id == Some(r.contextIds[i]))
  {
    hide UpsertExecution, UpsertPairs, LinkContexts, Cross, Integrity, IdFor, EventsAdded, SomeEnds, EmptyPair, Spans;
    BegunSound(db);
    PutFollows(Begun(db), q, answers);
    ExecutionFollows(Begun(db), q.execution.value);
    var one := UpsertExecution(Begun(db), q.execution.value);
    PairsEffect(one.session, q.execution.value, one.result.value, q.pairs, answers);
    PairsFollow(one.session, q.execution.value, one.result.value, q.pairs, answers);
    var two := UpsertPairs(one.session, q.execution.value, one.result.value, q.pairs, answers);
    LinksEffect(two.session, q.contexts, q.reuseContext, one.result.value, two.result.value);
    forall i | 0 <= i < |q.pairs|
      ensures IdFor(db, q.pairs[i], two.result.value[i])
      ensures !SomeEnds(q.pairs, answers) && !EmptyPair(q.pairs[i]) ==> two.result.value[i] in two.session.db.artifacts.rows
    {
      PairIds(one.session, q.execution.value, one.result.value, q.pairs, answers, i);
    }
  }

  /** What a caller is promised of the events: those of the request are stored, each of them new. */
  predicate EventsStored(db: Db, q: Request, db': Db, r: Response)
    requires |r.artifactIds| == |q.pairs|
  {
    && db'.events == db.events + NewEvents(q.pairs, r.artifactIds, r.executionId)
    && |db'.events| == |db.events| + EventCount(q.pairs)
  }

  /** The promise is kept if and only if no insertion of an event failed for a reason other than a duplicate. */
  lemma EventsStoredExactly(db: Db, q: Request, answers: seq<Answer>)
    requires |answers| == |q.pairs| && Integrity(db) && Put(Begun(db), q, answers).result.Success?
    ensures var did := Put(Begun(db), q, answers);
            && |did.result.value.artifactIds| == |q.pairs|
            && (EventsStored(db, q, did.session.db, did.result.value) <==> !SomeFails(q.pairs, answers))
  {
    hide Put, Integrity, Kept, NewEvents, EventCount, SomeFails, SomeEnds, Spans;
    PutEffect(db, q, answers);
    KeptCount(q.pairs, answers, false);
  }

  /** A pair with neither artifact nor event is reported as -1, which no context can be linked to. */
  lemma EmptyPairFails(db: Db, q: Request, answers: seq<Answer>, i: nat)
    requires |answers| == |q.pairs| && Integrity(db) && i < |q.pairs| && EmptyPair(q.pairs[i]) && q.contexts != []
    ensures Put(Begun(db), q, answers).result.Failure?
  {
    hide Put, SomeEnds;
    if Put(Begun(db), q, answers).result.Success? {
      PutEffect(db, q, answers);
      var did := Put(Begun(db), q, answers);
      CrossMember(did.result.value.contextIds, did.result.value.artifactIds, did.result.value.contextIds[0], did.result.value.artifactIds[i]);
    }
  }
}
