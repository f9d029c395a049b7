/**
 Writers that concurrently reuse or create a context under a common (type, name), as PutExecution
 does with `reuse_context_if_already_exist`. Their transactions interleave step by step over one
 table with a unique index on (type, name).
 */
module ContextRace {
  import opened Statuses

  type Writer = nat

  datatype Key = Key(typeId: int, name: string)

  /** A row of the Context table; `owner` is the writer whose uncommitted insert it is. */
  datatype Row = Row(key: Key, owner: Option<Writer>)

  /** How far a writer's transaction is. */
  datatype Phase =
    | Idle
    | Begun(snapshot: set<int>)
    | Missed
    | Holding(id: int)
    | Linked(id: int)
    | Doomed(status: Status)
    | Done(id: int)
    | Failed(status: Status)

  datatype State = State(
    rows: map<int, Row>,
    nextId: int,
    keys: map<Writer, Key>,
    phases: map<Writer, Phase>,
    pendingLinks: set<(int, Writer)>,
    links: set<(int, Writer)>)

  datatype Action =
    | Begin(w: Writer)
    | Find(w: Writer, latest: bool)
    | Create(w: Writer)
    | LockTimeout(w: Writer)
    | Associate(w: Writer)
    | Commit(w: Writer, accepted: bool)
    | Rollback(w: Writer)
    | Retry(w: Writer)

  function Committed(s: State): set<int> {
    set i | i in s.rows && s.rows[i].owner.None?
  }

  predicate InPhase(s: State, w: Writer) {
    w in s.phases && w in s.keys
  }

  function Move(s: State, w: Writer, p: Phase): State {
    s.(phases := s.phases[w := p])
  }

  /** The rows with the writer's (type, name) that are visible to it among `ids`. */
  function Matching(s: State, w: Writer, ids: set<int>): set<int>
    requires w in s.keys
  {
    set i | i in ids && i in s.rows && s.rows[i].key == s.keys[w]
  }

  function Discard(s: State, w: Writer, status: Status): State {
    Move(s.(rows := (map i | i in s.rows && s.rows[i].owner != Some(w) :: s.rows[i]),
            pendingLinks := (set l | l in s.pendingLinks && l.1 != w)), w, Failed(status))
  }

  function Publish(s: State, w: Writer, id: int): State {
    Move(s.(rows := (map i | i in s.rows ::
                       if s.rows[i].owner == Some(w) then Row(s.rows[i].key, None) else s.rows[i]),
            pendingLinks := (set l | l in s.pendingLinks && l.1 != w),
            links := s.links + (set l | l in s.pendingLinks && l.1 == w)), w, Done(id))
  }

  /** One step; an action that does not apply changes nothing. */
  ghost function Next(s: State, a: Action): State {
    if !InPhase(s, a.w) then s else
    match (a, s.phases[a.w])
    case (Begin(w), Idle) => Move(s, w, Begun(Committed(s)))
    // FindContextByTypeIdAndContextName reads the transaction's snapshot, or the latest commits.
    case (Find(w, latest), Begun(snapshot)) =>
      var found := Matching(s, w, if latest then Committed(s) else snapshot);
      if found == {} then Move(s, w, Missed)
      else Move(s, w, Holding(Any(found)))
    // CreateContext: the unique index refuses a committed duplicate, which UpsertContextWithOptions
    // turns into Aborted; an uncommitted duplicate blocks the writer.
    case (Create(w), Missed) =>
      if Matching(s, w, Committed(s)) != {} then Move(s, w, Doomed(Aborted))
      else if Matching(s, w, s.rows.Keys) != {} then s
      else Move(s.(rows := s.rows[s.nextId := Row(s.keys[w], Some(w))], nextId := s.nextId + 1), w, Holding(s.nextId))
    // Error 1205 or 1213 while blocked.
    case (LockTimeout(w), Missed) =>
      if Matching(s, w, s.rows.Keys) != {} then Move(s, w, Doomed(Aborted)) else s
    case (Associate(w), Holding(id)) => Move(s.(pendingLinks := s.pendingLinks + {(id, w)}), w, Linked(id))
    case (Commit(w, accepted), Linked(id)) => if accepted then Publish(s, w, id) else Discard(s, w, Aborted)
    case (Rollback(w), Doomed(status)) => Discard(s, w, status)
    case (Retry(w), Failed(status)) => if status == Aborted then Move(s, w, Idle) else s
    case _ => s
  }

  ghost function Run(s: State, actions: seq<Action>): State
    decreases |actions|
  {
    if actions == [] then s else Run(Next(s, actions[0]), actions[1..])
  }

  /******* Invariant *******/

  predicate Unique(s: State) {
    forall i, j | i in s.rows && j in s.rows && s.rows[i].key == s.rows[j].key :: i == j
  }

  function Held(p: Phase): Option<int> {
    match p
    case Holding(id) => Some(id)
    case Linked(id) => Some(id)
    case Done(id) => Some(id)
    case _ => None
  }

  /** What a writer's phase promises about the table. */
  predicate Consistent(s: State, w: Writer)
    requires InPhase(s, w)
  {
    var p := s.phases[w];
    && (p.Begun? ==> p.snapshot <= Committed(s))
    && (p.Doomed? || p.Failed? ==> p.status == Aborted)
    && (Held(p).Some? ==>
          && Held(p).value in s.rows && s.rows[Held(p).value].key == s.keys[w]
          && (s.rows[Held(p).value].owner.None? || (s.rows[Held(p).value].owner == Some(w) && !p.Done?)))
  }

  /** Uncommitted rows and links belong to a writer that is about to commit them. */
  predicate Owned(s: State) {
    && (forall i | i in s.rows && s.rows[i].owner.Some? ::
          var w := s.rows[i].owner.value;
          InPhase(s, w) && (s.phases[w] == Holding(i) || s.phases[w] == Linked(i)))
    && (forall l | l in s.pendingLinks :: InPhase(s, l.1) && s.phases[l.1] == Linked(l.0))
    && (forall l | l in s.links :: InPhase(s, l.1) && s.phases[l.1] == Done(l.0))
  }

  predicate Invariant(s: State) {
    && s.phases.Keys == s.keys.Keys
    && Unique(s) && Owned(s)
    && (forall i | i in s.rows :: i < s.nextId)
    && (forall w | w in s.phases :: Consistent(s, w))
  }

  lemma DiscardKeeps(s: State, w: Writer, status: Status)
    requires Invariant(s) && w in s.phases && (s.phases[w].Doomed? || s.phases[w].Linked?) && status == Aborted
    ensures Invariant(Discard(s, w, status))
  {
    var s' := Discard(s, w, status);
    assert Committed(s') == Committed(s);
    forall v | v in s'.phases ensures Consistent(s', v) {
      if v != w { assert Consistent(s, v); }
    }
  }

  lemma PublishKeeps(s: State, w: Writer, id: int)
    requires Invariant(s) && w in s.phases && s.phases[w] == Linked(id)
    ensures Invariant(Publish(s, w, id))
  {
    var s' := Publish(s, w, id);
    assert Consistent(s, w);
    assert Committed(s) <= Committed(s');
    forall v | v in s'.phases ensures Consistent(s', v) {
      if v != w { assert Consistent(s, v); }
    }
  }

  lemma CreateKeeps(s: State, w: Writer)
    requires Invariant(s) && w in s.phases && s.phases[w] == Missed
    ensures Invariant(Next(s, Create(w)))
  {
    var s' := Next(s, Create(w));
    assert Committed(s) <= Committed(s');
    if Matching(s, w, Committed(s)) == {} && Matching(s, w, s.rows.Keys) == {} {
      forall i | i in s.rows ensures s.rows[i].key != s.keys[w] {
        assert i !in Matching(s, w, s.rows.Keys);
      }
    }
    forall v | v in s'.phases ensures Consistent(s', v) {
      if v != w { assert Consistent(s, v); }
    }
  }

  /** A writer that owns nothing moves to a phase that owns nothing. */
  lemma MoveKeeps(s: State, w: Writer, p: Phase)
    requires Invariant(s) && w in s.phases && (Held(s.phases[w]).None?)
    requires Consistent(Move(s, w, p), w) && !p.Done? && (Held(p).Some? ==> Held(p).value in Committed(s))
    ensures Invariant(Move(s, w, p))
  {
    var s' := Move(s, w, p);
    assert Committed(s') == Committed(s);
    forall v | v in s'.phases ensures Consistent(s', v) {
      if v != w { assert Consistent(s, v); }
    }
  }

  lemma AssociateKeeps(s: State, w: Writer, id: int)
    requires Invariant(s) && w in s.phases && s.phases[w] == Holding(id)
    ensures Invariant(Next(s, Associate(w)))
  {
    var s' := Next(s, Associate(w));
    assert Consistent(s, w) && Committed(s') == Committed(s);
    forall v | v in s'.phases ensures Consistent(s', v) {
      if v != w { assert Consistent(s, v); }
    }
  }

  /** Every step of every writer keeps the invariant. */
  lemma NextKeeps(s: State, a: Action)
    requires Invariant(s)
    ensures Invariant(Next(s, a))
  {
    hide Unique, Owned, Publish, Discard;
    if Next(s, a) != s {
      match a
      case Begin(w) => MoveKeeps(s, w, Begun(Committed(s)));
      case Find(w, latest) =>
        assert Consistent(s, w);
        MoveKeeps(s, w, Next(s, a).phases[w]);
      case Create(w) => CreateKeeps(s, w);
      case LockTimeout(w) => MoveKeeps(s, w, Doomed(Aborted));
      case Associate(w) => AssociateKeeps(s, w, s.phases[w].id);
      case Commit(w, accepted) =>
        if accepted { PublishKeeps(s, w, s.phases[w].id); } else { DiscardKeeps(s, w, Aborted); }
      case Rollback(w) =>
        assert Consistent(s, w);
        DiscardKeeps(s, w, s.phases[w].status);
      case Retry(w) => MoveKeeps(s, w, Idle);
    }
  }

  /** Writers at rest over a table of committed, distinct contexts. */
  predicate Initial(s: State) {
    && s.phases.Keys == s.keys.Keys && (forall w | w in s.phases :: s.phases[w] == Idle)
    && Unique(s) && s.pendingLinks == {} && s.links == {}
    && (forall i | i in s.rows :: s.rows[i].owner.None? && i < s.nextId)
  }

  lemma RunKeeps(s: State, actions: seq<Action>)
    requires Invariant(s)
    ensures Invariant(Run(s, actions))
    decreases |actions|
  {
    if actions != [] {
      NextKeeps(s, actions[0]);
      RunKeeps(Next(s, actions[0]), actions[1..]);
    }
  }

  /******* What it promises *******/

  /**
   In every reachable state: at most one row per (type, name); writers that reported OK for one
   (type, name) hold the same committed row; a failed writer was told Aborted and left no row and
   no link.
   */
  lemma RaceIsSafe(s: State, actions: seq<Action>)
    requires Initial(s)
    ensures var e := Run(s, actions);
            && Unique(e)
            && (forall w | w in e.phases && e.phases[w].Done? ::
                  e.phases[w].id in Committed(e) && w in e.keys && e.rows[e.phases[w].id].key == e.keys[w])
            && (forall v, w | v in e.phases && w in e.phases && v in e.keys && w in e.keys &&
                              e.phases[v].Done? && e.phases[w].Done? && e.keys[v] == e.keys[w] ::
                  e.phases[v] == e.phases[w])
            && (forall w | w in e.phases && e.phases[w].Failed? ::
                  && e.phases[w].status == Aborted
                  && (forall i | i in e.rows :: e.rows[i].owner != Some(w))
                  && (forall l | l in e.pendingLinks + e.links :: l.1 != w))
  {
    hide Next;
    RunKeeps(s, actions);
    var e := Run(s, actions);
    hide Run;
    forall w | w in e.phases ensures Consistent(e, w) {}
  }

  lemma NextStays(s: State, a: Action, i: int)
    requires i in s.rows && i < s.nextId && s.rows[i].owner.None?
    ensures i in Next(s, a).rows && i < Next(s, a).nextId && Next(s, a).rows[i] == s.rows[i]
  {
  }

  /** Committed contexts are never changed or removed. */
  lemma CommittedStays(s: State, actions: seq<Action>, i: int)
    requires i in Committed(s) && i < s.nextId
    ensures i in Committed(Run(s, actions)) && Run(s, actions).rows[i] == s.rows[i]
    decreases |actions|
  {
    if actions != [] {
      NextStays(s, actions[0], i);
      CommittedStays(Next(s, actions[0]), actions[1..], i);
    }
  }

  /** The transaction of one writer, undisturbed. */
  function Attempt(w: Writer): seq<Action> {
    [Begin(w), Find(w, false), Create(w), Associate(w), Commit(w, true)]
  }

  /**
   A writer that lost the race succeeds when it retries undisturbed: it reuses the row that won, or
   creates one, and its link is committed.
   */
  lemma RetrySucceeds(s: State, w: Writer)
    requires w in s.phases && w in s.keys && s.phases[w] == Failed(Aborted)
    requires forall i | i in s.rows && s.rows[i].key == s.keys[w] :: s.rows[i].owner.None?
    ensures var e := Run(s, [Retry(w)] + Attempt(w));
            && w in e.phases && e.phases[w].Done? && (e.phases[w].id, w) in e.links
            && (Matching(s, w, s.rows.Keys) != {} ==> e.phases[w].id in Matching(s, w, s.rows.Keys))
  {
    var s2 := Next(Next(s, Retry(w)), Begin(w));
    var s4 := Next(Next(s2, Find(w, false)), Create(w));
    FindOrCreate(s, w);
    HoldAndCommit(s4, w, s4.phases[w].id);
    hide Next;
    RunSix(s, [Retry(w)] + Attempt(w));
  }

  lemma FindOrCreate(s: State, w: Writer)
    requires w in s.phases && w in s.keys && s.phases[w] == Failed(Aborted)
    requires forall i | i in s.rows && s.rows[i].key == s.keys[w] :: s.rows[i].owner.None?
    ensures var e := Next(Next(Next(Next(s, Retry(w)), Begin(w)), Find(w, false)), Create(w));
            && w in e.phases && w in e.keys && e.phases[w].Holding? && e.keys == s.keys
            && (Matching(s, w, s.rows.Keys) != {} ==> e.phases[w].id in Matching(s, w, s.rows.Keys))
  {
    var s2 := Next(Next(s, Retry(w)), Begin(w));
    var s3 := Next(s2, Find(w, false));
    assert Committed(s2) == Committed(s) && s3.rows == s.rows && s3.keys == s.keys;
    assert s2.rows == s.rows && s2.keys == s.keys;
    assert forall i | i in Matching(s, w, s.rows.Keys) :: i in Committed(s);
    assert Matching(s2, w, Committed(s)) == Matching(s, w, s.rows.Keys);
    assert Matching(s3, w, Committed(s3)) == Matching(s, w, s.rows.Keys);
    assert Matching(s3, w, s3.rows.Keys) == Matching(s, w, s.rows.Keys);
  }

  lemma HoldAndCommit(s: State, w: Writer, id: int)
    requires w in s.phases && w in s.keys && s.phases[w] == Holding(id)
    ensures var e := Next(Next(s, Associate(w)), Commit(w, true));
            w in e.phases && e.phases[w] == Done(id) && (id, w) in e.links
  {
  }

  lemma RunSix(s: State, a: seq<Action>)
    requires |a| == 6
    ensures Run(s, a) == Next(Next(Next(Next(Next(Next(s, a[0]), a[1]), a[2]), a[3]), a[4]), a[5])
  {
    hide Next;
    var s1 := Next(s, a[0]);
    var s2 := Next(s1, a[1]);
    var s3 := Next(s2, a[2]);
    assert Run(s3, a[3..]) == Next(Next(Next(s3, a[3]), a[4]), a[5]) by {
      var s4 := Next(s3, a[3]);
      var s5 := Next(s4, a[4]);
      assert a[3..][1..] == a[4..] && a[4..][1..] == a[5..] && a[5..][1..] == [];
      assert Run(s5, a[5..]) == Run(Next(s5, a[5]), []);
      assert Run(s4, a[4..]) == Run(s5, a[5..]);
    }
    assert a[1..][1..] == a[2..] && a[2..][1..] == a[3..];
    assert Run(s2, a[2..]) == Run(s3, a[3..]);
    assert Run(s1, a[1..]) == Run(s2, a[2..]);
  }
}
