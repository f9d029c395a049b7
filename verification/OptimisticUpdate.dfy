/**
 PutArtifacts with `abort_if_latest_updated_time_changed`: an update is refused unless the caller
 read the artifact at the timestamp that is still stored, and a successful check waits a millisecond.
 Transactions are serial; time is the server's millisecond clock.
 */
module OptimisticUpdate {
  import opened Statuses

  datatype Stored<C> = Stored(typeId: int, content: C, updated: int)

  /** An artifact as a caller sends it. */
  datatype Given<C> = Given(id: Option<int>, typeId: Option<int>, content: C, readTime: int)

  datatype Store<C> = Store(types: set<int>, artifacts: map<int, Stored<C>>, nextId: int, now: int)

  /** One artifact of a request; `elapsed` is the time that passes before it is handled. */
  datatype Item<C> = Item(given: Given<C>, elapsed: nat)

  /** CreateArtifact */
  function Create<C>(s: Store<C>, g: Given<C>): Result<(Store<C>, int)> {
    if g.typeId.None? then Failure(InvalidArgument)
    else if g.typeId.value !in s.types then Failure(NotFound)
    else Success((s.(artifacts := s.artifacts[s.nextId := Stored(g.typeId.value, g.content, s.now)],
                     nextId := s.nextId + 1), s.nextId))
  }

  /** UpdateNodeImpl: writes, and stamps the time, only when the given node differs from the stored one. */
  function Update<C(==)>(s: Store<C>, id: int, g: Given<C>): Result<(Store<C>, int)> {
    if id !in s.artifacts then Failure(InvalidArgument) else
    var stored := s.artifacts[id];
    if g.typeId.Some? && g.typeId.value != stored.typeId then Failure(InvalidArgument)
    else if stored.typeId !in s.types then Failure(NotFound)
    else if g.typeId == Some(stored.typeId) && g.content == stored.content then Success((s, id))
    else Success((s.(artifacts := s.artifacts[id := Stored(if g.typeId.Some? then g.typeId.value else 0, g.content, s.now)]), id))
  }

  /** One turn of the loop in PutArtifacts. */
  function Put<C(==)>(s0: Store<C>, item: Item<C>, guarded: bool): Result<(Store<C>, int)> {
    var g, s := item.given, s0.(now := s0.now + item.elapsed);
    match g.id
    case None => Create(s, g)
    case Some(id) =>
      if guarded && id in s.artifacts then
        if g.readTime != s.artifacts[id].updated then Failure(FailedPrecondition)
        else Update(s.(now := s.now + 1), id, g)
      else
        Update(s, id, g)
  }

  function PutAll<C(==)>(s: Store<C>, items: seq<Item<C>>, guarded: bool): Result<(Store<C>, seq<int>)>
    decreases |items|
  {
    if items == [] then Success((s, [])) else
    var (s', id) :- Put(s, items[0], guarded);
    var (s'', ids) :- PutAll(s', items[1..], guarded);
    Success((s'', [id] + ids))
  }

  method PutArtifacts<C(==)>(s: Store<C>, items: seq<Item<C>>, guarded: bool) returns (r: Result<(Store<C>, seq<int>)>)
    ensures r == PutAll(s, items, guarded)
  {
    var store := s;
    var ids: seq<int> := [];
    ghost var whole := PutAll(s, items, guarded);
    assert items[0..] == items && (whole.Success? ==> [] + whole.value.1 == whole.value.1);
    for i := 0 to |items|
      invariant PutAll(s, items, guarded) == Then(ids, PutAll(store, items[i..], guarded))
    {
      assert items[i..][1..] == items[i + 1..];
      var one := Put(store, items[i], guarded);
      if one.Failure? {
        return Failure(one.error);
      }
      ghost var rest := PutAll(one.value.0, items[i + 1..], guarded);
      assert rest.Success? ==> ids + ([one.value.1] + rest.value.1) == ids + [one.value.1] + rest.value.1;
      store := one.value.0;
      ids := ids + [one.value.1];
    }
    assert items[|items|..] == [] && ids + [] == ids;
    return Success((store, ids));
  }

  /******* Runs of serial transactions *******/

  datatype Request<C> = Request(items: seq<Item<C>>, guarded: bool, failedAfter: nat)

  predicate Commits<C(==)>(s: Store<C>, q: Request<C>) {
    PutAll(s, q.items, q.guarded).Success?
  }

  /** A failed transaction only costs time. */
  function Step<C(==)>(s: Store<C>, q: Request<C>): Store<C> {
    if Commits(s, q) then PutAll(s, q.items, q.guarded).value.0 else s.(now := s.now + q.failedAfter)
  }

  function Run<C(==)>(s: Store<C>, qs: seq<Request<C>>): Store<C>
    decreases |qs|
  {
    if qs == [] then s else Run(Step(s, qs[0]), qs[1..])
  }

  /** No stored time is in the future, and ids are handed out in order. */
  predicate Sane<C>(s: Store<C>) {
    forall i | i in s.artifacts :: s.artifacts[i].updated <= s.now && i < s.nextId
  }

  /** From `s` to `s'`: time and stored times do not go back, and no artifact disappears. */
  predicate Later<C>(s: Store<C>, s': Store<C>) {
    && s.now <= s'.now && s.nextId <= s'.nextId
    && forall i | i in s.artifacts :: i in s'.artifacts && s.artifacts[i].updated <= s'.artifacts[i].updated
  }

  /** An artifact whose stored time is unchanged is itself unchanged. */
  ghost predicate Stamped<C>(s: Store<C>, s': Store<C>) {
    forall i | i in s.artifacts && i in s'.artifacts && s'.artifacts[i].updated == s.artifacts[i].updated ::
      s'.artifacts[i] == s.artifacts[i]
  }

  lemma PutKeeps<C>(s: Store<C>, item: Item<C>, guarded: bool)
    requires Sane(s) && Put(s, item, guarded).Success?
    ensures var s' := Put(s, item, guarded).value.0;
            Sane(s') && Later(s, s') && (guarded ==> Stamped(s, s'))
  {
  }

  lemma PutAllKeeps<C>(s: Store<C>, items: seq<Item<C>>, guarded: bool)
    requires Sane(s) && PutAll(s, items, guarded).Success?
    ensures var s' := PutAll(s, items, guarded).value.0;
            Sane(s') && Later(s, s') && (guarded ==> Stamped(s, s'))
    decreases |items|
  {
    hide Put;
    if items != [] {
      PutKeeps(s, items[0], guarded);
      var s' := Put(s, items[0], guarded).value.0;
      PutAllKeeps(s', items[1..], guarded);
      if guarded { StampedTransitive(s, s', PutAll(s', items[1..], guarded).value.0); }
    }
  }

  lemma StampedTransitive<C>(a: Store<C>, b: Store<C>, c: Store<C>)
    requires Later(a, b) && Later(b, c) && Stamped(a, b) && Stamped(b, c)
    ensures Later(a, c) && Stamped(a, c)
  {
  }

  lemma StepKeeps<C>(s: Store<C>, q: Request<C>)
    requires Sane(s)
    ensures Sane(Step(s, q)) && Later(s, Step(s, q)) && (q.guarded ==> Stamped(s, Step(s, q)))
  {
    if Commits(s, q) { PutAllKeeps(s, q.items, q.guarded); }
  }

  lemma RunKeeps<C>(s: Store<C>, qs: seq<Request<C>>)
    requires Sane(s)
    ensures Sane(Run(s, qs)) && Later(s, Run(s, qs))
    ensures (forall q | q in qs :: q.guarded) ==> Stamped(s, Run(s, qs))
    decreases |qs|
  {
    hide Step;
    if qs != [] {
      StepKeeps(s, qs[0]);
      RunKeeps(Step(s, qs[0]), qs[1..]);
      assert qs[0] in qs;
      if forall q | q in qs :: q.guarded {
        assert forall q | q in qs[1..] :: q in qs;
        StampedTransitive(s, Step(s, qs[0]), Run(s, qs));
      }
    }
  }

  /** The request changes artifact `id`, having read it at time `t`. */
  predicate Changes<C(==)>(s: Store<C>, q: Request<C>, id: int, t: int) {
    && q.guarded && Commits(s, q) && id in s.artifacts
    && id in Step(s, q).artifacts && Step(s, q).artifacts[id] != s.artifacts[id]
    && exists i :: 0 <= i < |q.items| && q.items[i].given.id == Some(id) && q.items[i].given.readTime == t
  }

  /** A guarded request that commits read the stored time at its first mention of an artifact, or later. */
  lemma GuardHolds<C>(s: Store<C>, items: seq<Item<C>>, id: int, i: nat)
    requires Sane(s) && PutAll(s, items, true).Success? && id in s.artifacts
    requires i < |items| && items[i].given.id == Some(id)
    ensures s.artifacts[id].updated <= items[i].given.readTime
    decreases |items|
  {
    hide Sane, Stamped;
    var s' := Put(s, items[0], true).value.0;
    PutKeeps(s, items[0], true);
    if i > 0 { GuardHolds(s', items[1..], id, i - 1); }
  }

  /**
   No lost update: after a guarded request changed an artifact it had read at time `t`, no later
   guarded request that read the artifact at `t` commits, whatever runs in between.
   */
  lemma NoLostUpdate<C>(s: Store<C>, q: Request<C>, between: seq<Request<C>>, q': Request<C>, id: int, t: int)
    requires Sane(s) && Changes(s, q, id, t)
    requires q'.guarded && exists i :: 0 <= i < |q'.items| && q'.items[i].given.id == Some(id) && q'.items[i].given.readTime == t
    requires t == s.artifacts[id].updated
    ensures !Commits(Run(Step(s, q), between), q')
  {
    hide Put, PutAll;
    var s1 := Step(s, q);
    StepKeeps(s, q);
    RunKeeps(s1, between);
    var s2 := Run(s1, between);
    if Commits(s2, q') {
      var i :| 0 <= i < |q'.items| && q'.items[i].given.id == Some(id) && q'.items[i].given.readTime == t;
      GuardHolds(s2, q'.items, id, i);
    }
  }

  /**
   Compare-and-swap: if every request since the read was guarded, a guarded request that read the
   artifact at its then stored time and commits finds it exactly as it was read.
   */
  lemma CompareAndSwap<C>(s: Store<C>, between: seq<Request<C>>, q: Request<C>, id: int)
    requires Sane(s) && id in s.artifacts && forall r | r in between :: r.guarded
    requires q.guarded && Commits(Run(s, between), q)
    requires exists i :: 0 <= i < |q.items| && q.items[i].given.id == Some(id) &&
                         q.items[i].given.readTime == s.artifacts[id].updated
    ensures var s' := Run(s, between); id in s'.artifacts && s'.artifacts[id] == s.artifacts[id]
  {
    hide Put, PutAll;
    RunKeeps(s, between);
    var s' := Run(s, between);
    var i :| 0 <= i < |q.items| && q.items[i].given.id == Some(id) && q.items[i].given.readTime == s.artifacts[id].updated;
    GuardHolds(s', q.items, id, i);
  }

  /** Without the guard a change within the same millisecond goes unnoticed. */
  lemma UnguardedUpdateLost()
    ensures var s := Store({7}, map[1 := Stored(7, "read", 5)], 2, 5);
            var other := Request([Item(Given(Some(1), Some(7), "lost", 0), 0)], false, 0);
            var mine := Request([Item(Given(Some(1), Some(7), "mine", 5), 0)], true, 0);
            && Sane(s) && Commits(s, other) && Step(s, other).artifacts[1].content == "lost"
            && Commits(Step(s, other), mine)
  {
    var s := Store({7}, map[1 := Stored(7, "read", 5)], 2, 5);
    var other := Item(Given(Some(1), Some(7), "lost", 0), 0);
    var mine := Item(Given(Some(1), Some(7), "mine", 5), 0);
    assert PutAll(Put(s, other, false).value.0, [other][1..], false).Success?;
    var s' := Put(s, other, false).value.0;
    assert PutAll(s, [other], false).value.0 == s';
    assert s'.artifacts[1] == Stored(7, "lost", 5);
    assert PutAll(Put(s', mine, true).value.0, [mine][1..], true).Success?;
  }

  /** An update keeps the stored type iff the caller repeats it: an omitted type is stored as 0. */
  lemma UpdateKeepsType<C>(s: Store<C>, item: Item<C>, guarded: bool, id: int)
    requires item.given.id == Some(id) && Put(s, item, guarded).Success?
    ensures var s' := Put(s, item, guarded).value.0;
            && id in s.artifacts && id in s'.artifacts
            && (s'.artifacts[id].typeId == s.artifacts[id].typeId <==>
                item.given.typeId.Some? || s.artifacts[id].typeId == 0)
  {
  }

  /******* Artifacts without a type *******/

  /** The stored type of the artifact does not exist. */
  predicate Untyped<C>(s: Store<C>, id: int) {
    id in s.artifacts && s.artifacts[id].typeId !in s.types
  }

  predicate Mentions<C>(items: seq<Item<C>>, id: int) {
    exists i :: 0 <= i < |items| && items[i].given.id == Some(id)
  }

  lemma {:induction false} UntypedStays<C>(s: Store<C>, items: seq<Item<C>>, guarded: bool, id: int)
    requires Sane(s) && Untyped(s, id) && PutAll(s, items, guarded).Success?
    ensures !Mentions(items, id)
    ensures var s' := PutAll(s, items, guarded).value.0;
            s'.types == s.types && Untyped(s', id) && s'.artifacts[id] == s.artifacts[id]
    decreases |items|
  {
    if items != [] {
      PutKeeps(s, items[0], guarded);
      UntypedStays(Put(s, items[0], guarded).value.0, items[1..], guarded, id);
      forall i | 0 <= i < |items| ensures items[i].given.id != Some(id) {
        assert i > 0 ==> items[1..][i - 1] == items[i];
      }
    }
  }

  /** An artifact without a type is never updated again: a request that mentions it does not commit. */
  lemma {:induction false} UntypedForever<C>(s: Store<C>, qs: seq<Request<C>>, id: int)
    requires Sane(s) && Untyped(s, id)
    ensures var s' := Run(s, qs);
            && s'.types == s.types && Untyped(s', id) && s'.artifacts[id] == s.artifacts[id]
            && forall q: Request<C> | Mentions(q.items, id) :: !Commits(s', q)
    decreases |qs|
  {
    hide Put, PutAll, Sane;
    if qs == [] {
      forall q: Request<C> | Mentions(q.items, id) ensures !Commits(s, q) {
        if Commits(s, q) { UntypedStays(s, q.items, q.guarded, id); }
      }
    } else {
      StepKeeps(s, qs[0]);
      if Commits(s, qs[0]) { UntypedStays(s, qs[0].items, qs[0].guarded, id); }
      UntypedForever(Step(s, qs[0]), qs[1..], id);
    }
  }

  /** A committed request that updates an artifact without repeating its type leaves it with type 0. */
  lemma {:induction false} OmittedType<C>(s: Store<C>, items: seq<Item<C>>, guarded: bool, i: nat, id: int)
    requires Sane(s) && PutAll(s, items, guarded).Success? && 0 !in s.types
    requires i < |items| && items[i].given.id == Some(id) && items[i].given.typeId.None?
    ensures var s' := PutAll(s, items, guarded).value.0;
            s'.types == s.types && id in s'.artifacts && s'.artifacts[id].typeId == 0
    decreases |items|
  {
    PutKeeps(s, items[0], guarded);
    var s1 := Put(s, items[0], guarded).value.0;
    if i == 0 {
      UntypedStays(s1, items[1..], guarded, id);
    } else {
      OmittedType(s1, items[1..], guarded, i - 1, id);
    }
  }

  /** After an update that omits the type, no later update of the artifact commits, whatever runs in between. */
  lemma OmittedTypeIsFinal<C>(s: Store<C>, q: Request<C>, between: seq<Request<C>>, i: nat, id: int)
    requires Sane(s) && Commits(s, q) && 0 !in s.types
    requires i < |q.items| && q.items[i].given.id == Some(id) && q.items[i].given.typeId.None?
    ensures var s' := Run(Step(s, q), between);
            && id in s'.artifacts && id in Step(s, q).artifacts && s'.artifacts[id] == Step(s, q).artifacts[id]
            && s'.artifacts[id].typeId == 0
            && forall q': Request<C> | Mentions(q'.items, id) :: !Commits(s', q')
  {
    hide Put, PutAll, Sane;
    StepKeeps(s, q);
    OmittedType(s, q.items, q.guarded, i, id);
    UntypedForever(Step(s, q), between, id);
  }
}
