/**
 Transactions over a metadata source: the open/closed flags of metadata_source.cc, the
 commit-or-rollback executor of transaction_executor.cc and the client's retry loop in
 metadata_store.py. A backend keeps a committed and a pending database.
 */
module Transactions {
  import opened Statuses

  /** What a transaction body returns, and the pending database it leaves behind. */
  datatype Outcome<D> = Outcome(status: Status, state: D)

  type Body<!D> = D -> Outcome<D>

  /** What becomes of a COMMIT. When the connection breaks, it may have taken effect though an error is returned. */
  datatype CommitAnswer = Committed | Refused(error: Error) | Lost(error: Error) {
    function Code(): Status {
      if Committed? then Ok else error
    }
  }

  /** What the backend answers to BEGIN, COMMIT and ROLLBACK during one Execute. */
  datatype Faults = Faults(begin: Status, commit: CommitAnswer, rollback: Status)

  datatype State<D> = State(connected: bool, open: bool, committed: D, pending: D)

  /******* The flag machine *******/

  class MetadataSource<D> {
    var isConnected: bool
    var transactionOpen: bool
    var committed: D
    var pending: D

    function View(): State<D>
      reads this
    {
      State(isConnected, transactionOpen, committed, pending)
    }

    constructor (d: D)
      ensures View() == State(false, false, d, d)
    {
      isConnected, transactionOpen, committed, pending := false, false, d, d;
    }

    method Connect(impl: Status) returns (status: Status)
      modifies this
      ensures (View(), status) == ConnectTo(old(View()), impl)
    {
      if isConnected {
        return FailedPrecondition;
      }
      if impl != Ok {
        return impl;
      }
      isConnected := true;
      return Ok;
    }

    /** Closing drops the session and with it what is pending; `transactionOpen` is left as it is. */
    method Close(impl: Status) returns (status: Status)
      modifies this
      ensures (View(), status) == CloseFrom(old(View()), impl)
    {
      if !isConnected {
        return FailedPrecondition;
      }
      if impl != Ok {
        return impl;
      }
      pending := committed;
      isConnected := false;
      return Ok;
    }

    method Begin(impl: Status) returns (status: Status)
      modifies this
      ensures status == Ok <==> old(isConnected && !transactionOpen) && impl == Ok
      ensures status != Ok ==> View() == old(View()) &&
                               status == if old(isConnected && !transactionOpen) then impl else FailedPrecondition
      ensures status == Ok ==> View() == old(View()).(open := true, pending := old(committed))
    {
      if !isConnected || transactionOpen {
        return FailedPrecondition;
      }
      if impl != Ok {
        return impl;
      }
      pending := committed;
      transactionOpen := true;
      return Ok;
    }

    method Commit(impl: CommitAnswer) returns (status: Status)
      modifies this
      ensures status == if old(isConnected && transactionOpen) then impl.Code() else FailedPrecondition
      ensures View() == if old(!(isConnected && transactionOpen)) || impl.Refused? then old(View())
                        else old(View()).(open := impl.Lost?, committed := old(pending))
    {
      if !isConnected || !transactionOpen {
        return FailedPrecondition;
      }
      if !impl.Refused? {
        committed := pending;
      }
      if !impl.Committed? {
        return impl.error;
      }
      transactionOpen := false;
      return Ok;
    }

    method Rollback(impl: Status) returns (status: Status)
      modifies this
      ensures status == Ok <==> old(isConnected && transactionOpen) && impl == Ok
      ensures status != Ok ==> View() == old(View()) &&
                               status == if old(isConnected && transactionOpen) then impl else FailedPrecondition
      ensures status == Ok ==> View() == old(View()).(open := false, pending := old(committed))
    {
      if !isConnected || !transactionOpen {
        return FailedPrecondition;
      }
      if impl != Ok {
        return impl;
      }
      pending := committed;
      transactionOpen := false;
      return Ok;
    }

    /** RdbmsTransactionExecutor::Execute */
    method Execute(body: Body<D>, faults: Faults) returns (status: Status)
      modifies this
      ensures (View(), status) == Executed(old(View()), body, faults)
    {
      if !isConnected {
        return FailedPrecondition;
      }
      status := Begin(faults.begin);
      if status != Ok {
        return;
      }
      var outcome := body(pending);
      pending := outcome.state;
      status := outcome.status;
      if status == Ok {
        status := Commit(faults.commit);
      }
      if status != Ok {
        var ignored := Rollback(faults.rollback);
      }
    }

    /** The retry loop of MetadataStore._call, against a script of what happens at each attempt. */
    method Call(body: Body<D>, maxRetries: int, script: seq<Attempt<D>>) returns (r: CallResult)
      modifies this
      ensures (View(), r) == Retried(old(View()), body, maxRetries, script)
    {
      hide Executed, Retried, Plus;
      var retries := maxRetries;
      var i := 0;
      RetriedStart(View(), body, retries, script);
      while i < |script|
        invariant 0 <= i <= |script|
        invariant Plus(Retried(View(), body, retries, script[i..]), i) ==
                  Retried(old(View()), body, maxRetries, script)
      {
        var attempt := script[i];
        RetriedStep(View(), body, retries, script, i);
        var others := Interfered(View(), attempt.others);
        committed, pending := others.committed, others.pending;
        var status := Execute(body, attempt.faults);
        i := i + 1;
        if status == Ok {
          return Returned(i);
        }
        if status != Aborted {
          return Raised(status, i);
        }
        retries := retries - 1;
        if retries == 0 {
          return Raised(Aborted, i);
        }
      }
      RetriedEnd(View(), body, retries, script);
      return Waiting(i);
    }
  }

  function ConnectTo<D>(s: State<D>, impl: Status): (State<D>, Status) {
    if s.connected then (s, FailedPrecondition)
    else if impl != Ok then (s, impl)
    else (s.(connected := true), Ok)
  }

  function CloseFrom<D>(s: State<D>, impl: Status): (State<D>, Status) {
    if !s.connected then (s, FailedPrecondition)
    else if impl != Ok then (s, impl)
    else (s.(connected := false, pending := s.committed), Ok)
  }

  /**
   The end of Execute, after a body that returned `status` and left `pending`. `kept` is what the database
   has committed by then.
   */
  function Concluded<D>(s: State<D>, status: Status, pending: D, kept: D, f: Faults): (State<D>, Status) {
    if status == Ok && f.commit.Committed? then (s.(committed := pending, pending := pending), Ok)
    else
      var kept' := if status == Ok && f.commit.Lost? then pending else kept;
      var error := if status == Ok then f.commit.error else status;
      if f.rollback == Ok then (s.(committed := kept', pending := kept'), error)
      else (s.(open := true, committed := kept', pending := pending), error)
  }

  /** Execute as a function; the status reported is the first error. */
  function Executed<D>(s: State<D>, body: Body<D>, f: Faults): (State<D>, Status) {
    if !s.connected || s.open then (s, FailedPrecondition)
    else if f.begin != Ok then (s, f.begin)
    else Concluded(s, body(s.committed).status, body(s.committed).state, s.committed, f)
  }

  /** The body ran to its end, and the COMMIT took effect, whatever was answered. */
  predicate TakesEffect<D>(s: State<D>, body: Body<D>, f: Faults) {
    s.connected && !s.open && f.begin == Ok && body(s.committed).status == Ok && !f.commit.Refused?
  }

  predicate CommitLost<D>(s: State<D>, body: Body<D>, f: Faults) {
    TakesEffect(s, body, f) && f.commit.Lost?
  }

  /** The effect is whole or none, and it is reported truthfully if and only if no COMMIT is lost. */
  lemma WholeOrNothing<D>(s: State<D>, body: Body<D>, f: Faults)
    ensures var (s', status) := Executed(s, body, f);
            && s'.committed == (if TakesEffect(s, body, f) then body(s.committed).state else s.committed)
            && ((status == Ok <==> TakesEffect(s, body, f)) <==> !CommitLost(s, body, f))
  {
  }

  /******* Runs *******/

  datatype Op<!D> = Exec(body: Body<D>, faults: Faults) | Open(impl: Status) | Shut(impl: Status)

  function Step<D>(s: State<D>, op: Op<D>): (State<D>, Status) {
    match op
    case Exec(body, faults) => Executed(s, body, faults)
    case Open(impl) => ConnectTo(s, impl)
    case Shut(impl) => CloseFrom(s, impl)
  }

  function Run<D>(s: State<D>, ops: seq<Op<D>>): State<D>
    decreases |ops|
  {
    if ops == [] then s else Run(Step(s, ops[0]).0, ops[1..])
  }

  /** The bodies that took effect, in order. */
  function Effective<D>(s: State<D>, ops: seq<Op<D>>): seq<Body<D>>
    decreases |ops|
  {
    if ops == [] then [] else
    (if ops[0].Exec? && TakesEffect(s, ops[0].body, ops[0].faults) then [ops[0].body] else []) +
    Effective(Step(s, ops[0]).0, ops[1..])
  }

  /** The bodies whose Execute reported OK, in order. */
  function Succeeded<D>(s: State<D>, ops: seq<Op<D>>): seq<Body<D>>
    decreases |ops|
  {
    if ops == [] then [] else
    var (s', status) := Step(s, ops[0]);
    (if ops[0].Exec? && status == Ok then [ops[0].body] else []) + Succeeded(s', ops[1..])
  }

  /** Some COMMIT of the run took effect and was answered by an error. */
  predicate SomeLost<D>(s: State<D>, ops: seq<Op<D>>)
    decreases |ops|
  {
    ops != [] &&
    ((ops[0].Exec? && CommitLost(s, ops[0].body, ops[0].faults)) || SomeLost(Step(s, ops[0]).0, ops[1..]))
  }

  function Serially<D>(d: D, bodies: seq<Body<D>>): D {
    if bodies == [] then d else Serially(bodies[0](d).state, bodies[1..])
  }

  /** After any run the committed database is the serial effect of exactly the bodies that took effect. */
  lemma RunIsSerial<D>(s: State<D>, ops: seq<Op<D>>)
    ensures Run(s, ops).committed == Serially(s.committed, Effective(s, ops))
    decreases |ops|
  {
    hide Executed, TakesEffect;
    if ops != [] {
      var s' := Step(s, ops[0]).0;
      RunIsSerial(s', ops[1..]);
      var rest := Effective(s', ops[1..]);
      if ops[0].Exec? { WholeOrNothing(s, ops[0].body, ops[0].faults); }
      if ops[0].Exec? && TakesEffect(s, ops[0].body, ops[0].faults) {
        assert ([ops[0].body] + rest)[1..] == rest;
      } else {
        assert [] + rest == rest;
      }
    }
  }

  /** Those are the bodies that reported OK if and only if no COMMIT was lost. */
  lemma {:induction false} EffectiveSucceeded<D>(s: State<D>, ops: seq<Op<D>>)
    ensures |Succeeded(s, ops)| <= |Effective(s, ops)|
    ensures if SomeLost(s, ops) then |Succeeded(s, ops)| < |Effective(s, ops)| else Succeeded(s, ops) == Effective(s, ops)
    decreases |ops|
  {
    hide Executed, TakesEffect;
    if ops != [] {
      EffectiveSucceeded(Step(s, ops[0]).0, ops[1..]);
      if ops[0].Exec? { OkTakesEffect(s, ops[0].body, ops[0].faults); }
    }
  }

  lemma OkTakesEffect<D>(s: State<D>, body: Body<D>, f: Faults)
    ensures Executed(s, body, f).1 == Ok <==> TakesEffect(s, body, f) && !CommitLost(s, body, f)
  {
  }

  function FirstError(statuses: seq<Status>): Status {
    if statuses == [] then Ok else if statuses[0] != Ok then statuses[0] else FirstError(statuses[1..])
  }

  /** Execute reports the first error of its steps, never that of the final ROLLBACK. */
  lemma FirstErrorReported<D>(s: State<D>, body: Body<D>, f: Faults)
    ensures var (s', status) := Executed(s, body, f);
            var ready := if s.connected && !s.open then Ok else FailedPrecondition;
            && status == FirstError([ready, f.begin, body(s.committed).status, f.commit.Code()])
            && (status != Ok && !CommitLost(s, body, f) ==> s'.committed == s.committed)
  {
    var ready := if s.connected && !s.open then Ok else FailedPrecondition;
    var all := [ready, f.begin, body(s.committed).status, f.commit.Code()];
    assert FirstError(all[3..]) == f.commit.Code();
    assert all[2..][1..] == all[3..] && all[1..][1..] == all[2..];
    assert FirstError(all[2..]) == if all[2] != Ok then all[2] else f.commit.Code();
    assert FirstError(all[1..]) == if all[1] != Ok then all[1] else FirstError(all[2..]);
  }

  /** A transaction is still marked open after Execute returned: its ROLLBACK failed. */
  predicate Stuck<D>(s: State<D>) {
    s.open
  }

  /** From then on no body ever runs and nothing is committed, even after Close and Connect. */
  lemma StuckForever<D>(s: State<D>, ops: seq<Op<D>>)
    requires Stuck(s)
    ensures Stuck(Run(s, ops)) && Run(s, ops).committed == s.committed && Effective(s, ops) == []
    ensures forall i | 0 <= i < |ops| && ops[i].Exec? :: Step(Run(s, ops[..i]), ops[i]) == (Run(s, ops[..i]), FailedPrecondition)
    decreases |ops|
  {
    if ops != [] {
      var s' := Step(s, ops[0]).0;
      StuckForever(s', ops[1..]);
      forall i | 0 <= i < |ops| && ops[i].Exec?
        ensures Step(Run(s, ops[..i]), ops[i]) == (Run(s, ops[..i]), FailedPrecondition)
      {
        if i > 0 {
          assert ops[..i][1..] == ops[1..][..i - 1];
          assert ops[1..][i - 1] == ops[i];
        }
      }
    }
  }

  /** An Execute that began a transaction, ends in an error, and cannot roll back. */
  predicate RollbackFails<D>(s: State<D>, op: Op<D>) {
    && op.Exec? && s.connected && !s.open && op.faults.begin == Ok
    && Step(s, op).1 != Ok && op.faults.rollback != Ok
  }

  /** A run ends stuck if and only if it began so, or some Execute of it failed and could not roll back. */
  lemma {:induction false} StuckExactly<D>(s: State<D>, ops: seq<Op<D>>)
    ensures Stuck(Run(s, ops)) <==>
            Stuck(s) || exists i :: 0 <= i < |ops| && RollbackFails(Run(s, ops[..i]), ops[i])
    decreases |ops|
  {
    hide Executed;
    if ops != [] {
      var s' := Step(s, ops[0]).0;
      StepSticks(s, ops[0]);
      StuckExactly(s', ops[1..]);
      assert ops[..0] == [] && Run(s, []) == s;
      forall i | 0 < i < |ops| ensures Run(s, ops[..i]) == Run(s', ops[1..][..i - 1]) && ops[1..][i - 1] == ops[i] {
        assert ops[..i][0] == ops[0] && ops[..i][1..] == ops[1..][..i - 1];
      }
      if i :| 0 <= i < |ops| && RollbackFails(Run(s, ops[..i]), ops[i]) {
        if i > 0 { assert RollbackFails(Run(s', ops[1..][..i - 1]), ops[1..][i - 1]); }
      }
      if i :| 0 <= i < |ops| - 1 && RollbackFails(Run(s', ops[1..][..i]), ops[1..][i]) {
        assert RollbackFails(Run(s, ops[..i + 1]), ops[i + 1]);
      }
    }
  }

  lemma StepSticks<D>(s: State<D>, op: Op<D>)
    ensures Stuck(Step(s, op).0) <==> Stuck(s) || RollbackFails(s, op)
  {
  }

  /******* Retries *******/

  /** What surrounds one attempt: other clients' commits before it, and the backend's answers. */
  datatype Attempt<!D> = Attempt(others: D -> D, faults: Faults)

  datatype CallResult =
    | Returned(attempts: nat)
    | Raised(error: Status, attempts: nat)
    | Waiting(attempts: nat)

  function Interfered<D>(s: State<D>, others: D -> D): State<D> {
    s.(committed := others(s.committed), pending := if s.open then s.pending else others(s.committed))
  }

  function Counted(r: CallResult, n: nat): CallResult {
    match r
    case Returned(k) => Returned(k + n)
    case Raised(e, k) => Raised(e, k + n)
    case Waiting(k) => Waiting(k + n)
  }

  function Plus<D>(r: (State<D>, CallResult), n: nat): (State<D>, CallResult) {
    (r.0, Counted(r.1, n))
  }

  /** `Waiting` when the script ends before the call does. */
  function Retried<D>(s: State<D>, body: Body<D>, retries: int, script: seq<Attempt<D>>): (State<D>, CallResult)
    decreases |script|
  {
    if script == [] then (s, Waiting(0)) else
    var (s', status) := Executed(Interfered(s, script[0].others), body, script[0].faults);
    if status == Ok then (s', Returned(1))
    else if status != Aborted then (s', Raised(status, 1))
    else if retries - 1 == 0 then (s', Raised(Aborted, 1))
    else Plus(Retried(s', body, retries - 1, script[1..]), 1)
  }

  lemma RetriedStart<D>(s: State<D>, body: Body<D>, retries: int, script: seq<Attempt<D>>)
    ensures Plus(Retried(s, body, retries, script[0..]), 0) == Retried(s, body, retries, script)
  {
    hide Retried;
    assert script[0..] == script;
  }

  /** One attempt of a call that has made `n`. */
  lemma RetriedStep<D>(s: State<D>, body: Body<D>, retries: int, script: seq<Attempt<D>>, n: nat)
    requires n < |script|
    ensures var (s', status) := Executed(Interfered(s, script[n].others), body, script[n].faults);
            Plus(Retried(s, body, retries, script[n..]), n) ==
            if status == Ok then (s', Returned(n + 1))
            else if status != Aborted then (s', Raised(status, n + 1))
            else if retries - 1 == 0 then (s', Raised(Aborted, n + 1))
            else Plus(Retried(s', body, retries - 1, script[n + 1..]), n + 1)
  {
    hide Executed, Interfered;
    assert script[n..][1..] == script[n + 1..] && script[n..][0] == script[n];
  }

  lemma RetriedEnd<D>(s: State<D>, body: Body<D>, retries: int, script: seq<Attempt<D>>)
    ensures Plus(Retried(s, body, retries, script[|script|..]), |script|) == (s, Waiting(|script|))
  {
  }

  /** Other clients' commits before each of the given attempts. */
  function Others<D>(d: D, script: seq<Attempt<D>>): D {
    if script == [] then d else Others(script[0].others(d), script[1..])
  }

  /** How many attempts of the call took effect. */
  function Effects<D>(s: State<D>, body: Body<D>, retries: int, script: seq<Attempt<D>>): nat
    decreases |script|
  {
    if script == [] then 0 else
    var s0 := Interfered(s, script[0].others);
    var (s', status) := Executed(s0, body, script[0].faults);
    (if TakesEffect(s0, body, script[0].faults) then 1 else 0) +
    if status == Aborted && retries - 1 != 0 then Effects(s', body, retries - 1, script[1..]) else 0
  }

  /** How many of them were answered by an error. */
  function LostCommits<D>(s: State<D>, body: Body<D>, retries: int, script: seq<Attempt<D>>): nat
    decreases |script|
  {
    if script == [] then 0 else
    var s0 := Interfered(s, script[0].others);
    var (s', status) := Executed(s0, body, script[0].faults);
    (if CommitLost(s0, body, script[0].faults) then 1 else 0) +
    if status == Aborted && retries - 1 != 0 then LostCommits(s', body, retries - 1, script[1..]) else 0
  }

  /**
   A call that returns has had its effect once, and a call that raises has had none, if and only if no
   COMMIT of its attempts was lost.
   */
  lemma {:induction false} OnceExactly<D>(s: State<D>, body: Body<D>, retries: int, script: seq<Attempt<D>>)
    ensures Effects(s, body, retries, script) ==
            LostCommits(s, body, retries, script) + if Retried(s, body, retries, script).1.Returned? then 1 else 0
    decreases |script|
  {
    hide Executed, TakesEffect, Interfered;
    if script != [] {
      var s0 := Interfered(s, script[0].others);
      var (s', status) := Executed(s0, body, script[0].faults);
      OkTakesEffect(s0, body, script[0].faults);
      if status == Aborted && retries - 1 != 0 { OnceExactly(s', body, retries - 1, script[1..]); }
    }
  }

  /**
   Unless a COMMIT is lost, a call that returns has had its effect on top of what other clients did before
   the successful attempt, and one that raises has had none. It makes at most `retries` attempts.
   */
  lemma ExactlyOnce<D>(s: State<D>, body: Body<D>, retries: int, script: seq<Attempt<D>>)
    ensures var (s', r) := Retried(s, body, retries, script);
            && r.attempts <= |script|
            && (retries >= 1 ==> r.attempts <= retries && (|script| >= retries ==> !r.Waiting?))
            && var d := Others(s.committed, script[..r.attempts]);
               LostCommits(s, body, retries, script) == 0 ==>
                 if r.Returned? then body(d).status == Ok && s'.committed == body(d).state
                 else s'.committed == d
    decreases |script|
  {
    hide Executed, TakesEffect;
    if script != [] {
      var s0 := Interfered(s, script[0].others);
      var (s', status) := Executed(s0, body, script[0].faults);
      WholeOrNothing(s0, body, script[0].faults);
      OkTakesEffect(s0, body, script[0].faults);
      EffectIsOk(s0, body, script[0].faults);
      var done := Retried(s, body, retries, script).1.attempts;
      if status == Aborted && retries - 1 != 0 {
        ExactlyOnce(s', body, retries - 1, script[1..]);
        assert script[..done][1..] == script[1..][..done - 1];
      } else {
        assert script[..1] == [script[0]];
        assert Others(s.committed, [script[0]]) == script[0].others(s.committed);
      }
    }
  }

  lemma EffectIsOk<D>(s: State<D>, body: Body<D>, f: Faults)
    ensures TakesEffect(s, body, f) ==> body(s.committed).status == Ok
  {
  }

  /** A COMMIT that is lost and reported as ABORTED is retried, and the call takes effect twice. */
  lemma LostThenRepeated<D>(s: State<D>, body: Body<D>, retries: int)
    requires s.connected && !s.open && retries != 1 && forall d :: body(d).status == Ok
    ensures var script := [Attempt((d: D) => d, Faults(Ok, Lost(Aborted), Ok)), Attempt((d: D) => d, Faults(Ok, Committed, Ok))];
            var (s', r) := Retried(s, body, retries, script);
            r == Returned(2) && s'.committed == body(body(s.committed).state).state
  {
    var script := [Attempt((d: D) => d, Faults(Ok, Lost(Aborted), Ok)), Attempt((d: D) => d, Faults(Ok, Committed, Ok))];
    var s1 := Executed(Interfered(s, script[0].others), body, script[0].faults).0;
    assert s1.committed == body(s.committed).state && s1.connected && !s1.open;
    assert Retried(s1, body, retries - 1, script[1..]).1 == Returned(1);
  }

  /** With `max_num_retries` of zero or less there is no bound: it retries as long as it is aborted. */
  lemma RetriesWithoutBound<D>(s: State<D>, body: Body<D>, retries: int, script: seq<Attempt<D>>)
    requires retries <= 0 && s.connected && !s.open
    requires forall a | a in script :: a.faults == Faults(Ok, Refused(Aborted), Ok)
    requires forall d :: body(d).status == Ok
    ensures Retried(s, body, retries, script).1 == Waiting(|script|)
    decreases |script|
  {
    if script != [] {
      assert script[0] in script;
      RetriesWithoutBound(Executed(Interfered(s, script[0].others), body, script[0].faults).0, body, retries - 1, script[1..]);
    }
  }
}
