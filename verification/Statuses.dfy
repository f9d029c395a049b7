/** Status codes shared by all modules, and the value-or-error type built on them. */
module Statuses {

  /** The `absl::StatusCode`s that the modelled code returns. */
  datatype Status =
    | Ok
    | Cancelled
    | InvalidArgument
    | NotFound
    | AlreadyExists
    | FailedPrecondition
    | Aborted
    | Unimplemented
    | Internal
    | DataLoss

  datatype Option<+T> = None | Some(value: T)

  /** Any status but OK. */
  type Error = s: Status | s != Ok witness Internal

  /** Either a value or an error. */
  datatype Result<+T> = Success(value: T) | Failure(error: Error) {
    predicate IsFailure() {
      Failure?
    }

    function PropagateFailure<U>(): Result<U>
      requires Failure?
    {
      Failure(error)
    }

    function Extract(): T
      requires Success?
    {
      value
    }
  }

  /** A result with more ids in front. */
  function Then<S>(ids: seq<int>, r: Result<(S, seq<int>)>): Result<(S, seq<int>)> {
    if r.Failure? then r else Success((r.value.0, ids + r.value.1))
  }

  function Elements<T>(s: seq<T>): set<T> {
    set x | x in s
  }

  /** Some member of a nonempty set. */
  ghost function Any<T>(s: set<T>): (x: T)
    requires s != {}
    ensures x in s
  {
    var x :| x in s;
    x
  }

  function Least(ids: set<int>): (id: int)
    requires ids != {}
    ensures id in ids
  {
    HasLeast(ids);
    var id :| id in ids && forall i | i in ids :: id <= i;
    id
  }

  lemma HasLeast(ids: set<int>)
    requires ids != {}
    ensures exists id :: id in ids && forall i | i in ids :: id <= i
  {
    var x := Any(ids);
    if ids == {x} {
      assert forall i | i in ids :: x <= i;
    } else {
      var rest := ids - {x};
      HasLeast(rest);
      var y :| y in rest && forall i | i in rest :: y <= i;
      var id := if x <= y then x else y;
      assert id in ids && forall i | i in ids :: i == x || i in rest;
    }
  }
}
