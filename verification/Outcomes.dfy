/** Failure-compatible results and the errors a query can end with. */
module Outcomes {

  datatype Option<+T> = None | Some(value: T)

  datatype Error =
    | UnknownBinding(name: string)
    | NotLazy(name: string)
      /** A keys binding was read where a relation is needed. */
    | NotARelation(name: string)
      /** A relation is needed in memory, and the binding is held in another form. */
    | NotResident(name: string)
    | NotKeys(name: string)
    | UnknownFragment(name: string)
    | UnknownColumn(name: string)
    | NotRegistered(name: string)
    | BadSpec
    | ShipTarget(name: string)
    | GuardViolated
    | NoReturn
      /** The deterministic refusal of a source: it has no such table or column. */
    | SourceRefused
      /** A driver, the disk or the memory pool failed. */
    | Backend

  datatype Result<+T> = Ok(value: T) | Err(error: Error)
  {
    predicate IsFailure() {
      Err?
    }

    function PropagateFailure<U>(): Result<U>
      requires Err?
    {
      Err(error)
    }

    function Extract(): T
      requires Ok?
    {
      value
    }
  }
}
