/** Option and Result types, and the failures the engine raises with `throw`. */
module Wrappers {

  datatype Option<+T> = None | Some(value: T)

  /** Every `throw` (and every TypeError the code runs into) of the engine, by cause. */
  datatype Error =
    | MissingFamily            // "Missing family": no queue entry for the dequeued key
    | SourceNotFound           // "Can't find source person in new family!"
    | NoParentLevel            // "No parent level"
    | EmptyFamily              // "Empty family: <handle>": no family record for the handle
    | NoMarriageData           // "No data with which to place this marriage date."
    | CantSortPeople           // "Can't sort people!"
    | UndefinedValue           // a property read on `undefined` / `null` (a JavaScript TypeError)

  datatype Result<+T> = Ok(value: T) | Err(error: Error)

  datatype Outcome = Pass | Fail(error: Error)
}
