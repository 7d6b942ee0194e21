/** Failure-carrying wrappers and the error kinds of the dashboard pipeline.
    Each error kind names the place where the dashboard script raises. */
module Basics {

  datatype Option<+T> = None | Some(value: T)

  datatype Result<+T, +E> = Success(value: T) | Failure(error: E) {

    predicate IsFailure() {
      Failure?
    }

    function PropagateFailure<U>(): Result<U, E>
      requires Failure?
    {
      Failure(error)
    }

    function Extract(): T
      requires Success?
    {
      value
    }
  }

  /** The ways one "Get Data" run can stop. */
  datatype Error =
    | UnknownLabel(axis: string, display: string)  // KeyError looking up a chosen label in an axis
    | NoSuchAttribute(name: string)              // AttributeError from dispatch by name
    | EmptyResult                                // IndexError on the first record of an empty list
    | UnknownKey(record: nat, key: string)       // KeyError appending to a column the first record lacks
    | NoColumns                                  // IndexError choosing the index column of a keyless table
    | RaggedColumns                              // ValueError building a frame from columns of different lengths
    | EmptyColumn(column: string)                // IndexError reading the first value of an empty column
    | NoDataColumns                              // ValueError summarising a frame that has only its index

  /** No element occurs twice. */
  predicate Distinct<T(==)>(s: seq<T>) {
    forall i, j :: 0 <= i < j < |s| ==> s[i] != s[j]
  }
}
