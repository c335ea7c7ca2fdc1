/** Failure-carrying values shared by every module of the model. */
module Outcome {

  datatype Option<+T> = None | Some(value: T)

  /** The fatal conditions of the core. In the program each one ends the process, by
      `log.Fatal`, by `panic`, or by a nil-pointer dereference. */
  datatype Error =
    | NilBucket(name: string)   // a missing bbolt bucket is dereferenced (a panic)
    | EntriesBucketNotFound     // save: "entries bucket not found"
    | KeyRequired               // bbolt refuses to put an empty key
    | IncompatibleValue         // bbolt refuses to put a key that names a nested bucket
    | NoDataCollected           // collate: "No data collected"
    | IndexOutOfRange           // collate: data[k][i] with i beyond the column's end

  datatype Result<+T> = Ok(value: T) | Fatal(error: Error)
}
