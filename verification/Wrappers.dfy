/** Option and Result, used wherever the program returns None or raises. */
module Wrappers {
  datatype Option<+T> = None | Some(value: T)

  datatype Result<+T> = Ok(value: T) | Err(error: Error)

  /** The exceptions the modelled code can raise. */
  datatype Error =
    | InvalidDocId
    | ConflictedDoc
    | RevisionConflict
    | DocumentDoesNotExist
    | DocumentAlreadyDeleted
    | InvalidGeneration
    | InvalidTransactionId
    | InvalidReplicaUID
    | IntegrityError        // a duplicate primary key in an SQL table
    | MalformedRevision     // a revision without any counter, or one that does not parse
    | MissingConflicts      // "Fetch conflicts first!"
    | MissingAttachment     // the batched save of a tombstone that carries conflicts
    | IncompleteBlob        // the transfer is to be tried again
    | BadRequest
    | BrokenSyncStream
    | PartialDownload       // the transfer may have been cut short
    | ConnectionFailed
    | HttpError
    | IndexDefinitionParseError
    | IndexNameTaken
    | IndexDoesNotExist
    | InvalidValueForIndex
    | InvalidGlobbing
    | TypeError
}
