/** Values shared by the outgoing fax path: optional values, results, the
    errors a job or a batch can be rejected with, and the external failures
    (database, filesystem, ghostscript) that the model takes as an input. */
module FaxTypes {

  datatype Option<+T> = None | Some(value: T)

  /** A settled promise: resolved with a value or rejected with an error. */
  datatype Result<+T, +E> = Ok(value: T) | Err(error: E)

  /** The reasons a promise of FaxProcessor is rejected with. */
  datatype FaxError =
    | TransactionFailed(id: nat)        // the knex transaction of updateFaxState was rolled back
    | OnlyPdf                           // 'Only handling .pdf files'
    | WriteError(path: string)          // fs.writeFile failed
    | ConversionError(pdfPath: string)  // the ghostscript child process failed
    | QueryError                        // a knex select failed
    | NoFaxNumber                       // 'Could not find outgoing fax number to use'
    | RenameError(path: string)         // fs.rename failed

  /** The text the source rejects with, for the two errors it rejects with a string. */
  function Message(e: FaxError): Option<string> {
    match e
    case OnlyPdf => Some("Only handling .pdf files")
    case NoFaxNumber => Some("Could not find outgoing fax number to use")
    case _ => None
  }

  /** An external operation that fails when it is run. A set of these is the
      environment a run of the pipeline meets. */
  datatype Fault =
    | SelectFault                     // the select of pending faxes fails
    | TransactionFault(id: nat)       // the state update of this fax is rolled back
    | WriteFault(path: string)        // writing this file fails
    | ConvertFault(pdfPath: string)   // ghostscript fails on this input
    | LookupFault(numberId: nat)      // the trunk_numbers select for this id fails
    | RenameFault(path: string)       // moving this file into the spool fails
}
