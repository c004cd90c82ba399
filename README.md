# Outgoing fax path of asterisk-fax-sync

`FaxProcessor` (faxprocessor.js) sends the faxes queued in the
`faxes_outgoing` table through Asterisk. On each run:

- It selects the rows in state `created` whose `iaxfriends` row carries this
  server's name.
- For every row it runs four steps in order:
  1. claim the row by setting its state to `processing` in a transaction;
  2. write the PDF to the outgoing fax directory, refusing names without ".pdf";
  3. render a TIFF with ghostscript, at the PDF path with its first ".pdf",
     in any case, rewritten to ".tiff";
  4. look up the one fax-capable trunk number of the row and write an Asterisk
     call file at the TIFF path with its first ".tiff" rewritten to ".call".
- Once every row has been processed, it moves every call file into
  `/var/spool/asterisk/outgoing/`.
- Any failure rejects the whole run.

This project models that path in Dafny:

- `FaxTypes` holds the errors a promise rejects with and the external
  failures a run can meet.
- `Text` holds the JavaScript string operations the path relies on:
  `toLowerCase`, `indexOf`, `replace` of the first match (with a string and
  with a case-insensitive regular expression), `path.basename` and the decimal
  rendering of a number.
- `FaxPaths` holds the name check and the four derived paths: PDF, TIFF,
  call file and spool target.
- `CallFile` holds the trunk-number lookup and the call-file template.
- `Pipeline` defines each step, one job and the whole run as functions of the
  state a run changes. That state is the table, a map from id to row, and the
  filesystem, a map from path to content.
- `JobFacts` and `BatchFacts` prove what one job and one run do.
- `UpdateAsWritten` models `updateFaxState` as it is written.
- `Processor` is the class `FaxProcessor`. Its fields are the constructor's
  values, the table and the files. Each method is proved to leave exactly the
  state its `Pipeline` function computes.

External failures are an input. A run is given a set of faults, and each
external operation fails when the set names it:

- the select;
- the transaction of one row;
- the write of one path;
- ghostscript on one input;
- the trunk lookup for one number;
- the rename of one path.

Two operations also fail on the files alone, whatever the set holds:

- ghostscript fails when its input is missing or is not a PDF;
- a rename fails when its source is gone, as `fs.rename` does. This is why
  two queued faxes with the same file name reject a run: the second rename
  of the shared call file finds it already moved.

The job and batch lemmas hold for every such set.

`Promise.all` is modelled in list order. Every job runs, because a failing job
does not stop its siblings. The second stage runs only when every job
resolved, and every rename is attempted.

## Model

| member | source | states |
|---|---|---|
| Text.LowerLeavesNoUpperCase | faxprocessor.js:86 | `toLowerCase` leaves no upper-case ASCII letter |
| Text.LowerIdempotent | faxprocessor.js:86 | lower-casing a lower-cased string changes nothing |
| Text.LowerIgnoresCase | faxprocessor.js:86 | two names lower-case alike exactly when they differ only in the case of ASCII letters |
| Text.IndexOfSpec | faxprocessor.js:86 | `indexOf` is -1 exactly when the pattern occurs nowhere; otherwise it is the leftmost occurrence |
| Text.ReplaceFirstIgnoreCaseSpec | faxprocessor.js:121 | `replace(/\.pdf/i, …)` replaces only the leftmost case-insensitive occurrence and keeps every other character; without one the string is returned unchanged |
| Text.ReplaceFirstSpec | faxprocessor.js:162 | `replace('.tiff', …)` replaces only the leftmost exact occurrence; without one the string is returned unchanged |
| Text.Basename | faxprocessor.js:48 | the basename never holds a '/' |
| Text.BasenameOfJoin | faxprocessor.js:48 | the basename of a directory followed by a name without '/' ends with that name |
| Text.SplitJoin | faxprocessor.js:151-160 | lines joined with newlines split back into the same lines when none holds a newline |
| Text.NatToString | faxprocessor.js:158 | `${faxId}` is a non-empty string of decimal digits with no leading zero; it starts with '0' only for 0 |
| Text.DecimalRoundTrip | faxprocessor.js:158 | reading the decimal rendering of the fax id back gives the id |
| FaxPaths.IsPdfName | faxprocessor.js:86 | the name check: ".pdf" occurs in the lower-cased name; its meaning is stated by AcceptedIffPdfOccurs |
| FaxPaths.PdfPath | faxprocessor.js:90 | the PDF destination, the directory string followed by the name with no separator; JobFacts.WriteStep states it |
| FaxPaths.TiffPath | faxprocessor.js:121 | the TIFF path; its meaning is stated by TiffPathReplacesFirstPdf and TiffPathWithoutPdf |
| FaxPaths.CallPath | faxprocessor.js:162 | the call-file path; its meaning is stated by CallPathReplacesFirstTiff and CallPathWithoutTiff |
| FaxPaths.SpoolTarget | faxprocessor.js:48-49 | the spool directory followed by the basename; its meaning is stated by SpoolTargetKeepsName |
| FaxPaths.AcceptedIffPdfOccurs | faxprocessor.js:86-88 | a name is accepted exactly when ".pdf", in any case, occurs anywhere in it, not only at its end |
| FaxPaths.NameWithoutDotRejected | faxprocessor.js:86-88 | a name with no '.' is refused |
| FaxPaths.AcceptedAfterPlainPrefix | faxprocessor.js:86-88 | a name whose first '.' begins ".pdf" in any case is accepted, whatever follows |
| FaxPaths.AcceptedNameExamples | faxprocessor.js:86-88 | "x.PDF…", "x.Pdf…" and "x.pdf…" are all accepted |
| FaxPaths.FirstPdfOfAcceptedName | faxprocessor.js:86 | an accepted name has a leftmost case-insensitive ".pdf" |
| FaxPaths.TiffPathReplacesFirstPdf | faxprocessor.js:121 | the TIFF path is the PDF path with its leftmost case-insensitive ".pdf" replaced by ".tiff"; it is one character longer |
| FaxPaths.TiffPathWithoutPdf | faxprocessor.js:121 | with no case-insensitive ".pdf" the TIFF path is the PDF path itself |
| FaxPaths.TiffPathStaysInName | faxprocessor.js:121 | when no ".pdf" begins inside the directory, only the file name is rewritten |
| FaxPaths.TiffPathAfterPlainPrefix | faxprocessor.js:121 | after a prefix without '.', the ".pdf" that follows, in any case, becomes ".tiff" |
| FaxPaths.TiffPathCanRewriteDirectory | faxprocessor.js:121 | a ".pdf" in the outgoing directory is rewritten instead of the file's extension |
| FaxPaths.TiffOfPlainName | faxprocessor.js:121 | "a.pdf" with no '.' in a becomes "a.tiff" |
| FaxPaths.CallPathReplacesFirstTiff | faxprocessor.js:162 | the call-file path is the TIFF path with its leftmost ".tiff" replaced by ".call", with the length kept |
| FaxPaths.CallPathWithoutTiff | faxprocessor.js:162 | with no exact ".tiff" the call-file path is the TIFF path itself |
| FaxPaths.CallPathIsCaseSensitive | faxprocessor.js:162 | "a.TIFF" is not rewritten |
| FaxPaths.CallPathAfterPlainPrefix | faxprocessor.js:162 | after a prefix without '.', the ".tiff" that follows becomes ".call" |
| FaxPaths.CallOfPlainName | faxprocessor.js:162 | "a.tiff" with no '.' in a becomes "a.call" |
| FaxPaths.CallPathOfPdfPath | faxprocessor.js:162 | when nothing before the leftmost ".pdf" is a '.', the call-file path is the PDF path with that ".pdf" replaced by ".call" |
| FaxPaths.CallPathOfPlainName | faxprocessor.js:162 | a name "base.pdf" in a directory without '.' gives the call file "dir base.call" |
| FaxPaths.SpoolTargetKeepsName | faxprocessor.js:48-49 | a call file in a directory ending with '/' is moved to the spool directory under its own name |
| FaxPaths.SpoolTargetOfPlainName | faxprocessor.js:48-49 | "dir base.call" is moved to "/var/spool/asterisk/outgoing/base.call" |
| FaxPaths.SlashNameEndsInParent | faxprocessor.js:48-49 | the name "a.pdf/.." is accepted, its call file is "<dir>a.call/..", and that file's spool target is "/var/spool/asterisk/outgoing/..", not a file inside the spool |
| CallFile.FaxNumbers | faxprocessor.js:135-139 | every row the select returns has the requested id and is a fax number |
| CallFile.LookupFaxNumber | faxprocessor.js:140-147 | success gives a fax-number row with the id; every failure is 'Could not find outgoing fax number to use' |
| CallFile.NoFaxNumbers | faxprocessor.js:135-139 | the select is empty exactly when no row has the id and is a fax number |
| CallFile.OneFaxNumber | faxprocessor.js:141 | the select has one row exactly when exactly one row has the id and is a fax number |
| CallFile.LookupSucceedsIffExactlyOne | faxprocessor.js:136-143 | the lookup succeeds exactly when one row fits; zero and several rows both fail |
| CallFile.CallFileText | faxprocessor.js:151-160 | the template filled in and joined with newlines; its lines are stated by CallFileLines |
| CallFile.CallFileLines | faxprocessor.js:151-160 | read line by line, the call file is the ten template lines in their fixed order, with the header value inserted verbatim |
| CallFile.HeaderLineIffTruthy | faxprocessor.js:160 | the header line is present exactly when header_ppid is non-null and non-empty; otherwise the file ends with the FAXFILE line, a newline and an empty line |
| CallFile.FaxIdReadable | faxprocessor.js:158 | the FAXID line holds the job id in decimal, which reads back exactly |
| CallFile.HeaderValueNotEscaped | faxprocessor.js:160 | a header value "a;b" is written as it is, without escaping |
| CallFile.FaxSevenWithoutHeader | faxprocessor.js:158-160 | fax 7 without a header gives "Set:FAXID=7" and an empty last line |
| Pipeline.FirstError | faxprocessor.js:19-29 | the batch rejection is absent exactly when every result resolved; otherwise it is the error of a rejected result |
| Pipeline.ProcessAll | faxprocessor.js:19-21 | every claimed fax yields one result |
| Pipeline.SendAll | faxprocessor.js:24-26 | every call file yields one result; BatchFacts.FaultedMoveFails and BatchFacts.SendAllMoves state which fail and what moves |
| Pipeline.IsPending | faxprocessor.js:36-40 | the select's filter: state 'created' and an iaxfriends row named after this server; CheckOutgoingFaxes and BatchLeavesOnlyFailedClaimsPending state it |
| Pipeline.UpdateFaxState | faxprocessor.js:102-117 | the intended state update as a transaction that can roll back; JobFacts.JobClaimsOnlyItsRow states its effect |
| Pipeline.WriteFaxPdf | faxprocessor.js:84-100 | the name check and the PDF write; JobFacts.WriteStep states it |
| Pipeline.ConvertPdfToTiff | faxprocessor.js:119-131 | the conversion to the rewritten path; JobFacts.ConvertStep states it |
| Pipeline.GenerateCallFile | faxprocessor.js:133-175 | the lookup and the call-file write; JobFacts.GenerateStep states it |
| Pipeline.ProcessOutgoingFax | faxprocessor.js:59-82 | the four steps in order; JobFacts.JobOutcome, JobFrame and JobSuccessFiles state its outcome and files |
| Pipeline.SendFax | faxprocessor.js:46-57 | the rename into the spool; BatchFacts.SendAllMoves and FaultedMoveFails state it |
| Pipeline.SendCallFiles | faxprocessor.js:23-29 | the second stage, run only when every job resolved; BatchFacts.SendStageMoves and FaultedCallFileRejects state it |
| Pipeline.ProcessAndSend | faxprocessor.js:15-31 | a run after the select; BatchFacts.SuccessfulBatchDelivers, BatchRejectsWhenAJobFails and FaultedRenameRejectsBatch state it |
| JobFacts.WriteStep | faxprocessor.js:84-100 | rejects with 'Only handling .pdf files' exactly when the name check fails; a rejection writes nothing; success writes the data at directory followed by name and touches nothing else |
| JobFacts.ConvertStep | faxprocessor.js:119-131 | a failure writes nothing; success resolves with the rewritten path holding the rendering of the PDF read, and touches nothing else |
| JobFacts.GenerateStep | faxprocessor.js:133-175 | without exactly one fax number the step rejects with 'Could not find outgoing fax number to use'; a failure writes nothing; success writes only the rewritten path |
| JobFacts.JobOutcome | faxprocessor.js:67-80 | a job settles with the error of the first failing step, in the order claim, name check, PDF write, conversion, lookup, call-file write, or with its call-file path |
| JobFacts.JobClaimsOnlyItsRow | faxprocessor.js:67 | a job sets only its own row to 'processing', and only when the transaction commits |
| JobFacts.JobFrame | faxprocessor.js:67-80 | a job writes at most its PDF, its TIFF and its call file |
| JobFacts.JobRefusedWritesNothing | faxprocessor.js:86-88 | when the claim fails or the name is refused, no file is written |
| JobFacts.JobFailureLeavesEarlierFiles | faxprocessor.js:67-80 | a failed PDF write leaves the files as they were; a failed conversion leaves the PDF; a failed lookup or call-file write leaves the PDF and the TIFF |
| JobFacts.JobSuccessFiles | faxprocessor.js:67-80 | a successful job leaves exactly the PDF, its TIFF and the call file for the trunk number found |
| JobFacts.JobResolvesWithCallFile | faxprocessor.js:74-79 | a job whose steps all succeed resolves with its call-file path, which holds the template filled for a fax number with its row's id |
| BatchFacts.ProcessAllOutcomes | faxprocessor.js:19-21 | each fax in the batch settles as it would alone, whatever the others do |
| BatchFacts.ProcessAllJobs | faxprocessor.js:19-21 | the batch sets every listed row whose claim commits to 'processing' and changes no other row |
| BatchFacts.BatchLeavesOnlyFailedClaimsPending | faxprocessor.js:36-40 | after a run, the pending rows are exactly those whose claim was rolled back |
| BatchFacts.BatchRejectsWhenAJobFails | faxprocessor.js:17-29 | one failing job rejects the batch with a job's error, and no call file is moved |
| BatchFacts.SendAllFrame | faxprocessor.js:24-26 | a path that is neither moved nor a spool target is untouched, whether or not the moves succeed |
| BatchFacts.SendAllMoves | faxprocessor.js:24-26 | moves that cannot interfere all succeed; each file leaves its place for the spool with its content, and nothing else changes |
| BatchFacts.ProcessAllWritesCallFiles | faxprocessor.js:19-21 | when all jobs succeed and none overwrites an earlier call file, every call file holds its own job's template |
| BatchFacts.SendStageMoves | faxprocessor.js:23-27 | the second stage, run on resolved jobs, resolves, keeps the table and moves every call file into the spool |
| BatchFacts.SuccessfulBatchDelivers | faxprocessor.js:15-31 | a run whose jobs and moves all succeed resolves; it claims every listed row and each call file ends up in the spool with its job's template |
| BatchFacts.MovedFileIsGone | faxprocessor.js:49 | once the moves have succeeded, the source of each is gone, unless another move targets it |
| BatchFacts.RepeatedMoveFails | faxprocessor.js:24-26 | a path listed twice cannot be moved twice; some move fails |
| BatchFacts.ResolvedBatchCalls | faxprocessor.js:23-24 | when no job failed, the second stage moves the call-file paths of the listed faxes, in order |
| BatchFacts.RepeatedCallFileRejects | faxprocessor.js:23-29 | the run rejects when the second stage has to move one path twice |
| BatchFacts.FaultedMoveFails | faxprocessor.js:49-51 | a rename that fails yields its RenameError, whatever the other moves do |
| BatchFacts.FaultedCallFileRejects | faxprocessor.js:23-29 | the second stage rejects when one of its renames fails |
| BatchFacts.FaultedRenameRejectsBatch | faxprocessor.js:15-31 | a failed rename of any job's call file rejects the whole run, even when every job succeeded |
| BatchFacts.SameNameFailsBatch | faxprocessor.js:15-31 | two queued faxes with the same file name make the run reject, even when every job succeeds |
| UpdateAsWritten.UpdateFaxStateAsWritten | faxprocessor.js:104-115 | the update as written rejects for every row and changes nothing; AsWrittenUpdateNeverCommits states it |
| UpdateAsWritten.AsWrittenUpdateNeverCommits | faxprocessor.js:102-117 | the update as written behaves as a transaction that always rolls back; the intended one changes the row when it commits |
| UpdateAsWritten.FailedClaimsChangeNothing | faxprocessor.js:67 | when every claim fails, every job rejects with its claim error and neither table nor files change |
| UpdateAsWritten.AsWrittenBatchRejects | faxprocessor.js:104-115 | as written, a run that finds a pending fax rejects and leaves table and files unchanged |
| Processor.FaxProcessor.constructor | faxprocessor.js:8-13 | the processor keeps the server name and the outgoing and incoming directories it is given |
| Processor.FaxProcessor.CheckOutgoingFaxes | faxprocessor.js:33-44 | rejects exactly when the select fails; otherwise lists each row in state 'created' whose iaxfriends name is this server's once, with its selected columns |
| Processor.FaxProcessor.UpdateFaxState | faxprocessor.js:102-117 | the table after the call is the intended update of the row, or unchanged when the transaction rolls back; the files are untouched |
| Processor.FaxProcessor.WriteFaxPdf | faxprocessor.js:84-100 | result and files are those of the name check and write; the table is untouched |
| Processor.FaxProcessor.ConvertPdfToTiff | faxprocessor.js:119-131 | result and files are those of the conversion to the rewritten path; the table is untouched |
| Processor.FaxProcessor.GenerateCallFile | faxprocessor.js:133-175 | result and files are those of the lookup and the call-file write; the table is untouched |
| Processor.FaxProcessor.ProcessOutgoingFax | faxprocessor.js:59-82 | result, table and files are those of the four steps run in order, stopping at the first failure |
| Processor.FaxProcessor.SendFax | faxprocessor.js:46-57 | the call file is moved to the spool under its basename, or the call rejects and nothing changes |
| Processor.FaxProcessor.ProcessAndSendPendingFaxes | faxprocessor.js:15-31 | a failing select rejects with nothing changed; otherwise the list selected is the pending rows, and result and state are those of processing all of them, then moving every call file when all resolved |

## Left out

- server.js is not part of this model. That covers the database
  configuration, the heartbeat, crash handling, the timer loop and the
  "upstream" hostname gate. Its call `new FaxProcessor(ownServerName, knex)`
  passes two arguments to a constructor that takes four, so the outgoing
  directory it sets is `knex` and the handle is missing. The model's
  constructor takes every value.
- The knex handle becomes the three tables a run reads or writes:
  `faxes_outgoing` as a map from id to row, `iaxfriends` as a map from id to
  name, and `trunk_numbers` as a list of rows.
- `is_fax = 'yes'` is a boolean column in the model. The database's collation
  and type coercion are not modelled.
- NULL columns are not modelled; the columns are strings here.
  - A NULL `full_number`, `ps_endpoints_id` or `to` would be rendered as
    "null" in the call file.
  - A NULL `filename` makes `toLowerCase` throw, so the job would reject after
    its claim.
- The database returns the pending rows in an order it chooses.
  `CheckOutgoingFaxes` picks them in some order, and every property holds for
  any order.
- Real I/O is not modelled: `fs.writeFile`, `fs.rename` and the ghostscript
  child process.
  - A file is a map entry whose content names what it holds: the PDF data,
    the TIFF rendered from those data, or the call file as the values filled
    into its template. `CallFile.CallFileText` gives its text from those
    values.
  - Each operation either completes or fails as a whole. Partial writes,
    permissions and disk space are left out.
  - The gs command line is not modelled, including how a shell splits paths
    that hold spaces. Only the output path and success or failure remain.
- Processor.FaxProcessor.ProcessAndSendPendingFaxes models `Promise.all`
  sequentially, in list order.
  - Concurrent jobs can interleave their writes in ways the model does not
    show.
  - When several jobs fail, the error reported is the first in list order.
    The source reports whichever rejection comes first in time.
  - The run's promise rejects as soon as the first job rejects, while the
    other jobs are still running. The model's state after a rejected run is
    the state once every job has finished.
- `toLowerCase` is modelled for the ASCII letters only.
- `path.join` normalises "." and ".." segments. The spool target is modelled
  as the spool directory followed by the basename. It differs only for a call
  file whose basename is empty, "." or "..". A file name without '/' never
  gives such a basename.
- FaxPaths.SpoolTarget: a file name holding '/' passes the name check. Its
  call file's basename can then be ".." (from "a.pdf/.." the call file is
  "a.call/.."), and the model's target is not the path `path.join` gives.
  Such names are not excluded, and the write and rename of those paths are
  modelled as for any other path. `FaxPaths.SlashNameEndsInParent` states
  this case.
- `console.log` is not modelled.
- What the code does not do, and so the model does not either:
  - The header value is inserted without escaping ';'.
  - Without a header, the text ends with a newline and an empty line; the
    line is not left out.
  - No `processed` state is ever written.
  - The call file has no RetryTime and no Archive line.
  - Whitespace in derived file names is not replaced with underscores.
  - The owner of a moved call file is not changed.
- `faxDirectoryIn` is stored and never used. The incoming fax path is not in
  this code.

## Findings

| source | as written | input that shows it | evidently intended | confidence | as-written member | corrected member |
|---|---|---|---|---|---|---|
| faxprocessor.js:110 | the update names its table with the identifier `faxes_outgoing`, which is declared nowhere; evaluating it throws a ReferenceError inside the transaction handler, so the transaction rejects and `updateFaxState` never changes a row | any pending row: the first step of every job rejects, the batch rejects, and the row stays `created` for every later run | the table name as a string, `'faxes_outgoing'`, so that the row's state is set and the transaction commits | high; not executed | UpdateAsWritten.AsWrittenBatchRejects | BatchFacts.BatchLeavesOnlyFailedClaimsPending |
