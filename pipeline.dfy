/** The outgoing fax path of FaxProcessor as functions of the state it
    changes: the faxes_outgoing table and the files on disk. External steps
    (the transaction, fs.writeFile, ghostscript, fs.rename, the selects)
    fail when the set of faults a run meets names them; besides, ghostscript
    fails when its input is not a PDF on disk, and fs.rename when its source
    is gone. */
module Pipeline {
  import opened FaxTypes
  import opened Text
  import opened FaxPaths
  import opened CallFile

  const Created := "created"
  const Processing := "processing"

  /** A row of faxes_outgoing. */
  datatype FaxRow = FaxRow(
    faxData: seq<bv8>,
    filename: string,
    outgoingNumberId: nat,
    to: string,
    iaxfriendsId: nat,
    state: string)

  /** The columns checkOutgoingFaxes selects for one fax. */
  datatype PendingFax = PendingFax(
    id: nat,
    faxData: seq<bv8>,
    filename: string,
    outgoingNumberId: nat,
    to: string)

  /** What a file holds: the PDF written from fax_data, the TIFF ghostscript
      renders from a PDF, or a call file, held as the values filled into the
      template (its text is `CallFileText` of those values). */
  datatype Content =
    | Pdf(data: seq<bv8>)
    | Tiff(source: seq<bv8>)
    | Call(receiver: string, trunk: string, fullNumber: string, faxId: nat, tiffFile: string, ppid: Option<string>)

  /** The state a run changes. */
  datatype World = World(jobs: map<nat, FaxRow>, files: map<string, Content>)

  /** What a run only reads: the server name and outgoing directory
      FaxProcessor is built with, iaxfriends (id to name) and trunk_numbers. */
  datatype Config = Config(
    serverName: string,
    faxDirectoryOut: string,
    friends: map<nat, string>,
    trunks: seq<TrunkNumber>)

  /** The select's filter: state 'created' and, through the inner join, an
      iaxfriends row whose name is this server's. */
  predicate IsPending(cfg: Config, jobs: map<nat, FaxRow>, id: nat) {
    && id in jobs
    && jobs[id].state == Created
    && jobs[id].iaxfriendsId in cfg.friends
    && cfg.friends[jobs[id].iaxfriendsId] == cfg.serverName
  }

  function PendingIds(cfg: Config, jobs: map<nat, FaxRow>): set<nat> {
    set id | id in jobs && IsPending(cfg, jobs, id)
  }

  function Selected(id: nat, row: FaxRow): PendingFax {
    PendingFax(id, row.faxData, row.filename, row.outgoingNumberId, row.to)
  }

  function Ids(faxes: seq<PendingFax>): set<nat> {
    set k | 0 <= k < |faxes| :: faxes[k].id
  }

  /** What checkOutgoingFaxes resolves with: each pending row once, in an
      order the database chooses. */
  predicate IsPendingList(cfg: Config, jobs: map<nat, FaxRow>, faxes: seq<PendingFax>) {
    && (forall k, l :: 0 <= k < l < |faxes| ==> faxes[k].id != faxes[l].id)
    && (forall k :: 0 <= k < |faxes| ==>
          faxes[k].id in jobs && faxes[k] == Selected(faxes[k].id, jobs[faxes[k].id]))
    && Ids(faxes) == PendingIds(cfg, jobs)
  }

  /** updateFaxState: one transaction setting the state of row `id`; a
      rolled-back transaction leaves the table as it was, and an update that
      matches no row changes nothing. */
  function UpdateFaxState(jobs: map<nat, FaxRow>, id: nat, state: string, faults: set<Fault>)
    : (Result<(), FaxError>, map<nat, FaxRow>)
  {
    if TransactionFault(id) in faults then (Err(TransactionFailed(id)), jobs)
    else if id in jobs then (Ok(()), jobs[id := jobs[id].(state := state)])
    else (Ok(()), jobs)
  }

  /** writeFaxPDF: the name check, then the PDF written to the outgoing
      directory. */
  function WriteFaxPdf(cfg: Config, files: map<string, Content>, data: seq<bv8>, filename: string, faults: set<Fault>)
    : (Result<string, FaxError>, map<string, Content>)
  {
    if !IsPdfName(filename) then (Err(OnlyPdf), files)
    else
      var dest := PdfPath(cfg.faxDirectoryOut, filename);
      if WriteFault(dest) in faults then (Err(WriteError(dest)), files)
      else (Ok(dest), files[dest := Pdf(data)])
  }

  /** convertPDFToTiff: ghostscript renders the PDF into the derived TIFF
      path; it fails on a missing or non-PDF input or when the process fails. */
  function ConvertPdfToTiff(files: map<string, Content>, pdfFile: string, faults: set<Fault>)
    : (Result<string, FaxError>, map<string, Content>)
  {
    var dest := TiffPath(pdfFile);
    if ConvertFault(pdfFile) in faults || pdfFile !in files || !files[pdfFile].Pdf? then
      (Err(ConversionError(pdfFile)), files)
    else (Ok(dest), files[dest := Tiff(files[pdfFile].data)])
  }

  /** generateCallFile: the trunk-number lookup, then the call file written
      at the TIFF path with its first ".tiff" rewritten to ".call". */
  function GenerateCallFile(
    cfg: Config, files: map<string, Content>, numberId: nat, faxId: nat,
    tiffFile: string, receiver: string, faults: set<Fault>)
    : (Result<string, FaxError>, map<string, Content>)
  {
    if LookupFault(numberId) in faults then (Err(QueryError), files)
    else match LookupFaxNumber(cfg.trunks, numberId)
      case Err(e) => (Err(e), files)
      case Ok(t) =>
        var dest := CallPath(tiffFile);
        if WriteFault(dest) in faults then (Err(WriteError(dest)), files)
        else (Ok(dest), files[dest := Call(receiver, t.endpoint, t.fullNumber, faxId, tiffFile, t.headerPpid)])
  }

  /** processOutgoingFax: the four steps in order, the first failure ending
      the job. */
  function ProcessOutgoingFax(cfg: Config, w: World, fax: PendingFax, faults: set<Fault>)
    : (Result<string, FaxError>, World)
  {
    var (u, jobs) := UpdateFaxState(w.jobs, fax.id, Processing, faults);
    if u.Err? then (Err(u.error), World(jobs, w.files))
    else
      var (pdf, f1) := WriteFaxPdf(cfg, w.files, fax.faxData, fax.filename, faults);
      if pdf.Err? then (Err(pdf.error), World(jobs, f1))
      else
        var (tiff, f2) := ConvertPdfToTiff(f1, pdf.value, faults);
        if tiff.Err? then (Err(tiff.error), World(jobs, f2))
        else
          var (call, f3) := GenerateCallFile(cfg, f2, fax.outgoingNumberId, fax.id, tiff.value, fax.to, faults);
          (call, World(jobs, f3))
  }

  /** Every claimed fax processed, one after the other; a failure does not
      stop the others (Promise.all does not cancel its siblings). */
  function ProcessAll(cfg: Config, w: World, faxes: seq<PendingFax>, faults: set<Fault>)
    : (r: (seq<Result<string, FaxError>>, World))
    ensures |r.0| == |faxes|
    decreases |faxes|
  {
    if faxes == [] then ([], w)
    else
      var (rs, w1) := ProcessAll(cfg, w, faxes[..|faxes| - 1], faults);
      var (r, w2) := ProcessOutgoingFax(cfg, w1, faxes[|faxes| - 1], faults);
      (rs + [r], w2)
  }

  /** sendFax: the call file moved into the Asterisk spool under its
      basename; it fails when the rename fails or the call file is gone. */
  function SendFax(files: map<string, Content>, callFile: string, faults: set<Fault>)
    : (Result<(), FaxError>, map<string, Content>)
  {
    if RenameFault(callFile) in faults || callFile !in files then (Err(RenameError(callFile)), files)
    else (Ok(()), (files - {callFile})[SpoolTarget(callFile) := files[callFile]])
  }

  /** Every call file moved, one after the other; a failure does not stop
      the others. */
  function SendAll(files: map<string, Content>, callFiles: seq<string>, faults: set<Fault>)
    : (r: (seq<Result<(), FaxError>>, map<string, Content>))
    ensures |r.0| == |callFiles|
    decreases |callFiles|
  {
    if callFiles == [] then ([], files)
    else
      var (rs, f1) := SendAll(files, callFiles[..|callFiles| - 1], faults);
      var (r, f2) := SendFax(f1, callFiles[|callFiles| - 1], faults);
      (rs + [r], f2)
  }

  /** The error Promise.all rejects with, if any of the results is one. */
  function FirstError<T>(rs: seq<Result<T, FaxError>>): (r: Option<FaxError>)
    ensures r.None? <==> forall k :: 0 <= k < |rs| ==> rs[k].Ok?
    ensures r.Some? ==> exists k :: 0 <= k < |rs| && rs[k].Err? && rs[k].error == r.value
    decreases |rs|
  {
    if rs == [] then None
    else if rs[0].Err? then Some(rs[0].error)
    else
      var r := FirstError(rs[1..]);
      assert r.Some? ==> exists k :: 1 <= k < |rs| && rs[k].Err? && rs[k].error == r.value by {
        if r.Some? {
          var k :| 0 <= k < |rs[1..]| && rs[1..][k].Err? && rs[1..][k].error == r.value;
          assert rs[k + 1] == rs[1..][k];
        }
      }
      assert (forall k :: 0 <= k < |rs[1..]| ==> rs[1..][k].Ok?) ==> forall k :: 0 <= k < |rs| ==> rs[k].Ok? by {
        if forall k :: 0 <= k < |rs[1..]| ==> rs[1..][k].Ok? {
          forall k | 1 <= k < |rs| ensures rs[k].Ok? {
            assert rs[k] == rs[1..][k - 1];
          }
        }
      }
      r
  }

  function CallFiles(rs: seq<Result<string, FaxError>>): (r: seq<string>)
    requires forall k :: 0 <= k < |rs| ==> rs[k].Ok?
    ensures |r| == |rs| && forall k :: 0 <= k < |rs| ==> r[k] == rs[k].value
  {
    seq(|rs|, k requires 0 <= k < |rs| => rs[k].value)
  }

  /** The second stage of processAndSendPendingFaxes: it runs only when
      every job resolved, and then moves every call file; any failure
      rejects. */
  function SendCallFiles(rs: seq<Result<string, FaxError>>, w: World, faults: set<Fault>)
    : (Result<(), FaxError>, World)
  {
    match FirstError(rs)
    case Some(e) => (Err(e), w)
    case None =>
      var (sent, files) := SendAll(w.files, CallFiles(rs), faults);
      match FirstError(sent)
      case Some(e) => (Err(e), World(w.jobs, files))
      case None => (Ok(()), World(w.jobs, files))
  }

  /** processAndSendPendingFaxes once the select has resolved: every claimed
      fax is processed, then the call files are moved. */
  function ProcessAndSend(cfg: Config, w: World, faxes: seq<PendingFax>, faults: set<Fault>)
    : (Result<(), FaxError>, World)
  {
    var (rs, w1) := ProcessAll(cfg, w, faxes, faults);
    SendCallFiles(rs, w1, faults)
  }

  /** The files a job derives from its row: the PDF at the outgoing
      directory followed by the file name, the TIFF at that path with its
      first ".pdf" (in any case) rewritten, and the call file at the TIFF
      path with its first ".tiff" rewritten. */
  function PdfOf(cfg: Config, fax: PendingFax): string {
    PdfPath(cfg.faxDirectoryOut, fax.filename)
  }

  function TiffOf(cfg: Config, fax: PendingFax): string {
    TiffPath(PdfOf(cfg, fax))
  }

  function CallOf(cfg: Config, fax: PendingFax): string {
    CallPath(TiffOf(cfg, fax))
  }

  /** The call file of a job that goes out on trunk number `t`. */
  function JobCall(cfg: Config, fax: PendingFax, t: TrunkNumber): Content {
    Call(fax.to, t.endpoint, t.fullNumber, fax.id, TiffOf(cfg, fax), t.headerPpid)
  }

  /** The outcome of one job read off its row and the faults alone: the
      first step that fails decides the error, and a job whose steps all
      succeed resolves with its call-file path. */
  function ExpectedOutcome(cfg: Config, fax: PendingFax, faults: set<Fault>): Result<string, FaxError> {
    if TransactionFault(fax.id) in faults then Err(TransactionFailed(fax.id))
    else if !IsPdfName(fax.filename) then Err(OnlyPdf)
    else if WriteFault(PdfOf(cfg, fax)) in faults then Err(WriteError(PdfOf(cfg, fax)))
    else if ConvertFault(PdfOf(cfg, fax)) in faults then Err(ConversionError(PdfOf(cfg, fax)))
    else if LookupFault(fax.outgoingNumberId) in faults then Err(QueryError)
    else if !ExactlyOneFaxNumber(cfg.trunks, fax.outgoingNumberId) then Err(NoFaxNumber)
    else if WriteFault(CallOf(cfg, fax)) in faults then Err(WriteError(CallOf(cfg, fax)))
    else Ok(CallOf(cfg, fax))
  }

  /** Path `p` is present in `after` exactly when it was in `before`, with
      the same content. */
  predicate Unchanged(before: map<string, Content>, after: map<string, Content>, p: string) {
    (p in before <==> p in after) && (p in before ==> after[p] == before[p])
  }

  /** The table once every listed fax has been claimed: a listed row whose
      transaction commits is 'processing', every other row is as it was. */
  function Claimed(jobs: map<nat, FaxRow>, faxes: seq<PendingFax>, faults: set<Fault>): map<nat, FaxRow> {
    map id | id in jobs ::
      if id in Ids(faxes) && TransactionFault(id) !in faults then jobs[id].(state := Processing) else jobs[id]
  }
}
