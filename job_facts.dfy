/** What one run of processOutgoingFax does: the outcome it settles with,
    the one row it claims and the files it leaves behind. */
module JobFacts {
  import opened FaxTypes
  import opened FaxPaths
  import opened CallFile
  import opened Pipeline

  /** A job settles as its row and the faults dictate, whatever files
      exist beforehand: the PDF it converts is always the one it has just
      written, and the lookup succeeds exactly when one trunk number fits. */
  lemma JobOutcome(cfg: Config, w: World, fax: PendingFax, faults: set<Fault>)
    ensures ProcessOutgoingFax(cfg, w, fax, faults).0 == ExpectedOutcome(cfg, fax, faults)
  {
    LookupSucceedsIffExactlyOne(cfg.trunks, fax.outgoingNumberId);
  }

  /** The job changes only its own row, and of it only the state, to
      'processing', and only when the transaction commits; no other row is
      added or removed. */
  lemma JobClaimsOnlyItsRow(cfg: Config, w: World, fax: PendingFax, faults: set<Fault>)
    ensures var w' := ProcessOutgoingFax(cfg, w, fax, faults).1;
      && w'.jobs.Keys == w.jobs.Keys
      && (forall id :: id in w.jobs && id != fax.id ==> w'.jobs[id] == w.jobs[id])
      && (fax.id in w.jobs ==>
            w'.jobs[fax.id] ==
              if TransactionFault(fax.id) in faults then w.jobs[fax.id]
              else w.jobs[fax.id].(state := Processing))
  {
  }

  /** The job writes at most its three derived files. */
  lemma JobFrame(cfg: Config, w: World, fax: PendingFax, faults: set<Fault>)
    ensures var w' := ProcessOutgoingFax(cfg, w, fax, faults).1;
      forall p :: p != PdfOf(cfg, fax) && p != TiffOf(cfg, fax) && p != CallOf(cfg, fax) ==>
        Unchanged(w.files, w'.files, p)
  {
    WriteStep(cfg, w.files, fax.faxData, fax.filename, faults);
    var f1 := WriteFaxPdf(cfg, w.files, fax.faxData, fax.filename, faults).1;
    ConvertStep(f1, PdfOf(cfg, fax), faults);
    var f2 := ConvertPdfToTiff(f1, PdfOf(cfg, fax), faults).1;
    GenerateStep(cfg, f2, fax.outgoingNumberId, fax.id, TiffOf(cfg, fax), fax.to, faults);
  }

  /** writeFaxPDF rejects with 'Only handling .pdf files' exactly when the
      name check fails; a rejected write leaves the files alone, and a
      successful one puts the data at the directory followed by the name
      and touches no other path. */
  lemma WriteStep(cfg: Config, files: map<string, Content>, data: seq<bv8>, filename: string, faults: set<Fault>)
    ensures var (r, f) := WriteFaxPdf(cfg, files, data, filename, faults);
      && (r == Err(OnlyPdf) <==> !IsPdfName(filename))
      && (!IsPdfName(filename) ==> Message(r.error) == Some("Only handling .pdf files"))
      && (r.Err? ==> f == files)
      && (r.Ok? ==> r.value == cfg.faxDirectoryOut + filename && f[r.value] == Pdf(data))
      && forall p :: p != PdfPath(cfg.faxDirectoryOut, filename) ==> Unchanged(files, f, p)
  {
  }

  /** convertPDFToTiff resolves with the rewritten path, holding the
      rendering of the PDF it read, and touches no other path. */
  lemma ConvertStep(files: map<string, Content>, pdfFile: string, faults: set<Fault>)
    ensures var (r, f) := ConvertPdfToTiff(files, pdfFile, faults);
      && (r.Err? ==> r.error == ConversionError(pdfFile) && f == files)
      && (r.Ok? ==> r.value == TiffPath(pdfFile) && pdfFile in files && f[r.value] == Tiff(files[pdfFile].data))
      && forall p :: p != TiffPath(pdfFile) ==> Unchanged(files, f, p)
  {
  }

  /** generateCallFile fails without a single fax number, and otherwise
      writes the call file only at the rewritten path. */
  lemma GenerateStep(
    cfg: Config, files: map<string, Content>, numberId: nat, faxId: nat,
    tiffFile: string, receiver: string, faults: set<Fault>)
    ensures var (r, f) := GenerateCallFile(cfg, files, numberId, faxId, tiffFile, receiver, faults);
      && (r.Err? ==> f == files)
      && (LookupFault(numberId) !in faults && !ExactlyOneFaxNumber(cfg.trunks, numberId) ==>
            r == Err(NoFaxNumber) && Message(r.error) == Some("Could not find outgoing fax number to use"))
      && (r.Ok? ==> r.value == CallPath(tiffFile) && ExactlyOneFaxNumber(cfg.trunks, numberId))
      && forall p :: p != CallPath(tiffFile) ==> Unchanged(files, f, p)
  {
    LookupSucceedsIffExactlyOne(cfg.trunks, numberId);
  }

  /** Nothing is written when the claim fails or the name is refused. */
  lemma JobRefusedWritesNothing(cfg: Config, w: World, fax: PendingFax, faults: set<Fault>)
    requires TransactionFault(fax.id) in faults || !IsPdfName(fax.filename)
    ensures ProcessOutgoingFax(cfg, w, fax, faults).1.files == w.files
  {
  }

  /** What an earlier step wrote stays when a later step fails, and nothing
      after the failing step is written: a failed PDF write leaves the files
      as they were, a failed conversion leaves the PDF, and a failed lookup
      or call-file write leaves the PDF and the TIFF. */
  lemma JobFailureLeavesEarlierFiles(cfg: Config, w: World, fax: PendingFax, faults: set<Fault>)
    ensures var (r, w') := ProcessOutgoingFax(cfg, w, fax, faults);
      && (r == Err(WriteError(PdfOf(cfg, fax))) ==> w'.files == w.files)
      && (r.Err? && r.error.ConversionError? ==>
            w'.files == w.files[PdfOf(cfg, fax) := Pdf(fax.faxData)])
      && (r.Err? && (r.error == QueryError || r.error == NoFaxNumber) ==>
            w'.files == w.files[PdfOf(cfg, fax) := Pdf(fax.faxData)][TiffOf(cfg, fax) := Tiff(fax.faxData)])
      && (r == Err(WriteError(CallOf(cfg, fax))) && TransactionFault(fax.id) !in faults
          && IsPdfName(fax.filename) && WriteFault(PdfOf(cfg, fax)) !in faults ==>
            w'.files == w.files[PdfOf(cfg, fax) := Pdf(fax.faxData)][TiffOf(cfg, fax) := Tiff(fax.faxData)])
  {
  }

  /** A job that succeeds leaves the PDF, the TIFF rendered from it and the
      call file for its trunk number, and nothing else changes. */
  lemma JobSuccessFiles(cfg: Config, w: World, fax: PendingFax, faults: set<Fault>)
    ensures var (r, w') := ProcessOutgoingFax(cfg, w, fax, faults);
      r.Ok? ==>
        && LookupFaxNumber(cfg.trunks, fax.outgoingNumberId).Ok?
        && w'.files == w.files[PdfOf(cfg, fax) := Pdf(fax.faxData)]
                              [TiffOf(cfg, fax) := Tiff(fax.faxData)]
                              [CallOf(cfg, fax) := JobCall(cfg, fax, LookupFaxNumber(cfg.trunks, fax.outgoingNumberId).value)]
  {
  }

  /** The job resolves with the call-file path derived from its row name
      and writes there the call file for the one trunk number found. */
  lemma JobResolvesWithCallFile(cfg: Config, w: World, fax: PendingFax, faults: set<Fault>)
    requires ExpectedOutcome(cfg, fax, faults).Ok?
    ensures var (r, w') := ProcessOutgoingFax(cfg, w, fax, faults);
      && r == Ok(CallOf(cfg, fax))
      && exists t :: t in cfg.trunks && IsFaxNumber(t, fax.outgoingNumberId)
           && CallOf(cfg, fax) in w'.files && w'.files[CallOf(cfg, fax)] == JobCall(cfg, fax, t)
  {
    JobOutcome(cfg, w, fax, faults);
    JobSuccessFiles(cfg, w, fax, faults);
  }
}
