/** The FaxProcessor class: the server name and outgoing directory it is
    built with, and the database rows and files its methods change. Each
    method is proved to do what the matching function of Pipeline says. */
module Processor {
  import opened FaxTypes
  import opened CallFile
  import opened Pipeline

  class FaxProcessor {
    const serverName: string
    const faxDirectoryOut: string
    const faxDirectoryIn: string

    /** The tables reached through knex: faxes_outgoing, which the processor
        updates, and iaxfriends and trunk_numbers, which it only reads. */
    var jobs: map<nat, FaxRow>
    const friends: map<nat, string>
    const trunks: seq<TrunkNumber>

    /** The filesystem the processor writes to. */
    var files: map<string, Content>

    function Conf(): Config {
      Config(serverName, faxDirectoryOut, friends, trunks)
    }

    function Current(): World
      reads this
    {
      World(jobs, files)
    }

    constructor(
      serverName: string, faxDirectoryOut: string, faxDirectoryIn: string,
      jobs: map<nat, FaxRow>, friends: map<nat, string>, trunks: seq<TrunkNumber>,
      files: map<string, Content>)
      ensures this.serverName == serverName && this.faxDirectoryOut == faxDirectoryOut
      ensures this.faxDirectoryIn == faxDirectoryIn
      ensures this.jobs == jobs && this.friends == friends && this.trunks == trunks
      ensures this.files == files
    {
      this.serverName := serverName;
      this.faxDirectoryOut := faxDirectoryOut;
      this.faxDirectoryIn := faxDirectoryIn;
      this.jobs := jobs;
      this.friends := friends;
      this.trunks := trunks;
      this.files := files;
    }

    /** checkOutgoingFaxes: the rows in state 'created' whose iaxfriends row
        carries this server's name, each once, in the order the database
        hands them out. */
    method CheckOutgoingFaxes(faults: set<Fault>) returns (r: Result<seq<PendingFax>, FaxError>)
      ensures r.Err? <==> SelectFault in faults
      ensures r.Err? ==> r.error == QueryError
      ensures r.Ok? ==> IsPendingList(Conf(), jobs, r.value)
    {
      if SelectFault in faults {
        return Err(QueryError);
      }
      var pending := PendingIds(Conf(), jobs);
      var left := pending;
      var faxes: seq<PendingFax> := [];
      while left != {}
        invariant left <= pending
        invariant Ids(faxes) + left == pending
        invariant Ids(faxes) !! left
        invariant forall k, l :: 0 <= k < l < |faxes| ==> faxes[k].id != faxes[l].id
        invariant forall k :: 0 <= k < |faxes| ==>
          faxes[k].id in jobs && faxes[k] == Selected(faxes[k].id, jobs[faxes[k].id])
        decreases left
      {
        var id :| id in left;
        var row := Selected(id, jobs[id]);
        assert Ids(faxes + [row]) == Ids(faxes) + {id} by {
          assert forall k :: 0 <= k < |faxes| ==> (faxes + [row])[k] == faxes[k];
          assert (faxes + [row])[|faxes|] == row;
        }
        faxes := faxes + [row];
        left := left - {id};
      }
      return Ok(faxes);
    }

    /** updateFaxState, with the table name the query evidently means. */
    method UpdateFaxState(id: nat, state: string, faults: set<Fault>) returns (r: Result<(), FaxError>)
      modifies this
      ensures (r, jobs) == Pipeline.UpdateFaxState(old(jobs), id, state, faults)
      ensures files == old(files)
    {
      if TransactionFault(id) in faults {
        return Err(TransactionFailed(id));
      }
      if id in jobs {
        jobs := jobs[id := jobs[id].(state := state)];
      }
      return Ok(());
    }

    method WriteFaxPdf(pdfData: seq<bv8>, filename: string, faults: set<Fault>) returns (r: Result<string, FaxError>)
      modifies this
      ensures (r, files) == Pipeline.WriteFaxPdf(Conf(), old(files), pdfData, filename, faults)
      ensures jobs == old(jobs)
    {
      if !FaxPaths.IsPdfName(filename) {
        return Err(OnlyPdf);
      }
      var destination := FaxPaths.PdfPath(faxDirectoryOut, filename);
      if WriteFault(destination) in faults {
        return Err(WriteError(destination));
      }
      files := files[destination := Pdf(pdfData)];
      return Ok(destination);
    }

    method ConvertPdfToTiff(pdfFile: string, faults: set<Fault>) returns (r: Result<string, FaxError>)
      modifies this
      ensures (r, files) == Pipeline.ConvertPdfToTiff(old(files), pdfFile, faults)
      ensures jobs == old(jobs)
    {
      var destination := FaxPaths.TiffPath(pdfFile);
      if ConvertFault(pdfFile) in faults || pdfFile !in files || !files[pdfFile].Pdf? {
        return Err(ConversionError(pdfFile));
      }
      files := files[destination := Tiff(files[pdfFile].data)];
      return Ok(destination);
    }

    method GenerateCallFile(numberId: nat, faxId: nat, tiffFile: string, receiver: string, faults: set<Fault>)
      returns (r: Result<string, FaxError>)
      modifies this
      ensures (r, files) == Pipeline.GenerateCallFile(Conf(), old(files), numberId, faxId, tiffFile, receiver, faults)
      ensures jobs == old(jobs)
    {
      if LookupFault(numberId) in faults {
        return Err(QueryError);
      }
      var number := LookupFaxNumber(trunks, numberId);
      if number.Err? {
        return Err(number.error);
      }
      var t := number.value;
      var callFilePath := FaxPaths.CallPath(tiffFile);
      if WriteFault(callFilePath) in faults {
        return Err(WriteError(callFilePath));
      }
      files := files[callFilePath := Call(receiver, t.endpoint, t.fullNumber, faxId, tiffFile, t.headerPpid)];
      return Ok(callFilePath);
    }

    /** processOutgoingFax: the four steps in order; the first that fails
        settles the job. */
    method ProcessOutgoingFax(fax: PendingFax, faults: set<Fault>) returns (r: Result<string, FaxError>)
      modifies this
      ensures (r, Current()) == Pipeline.ProcessOutgoingFax(Conf(), old(Current()), fax, faults)
    {
      var updated := UpdateFaxState(fax.id, Processing, faults);
      if updated.Err? {
        return Err(updated.error);
      }
      var pdfFile := WriteFaxPdf(fax.faxData, fax.filename, faults);
      if pdfFile.Err? {
        return pdfFile;
      }
      var tiffFile := ConvertPdfToTiff(pdfFile.value, faults);
      if tiffFile.Err? {
        return tiffFile;
      }
      r := GenerateCallFile(fax.outgoingNumberId, fax.id, tiffFile.value, fax.to, faults);
    }

    /** sendFax: the call file moved into the Asterisk spool. */
    method SendFax(callFile: string, faults: set<Fault>) returns (r: Result<(), FaxError>)
      modifies this
      ensures (r, files) == Pipeline.SendFax(old(files), callFile, faults)
      ensures jobs == old(jobs)
    {
      if RenameFault(callFile) in faults || callFile !in files {
        return Err(RenameError(callFile));
      }
      files := (files - {callFile})[FaxPaths.SpoolTarget(callFile) := files[callFile]];
      return Ok(());
    }

    /** processAndSendPendingFaxes: select the pending faxes, process every
        one of them, and, when all succeeded, move every call file. The list
        the select returned is given back as `claimed`. */
    method ProcessAndSendPendingFaxes(faults: set<Fault>) returns (r: Result<(), FaxError>, ghost claimed: seq<PendingFax>)
      modifies this
      ensures SelectFault in faults ==> r == Err(QueryError) && Current() == old(Current())
      ensures SelectFault !in faults ==>
        && IsPendingList(Conf(), old(jobs), claimed)
        && (r, Current()) == ProcessAndSend(Conf(), old(Current()), claimed, faults)
    {
      var pending := CheckOutgoingFaxes(faults);
      if pending.Err? {
        return Err(pending.error), [];
      }
      var faxes := pending.value;
      claimed := faxes;
      ghost var start := Current();
      var results: seq<Result<string, FaxError>> := [];
      var i := 0;
      while i < |faxes|
        invariant 0 <= i <= |faxes|
        invariant (results, Current()) == ProcessAll(Conf(), start, faxes[..i], faults)
      {
        assert faxes[..i + 1][..i] == faxes[..i];
        var result := ProcessOutgoingFax(faxes[i], faults);
        results := results + [result];
        i := i + 1;
      }
      assert faxes[..i] == faxes;
      ghost var processed := Current();
      var failure := FirstError(results);
      if failure.Some? {
        return Err(failure.value), claimed;
      }
      var callFiles := CallFiles(results);
      var sent: seq<Result<(), FaxError>> := [];
      var j := 0;
      while j < |callFiles|
        invariant 0 <= j <= |callFiles|
        invariant jobs == processed.jobs
        invariant (sent, files) == SendAll(processed.files, callFiles[..j], faults)
      {
        assert callFiles[..j + 1][..j] == callFiles[..j];
        var moved := SendFax(callFiles[j], faults);
        sent := sent + [moved];
        j := j + 1;
      }
      assert callFiles[..j] == callFiles;
      failure := FirstError(sent);
      if failure.Some? {
        return Err(failure.value), claimed;
      }
      return Ok(()), claimed;
    }
  }
}
