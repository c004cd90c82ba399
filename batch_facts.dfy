/** What processAndSendPendingFaxes does with the list of claimed faxes:
    the outcome of every job, the rows it claims, the files it moves into
    the spool and when the batch rejects. */
module BatchFacts {
  import opened FaxTypes
  import opened FaxPaths
  import opened CallFile
  import opened Pipeline
  import opened JobFacts

  /** Each fax of the batch settles as it would alone: neither the other
      faxes nor their order change its outcome. */
  lemma {:induction false} ProcessAllOutcomes(cfg: Config, w: World, faxes: seq<PendingFax>, faults: set<Fault>)
    ensures forall k :: 0 <= k < |faxes| ==>
      ProcessAll(cfg, w, faxes, faults).0[k] == ExpectedOutcome(cfg, faxes[k], faults)
    decreases |faxes|
  {
    if faxes != [] {
      var n := |faxes| - 1;
      var (rs, w1) := ProcessAll(cfg, w, faxes[..n], faults);
      ProcessAllOutcomes(cfg, w, faxes[..n], faults);
      JobOutcome(cfg, w1, faxes[n], faults);
      var all := ProcessAll(cfg, w, faxes, faults).0;
      assert all == rs + [ProcessOutgoingFax(cfg, w1, faxes[n], faults).0];
      forall k | 0 <= k < |faxes| ensures all[k] == ExpectedOutcome(cfg, faxes[k], faults) {
        if k < n {
          assert faxes[k] == faxes[..n][k];
        }
      }
    }
  }

  lemma IdsOfPrefix(faxes: seq<PendingFax>)
    requires faxes != []
    ensures Ids(faxes) == Ids(faxes[..|faxes| - 1]) + {faxes[|faxes| - 1].id}
  {
    var n := |faxes| - 1;
    forall id | id in Ids(faxes) ensures id in Ids(faxes[..n]) + {faxes[n].id} {
      var k :| 0 <= k < |faxes| && faxes[k].id == id;
      if k < n {
        assert faxes[..n][k] == faxes[k];
      }
    }
    forall id | id in Ids(faxes[..n]) ensures id in Ids(faxes) {
      var k :| 0 <= k < n && faxes[..n][k].id == id;
      assert faxes[k] == faxes[..n][k];
    }
  }

  /** The batch claims every listed row whose transaction commits, and
      changes no other row. */
  lemma {:induction false} ProcessAllJobs(cfg: Config, w: World, faxes: seq<PendingFax>, faults: set<Fault>)
    ensures ProcessAll(cfg, w, faxes, faults).1.jobs == Claimed(w.jobs, faxes, faults)
    decreases |faxes|
  {
    if faxes == [] {
      assert Ids(faxes) == {};
    } else {
      var n := |faxes| - 1;
      var w1 := ProcessAll(cfg, w, faxes[..n], faults).1;
      ProcessAllJobs(cfg, w, faxes[..n], faults);
      JobClaimsOnlyItsRow(cfg, w1, faxes[n], faults);
      IdsOfPrefix(faxes);
      var jobs := ProcessAll(cfg, w, faxes, faults).1.jobs;
      assert jobs == ProcessOutgoingFax(cfg, w1, faxes[n], faults).1.jobs;
      var expected := Claimed(w.jobs, faxes, faults);
      forall id | id in jobs ensures jobs[id] == expected[id] {
      }
      assert jobs.Keys == expected.Keys;
    }
  }

  /** Running the batch on the list the select returned leaves pending
      exactly the rows whose claim was rolled back: every other pending row
      is 'processing', so a later run does not send it again. */
  lemma BatchLeavesOnlyFailedClaimsPending(cfg: Config, w: World, faxes: seq<PendingFax>, faults: set<Fault>)
    requires Ids(faxes) == PendingIds(cfg, w.jobs)
    ensures PendingIds(cfg, ProcessAndSend(cfg, w, faxes, faults).1.jobs)
         == set id | id in PendingIds(cfg, w.jobs) && TransactionFault(id) in faults
  {
    var w' := ProcessAndSend(cfg, w, faxes, faults).1;
    assert w'.jobs == ProcessAll(cfg, w, faxes, faults).1.jobs;
    ProcessAllJobs(cfg, w, faxes, faults);
    var before := PendingIds(cfg, w.jobs);
    var after := PendingIds(cfg, w'.jobs);
    forall id | id in after ensures id in before && TransactionFault(id) in faults {
      assert w'.jobs[id].state == Created;
    }
    forall id | id in before && TransactionFault(id) in faults ensures id in after {
      assert w'.jobs[id] == w.jobs[id];
    }
  }

  /** When one job fails the batch rejects, with the error of a failed job,
      and moves no call file: the files are those the jobs left. */
  lemma BatchRejectsWhenAJobFails(cfg: Config, w: World, faxes: seq<PendingFax>, faults: set<Fault>, k: int)
    requires 0 <= k < |faxes| && ExpectedOutcome(cfg, faxes[k], faults).Err?
    ensures var (r, w') := ProcessAndSend(cfg, w, faxes, faults);
      && r.Err?
      && w' == ProcessAll(cfg, w, faxes, faults).1
      && exists m :: 0 <= m < |faxes| && ExpectedOutcome(cfg, faxes[m], faults) == Err(r.error)
  {
    ProcessAllOutcomes(cfg, w, faxes, faults);
    var rs := ProcessAll(cfg, w, faxes, faults).0;
    assert rs[k].Err?;
  }

  /** The call-file paths of the faxes, in list order. */
  function CallsOf(cfg: Config, faxes: seq<PendingFax>): (r: seq<string>)
    ensures |r| == |faxes| && forall k :: 0 <= k < |faxes| ==> r[k] == CallOf(cfg, faxes[k])
  {
    seq(|faxes|, k requires 0 <= k < |faxes| => CallOf(cfg, faxes[k]))
  }

  function SpoolTargets(calls: seq<string>): set<string> {
    set k | 0 <= k < |calls| :: SpoolTarget(calls[k])
  }

  /** Moves that cannot interfere: different sources, different targets,
      and no target is a source. */
  predicate MovesApart(calls: seq<string>) {
    && (forall k, l :: 0 <= k < l < |calls| ==> calls[k] != calls[l] && SpoolTarget(calls[k]) != SpoolTarget(calls[l]))
    && (forall k, l :: 0 <= k < |calls| && 0 <= l < |calls| ==> SpoolTarget(calls[k]) != calls[l])
  }

  /** A file that is neither moved nor a move's target is left alone,
      whether or not the moves go through. */
  lemma {:induction false} SendAllFrame(files: map<string, Content>, calls: seq<string>, faults: set<Fault>)
    ensures var f := SendAll(files, calls, faults).1;
      forall p :: p !in calls && p !in SpoolTargets(calls) ==> Unchanged(files, f, p)
    decreases |calls|
  {
    if calls != [] {
      var n := |calls| - 1;
      var pre := calls[..n];
      SendAllFrame(files, pre, faults);
      var f1 := SendAll(files, pre, faults).1;
      var f := SendAll(files, calls, faults).1;
      assert f == SendFax(f1, calls[n], faults).1;
      forall q | q in SpoolTargets(pre) ensures q in SpoolTargets(calls) {
        var k :| 0 <= k < n && q == SpoolTarget(pre[k]);
        assert q == SpoolTarget(calls[k]);
      }
      forall p | p !in calls && p !in SpoolTargets(calls) ensures Unchanged(files, f, p) {
        assert p != SpoolTarget(calls[n]);
        assert p !in pre;
      }
    }
  }

  /** Moves that cannot interfere each go through: every file ends up in the
      spool under its basename with its content, leaves its old place, and
      no other file changes. */
  lemma {:induction false} SendAllMoves(files: map<string, Content>, calls: seq<string>, faults: set<Fault>)
    requires forall k :: 0 <= k < |calls| ==> calls[k] in files && RenameFault(calls[k]) !in faults
    requires MovesApart(calls)
    ensures var (rs, f) := SendAll(files, calls, faults);
      && (forall k :: 0 <= k < |calls| ==> rs[k] == Ok(()))
      && (forall k :: 0 <= k < |calls| ==>
            calls[k] !in f && SpoolTarget(calls[k]) in f && f[SpoolTarget(calls[k])] == files[calls[k]])
      && (forall p :: p !in calls && p !in SpoolTargets(calls) ==> Unchanged(files, f, p))
    decreases |calls|
  {
    SendAllFrame(files, calls, faults);
    if calls != [] {
      var n := |calls| - 1;
      var pre := calls[..n];
      var c := calls[n];
      assert forall k :: 0 <= k < n ==> pre[k] == calls[k];
      SendAllMoves(files, pre, faults);
      SendAllFrame(files, pre, faults);
      var (rs1, f1) := SendAll(files, pre, faults);
      assert c !in pre;
      assert c !in SpoolTargets(pre);
      assert Unchanged(files, f1, c);
      var (r, f2) := SendFax(f1, c, faults);
      assert r == Ok(());
      var (rs, f) := SendAll(files, calls, faults);
      assert rs == rs1 + [r] && f == f2;
      forall k | 0 <= k < |calls|
        ensures calls[k] !in f && SpoolTarget(calls[k]) in f && f[SpoolTarget(calls[k])] == files[calls[k]]
      {
        if k < n {
          assert SpoolTarget(pre[k]) != c;
        }
      }
    }
  }

  /** The call file a job writes holds the template filled for it and the
      one trunk number its row names. */
  predicate CallFileAt(cfg: Config, files: map<string, Content>, fax: PendingFax, path: string) {
    && LookupFaxNumber(cfg.trunks, fax.outgoingNumberId).Ok?
    && path in files
    && files[path] == JobCall(cfg, fax, LookupFaxNumber(cfg.trunks, fax.outgoingNumberId).value)
  }

  /** No job writes over the call file of an earlier one. */
  predicate CallFilesKept(cfg: Config, faxes: seq<PendingFax>) {
    forall k, l :: 0 <= k < l < |faxes| ==>
      && CallOf(cfg, faxes[k]) != PdfOf(cfg, faxes[l])
      && CallOf(cfg, faxes[k]) != TiffOf(cfg, faxes[l])
      && CallOf(cfg, faxes[k]) != CallOf(cfg, faxes[l])
  }

  lemma ExpectedSuccess(cfg: Config, fax: PendingFax, faults: set<Fault>)
    requires ExpectedOutcome(cfg, fax, faults).Ok?
    ensures ExpectedOutcome(cfg, fax, faults) == Ok(CallOf(cfg, fax))
    ensures LookupFaxNumber(cfg.trunks, fax.outgoingNumberId).Ok?
  {
    LookupSucceedsIffExactlyOne(cfg.trunks, fax.outgoingNumberId);
  }

  /** When every job succeeds and none writes over an earlier call file,
      the jobs resolve with their call-file paths and each call file holds
      its own job's template. */
  lemma {:induction false} ProcessAllWritesCallFiles(cfg: Config, w: World, faxes: seq<PendingFax>, faults: set<Fault>)
    requires forall k :: 0 <= k < |faxes| ==> ExpectedOutcome(cfg, faxes[k], faults).Ok?
    requires CallFilesKept(cfg, faxes)
    ensures var (rs, w') := ProcessAll(cfg, w, faxes, faults);
      forall k :: 0 <= k < |faxes| ==>
        rs[k] == Ok(CallOf(cfg, faxes[k])) && CallFileAt(cfg, w'.files, faxes[k], CallOf(cfg, faxes[k]))
    decreases |faxes|
  {
    ProcessAllOutcomes(cfg, w, faxes, faults);
    if faxes != [] {
      var n := |faxes| - 1;
      var pre := faxes[..n];
      assert forall k :: 0 <= k < n ==> pre[k] == faxes[k];
      ProcessAllWritesCallFiles(cfg, w, pre, faults);
      var w1 := ProcessAll(cfg, w, pre, faults).1;
      var (rs, w') := ProcessAll(cfg, w, faxes, faults);
      assert w' == ProcessOutgoingFax(cfg, w1, faxes[n], faults).1;
      JobFrame(cfg, w1, faxes[n], faults);
      ExpectedSuccess(cfg, faxes[n], faults);
      JobOutcome(cfg, w1, faxes[n], faults);
      JobSuccessFiles(cfg, w1, faxes[n], faults);
      forall k | 0 <= k < |faxes|
        ensures rs[k] == Ok(CallOf(cfg, faxes[k])) && CallFileAt(cfg, w'.files, faxes[k], CallOf(cfg, faxes[k]))
      {
        ExpectedSuccess(cfg, faxes[k], faults);
        if k < n {
          assert Unchanged(w1.files, w'.files, CallOf(cfg, faxes[k]));
        }
      }
    }
  }

  /** When every job resolved and the moves cannot interfere and none
      fails, the second stage resolves, leaves the table alone and moves
      every call file into the spool. */
  lemma SendStageMoves(rs: seq<Result<string, FaxError>>, w: World, faults: set<Fault>)
    requires forall k :: 0 <= k < |rs| ==> rs[k].Ok? && rs[k].value in w.files && RenameFault(rs[k].value) !in faults
    requires MovesApart(CallFiles(rs))
    ensures var (r, w') := SendCallFiles(rs, w, faults);
      && r == Ok(())
      && w'.jobs == w.jobs
      && forall k :: 0 <= k < |rs| ==>
           && rs[k].value !in w'.files
           && SpoolTarget(rs[k].value) in w'.files
           && w'.files[SpoolTarget(rs[k].value)] == w.files[rs[k].value]
  {
    var calls := CallFiles(rs);
    SendAllMoves(w.files, calls, faults);
    var (sent, files) := SendAll(w.files, calls, faults);
    assert FirstError(sent).None?;
  }

  /** A batch in which every job succeeds, no job writes over an earlier
      call file, the moves cannot interfere and none fails resolves; each
      row it listed is claimed, and each job's call file has left the
      outgoing directory and sits in the spool under its basename. */
  lemma SuccessfulBatchDelivers(cfg: Config, w: World, faxes: seq<PendingFax>, faults: set<Fault>)
    requires forall k :: 0 <= k < |faxes| ==> ExpectedOutcome(cfg, faxes[k], faults).Ok?
    requires forall k :: 0 <= k < |faxes| ==> RenameFault(CallOf(cfg, faxes[k])) !in faults
    requires CallFilesKept(cfg, faxes)
    requires MovesApart(CallsOf(cfg, faxes))
    ensures var (r, w') := ProcessAndSend(cfg, w, faxes, faults);
      && r == Ok(())
      && w'.jobs == Claimed(w.jobs, faxes, faults)
      && forall k :: 0 <= k < |faxes| ==>
           && CallOf(cfg, faxes[k]) !in w'.files
           && CallFileAt(cfg, w'.files, faxes[k], SpoolTarget(CallOf(cfg, faxes[k])))
  {
    ProcessAllWritesCallFiles(cfg, w, faxes, faults);
    ProcessAllJobs(cfg, w, faxes, faults);
    var (rs, w1) := ProcessAll(cfg, w, faxes, faults);
    assert CallFiles(rs) == CallsOf(cfg, faxes);
    SendStageMoves(rs, w1, faults);
  }

  /** Once every move so far has gone through, the source of each of them is
      gone, provided no move targets it. */
  lemma {:induction false} MovedFileIsGone(files: map<string, Content>, calls: seq<string>, faults: set<Fault>, k: int)
    requires 0 <= k < |calls|
    requires forall m :: 0 <= m < |calls| ==> SpoolTarget(calls[m]) != calls[k]
    ensures var (rs, f) := SendAll(files, calls, faults);
      (forall m :: 0 <= m < |calls| ==> rs[m].Ok?) ==> calls[k] !in f
    decreases |calls|
  {
    var n := |calls| - 1;
    var pre := calls[..n];
    var (rs1, f1) := SendAll(files, pre, faults);
    var (rs, f) := SendAll(files, calls, faults);
    assert rs == rs1 + [SendFax(f1, calls[n], faults).0];
    if k < n {
      assert forall m :: 0 <= m < n ==> pre[m] == calls[m];
      MovedFileIsGone(files, pre, faults, k);
      if forall m :: 0 <= m < |calls| ==> rs[m].Ok? {
        assert forall m :: 0 <= m < n ==> rs1[m] == rs[m];
        assert calls[k] !in f1;
        assert SpoolTarget(calls[n]) != calls[k];
      }
    } else if rs[n].Ok? {
      assert rs[n] == SendFax(f1, calls[n], faults).0;
      assert f == (f1 - {calls[n]})[SpoolTarget(calls[n]) := f1[calls[n]]];
      assert SpoolTarget(calls[n]) != calls[n];
    }
  }

  /** A path listed twice cannot be moved twice: some move fails. */
  lemma {:induction false} RepeatedMoveFails(files: map<string, Content>, calls: seq<string>, faults: set<Fault>, k: int, l: int)
    requires 0 <= k < l < |calls| && calls[k] == calls[l]
    requires forall m :: 0 <= m < |calls| ==> SpoolTarget(calls[m]) != calls[k]
    ensures exists m :: 0 <= m < |calls| && SendAll(files, calls, faults).0[m].Err?
    decreases |calls|
  {
    var n := |calls| - 1;
    var pre := calls[..n];
    assert forall m :: 0 <= m < n ==> pre[m] == calls[m];
    var (rs1, f1) := SendAll(files, pre, faults);
    var rs := SendAll(files, calls, faults).0;
    assert rs == rs1 + [SendFax(f1, calls[n], faults).0];
    if l < n {
      RepeatedMoveFails(files, pre, faults, k, l);
      var m :| 0 <= m < n && rs1[m].Err?;
      assert rs[m] == rs1[m];
    } else if forall m :: 0 <= m < n ==> rs1[m].Ok? {
      MovedFileIsGone(files, pre, faults, k);
      assert rs[n].Err?;
    } else {
      var m :| 0 <= m < n && rs1[m].Err?;
      assert rs[m] == rs1[m];
    }
  }

  /** When no job failed, the paths the second stage moves are the
      call-file paths of the listed faxes, in list order. */
  lemma ResolvedBatchCalls(cfg: Config, w: World, faxes: seq<PendingFax>, faults: set<Fault>)
    ensures var rs := ProcessAll(cfg, w, faxes, faults).0;
      FirstError(rs).None? ==> CallFiles(rs) == CallsOf(cfg, faxes)
  {
    var rs := ProcessAll(cfg, w, faxes, faults).0;
    if FirstError(rs).None? {
      ProcessAllOutcomes(cfg, w, faxes, faults);
      forall m | 0 <= m < |faxes| ensures rs[m] == Ok(CallOf(cfg, faxes[m])) {
        ExpectedSuccess(cfg, faxes[m], faults);
      }
    }
  }

  /** The second stage rejects when it has to move one path twice. */
  lemma RepeatedCallFileRejects(rs: seq<Result<string, FaxError>>, w: World, faults: set<Fault>, k: int, l: int)
    requires forall m :: 0 <= m < |rs| ==> rs[m].Ok?
    requires 0 <= k < l < |rs| && rs[k].value == rs[l].value
    requires forall m :: 0 <= m < |rs| ==> SpoolTarget(rs[m].value) != rs[k].value
    ensures SendCallFiles(rs, w, faults).0.Err?
  {
    var calls := CallFiles(rs);
    RepeatedMoveFails(w.files, calls, faults, k, l);
    var sent := SendAll(w.files, calls, faults).0;
    var m :| 0 <= m < |calls| && sent[m].Err?;
    assert FirstError(sent).Some?;
  }

  /** A rename that fails yields its rejection, whatever the other moves do. */
  lemma {:induction false} FaultedMoveFails(files: map<string, Content>, calls: seq<string>, faults: set<Fault>, k: int)
    requires 0 <= k < |calls| && RenameFault(calls[k]) in faults
    ensures SendAll(files, calls, faults).0[k] == Err(RenameError(calls[k]))
    decreases |calls|
  {
    var n := |calls| - 1;
    var pre := calls[..n];
    var (rs1, f1) := SendAll(files, pre, faults);
    var rs := SendAll(files, calls, faults).0;
    assert rs == rs1 + [SendFax(f1, calls[n], faults).0];
    if k < n {
      assert pre[k] == calls[k];
      FaultedMoveFails(files, pre, faults, k);
      assert rs[k] == rs1[k];
    }
  }

  /** The second stage rejects when one of its renames fails. */
  lemma FaultedCallFileRejects(rs: seq<Result<string, FaxError>>, w: World, faults: set<Fault>, k: int)
    requires forall m :: 0 <= m < |rs| ==> rs[m].Ok?
    requires 0 <= k < |rs| && RenameFault(rs[k].value) in faults
    ensures SendCallFiles(rs, w, faults).0.Err?
  {
    var calls := CallFiles(rs);
    FaultedMoveFails(w.files, calls, faults, k);
    var sent := SendAll(w.files, calls, faults).0;
    assert sent[k].Err?;
    assert FirstError(sent).Some?;
  }

  /** A failed rename of any job's call file rejects the whole run, even
      when every job succeeded. */
  lemma FaultedRenameRejectsBatch(cfg: Config, w: World, faxes: seq<PendingFax>, faults: set<Fault>, k: int)
    requires 0 <= k < |faxes| && RenameFault(CallOf(cfg, faxes[k])) in faults
    ensures ProcessAndSend(cfg, w, faxes, faults).0.Err?
  {
    var (rs, w1) := ProcessAll(cfg, w, faxes, faults);
    if FirstError(rs).None? {
      ResolvedBatchCalls(cfg, w, faxes, faults);
      assert rs[k].value == CallsOf(cfg, faxes)[k];
      FaultedCallFileRejects(rs, w1, faults, k);
    }
  }

  lemma CallOfSameName(cfg: Config, a: PendingFax, b: PendingFax)
    requires a.filename == b.filename
    ensures CallOf(cfg, a) == CallOf(cfg, b)
  {
  }

  /** Two listed faxes with the same file name derive the same call-file
      path, so the batch rejects even when every job succeeds. */
  lemma SameNameFailsBatch(cfg: Config, w: World, faxes: seq<PendingFax>, faults: set<Fault>, k: int, l: int)
    requires 0 <= k < l < |faxes| && faxes[k].filename == faxes[l].filename
    requires forall m :: 0 <= m < |faxes| ==> SpoolTarget(CallOf(cfg, faxes[m])) != CallOf(cfg, faxes[k])
    ensures ProcessAndSend(cfg, w, faxes, faults).0.Err?
  {
    var (rs, w1) := ProcessAll(cfg, w, faxes, faults);
    if FirstError(rs).None? {
      ResolvedBatchCalls(cfg, w, faxes, faults);
      CallOfSameName(cfg, faxes[k], faxes[l]);
      assert rs[k].value == CallsOf(cfg, faxes)[k];
      assert rs[l].value == CallsOf(cfg, faxes)[l];
      forall m | 0 <= m < |rs| ensures SpoolTarget(rs[m].value) != rs[k].value {
        assert rs[m].value == CallsOf(cfg, faxes)[m];
      }
      RepeatedCallFileRejects(rs, w1, faults, k, l);
    }
  }
}
