/** updateFaxState as it is written. The handler it gives to the
    transaction ends its query with `.into(faxes_outgoing)`; no variable of
    that name is declared anywhere, so evaluating it throws a ReferenceError
    before any update is sent, and knex rejects the transaction. The rest of
    the model uses the evidently intended update (Pipeline.UpdateFaxState),
    which sets the state of the row when the transaction commits. */
module UpdateAsWritten {
  import opened FaxTypes
  import opened Pipeline

  /** updateFaxState as written: it rejects for every row and changes
      nothing. */
  function UpdateFaxStateAsWritten(jobs: map<nat, FaxRow>, id: nat, state: string)
    : (Result<(), FaxError>, map<nat, FaxRow>)
  {
    (Err(TransactionFailed(id)), jobs)
  }

  /** As written, the update is the intended one in a run where its
      transaction always rolls back; the intended update, when the
      transaction commits, does change a row the written one leaves alone. */
  lemma AsWrittenUpdateNeverCommits(jobs: map<nat, FaxRow>, id: nat, state: string, faults: set<Fault>)
    ensures UpdateFaxStateAsWritten(jobs, id, state)
         == UpdateFaxState(jobs, id, state, faults + {TransactionFault(id)})
    ensures id in jobs && jobs[id].state != state && TransactionFault(id) !in faults ==>
      && UpdateFaxState(jobs, id, state, faults).0.Ok?
      && UpdateFaxState(jobs, id, state, faults).1 != UpdateFaxStateAsWritten(jobs, id, state).1
  {
    if id in jobs && jobs[id].state != state && TransactionFault(id) !in faults {
      assert UpdateFaxState(jobs, id, state, faults).1[id].state == state;
    }
  }

  /** The faults that make every listed claim roll back. */
  function AllClaimsFail(faxes: seq<PendingFax>): set<Fault> {
    set k | 0 <= k < |faxes| :: TransactionFault(faxes[k].id)
  }

  lemma {:induction false} FailedClaimsChangeNothing(cfg: Config, w: World, faxes: seq<PendingFax>, faults: set<Fault>)
    requires forall k :: 0 <= k < |faxes| ==> TransactionFault(faxes[k].id) in faults
    ensures var (rs, w') := ProcessAll(cfg, w, faxes, faults);
      && w' == w
      && forall k :: 0 <= k < |faxes| ==> rs[k] == Err(TransactionFailed(faxes[k].id))
    decreases |faxes|
  {
    if faxes != [] {
      var n := |faxes| - 1;
      var pre := faxes[..n];
      assert forall k :: 0 <= k < n ==> pre[k] == faxes[k];
      FailedClaimsChangeNothing(cfg, w, pre, faults);
      var (rs1, w1) := ProcessAll(cfg, w, pre, faults);
      var rs := ProcessAll(cfg, w, faxes, faults).0;
      assert rs == rs1 + [ProcessOutgoingFax(cfg, w1, faxes[n], faults).0];
    }
  }

  /** With the update as written, a run that finds any pending fax rejects
      with the first fax's error and leaves the table and the files exactly
      as they were, so the same rows stay pending and every later run fails
      the same way. */
  lemma AsWrittenBatchRejects(cfg: Config, w: World, faxes: seq<PendingFax>, faults: set<Fault>)
    requires faxes != []
    ensures ProcessAndSend(cfg, w, faxes, faults + AllClaimsFail(faxes))
         == (Err(TransactionFailed(faxes[0].id)), w)
  {
    var all := faults + AllClaimsFail(faxes);
    FailedClaimsChangeNothing(cfg, w, faxes, all);
  }
}
