/** ChainPublisherWorker on one ARK: pipeline results and the single-ARK attempt, against module Verdicts. */
module ChainWorker {
  import opened Wrappers
  import opened ArkTypes
  import opened ArkRow
  import opened ArkRepositories
  import opened Verdicts
  import opened Protocol

  function One(b: bool): nat { if b then 1 else 0 }

  class ChainPublisherWorker {
    var totalDeferred: nat
    var totalPermanentFailures: nat

    constructor ()
      ensures totalDeferred == 0 && totalPermanentFailures == 0
    {
      totalDeferred, totalPermanentFailures := 0, 0;
    }

    method Refuse(repo: ArkRepository, ark: Ark, code: ErrorCode, now: Time)
      requires ark in repo.rows
      modifies repo, this
      ensures repo.rows == old(repo.rows)[ark := MarkFailed(old(repo.rows)[ark], code, now)]
      ensures totalDeferred == old(totalDeferred) && totalPermanentFailures == old(totalPermanentFailures) + 1
    {
      repo.MarkProcessingFailed(ark, code, true, now);
      totalPermanentFailures := totalPermanentFailures + 1;
    }

    method Postpone(repo: ArkRepository, ark: Ark, now: Time)
      requires ark in repo.rows
      modifies repo, this
      ensures repo.rows == old(repo.rows)[ark := Deferred(old(repo.rows)[ark], ChainRpcUnavailable, MINUTE, now)]
      ensures totalDeferred == old(totalDeferred) + 1 && totalPermanentFailures == old(totalPermanentFailures)
    {
      repo.DeferProcessingRetry(ark, ChainRpcUnavailable, MINUTE, now);
      totalDeferred := totalDeferred + 1;
    }

    method OnReadFailure(repo: ArkRepository, ark: Ark, exn: Exn, now: Time)
      requires ark in repo.rows
      modifies repo, this
      ensures repo.rows == old(repo.rows)[ark := Apply(old(repo.rows)[ark], ReadFailure(exn), now)]
      ensures totalDeferred == old(totalDeferred) + One(ReadFailure(exn).Postpone?)
      ensures totalPermanentFailures == old(totalPermanentFailures) + One(ReadFailure(exn).Fail?)
    {
      if exn == AuthorityMissing {
        Refuse(repo, ark, AuthorityNotFound, now);
      } else {
        Postpone(repo, ark, now);
      }
    }

    /** Identity checks after a failure; true when they settled or postponed the row. */
    method ReconcileFailedIdentity(repo: ArkRepository, ark: Ark, ev: Evidence, now: Time) returns (handled: bool)
      requires ark in repo.rows
      modifies repo, this
      ensures handled == Identity(ev).Some?
      ensures !handled ==> repo.rows == old(repo.rows) && totalDeferred == old(totalDeferred)
                           && totalPermanentFailures == old(totalPermanentFailures)
      ensures handled ==>
                && repo.rows == old(repo.rows)[ark := Apply(old(repo.rows)[ark], Identity(ev).value, now)]
                && totalDeferred == old(totalDeferred) + One(Identity(ev).value.Postpone?)
                && totalPermanentFailures == old(totalPermanentFailures) + One(Identity(ev).value.Fail?)
    {
      if ev.authority.Raised? {
        OnReadFailure(repo, ark, ev.authority.exn, now);
        return true;
      }
      var authority := ev.authority.value;
      if ev.onChain.Raised? {
        OnReadFailure(repo, ark, ev.onChain.exn, now);
        return true;
      }
      var current := ev.onChain.value;
      var changed := current.Some? && Text.Lower(current.value.owner) != Text.Lower(authority.wallet);
      if changed || !authority.active {
        Refuse(repo, ark, ChainStateConflict, now);
        return true;
      }
      if ev.permitted.Raised? {
        OnReadFailure(repo, ark, ev.permitted.exn, now);
        return true;
      }
      if !ev.permitted.value {
        Refuse(repo, ark, AuthorizationFailed, now);
        return true;
      }
      return false;
    }

    method RecordFailure(repo: ArkRepository, ark: Ark, exn: Exn, ev: Evidence, now: Time)
      requires ark in repo.rows
      modifies repo, this
      ensures repo.rows == old(repo.rows)[ark := Apply(old(repo.rows)[ark], Failure(ev, exn), now)]
      ensures totalDeferred == old(totalDeferred) + One(Failure(ev, exn).Postpone?)
      ensures totalPermanentFailures == old(totalPermanentFailures) + One(Failure(ev, exn).Fail?)
    {
      var handled := ReconcileFailedIdentity(repo, ark, ev, now);
      if handled { return; }
      if exn == AuthorityMissing {
        Refuse(repo, ark, AuthorityNotFound, now);
      } else if exn == Unauthorized {
        Refuse(repo, ark, AuthorizationFailed, now);
      } else if IsInfrastructureError(exn) {
        Postpone(repo, ark, now);
      } else {
        Refuse(repo, ark, ChainReverted, now);
      }
    }

    /** A confirmation is applied only while the submitted payload is still the current one. */
    method FinalizePipelineConfirmation(repo: ArkRepository, item: Item) returns (ok: bool)
      requires item.record.state in {Draft, Update}
      modifies repo
      ensures ok <==> item.ark in old(repo.rows) && ItemIsCurrent(old(repo.rows)[item.ark], item)
      ensures repo.rows == if ok then old(repo.rows)[item.ark := PublishedRow(old(repo.rows)[item.ark])]
              else old(repo.rows)
    {
      if item.ark !in repo.rows || !ItemIsCurrent(repo.rows[item.ark], item) { return false; }
      var done := repo.UpdateToPublished(item.ark, {item.record.state});
      return true;
    }

    /** One pipeline result under the ARK's lock; true exactly when the row was published. */
    method HandlePipelineResult(repo: ArkRepository, item: Item, result: PipelineResult, ev: Evidence,
                                read: Reply<Option<ChainRecord>>, evAgain: Evidence, now: Time)
      returns (published: bool)
      requires item.ark in repo.rows && ItemSendable(item) && item.record.state in {Draft, Update}
      modifies repo, this
      ensures var v := ItemVerdictOn(old(repo.rows)[item.ark], item, result, ev, read, evAgain);
              && repo.rows == old(repo.rows)[item.ark := Apply(old(repo.rows)[item.ark], v, now)]
              && published == v.Publish?
              && totalDeferred == old(totalDeferred) + One(v.Postpone?)
              && totalPermanentFailures == old(totalPermanentFailures) + One(v.Fail?)
    {
      if !ItemIsCurrent(repo.rows[item.ark], item) { return false; }
      if result.status == Confirmed {
        published := FinalizePipelineConfirmation(repo, item);
        return;
      }
      var handled := ReconcileFailedIdentity(repo, item.ark, ev, now);
      if handled { return false; }
      if read.Raised? {
        Postpone(repo, item.ark, now);
        return false;
      }
      if Matches(read.value, item.record.target.value, item.metadata.level1Cid.value) {
        published := FinalizePipelineConfirmation(repo, item);
        return;
      }
      if result.status == Reverted {
        RecordFailure(repo, item.ark, OtherError(Message(result)), evAgain, now);
        return false;
      }
      Postpone(repo, item.ark, now);
      return false;
    }

    /** The single-ARK attempt; `sent` is what the chain client raised, if anything. Returns the operation it sent. */
    method PublishSingleArk(repo: ArkRepository, ark: Ark, locked: bool, isAssigned: bool, sent: Option<Exn>,
                            ev: Evidence, read: Reply<Option<ChainRecord>>, evAgain: Evidence, now: Time)
      returns (published: bool, operation: Option<Submission>)
      modifies repo, this
      ensures !locked || ark !in old(repo.rows) ==> repo.rows == old(repo.rows) && !published && operation.None?
      ensures locked && ark in old(repo.rows) ==>
                var attempt := SendAttempt(old(repo.rows)[ark], ark, isAssigned, sent, ev, read, evAgain, now);
                repo.rows == old(repo.rows)[ark := attempt.row]
                && published == attempt.published && operation == attempt.operation
    {
      published, operation := false, None;
      if !locked || ark !in repo.rows { return; }
      var record := repo.rows[ark];
      if !SendGuard(record, now) { return; }
      if !isAssigned {
        repo.MarkProcessingFailed(ark, AuthorityNotFound, true, now);
        return;
      }
      if !HasUsableCids(record) || record.target.None? {
        RecordFailure(repo, ark, OtherError("both metadata CIDs are required for chain publication"), evAgain, now);
        return;
      }
      operation := Some(SubmissionOf(ark, record));
      if sent.Some? {
        var handled := ReconcileFailedIdentity(repo, ark, ev, now);
        if handled { return; }
        if read.Raised? {
          RecordFailure(repo, ark, read.exn, evAgain, now);
          return;
        }
        if !Matches(read.value, record.target.value, record.meta.value.level1Cid.value) {
          RecordFailure(repo, ark, sent.value, evAgain, now);
          return;
        }
      }
      var done := repo.UpdateToPublished(ark, {record.state});
      published := true;
    }
  }

  function ItemVerdictOn(row: Row, item: Item, result: PipelineResult, ev: Evidence,
                         read: Reply<Option<ChainRecord>>, evAgain: Evidence): Verdict
    requires ItemSendable(item)
  {
    Pipeline(ItemIsCurrent(row, item), result, item.record.target.value, item.metadata.level1Cid.value,
             ev, read, evAgain)
  }

  datatype Attempt = Attempt(row: Row, published: bool, operation: Option<Submission>)

  /** A row of the chain queue that is due. */
  predicate Due(row: Row, now: Time) {
    && row.state in {Draft, Update} && row.stage == Chain
    && (row.status == Ready || (row.status == Waiting && row.nextAt.Some? && row.nextAt.value <= now))
  }

  /** It has a target and two CIDs that are not empty. */
  predicate Complete(row: Row) {
    && row.target.Some? && row.meta.Some?
    && row.meta.value.level1Cid.Some? && row.meta.value.level1Cid.value != ""
    && row.meta.value.level2Cid.Some? && row.meta.value.level2Cid.value != ""
  }

  /**
   * The single-ARK attempt. Something is sent exactly for a due and complete row of an authority that is served: in the
   * row's own name, to its target, with its Level-1 CID, creating the record if the row is a draft. The row is
   * published if the call returned, or if nothing speaks against it and the chain shows exactly that target and CID.
   */
  lemma SendMeans(row: Row, ark: Ark, isAssigned: bool, sent: Option<Exn>, ev: Evidence,
                  read: Reply<Option<ChainRecord>>, evAgain: Evidence, now: Time)
    ensures var a := SendAttempt(row, ark, isAssigned, sent, ev, read, evAgain, now);
            && (a.operation.Some? <==> Due(row, now) && isAssigned && Complete(row))
            && (a.operation.Some? ==>
                  && a.operation.value == Submission(row.authority, row.state == Draft, ark, row.target.value,
                                                     row.meta.value.level1Cid.value, row, row.meta.value)
                  && (a.published
                      <==> || sent.None?
                           || (!Conclusive(ev) && !Unreadable(ev) && read.Returned? && read.value.Some?
                               && read.value.value.url == row.target.value
                               && read.value.value.cid == row.meta.value.level1Cid.value)))
            && (a.published ==>
                  && a.operation.Some?
                  && a.row == row.(state := Published, stage := Replication, status := Ready, attempts := 0,
                                   nextAt := None, reason := NoReason, error := None))
            && (!Due(row, now) ==> a.row == row)
            && (Due(row, now) && !isAssigned ==>
                  a.row == row.(status := Failed, error := Some(AuthorityNotFound), attempts := row.attempts + 1,
                                nextAt := None, reason := NoReason))
            && (Due(row, now) && isAssigned && !a.published ==>
                  && a.row.status in {Waiting, Failed}
                  && a.row == row.(status := a.row.status, error := a.row.error, attempts := a.row.attempts,
                                   nextAt := a.row.nextAt, reason := a.row.reason)
                  && (a.row.status == Waiting ==>
                        && a.row.attempts == row.attempts && a.row.nextAt == Some(now + 60_000_000)
                        && a.row.error == Some(ChainRpcUnavailable))
                  && (a.row.status == Failed ==>
                        a.row.attempts == row.attempts + 1 && a.row.error.Some? && !Retryable(a.row.error.value)))
  {
    var missing := OtherError("both metadata CIDs are required for chain publication");
    IdentityMeaning(evAgain);
    FailureMeans(evAgain, missing);
    ApplyMeans(row, Failure(evAgain, missing), now);
    if Complete(row) {
      var target, cid := row.target.value, row.meta.value.level1Cid.value;
      SingleVerdictMeaning(row, sent, target, cid, ev, read, evAgain, now);
      SingleIsFinal(sent, target, cid, ev, read, evAgain);
      ApplyMeans(row, Single(sent, target, cid, ev, read, evAgain), now);
    }
    hide Apply, Single, Identity, Failure, Conclusive, Unreadable, IsInfrastructureError;
  }

  lemma SingleIsFinal(sent: Option<Exn>, target: string, cid: Cid, ev: Evidence, read: Reply<Option<ChainRecord>>,
                      evAgain: Evidence)
    ensures var v := Single(sent, target, cid, ev, read, evAgain);
            (v.Fail? ==> !Retryable(v.code)) && (v.Postpone? ==> v.code == ChainRpcUnavailable)
  {
    IdentityMeaning(ev);
    IdentityMeaning(evAgain);
    if sent.Some? {
      FailureMeans(evAgain, if read.Raised? then read.exn else sent.value);
    }
    hide Identity, Failure, Conclusive, Unreadable, IsInfrastructureError;
  }

  function SendAttempt(row: Row, ark: Ark, isAssigned: bool, sent: Option<Exn>, ev: Evidence,
                       read: Reply<Option<ChainRecord>>, evAgain: Evidence, now: Time): Attempt
  {
    if !SendGuard(row, now) then Attempt(row, false, None)
    else if !isAssigned then Attempt(MarkFailed(row, AuthorityNotFound, now), false, None)
    else if !HasUsableCids(row) || row.target.None? then
      var missing := OtherError("both metadata CIDs are required for chain publication");
      Attempt(Apply(row, Failure(evAgain, missing), now), false, None)
    else
      var v := Single(sent, row.target.value, row.meta.value.level1Cid.value, ev, read, evAgain);
      Attempt(Apply(row, v, now), v.Publish?, Some(SubmissionOf(ark, row)))
  }
}
