/**
 * How the chain worker turns an unresolved publication into a verdict on the row, from the result it was
 * given and from what the registry and the chain answer afterwards.
 */
module Verdicts {
  import opened Wrappers
  import opened ArkTypes
  import opened ArkRow
  import Text

  datatype Verdict = Untouched | Publish | Fail(code: ErrorCode) | Postpone(code: ErrorCode)

  datatype PipelineStatus = Confirmed | Reverted | NotSent | SendFailed | Ambiguous | FailedCall | OtherStatus

  datatype PipelineResult = PipelineResult(status: PipelineStatus, error: Option<string>)

  /** _reconcile_failed_identity: None when the identity checks find nothing wrong. */
  function Identity(ev: Evidence): Option<Verdict> {
    match ev.authority
    case Raised(e) => Some(ReadFailure(e))
    case Returned(authority) =>
      match ev.onChain
      case Raised(e) => Some(ReadFailure(e))
      case Returned(current) =>
        var changed := current.Some? && Text.Lower(current.value.owner) != Text.Lower(authority.wallet);
        if changed || !authority.active then Some(Fail(ChainStateConflict))
        else
          match ev.permitted
          case Raised(e) => Some(ReadFailure(e))
          case Returned(permitted) => if permitted then None else Some(Fail(AuthorizationFailed))
  }

  function ReadFailure(e: Exn): Verdict {
    if e == AuthorityMissing then Fail(AuthorityNotFound) else Postpone(ChainRpcUnavailable)
  }

  /** _record_failure. */
  function Failure(ev: Evidence, exn: Exn): Verdict {
    var identity := Identity(ev);
    if identity.Some? then identity.value
    else if exn == AuthorityMissing then Fail(AuthorityNotFound)
    else if exn == Unauthorized then Fail(AuthorizationFailed)
    else if IsInfrastructureError(exn) then Postpone(ChainRpcUnavailable)
    else Fail(ChainReverted)
  }

  predicate Matches(current: Option<ChainRecord>, target: string, cid: Cid) {
    current.Some? && current.value.url == target && current.value.cid == cid
  }

  function StatusName(s: PipelineStatus): string {
    match s
    case Confirmed => "confirmed"
    case Reverted => "reverted"
    case NotSent => "not_sent"
    case SendFailed => "send_failed"
    case Ambiguous => "ambiguous"
    case FailedCall => "failed"
    case OtherStatus => "other"
  }

  function Message(result: PipelineResult): string {
    if result.error.Some? && result.error.value != "" then result.error.value
    else "blockchain pipeline result was " + StatusName(result.status)
  }

  /** _handle_pipeline_result, for an item whose payload is (or is not) still the current one. */
  function Pipeline(current: bool, result: PipelineResult, target: string, cid: Cid,
                    ev: Evidence, read: Reply<Option<ChainRecord>>, evAgain: Evidence): Verdict
  {
    if !current then Untouched
    else if result.status == Confirmed then Publish
    else
      var identity := Identity(ev);
      if identity.Some? then identity.value
      else if read.Raised? then Postpone(ChainRpcUnavailable)
      else if Matches(read.value, target, cid) then Publish
      else if result.status == Reverted then Failure(evAgain, OtherError(Message(result)))
      else Postpone(ChainRpcUnavailable)
  }

  /** The chain part of publish_single_ark: `sent` is None when the client call returned. */
  function Single(sent: Option<Exn>, target: string, cid: Cid,
                  ev: Evidence, read: Reply<Option<ChainRecord>>, evAgain: Evidence): Verdict
  {
    if sent.None? then Publish
    else
      var identity := Identity(ev);
      if identity.Some? then identity.value
      else if read.Raised? then Failure(evAgain, read.exn)
      else if Matches(read.value, target, cid) then Publish
      else Failure(evAgain, sent.value)
  }

  function Apply(row: Row, v: Verdict, now: Time): (after: Row)
    ensures after.authority == row.authority && after.target == row.target && after.meta == row.meta
    ensures after.state == if v.Publish? then Published else row.state
  {
    match v
    case Untouched => row
    case Publish => PublishedRow(row)
    case Fail(code) => MarkFailed(row, code, now)
    case Postpone(code) => Deferred(row, code, MINUTE, now)
  }

  // ---------- what the verdicts mean ----------

  predicate AuthorityGone(ev: Evidence) {
    || ev.authority == Raised(AuthorityMissing)
    || (ev.authority.Returned? && ev.onChain == Raised(AuthorityMissing))
    || (ev.authority.Returned? && ev.onChain.Returned? && ev.permitted == Raised(AuthorityMissing))
  }

  predicate OwnerChanged(ev: Evidence) {
    && ev.authority.Returned? && ev.onChain.Returned? && ev.onChain.value.Some?
    && !Text.EqualIgnoringCase(ev.onChain.value.value.owner, ev.authority.value.wallet)
  }

  predicate AuthorityInactive(ev: Evidence) {
    ev.authority.Returned? && ev.onChain.Returned? && !ev.authority.value.active
  }

  predicate NaanRevoked(ev: Evidence) {
    ev.authority.Returned? && ev.onChain.Returned? && ev.permitted == Returned(false)
  }

  /** Evidence that settles, by a successful read, that this authority cannot publish this ARK. */
  predicate Conclusive(ev: Evidence) {
    AuthorityGone(ev) || OwnerChanged(ev) || AuthorityInactive(ev) || NaanRevoked(ev)
  }

  /** A read that came back with nothing usable. */
  predicate Unreadable(ev: Evidence) {
    || ev.authority.Raised? || ev.onChain.Raised? || ev.permitted.Raised?
  }

  lemma IdentityMeaning(ev: Evidence)
    ensures Identity(ev).Some? && Identity(ev).value.Fail? <==> Conclusive(ev)
    ensures Identity(ev).None? <==> !Conclusive(ev) && !Unreadable(ev)
    ensures Identity(ev).Some? && !Conclusive(ev) ==> Identity(ev).value == Postpone(ChainRpcUnavailable)
    ensures Conclusive(ev) ==>
              var code := Identity(ev).value.code;
              && !Retryable(code) && code in {ChainStateConflict, AuthorizationFailed, AuthorityNotFound}
              && (code == ChainStateConflict <==> OwnerChanged(ev) || AuthorityInactive(ev))
              && (code == AuthorizationFailed <==> NaanRevoked(ev) && !OwnerChanged(ev) && !AuthorityInactive(ev))
  {
    if ev.authority.Returned? && ev.onChain.Returned? && ev.onChain.value.Some? {
      Text.LowerEqual(ev.onChain.value.value.owner, ev.authority.value.wallet);
    }
    hide Text.Lower, Text.EqualIgnoringCase;
    match ev.authority {
      case Raised(e) =>
      case Returned(a) =>
        match ev.onChain {
          case Raised(e) =>
          case Returned(c) => match ev.permitted { case Raised(e) => case Returned(p) => }
        }
    }
  }

  /**
   * What each verdict leaves: a published row at the start of REPLICATION, a failed row, or one that waits a minute.
   */
  lemma ApplyMeans(row: Row, v: Verdict, now: Time)
    ensures v.Untouched? ==> Apply(row, v, now) == row
    ensures v.Publish? ==>
              Apply(row, v, now) == row.(state := Published, stage := Replication, status := Ready, attempts := 0,
                                         nextAt := None, reason := NoReason, error := None)
    ensures v.Fail? && !Retryable(v.code) ==>
              Apply(row, v, now) == row.(status := Failed, error := Some(v.code), attempts := row.attempts + 1,
                                         nextAt := None, reason := NoReason)
    ensures v.Postpone? ==>
              Apply(row, v, now) == row.(status := Waiting, error := Some(v.code), nextAt := Some(now + 60_000_000),
                                         reason := StorageBackoff)
  {
  }

  /** An exception that settles the attempt: the authority or its permission is gone, or no infrastructure problem. */
  predicate Terminal(exn: Exn) { exn.AuthorityMissing? || exn.Unauthorized? || !IsInfrastructureError(exn) }

  /**
   * A recorded failure fails the row for what the identity checks find, or, when they find nothing, for its exception.
   */
  lemma FailureMeans(ev: Evidence, exn: Exn)
    ensures Failure(ev, exn).Fail? <==> Conclusive(ev) || (!Unreadable(ev) && Terminal(exn))
    ensures !Failure(ev, exn).Fail? ==> Failure(ev, exn) == Postpone(ChainRpcUnavailable)
    ensures Failure(ev, exn).Fail? && !Conclusive(ev) ==>
              var code := Failure(ev, exn).code;
              && (code == AuthorityNotFound <==> exn.AuthorityMissing?)
              && (code == AuthorizationFailed <==> exn.Unauthorized?)
              && code in {AuthorityNotFound, AuthorizationFailed, ChainReverted}
    ensures Conclusive(ev) ==> Some(Failure(ev, exn)) == Identity(ev)
  {
    IdentityMeaning(ev);
    hide Identity, Conclusive, Unreadable, IsInfrastructureError;
  }

  /**
   * An outcome that is neither confirmed nor reverted leaves the row FAILED exactly when the evidence is
   * conclusive, published exactly when the chain shows the submitted target and CID, and otherwise waiting
   * a minute for the chain service with its attempt count unchanged.
   */
  lemma UnresolvedVerdict(row: Row, result: PipelineResult, target: string, cid: Cid, ev: Evidence,
                          read: Reply<Option<ChainRecord>>, evAgain: Evidence, now: Time)
    requires result.status != Confirmed && result.status != Reverted
    ensures var after := Apply(row, Pipeline(true, result, target, cid, ev, read, evAgain), now);
            var seen := read.Returned? && read.value.Some?
                        && read.value.value.url == target && read.value.value.cid == cid;
            var clean := !Conclusive(ev) && !Unreadable(ev);
            && (after.status == Failed <==> Conclusive(ev))
            && (after.status == Failed ==> after.error.Some? && !Retryable(after.error.value))
            && (clean && seen ==> after == PublishedRow(row))
            && (!Conclusive(ev) && !(clean && seen) ==>
                  after == row.(status := Waiting, error := Some(ChainRpcUnavailable), nextAt := Some(now + 60_000_000),
                                reason := StorageBackoff))
  {
    IdentityMeaning(ev);
  }

  /** The text a revert is judged by: what the client said, or a sentence of the worker's own. */
  lemma RevertText(result: PipelineResult)
    requires result.status == Reverted
    ensures result.error.Some? && result.error.value != "" ==> Message(result) == result.error.value
    ensures result.error in {None, Some("")} ==> Message(result) == "blockchain pipeline result was reverted"
  {
    assert "blockchain pipeline result was " + "reverted" == "blockchain pipeline result was reverted";
  }

  /**
   * A reverted transaction fails the row exactly when the first or the second identity check is conclusive,
   * or the chain shows another value and the client's text names no infrastructure problem. Otherwise the row is
   * published or waits a minute for the chain service.
   */
  lemma RevertedVerdict(row: Row, result: PipelineResult, target: string, cid: Cid, ev: Evidence,
                        read: Reply<Option<ChainRecord>>, evAgain: Evidence, now: Time)
    requires result.status == Reverted
    ensures var after := Apply(row, Pipeline(true, result, target, cid, ev, read, evAgain), now);
            var clean := !Conclusive(ev) && !Unreadable(ev);
            var seen := read.Returned? && read.value.Some?
                        && read.value.value.url == target && read.value.value.cid == cid;
            var different := read.Returned? && !seen;
            var outage := IsInfrastructureError(OtherError(Message(result)));
            && (after.status == Failed <==>
                  || Conclusive(ev)
                  || (clean && different
                      && (Conclusive(evAgain)
                          || (!Unreadable(evAgain) && !outage))))
            && (after.status == Failed ==> after.error.Some? && !Retryable(after.error.value))
            && (clean && seen ==> after == PublishedRow(row))
            && (after.status != Failed && !(clean && seen) ==>
                  after == row.(status := Waiting, error := Some(ChainRpcUnavailable), nextAt := Some(now + 60_000_000),
                                reason := StorageBackoff))
  {
    IdentityMeaning(ev);
    IdentityMeaning(evAgain);
    FailureMeans(evAgain, OtherError(Message(result)));
    hide Identity, Failure, Conclusive, Unreadable, Message, IsInfrastructureError;
  }

  /** publish_single_ark never fails a row for a code the catalogue calls retryable. */
  lemma SingleVerdictMeaning(row: Row, sent: Option<Exn>, target: string, cid: Cid, ev: Evidence,
                             read: Reply<Option<ChainRecord>>, evAgain: Evidence, now: Time)
    ensures var v := Single(sent, target, cid, ev, read, evAgain);
            var after := Apply(row, v, now);
            && !v.Untouched?
            && (v.Publish?
                <==> sent.None?
                     || (!Conclusive(ev) && !Unreadable(ev) && read.Returned? && read.value.Some?
                         && read.value.value.url == target && read.value.value.cid == cid))
            && (after.status == Failed ==> after.error.Some? && !Retryable(after.error.value))
            && (!v.Publish? && after.status != Failed ==> after.status == Waiting && after.attempts == row.attempts)
    ensures sent.Some? ==>
              var v := Single(sent, target, cid, ev, read, evAgain);
              var cause := if read.Raised? then read.exn else sent.value;
              && (v.Fail? <==>
                    || Conclusive(ev)
                    || (!Unreadable(ev) && !v.Publish?
                        && (Conclusive(evAgain) || (!Unreadable(evAgain) && Terminal(cause)))))
              && (v.Postpone? ==> v.code == ChainRpcUnavailable)
  {
    IdentityMeaning(ev);
    IdentityMeaning(evAgain);
    if sent.Some? {
      FailureMeans(evAgain, if read.Raised? then read.exn else sent.value);
    }
    hide Identity, Failure, Conclusive, Unreadable, Terminal;
  }
}
