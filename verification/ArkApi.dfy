/** The API mutations on one ARK as code: PUT, DELETE, ownership reconciliation and administrative retry. */
module ArkApi {
  import opened Wrappers
  import opened ArkTypes
  import opened ArkRow
  import opened ArkRepositories
  import opened Lifecycle
  import opened Protocol
  import opened Seqs

  function RowAt(rows: map<Ark, Row>, ark: Ark): Option<Row> {
    if ark in rows then Some(rows[ark]) else None
  }

  function ArchiveEntry(ark: Ark, caller: Authority, archived: Option<Row>): seq<Superseded> {
    if archived.Some? then [Superseded(ark, archived.value.authority, caller, archived.value)] else []
  }

  class ArkMutations {
    const repo: ArkRepository
    var superseded: seq<Superseded>

    constructor (repo: ArkRepository)
      ensures this.repo == repo && superseded == []
    {
      this.repo := repo;
      superseded := [];
    }

    /** Archives the record under its old authority and rewrites it for the chain's owner. */
    method ReconcileLocalOwner(ark: Ark, caller: Authority, ev: Evidence) returns (done: Result<(), ApiError>)
      requires ark in repo.rows
      modifies this, repo
      ensures done.Ok? <==> TakeOver(old(repo.rows)[ark], caller, ev).Ok?
      ensures done.Err? ==> done.error == TakeOver(old(repo.rows)[ark], caller, ev).error
                            && repo.rows == old(repo.rows) && superseded == old(superseded)
      ensures done.Ok? ==>
                var effect := TakeOver(old(repo.rows)[ark], caller, ev).value;
                && repo.rows == old(repo.rows)[ark := effect.row]
                && superseded == old(superseded) + ArchiveEntry(ark, caller, effect.archived)
    {
      var current := RequireCurrentOwner(ev, false);
      if current.Err? { return Err(current.error); }
      if current.value.None? { return Err(Conflict); }
      var record := repo.rows[ark];
      superseded := superseded + [Superseded(ark, record.authority, caller, record)];
      record := record.(meta := None, authority := caller, state := Published, target := Some(current.value.value.url));
      record := record.(clientItem := None, stage := NoStage, status := Done, reason := NoReason, attempts := 0);
      record := record.(error := None, nextAt := None);
      repo.rows := repo.rows[ark := record];
      return Ok(());
    }

    /** PUT under the ARK's lock. Every rejection rolls the whole transaction back. */
    method UpdateArkMetadata(req: PutRequest, known: Reply<bool>, ev: Evidence, now: Time)
      returns (done: Result<(), ApiError>)
      modifies this, repo
      ensures var ark := req.origin.ark;
              var outcome := Put(RowAt(old(repo.rows), ark), req, known, ev, now);
              && (done.Ok? <==> outcome.Ok?)
              && (done.Err? ==> done.error == outcome.error
                                && repo.rows == old(repo.rows) && superseded == old(superseded))
              && (done.Ok? ==>
                    && repo.rows == old(repo.rows)[ark := outcome.value.row]
                    && superseded == old(superseded) + ArchiveEntry(ark, req.origin.authority, outcome.value.archived))
    {
      var ark := req.origin.ark;
      var rowsBefore, archiveBefore := repo.rows, superseded;
      if ark !in repo.rows {
        var imported := Import(req.origin.authority, known, ev);
        if imported.Err? { return Err(imported.error); }
        repo.rows := repo.rows[ark := imported.value];
      }
      done := Ok(());
      if repo.rows[ark].authority != req.origin.authority {
        done := ReconcileLocalOwner(ark, req.origin.authority, ev);
      }
      if done.Ok? {
        done := StagePayload(req, now);
      }
      if done.Err? {
        repo.rows, superseded := rowsBefore, archiveBefore;
      }
    }

    /** The state checks, validation and staging of PUT on a row the caller owns. */
    method StagePayload(req: PutRequest, now: Time) returns (done: Result<(), ApiError>)
      requires req.origin.ark in repo.rows
      modifies repo
      ensures var outcome := StageContent(old(repo.rows)[req.origin.ark], req, now);
              && (done.Ok? <==> outcome.Ok?)
              && (done.Err? ==> done.error == outcome.error)
              && (done.Ok? ==> repo.rows == old(repo.rows)[req.origin.ark := outcome.value])
    {
      var ark := req.origin.ark;
      var state := repo.rows[ark].state;
      if state == Tombstone || state == Draft || state == Update { return Err(Conflict); }
      if !req.levelOneValid { return Err(Unprocessable); }
      repo.CreateOrUpdateMetadata(ark, req.origin, now);
      var moved: Result<(), WriteError>;
      if state == Reserved {
        moved := repo.UpdateToDraft(ark, req.origin.target);
      } else {
        moved := repo.UpdateToUpdate(ark, req.origin.target);
      }
      if moved.Err? { return Err(Conflict); }
      return Ok(());
    }

    /** DELETE under the ARK's lock. */
    method DeleteArk(ark: Ark, caller: Authority, ev: Evidence, evAgain: Evidence) returns (done: Result<(), ApiError>)
      modifies this, repo
      ensures var outcome := Delete(RowAt(old(repo.rows), ark), caller, ev, evAgain);
              && (done.Ok? <==> outcome.Ok?)
              && (done.Err? ==> done.error == outcome.error
                                && repo.rows == old(repo.rows) && superseded == old(superseded))
              && (done.Ok? ==>
                    && repo.rows == old(repo.rows)[ark := outcome.value.row]
                    && superseded == old(superseded) + ArchiveEntry(ark, caller, outcome.value.archived))
    {
      if ark !in repo.rows { return Err(NotFound); }
      var rowsBefore, archiveBefore := repo.rows, superseded;
      done := Ok(());
      if caller != repo.rows[ark].authority {
        done := ReconcileLocalOwner(ark, caller, ev);
      }
      if done.Ok? {
        var owner := RequireCurrentOwner(evAgain, repo.rows[ark].state in {Reserved, Draft});
        if owner.Err? {
          done := Err(owner.error);
        } else {
          var written := repo.UpdateToTombstone(ark);
        }
      }
      if done.Err? {
        repo.rows, superseded := rowsBefore, archiveBefore;
      }
    }

    /**
     * One retry request over several ARKs: each is decided and committed on its own, in order; `free` is lock
     * availability.
     */
    method RetryFailedArks(arks: seq<Ark>, caller: Authority, free: Ark -> bool, ev: Ark -> Evidence)
      returns (outcomes: seq<RetryOutcome>)
      modifies repo
      ensures |outcomes| == |Dedupe(arks)|
      ensures repo.rows == RetryAll(old(repo.rows), Dedupe(arks), caller, free, ev)
      ensures forall i :: 0 <= i < |outcomes| ==>
                outcomes[i] == RetryOutcomeOf(old(repo.rows), Dedupe(arks)[i], caller, free, ev)
    {
      var identifiers := Dedupe(arks);
      DedupeDistinct(arks);
      outcomes := [];
      ghost var before := repo.rows;
      var i := 0;
      while i < |identifiers|
        invariant 0 <= i <= |identifiers| && |outcomes| == i
        invariant repo.rows == RetryAll(before, identifiers[..i], caller, free, ev)
        invariant forall k :: 0 <= k < i ==> outcomes[k] == RetryOutcomeOf(before, identifiers[k], caller, free, ev)
        invariant forall ark :: ark !in identifiers[..i] ==> RowAt(repo.rows, ark) == RowAt(before, ark)
      {
        var ark := identifiers[i];
        NotEarlier(identifiers, i);
        assert RowAt(repo.rows, ark) == RowAt(before, ark);
        assert identifiers[..i + 1][..i] == identifiers[..i];
        var outcome := Locked;
        if free(ark) {
          var retried := Retry(RowAt(repo.rows, ark), caller, ev(ark));
          if retried.Ok? {
            repo.rows := repo.rows[ark := retried.value];
            outcome := Accepted;
          } else {
            outcome := Refused(retried.error);
          }
        }
        outcomes := outcomes + [outcome];
        i := i + 1;
      }
      assert identifiers[..i] == identifiers;
    }
  }

  datatype RetryOutcome = Locked | Accepted | Refused(refusal: RetryRefusal)

  function RetryOutcomeOf(rows: map<Ark, Row>, ark: Ark, caller: Authority, free: Ark -> bool,
                          ev: Ark -> Evidence): RetryOutcome
  {
    if !free(ark) then Locked
    else
      match Retry(RowAt(rows, ark), caller, ev(ark))
      case Ok(_) => Accepted
      case Err(refusal) => Refused(refusal)
  }

  predicate RetryAccepted(rows: map<Ark, Row>, ark: Ark, caller: Authority, free: Ark -> bool, ev: Ark -> Evidence) {
    RetryOutcomeOf(rows, ark, caller, free, ev) == Accepted
  }

  function RetryAll(rows: map<Ark, Row>, arks: seq<Ark>, caller: Authority, free: Ark -> bool,
                    ev: Ark -> Evidence): map<Ark, Row>
  {
    if arks == [] then rows
    else
      var before := RetryAll(rows, arks[..|arks| - 1], caller, free, ev);
      var ark := arks[|arks| - 1];
      if RetryAccepted(before, ark, caller, free, ev)
        then before[ark := Retry(RowAt(before, ark), caller, ev(ark)).value]
      else before
  }

  /** A retry request changes exactly the failed rows the caller currently owns, each to READY where it stood. */
  lemma {:induction false} RetryAllEffect(rows: map<Ark, Row>, arks: seq<Ark>, caller: Authority, free: Ark -> bool,
                                          ev: Ark -> Evidence, ark: Ark)
    requires Distinct(arks)
    ensures var after := RetryAll(rows, arks, caller, free, ev);
            if ark in arks && ark in rows && free(ark) && MayRetry(rows[ark], caller, ev(ark))
            then ark in after
                 && after[ark] == rows[ark].(status := Ready, nextAt := None, reason := NoReason, attempts := 0)
            else RowAt(after, ark) == RowAt(rows, ark)
  {
    if arks != [] {
      var init, last := arks[..|arks| - 1], arks[|arks| - 1];
      assert arks == init + [last];
      RetryAllEffect(rows, init, caller, free, ev, ark);
      RetryAllEffect(rows, init, caller, free, ev, last);
      NotEarlier(arks, |arks| - 1);
      RetryMeans(RowAt(rows, ark), caller, ev(ark));
      hide MayRetry, Retry;
    }
  }

  /** The outcome reported for each ARK: busy, refused, or accepted exactly as the row may be retried. */
  lemma RetryOutcomeMeans(rows: map<Ark, Row>, ark: Ark, caller: Authority, free: Ark -> bool, ev: Ark -> Evidence)
    ensures var outcome := RetryOutcomeOf(rows, ark, caller, free, ev);
            && (outcome == Locked <==> !free(ark))
            && (outcome == Accepted <==> free(ark) && ark in rows && MayRetry(rows[ark], caller, ev(ark)))
  {
    RetryMeans(RowAt(rows, ark), caller, ev(ark));
    hide MayRetry, Retry;
  }
}
