/** API decisions about one ARK: ownership checks, PUT, DELETE and administrative retry. */
module Lifecycle {
  import opened Wrappers
  import opened ArkTypes
  import opened ArkRow
  import Text

  datatype ApiError = NotFound | Conflict | Forbidden | Unprocessable | BadGateway | Unavailable

  /** require_current_owner: never grants permissions, never changes a job's identity. */
  function RequireCurrentOwner(ev: Evidence, allowMissing: bool): Result<Option<ChainRecord>, ApiError> {
    if ev.authority.Raised? then Err(Unavailable)
    else if !ev.authority.value.active then Err(Forbidden)
    else if ev.onChain.Raised? then Err(Unavailable)
    else if ev.onChain.value.None? then (if allowMissing then Ok(None) else Err(Conflict))
    else if Text.Lower(ev.onChain.value.value.owner) != Text.Lower(ev.authority.value.wallet) then Err(Forbidden)
    else if ev.permitted.Raised? then Err(Unavailable)
    else if !ev.permitted.value then Err(Forbidden)
    else Ok(ev.onChain.value)
  }

  /** A row to write, and the superseded row when ownership was reconciled on the way. */
  datatype Effect = Effect(row: Row, archived: Option<Row>)

  /** `levelOneValid`: whether the Level-1 document passed schema validation. */
  datatype PutRequest = PutRequest(origin: Origin, levelOneValid: bool)

  function NormalizeWallet(w: string): string { Text.Lower(Text.Strip(w)) }

  /** A PUT on an ARK without a local row imports it from the chain first. */
  function Import(authority: Authority, known: Reply<bool>, ev: Evidence): Result<Row, ApiError> {
    if known.Raised? then Err(Unavailable)
    else if !known.value then Err(NotFound)
    else if ev.onChain.Raised? || ev.onChain.value.None? then Err(BadGateway)
    else if ev.authority.Raised? then Err(BadGateway)
    else if !ev.authority.value.active then Err(Forbidden)
    else
      var owner := NormalizeWallet(ev.onChain.value.value.owner);
      var wallet := NormalizeWallet(ev.authority.value.wallet);
      if owner == "" || wallet == "" || owner != wallet then Err(Forbidden)
      else Ok(ImportedPublished(authority, ev.onChain.value.value.url))
  }

  /** _reconcile_local_owner: take the record over for the caller when the chain says the caller owns the ARK. */
  function TakeOver(row: Row, caller: Authority, ev: Evidence): Result<Effect, ApiError> {
    match RequireCurrentOwner(ev, false)
    case Err(e) => Err(e)
    case Ok(current) =>
      if current.None? then Err(Conflict)
      else Ok(Effect(Reconciled(row, caller, current.value.url), Some(row)))
  }

  function AsCaller(row: Row, caller: Authority, ev: Evidence): Result<Effect, ApiError> {
    if row.authority != caller then TakeOver(row, caller, ev) else Ok(Effect(row, None))
  }

  /** Staging on a row the caller owns. Rejections leave nothing behind: the transaction is rolled back. */
  function StageContent(row: Row, req: PutRequest, now: Time): Result<Row, ApiError> {
    if row.state in {Tombstone, Draft, Update} then Err(Conflict)
    else if !req.levelOneValid then Err(Unprocessable)
    else if req.origin.target == "" then Err(Conflict)
    else
      var staged := StageMetadata(row, req.origin, now).(target := Some(req.origin.target));
      Ok(if row.state == Reserved then staged.(state := Draft) else staged.(state := Update))
  }

  function Put(row: Option<Row>, req: PutRequest, known: Reply<bool>, ev: Evidence, now: Time): Result<Effect, ApiError>
  {
    var caller := req.origin.authority;
    var base := if row.Some? then Ok(row.value) else Import(caller, known, ev);
    if base.Err? then Err(base.error)
    else
      match AsCaller(base.value, caller, ev)
      case Err(e) => Err(e)
      case Ok(mine) =>
        match StageContent(mine.row, req, now)
        case Err(e) => Err(e)
        case Ok(staged) => Ok(Effect(staged, mine.archived))
  }

  /** DELETE verifies current ownership a second time; only local records may be absent from the chain. */
  function Delete(row: Option<Row>, caller: Authority, ev: Evidence, evAgain: Evidence): Result<Effect, ApiError> {
    if row.None? then Err(NotFound)
    else
      match AsCaller(row.value, caller, ev)
      case Err(e) => Err(e)
      case Ok(mine) =>
        match RequireCurrentOwner(evAgain, mine.row.state in {Reserved, Draft})
        case Err(e) => Err(e)
        case Ok(_) => Ok(Effect(Tombstoned(mine.row), mine.archived))
  }

  datatype RetryRefusal = NoRow | NotOwner | NotRetryableState | NotFailed | OwnershipRefused(error: ApiError)

  /** POST /worker/retry for one ARK. */
  function Retry(row: Option<Row>, caller: Authority, ev: Evidence): Result<Row, RetryRefusal> {
    if row.None? then Err(NoRow)
    else if row.value.authority != caller then Err(NotOwner)
    else if row.value.state in {Reserved, Tombstone} then Err(NotRetryableState)
    else if row.value.status != Failed then Err(NotFailed)
    else
      match RequireCurrentOwner(ev, row.value.state == Draft)
      case Err(e) => Err(OwnershipRefused(e))
      case Ok(_) => Ok(Retried(row.value))
  }

  // ---------- who may do what, in terms of the answers of registry and chain ----------

  /** The registry says the caller is active, the chain names the caller's wallet as owner, and the NAAN is granted. */
  predicate OwnsRecord(ev: Evidence) {
    && ev.authority.Returned? && ev.authority.value.active
    && ev.onChain.Returned? && ev.onChain.value.Some?
    && Text.EqualIgnoringCase(ev.onChain.value.value.owner, ev.authority.value.wallet)
    && ev.permitted == Returned(true)
  }

  /** The caller is active and the chain has no record. */
  predicate NothingOnChain(ev: Evidence) {
    ev.authority.Returned? && ev.authority.value.active && ev.onChain == Returned(None)
  }

  /** Which refusal an ownership check gives: unreadable answers 503, a missing record 409, everything else 403. */
  predicate RefusedWith(ev: Evidence, error: ApiError) {
    if ev.authority.Raised? then error == Unavailable
    else if !ev.authority.value.active then error == Forbidden
    else
      match ev.onChain
      case Raised(_) => error == Unavailable
      case Returned(None) => error == Conflict
      case Returned(Some(record)) =>
        error == if Text.EqualIgnoringCase(record.owner, ev.authority.value.wallet) && ev.permitted.Raised?
                 then Unavailable else Forbidden
  }

  /** The caller passes as the owner, or, where a missing record is allowed, as the owner of nothing yet. */
  lemma CurrentOwnerMeans(ev: Evidence, allowMissing: bool)
    ensures var checked := RequireCurrentOwner(ev, allowMissing);
            && (checked.Ok? <==> OwnsRecord(ev) || (allowMissing && NothingOnChain(ev)))
            && (checked.Ok? ==> ev.onChain.Returned? && checked.value == ev.onChain.value)
            && (checked.Err? ==> RefusedWith(ev, checked.error))
  {
    if ev.authority.Returned? && ev.onChain.Returned? && ev.onChain.value.Some? {
      Text.LowerEqual(ev.onChain.value.value.owner, ev.authority.value.wallet);
    }
    hide Text.Lower, Text.EqualIgnoringCase;
  }

  /** A record changes hands if and only if the chain says that it is the caller's. It comes over without a payload. */
  lemma TakeOverMeans(row: Row, caller: Authority, ev: Evidence)
    ensures var done := TakeOver(row, caller, ev);
            && (done.Ok? <==> OwnsRecord(ev))
            && (done.Err? ==> RefusedWith(ev, done.error))
            && (done.Ok? ==>
                  && done.value.archived == Some(row)
                  && done.value.row == Row(Published, caller, Some(ev.onChain.value.value.url), NoStage, Done, 0, None,
                                           NoReason, None, None, None))
  {
    CurrentOwnerMeans(ev, false);
    hide RequireCurrentOwner, OwnsRecord, RefusedWith;
    assert OwnsRecord(ev) ==> ev.onChain.Returned? && ev.onChain.value.Some? by { OwnedIsThere(ev); }
  }

  lemma OwnedIsThere(ev: Evidence)
    ensures OwnsRecord(ev) ==> ev.onChain.Returned? && ev.onChain.value.Some?
  {
  }

  /** An ARK without a row can be imported by its owner: both wallets name somebody, and the same. */
  predicate MayImport(known: Reply<bool>, ev: Evidence) {
    && known == Returned(true)
    && ev.authority.Returned? && ev.authority.value.active && ev.onChain.Returned? && ev.onChain.value.Some?
    && Text.Strip(ev.authority.value.wallet) != ""
    && Text.EqualIgnoringCase(Text.Strip(ev.onChain.value.value.owner), Text.Strip(ev.authority.value.wallet))
  }

  lemma ImportMeans(authority: Authority, known: Reply<bool>, ev: Evidence)
    ensures var imported := Import(authority, known, ev);
            && (imported.Ok? <==> MayImport(known, ev))
            && (imported.Ok? ==>
                  imported.value == Row(Published, authority, Some(ev.onChain.value.value.url), NoStage, Done, 0, None,
                                        NoReason, None, None, None))
            && (imported.Err? ==>
                  && (imported.error == Unavailable <==> known.Raised?)
                  && (imported.error == NotFound <==> known == Returned(false))
                  && (imported.error == BadGateway
                      <==> && known == Returned(true)
                           && (ev.onChain.Raised? || ev.onChain.value.None? || ev.authority.Raised?))
                  && imported.error in {Unavailable, NotFound, BadGateway, Forbidden})
  {
    if ev.authority.Returned? && ev.onChain.Returned? && ev.onChain.value.Some? {
      Text.LowerEqual(Text.Strip(ev.onChain.value.value.owner), Text.Strip(ev.authority.value.wallet));
    }
    hide Text.Strip, Text.EqualIgnoringCase;
  }

  /** Whether a PUT may be staged on what it finds: nothing, the caller's row, or somebody else's. */
  predicate MayStage(row: Option<Row>, caller: Authority, known: Reply<bool>, ev: Evidence) {
    match row
    case None => MayImport(known, ev)
    case Some(found) => if found.authority == caller then found.state in {Reserved, Published} else OwnsRecord(ev)
  }

  lemma StageMeans(row: Row, req: PutRequest, now: Time)
    ensures var o, staged := req.origin, StageContent(row, req, now);
            && (staged.Ok? <==> row.state in {Reserved, Published} && req.levelOneValid && o.target != "")
            && (staged.Ok? ==>
                  && staged.value == row.(state := if row.state == Reserved then Draft else Update,
                                          target := Some(o.target), stage := Metadata, status := Ready, attempts := 0,
                                          nextAt := None, reason := NoReason, error := None, meta := staged.value.meta)
                  && staged.value.meta.Some?
                  && Submitted(staged.value.meta.value, o) && Dated(staged.value.meta.value, row.meta, now))
  {
    match row.state { case Reserved => case Draft => case Update => case Published => case Tombstone => }
  }

  /**
   * A PUT is accepted if and only if the caller may stage on what is there, the Level-1 document is valid and a target
   * is given. Anybody but the row's authority is accepted only as the owner the chain names. The accepted row carries
   * exactly the submitted payload and restarts at METADATA, as a draft if nothing was ever published, else as an
   * update.
   */
  lemma PutMeans(row: Option<Row>, req: PutRequest, known: Reply<bool>, ev: Evidence, now: Time)
    ensures var o, done := req.origin, Put(row, req, known, ev, now);
            && (done.Ok? <==> MayStage(row, o.authority, known, ev) && req.levelOneValid && o.target != "")
            && (done.Ok? ==>
                  && done.value.archived == (if row.Some? && row.value.authority != o.authority then row else None)
                  && var after := done.value.row;
                     && after.authority == o.authority && after.target == Some(o.target)
                     && after.state == (if row.Some? && row.value.authority == o.authority
                                           && row.value.state == Reserved then Draft else Update)
                     && after.stage == Metadata && after.status == Ready && after.attempts == 0
                     && after.nextAt.None? && after.reason == NoReason && after.error.None?
                     && after.clientItem == (if row.Some? && row.value.authority == o.authority
                                             then row.value.clientItem else None)
                     && after.meta.Some? && Submitted(after.meta.value, o)
                     && Dated(after.meta.value, if row.Some? && row.value.authority == o.authority
                                                then row.value.meta else None, now))
  {
    var o := req.origin;
    if row.None? {
      ImportMeans(o.authority, known, ev);
      if Import(o.authority, known, ev).Ok? {
        StageMeans(Import(o.authority, known, ev).value, req, now);
      }
    } else if row.value.authority == o.authority {
      StageMeans(row.value, req, now);
    } else {
      TakeOverMeans(row.value, o.authority, ev);
      if TakeOver(row.value, o.authority, ev).Ok? {
        StageMeans(TakeOver(row.value, o.authority, ev).value.row, req, now);
      }
    }
    hide StageContent, Import, TakeOver, OwnsRecord, MayImport, Submitted, Dated;
  }

  /** The payload of this submission, not stored anywhere yet. */
  predicate Submitted(m: Meta, o: Origin) {
    && m.origin == o && m.level1Json == Some(o.fields) && m.content == Some(o.content)
    && m.mediaType == o.mediaType && m.schema == o.schema
    && m.level1Cid.None? && m.level2Cid.None? && m.level1Count.None? && m.level2Count.None?
  }

  /** The dates of a metadata row: those it had, or a new one's. */
  predicate Dated(m: Meta, before: Option<Meta>, now: Time) {
    match before
    case None => m.createdAt == now && m.lastRepairAt.None? && m.observations == 0
    case Some(was) =>
      m.createdAt == was.createdAt && m.lastRepairAt == was.lastRepairAt && m.observations == was.observations
  }

  /** The status of a refused PUT: import first, then ownership, then the state, the document and the target. */
  lemma PutRefusals(row: Option<Row>, req: PutRequest, known: Reply<bool>, ev: Evidence, now: Time)
    requires Put(row, req, known, ev, now).Err?
    ensures var error := Put(row, req, known, ev, now).error;
            if !MayStage(row, req.origin.authority, known, ev) then
              match row
              case None => Import(req.origin.authority, known, ev) == Err(error)
              case Some(found) => if found.authority == req.origin.authority then error == Conflict
                                  else RefusedWith(ev, error)
            else error == if !req.levelOneValid then Unprocessable else Conflict
  {
    PutMeans(row, req, known, ev, now);
    ImportMeans(req.origin.authority, known, ev);
    if row.Some? {
      TakeOverMeans(row.value, req.origin.authority, ev);
      if row.value.authority == req.origin.authority && !MayStage(row, req.origin.authority, known, ev) {
        assert row.value.state !in {Reserved, Published};
        match row.value.state { case Reserved => case Draft => case Update => case Published => case Tombstone => }
      }
    }
    hide RequireCurrentOwner, Import, TakeOver, OwnsRecord, MayImport, RefusedWith;
  }

  /**
   * A DELETE is accepted if and only if the row is the caller's or the chain says so, and the chain, asked again, still
   * says so; only a record that was never sent there may be missing. The row becomes a tombstone with nothing to do.
   */
  lemma DeleteMeans(row: Option<Row>, caller: Authority, ev: Evidence, evAgain: Evidence)
    ensures var done := Delete(row, caller, ev, evAgain);
            && (done.Ok? <==>
                  && row.Some? && (row.value.authority != caller ==> OwnsRecord(ev))
                  && (OwnsRecord(evAgain)
                      || (row.value.authority == caller && row.value.state in {Reserved, Draft}
                          && NothingOnChain(evAgain))))
            && (done.Err? ==>
                  if row.None? then done.error == NotFound
                  else if row.value.authority != caller && !OwnsRecord(ev) then RefusedWith(ev, done.error)
                  else RefusedWith(evAgain, done.error))
            && (done.Ok? ==>
                  && done.value.archived == (if row.value.authority != caller then row else None)
                  && var after := done.value.row;
                     && after.state == Tombstone && after.authority == caller
                     && (row.value.authority == caller && row.value.state == Tombstone ==> after == row.value)
                     && (row.value.authority == caller && row.value.state != Tombstone ==>
                           after == row.value.(state := Tombstone, status := Cancelled, nextAt := None,
                                               reason := NoReason))
                     && (row.value.authority != caller ==>
                           after == Row(Tombstone, caller, Some(ev.onChain.value.value.url), NoStage, Cancelled, 0,
                                        None, NoReason, None, None, None)))
  {
    if row.Some? {
      TakeOverMeans(row.value, caller, ev);
      OwnedIsThere(ev);
      CurrentOwnerMeans(evAgain, row.value.authority == caller && row.value.state in {Reserved, Draft});
    }
    hide RequireCurrentOwner, TakeOver, OwnsRecord, RefusedWith, NothingOnChain;
  }

  /** Which rows a retry accepts: the caller's failed ones, as long as the chain still says they are the caller's. */
  predicate MayRetry(row: Row, caller: Authority, ev: Evidence) {
    && row.authority == caller && row.status == Failed && row.state in {Draft, Update, Published}
    && (OwnsRecord(ev) || (row.state == Draft && NothingOnChain(ev)))
  }

  /** The row goes back to its queue where it stood, with a fresh attempt count. */
  lemma RetryMeans(row: Option<Row>, caller: Authority, ev: Evidence)
    ensures var done := Retry(row, caller, ev);
            && (done.Ok? <==> row.Some? && MayRetry(row.value, caller, ev))
            && (done.Ok? ==>
                  done.value == row.value.(status := Ready, nextAt := None, reason := NoReason, attempts := 0))
            && (done.Err? ==>
                  && (done.error == NoRow <==> row.None?)
                  && (done.error == NotOwner <==> row.Some? && row.value.authority != caller)
                  && (done.error == NotRetryableState
                      <==> row.Some? && row.value.authority == caller && row.value.state in {Reserved, Tombstone})
                  && (done.error == NotFailed
                      <==> && row.Some? && row.value.authority == caller
                           && row.value.state in {Draft, Update, Published}
                           && row.value.status != Failed)
                  && (done.error.OwnershipRefused? ==> RefusedWith(ev, done.error.error)))
  {
    if row.Some? {
      CurrentOwnerMeans(ev, row.value.state == Draft);
    }
    hide RequireCurrentOwner, OwnsRecord, RefusedWith, NothingOnChain;
  }
}
