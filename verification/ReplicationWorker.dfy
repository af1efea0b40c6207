/** ReplicationReconciliationWorker._reconcile: observe both CIDs, repair what is lost, advance or purge. */
module ReplicationWorker {
  import opened Wrappers
  import opened ArkTypes
  import opened ArkRow
  import opened ArkRepositories

  datatype Tally = Tally(checked: nat, advanced: nat, waiting: nat, repaired: nat, purged: nat, failed: nat)

  datatype Attempt = Attempt(row: Row, stored: seq<Document>, tally: Tally)

  /**
   * Documents stored by repairs, and how many succeeded; `ok` is false when a repair raised or answered another CID.
   */
  datatype Repairs = Repairs(stored: seq<Document>, count: nat, ok: bool)

  function RepairOne(needed: bool, possible: bool, document: Document, expected: Cid, reply: Reply<Cid>): Repairs {
    if !needed then Repairs([], 0, true)
    else if !possible then Repairs([], 0, false)
    else if reply == Returned(expected) then Repairs([document], 1, true)
    else Repairs([document], 0, false)
  }

  function Level2Repair(c: Config, m: Meta, o2: Pin, reply2: Reply<Cid>, now: Time): Repairs
    requires m.level2Cid.Some?
  {
    RepairOne(NeedsRepair(o2, RepairAllowed(c, m, now)), CanStoreLevel2(m),
              if m.content.Some? then Level2Of(m) else Level2Document("", "", ""), m.level2Cid.value, reply2)
  }

  function Level1Repair(c: Config, m: Meta, o1: Pin, reply1: Reply<Cid>, now: Time): Repairs
    requires m.level1Cid.Some? && m.level2Cid.Some?
  {
    RepairOne(NeedsRepair(o1, RepairAllowed(c, m, now)), m.level1Json.Some?,
              if m.level1Json.Some? then Level1Of(m, m.level2Cid.value) else Level1Document("", ""),
              m.level1Cid.value, reply1)
  }

  function AllRepairs(c: Config, m: Meta, o1: Pin, o2: Pin, reply2: Reply<Cid>, reply1: Reply<Cid>, now: Time): Repairs
    requires m.level1Cid.Some? && m.level2Cid.Some?
  {
    var two := Level2Repair(c, m, o2, reply2, now);
    if !two.ok then two
    else
      var one := Level1Repair(c, m, o1, reply1, now);
      Repairs(two.stored + one.stored, two.count + one.count, one.ok)
  }

  function Skipped(row: Row): Attempt { Attempt(row, [], Tally(0, 0, 0, 0, 0, 0)) }

  /** Reconciliation is endless: an exception only postpones. */
  function Postponed(c: Config, row: Row, stored: seq<Document>, repaired: nat, now: Time): Attempt
    requires ValidConfig(c)
  {
    Attempt(Deferred(row, ReplicationUnavailable, c.firstPin[0], now), stored, Tally(1, 0, 0, repaired, 0, 1))
  }

  function TallyOf(row: Row, after: Row, repaired: nat): Tally {
    Tally(1, if after.stage != row.stage then 1 else 0, if after.stage != row.stage then 0 else 1,
          repaired, if after.stage == Complete then 1 else 0, 0)
  }

  predicate Observed(m: Meta, pins: Reply<map<Cid, Pin>>) {
    && CidsUsable(m) && pins.Returned?
    && m.level1Cid.value in pins.value && m.level2Cid.value in pins.value
    && pins.value[m.level1Cid.value].status != UnknownPin && pins.value[m.level2Cid.value].status != UnknownPin
  }

  function AuditAttempt(c: Config, row: Row, isAssigned: bool, pins: Reply<map<Cid, Pin>>,
                        reply2: Reply<Cid>, reply1: Reply<Cid>, now: Time, later: Time): Attempt
    requires ValidConfig(c)
  {
    if !AuditGuard(row, now) then Skipped(row)
    else if !isAssigned then Attempt(MarkFailed(row, AuthorityNotFound, now), [], Tally(1, 0, 0, 0, 0, 1))
    else if row.meta.None? || !Observed(row.meta.value, pins) then Postponed(c, row, [], 0, now)
    else
      var m := row.meta.value;
      var o1, o2 := pins.value[m.level1Cid.value], pins.value[m.level2Cid.value];
      var repairs := AllRepairs(c, m, o1, o2, reply2, reply1, now);
      if !repairs.ok then Postponed(c, row, repairs.stored, repairs.count, now)
      else
        var after := Audited(c, row, o1, o2, repairs.count > 0, now, later);
        Attempt(after, repairs.stored, TallyOf(row, after, repairs.count))
  }

  class ReplicationReconciliationWorker {
    const config: Config

    constructor (config: Config)
      requires ValidConfig(config)
      ensures this.config == config
    {
      this.config := config;
    }

    /** Step of the first-pin phase: hand over to the chain worker, or schedule the next look. */
    method FirstPin(repo: ArkRepository, ark: Ark, m: Meta, o1: Pin, o2: Pin, later: Time)
      requires ValidConfig(config) && ark in repo.rows && repo.rows[ark].meta.Some?
      modifies repo
      ensures repo.rows == old(repo.rows)[ark := FirstPinRow(config, old(repo.rows)[ark], m, o1, o2, later)]
    {
      var current := repo.rows[ark];
      var replicas := Min(CountOf(o1), CountOf(o2));
      if replicas >= config.publishAfter {
        current := current.(stage := Chain, status := Ready, nextAt := None, reason := NoReason,
                            meta := Some(m.(observations := 0)));
      } else {
        var previous := Min(KnownCount(current.meta.value.level1Count), KnownCount(current.meta.value.level2Count));
        var reason := PinReason(o1, o2);
        var changed := current.reason != reason || replicas > previous;
        var observations := 1;
        if !changed { observations := m.observations + 1; }
        current := current.(status := Waiting, reason := reason, meta := Some(m.(observations := observations)),
                            nextAt := Some(later + ScheduledDelay(observations, config.firstPin)));
      }
      repo.rows := repo.rows[ark := current];
    }

    /** Step of the durability phase: purge, ask again after a repair, or schedule the next audit. */
    method Durability(repo: ArkRepository, ark: Ark, m: Meta, o1: Pin, o2: Pin, repaired: bool, later: Time)
      requires ValidConfig(config) && ark in repo.rows
      modifies repo
      ensures repo.rows == old(repo.rows)[ark := DurabilityRow(config, old(repo.rows)[ark], m, o1, o2, repaired, later)]
    {
      var current := repo.rows[ark];
      if Min(CountOf(o1), CountOf(o2)) >= config.targetReplicas {
        current := current.(meta := Some(m.(level1Json := None, content := None)));
        current := current.(stage := Complete, status := Done, nextAt := None, reason := NoReason);
      } else if repaired {
        current := current.(status := Ready, nextAt := None, reason := NoReason, meta := Some(m.(observations := 0)));
      } else {
        var observations := m.observations + 1;
        current := current.(status := Waiting, reason := ReplicaTarget, meta := Some(m.(observations := observations)),
                            nextAt := Some(later + ScheduledDelay(observations, config.durability)));
      }
      repo.rows := repo.rows[ark := current];
    }

    method Repair(m: Meta, o1: Pin, o2: Pin, reply2: Reply<Cid>, reply1: Reply<Cid>, now: Time)
      returns (repairs: Repairs)
      requires m.level1Cid.Some? && m.level2Cid.Some?
      ensures repairs == AllRepairs(config, m, o1, o2, reply2, reply1, now)
    {
      var allowed := RepairAllowed(config, m, now);
      var stored: seq<Document>, count := [], 0;
      if NeedsRepair(o2, allowed) {
        if !CanStoreLevel2(m) { return Repairs(stored, count, false); }
        stored := stored + [Level2Of(m)];
        if reply2.Raised? || reply2.value != m.level2Cid.value { return Repairs(stored, count, false); }
        count := count + 1;
      }
      if NeedsRepair(o1, allowed) {
        if m.level1Json.None? { return Repairs(stored, count, false); }
        stored := stored + [Level1Of(m, m.level2Cid.value)];
        if reply1.Raised? || reply1.value != m.level1Cid.value { return Repairs(stored, count, false); }
        count := count + 1;
      }
      return Repairs(stored, count, true);
    }

    /** One attempt on one ARK; nothing happens when another session holds its lock. */
    method Reconcile(repo: ArkRepository, ark: Ark, locked: bool, isAssigned: bool, pins: Reply<map<Cid, Pin>>,
                     reply2: Reply<Cid>, reply1: Reply<Cid>, now: Time, later: Time)
      returns (tally: Tally, stored: seq<Document>)
      requires ValidConfig(config)
      modifies repo
      ensures !locked || ark !in old(repo.rows) ==>
                repo.rows == old(repo.rows) && tally == Tally(0, 0, 0, 0, 0, 0) && stored == []
      ensures locked && ark in old(repo.rows) ==>
                var attempt := AuditAttempt(config, old(repo.rows)[ark], isAssigned, pins, reply2, reply1, now, later);
                repo.rows == old(repo.rows)[ark := attempt.row] && tally == attempt.tally && stored == attempt.stored
    {
      stored := [];
      tally := Tally(0, 0, 0, 0, 0, 0);
      if !locked || ark !in repo.rows { return; }
      var record := repo.rows[ark];
      if !AuditGuard(record, now) { return; }
      if !isAssigned {
        repo.MarkProcessingFailed(ark, AuthorityNotFound, true, now);
        tally := Tally(1, 0, 0, 0, 0, 1);
        return;
      }
      if record.meta.None? || !Observed(record.meta.value, pins) {
        repo.DeferProcessingRetry(ark, ReplicationUnavailable, config.firstPin[0], now);
        tally := Tally(1, 0, 0, 0, 0, 1);
        return;
      }
      var m := record.meta.value;
      var o1, o2 := pins.value[m.level1Cid.value], pins.value[m.level2Cid.value];
      var repairs := Repair(m, o1, o2, reply2, reply1, now);
      stored := repairs.stored;
      if !repairs.ok {
        repo.DeferProcessingRetry(ark, ReplicationUnavailable, config.firstPin[0], now);
        tally := Tally(1, 0, 0, repairs.count, 0, 1);
        return;
      }
      var seen := ObservedMeta(m, o1, o2, repairs.count > 0, now);
      if record.stage == Availability {
        FirstPin(repo, ark, seen, o1, o2, later);
      } else {
        Durability(repo, ark, seen, o1, o2, repairs.count > 0, later);
      }
      tally := TallyOf(record, repo.rows[ark], repairs.count);
    }
  }

  /** Each attempt is counted once: skipped, failed, advanced or waiting. */
  lemma TallyPartition(c: Config, row: Row, isAssigned: bool, pins: Reply<map<Cid, Pin>>,
                       reply2: Reply<Cid>, reply1: Reply<Cid>, now: Time, later: Time)
    requires ValidConfig(c)
    ensures var t := AuditAttempt(c, row, isAssigned, pins, reply2, reply1, now, later).tally;
            && t.checked == t.advanced + t.waiting + t.failed && t.checked <= 1
            && t.purged <= t.advanced && t.repaired <= 2
  {
    if AuditGuard(row, now) && isAssigned && row.meta.Some? && Observed(row.meta.value, pins) {
      var m := row.meta.value;
      var o1, o2 := pins.value[m.level1Cid.value], pins.value[m.level2Cid.value];
      var repairs := AllRepairs(c, m, o1, o2, reply2, reply1, now);
      assert repairs.count <= 2;
      if repairs.ok {
        var after := Audited(c, row, o1, o2, repairs.count > 0, now, later);
        assert after.stage == Complete ==> after.stage != row.stage;
      }
    }
  }

  // ---------- what an attempt does, in terms of what the pins show ----------

  /** A pin's replicas as they are recorded: a negative report counts as none. */
  predicate Records(count: Option<nat>, pin: Pin) {
    count.Some? && (if pin.total < 0 then count.value == 0 else count.value == pin.total)
  }

  /**
   * An attempt that is neither skipped nor postponed has read a pin of each CID and records exactly what they show. The
   * row goes to the chain queue if and only if both show `publishAfter` replicas; it is completed, and its payload
   * purged, if and only if both show `targetReplicas`. Everything else about the row stays.
   */
  lemma AuditAdvances(c: Config, row: Row, isAssigned: bool, pins: Reply<map<Cid, Pin>>, reply2: Reply<Cid>,
                      reply1: Reply<Cid>, now: Time, later: Time)
    requires ValidConfig(c)
    requires var t := AuditAttempt(c, row, isAssigned, pins, reply2, reply1, now, later).tally;
             t.checked > 0 && t.failed == 0
    ensures var a := AuditAttempt(c, row, isAssigned, pins, reply2, reply1, now, later);
            && isAssigned && HasBothCids(row) && a.row.meta.Some? && pins.Returned?
            && var m, after := row.meta.value, a.row.meta.value;
               && m.level1Cid.value in pins.value && m.level2Cid.value in pins.value
               && var pin1, pin2 := pins.value[m.level1Cid.value], pins.value[m.level2Cid.value];
                  && Records(after.level1Count, pin1) && Records(after.level2Count, pin2)
                  && after.lastRepairAt == (if a.tally.repaired > 0 then Some(now) else m.lastRepairAt)
                  && row.stage in {Availability, Replication}
                  && (row.stage == Availability ==>
                        && a.row.stage in {Availability, Chain}
                        && (a.row.stage == Chain <==> pin1.total >= c.publishAfter && pin2.total >= c.publishAfter))
                  && (row.stage == Replication ==>
                        && a.row.stage in {Replication, Complete}
                        && (a.row.stage == Complete
                            <==> pin1.total >= c.targetReplicas && pin2.total >= c.targetReplicas))
                  && (if a.row.stage == Complete then after.level1Json.None? && after.content.None?
                      else after.level1Json == m.level1Json && after.content == m.content)
                  && (a.tally.advanced == 1 <==> a.row.stage != row.stage)
                  && (a.tally.purged == 1 <==> a.row.stage == Complete)
    ensures var a := AuditAttempt(c, row, isAssigned, pins, reply2, reply1, now, later);
            && a.row == row.(stage := a.row.stage, status := a.row.status, nextAt := a.row.nextAt,
                             reason := a.row.reason, meta := a.row.meta)
            && a.row.meta.value == row.meta.value.(level1Count := a.row.meta.value.level1Count,
                                                   level2Count := a.row.meta.value.level2Count,
                                                   observations := a.row.meta.value.observations,
                                                   lastRepairAt := a.row.meta.value.lastRepairAt,
                                                   level1Json := a.row.meta.value.level1Json,
                                                   content := a.row.meta.value.content)
  {
    hide AllRepairs, ScheduledDelay, PinReason;
  }

  /**
   * When the row is looked at again. A row that moves on is ready or done. A row that stays at AVAILABILITY waits for
   * the reason its pins show, by the first-pin cadence; the count of fruitless looks starts anew when the reason
   * changes or replicas were gained. A row that stays at REPLICATION is ready at once after a repair and otherwise
   * waits by the durability cadence.
   */
  lemma AuditSchedules(c: Config, row: Row, isAssigned: bool, pins: Reply<map<Cid, Pin>>, reply2: Reply<Cid>,
                       reply1: Reply<Cid>, now: Time, later: Time)
    requires ValidConfig(c)
    requires var t := AuditAttempt(c, row, isAssigned, pins, reply2, reply1, now, later).tally;
             t.checked > 0 && t.failed == 0
    ensures var a := AuditAttempt(c, row, isAssigned, pins, reply2, reply1, now, later);
            && HasBothCids(row) && a.row.meta.Some? && pins.Returned?
            && row.meta.value.level1Cid.value in pins.value && row.meta.value.level2Cid.value in pins.value
            && var m, looks := row.meta.value, a.row.meta.value.observations;
               var pin1, pin2 := pins.value[m.level1Cid.value], pins.value[m.level2Cid.value];
               if a.row.stage == Chain then
                 a.row.status == Ready && a.row.nextAt.None? && a.row.reason == NoReason && looks == 0
               else if a.row.stage == Complete then
                 a.row.status == Done && a.row.nextAt.None? && a.row.reason == NoReason
               else if a.row.stage == Availability then
                 && a.row.status == Waiting
                 && (a.row.reason == ClusterQueued <==> pin1.status == Queued || pin2.status == Queued)
                 && (a.row.reason == ClusterPinning
                     <==> pin1.status != Queued && pin2.status != Queued
                          && (pin1.status == Pinning || pin2.status == Pinning))
                 && a.row.reason in {ClusterQueued, ClusterPinning, InitialVisibility}
                 && looks == (if a.row.reason != row.reason || (GainedOn(m.level1Count, m.level2Count, pin1)
                                                               && GainedOn(m.level1Count, m.level2Count, pin2))
                              then 1 else m.observations + 1)
                 && a.row.nextAt == Some(later + Cadence(c.firstPin, looks))
               else if a.tally.repaired > 0 then
                 a.row.status == Ready && a.row.nextAt.None? && a.row.reason == NoReason && looks == 0
               else
                 && a.row.status == Waiting && a.row.reason == ReplicaTarget && looks == m.observations + 1
                 && a.row.nextAt == Some(later + Cadence(c.durability, looks))
  {
    hide AllRepairs;
  }

  /** The pin shows more replicas than the smaller of the two recorded counts, an unknown count being none. */
  predicate GainedOn(count1: Option<nat>, count2: Option<nat>, pin: Pin) {
    && pin.total > 0
    && ((count1.Some? ==> pin.total > count1.value) || (count2.Some? ==> pin.total > count2.value))
  }

  /** The first look, the second, and every later one. */
  function Cadence(steps: seq<Time>, looks: nat): Time
    requires |steps| == 3
  {
    steps[if looks < 2 then 0 else if looks == 2 then 1 else 2]
  }

  /**
   * An attempt is made exactly on a due row at one of the two stages. A row of an authority that is not served fails.
   * In every other attempt a failure postpones: the row waits for the first step of the cadence, with nothing lost.
   */
  lemma AuditPostpones(c: Config, row: Row, isAssigned: bool, pins: Reply<map<Cid, Pin>>, reply2: Reply<Cid>,
                       reply1: Reply<Cid>, now: Time, later: Time)
    requires ValidConfig(c)
    ensures var a := AuditAttempt(c, row, isAssigned, pins, reply2, reply1, now, later);
            && (a.tally.checked > 0
                <==> && row.state in {Draft, Update, Published} && row.stage in {Availability, Replication}
                     && (row.status == Ready || (row.status == Waiting && row.nextAt.Some? && row.nextAt.value <= now)))
            && (a.tally.checked == 0 ==> a.row == row && a.stored == [] && a.tally == Tally(0, 0, 0, 0, 0, 0))
            && (a.tally.checked > 0 && !isAssigned ==>
                  && a.row == row.(status := Failed, error := Some(AuthorityNotFound), attempts := row.attempts + 1,
                                   nextAt := None, reason := NoReason)
                  && a.stored == [] && a.tally == Tally(1, 0, 0, 0, 0, 1))
            && (a.tally.checked > 0 && isAssigned && a.tally.failed > 0 ==>
                  && a.row == row.(status := Waiting, error := Some(ReplicationUnavailable), reason := StorageBackoff,
                                   nextAt := Some(now + c.firstPin[0]))
                  && a.tally == Tally(1, 0, 0, a.tally.repaired, 0, 1))
            && (a.tally.checked > 0 && isAssigned && a.tally.failed == 0 ==> a.row.status != Failed)
  {
    hide AllRepairs, ScheduledDelay, PinReason, ObservedMeta;
  }

  /** A pin that is lost: nothing stored, and nobody about to store it. */
  predicate Lost(pin: Pin) {
    pin.total == 0 && (pin.status == PinError || (pin.status == Unpinned && (pin.pinsAssigned == None
                                                                              || pin.pinsAssigned.value <= 0)))
  }

  /** Both pins were read, and the store answered for both. */
  predicate Readable(m: Meta, pins: Reply<map<Cid, Pin>>) {
    && m.level1Cid.Some? && m.level1Cid.value != "" && m.level2Cid.Some? && m.level2Cid.value != ""
    && pins.Returned? && m.level1Cid.value in pins.value && m.level2Cid.value in pins.value
    && pins.value[m.level1Cid.value].status != UnknownPin && pins.value[m.level2Cid.value].status != UnknownPin
  }

  /** The document is no longer young, and was not repaired a short while ago. */
  predicate MayRepair(c: Config, m: Meta, now: Time) {
    now >= m.createdAt + c.repairGrace && (m.lastRepairAt.Some? ==> now >= m.lastRepairAt.value + c.repairCooldown)
  }

  /** A repair goes well when the payload is still there and the store answers the CID it had. */
  predicate Heals(due: bool, payload: bool, cid: Option<Cid>, reply: Reply<Cid>) {
    due ==> payload && reply.Returned? && cid == Some(reply.value)
  }

  /**
   * What is repaired, and when an attempt is postponed. A document is stored again if and only if its pin is lost, a
   * repair is allowed and its payload is there; Level 1 only after Level 2 went well. The attempt is postponed if and
   * only if a pin is missing or unknown, or a repair that is due does not go well.
   */
  lemma AuditRepairs(c: Config, row: Row, pins: Reply<map<Cid, Pin>>, reply2: Reply<Cid>, reply1: Reply<Cid>,
                     now: Time, later: Time)
    requires ValidConfig(c) && AuditGuard(row, now)
    ensures var a := AuditAttempt(c, row, true, pins, reply2, reply1, now, later);
            if row.meta.None? || !Readable(row.meta.value, pins) then
              a.tally.failed == 1 && a.tally.repaired == 0 && a.stored == []
            else
              var m := row.meta.value;
              var due1 := Lost(pins.value[m.level1Cid.value]) && MayRepair(c, m, now);
              var due2 := Lost(pins.value[m.level2Cid.value]) && MayRepair(c, m, now);
              var healed2 := Heals(due2, m.content.Some? && m.mediaType != "", m.level2Cid, reply2);
              var healed1 := Heals(due1, m.level1Json.Some?, m.level1Cid, reply1);
              && a.stored == (if due2 && m.content.Some? && m.mediaType != ""
                              then [Level2Document(m.content.value, m.mediaType, m.schema)] else [])
                             + (if due1 && healed2 && m.level1Json.Some?
                                then [Level1Document(m.level1Json.value, m.level2Cid.value)] else [])
              && (a.tally.failed == 0 <==> healed2 && healed1)
              && a.tally.repaired == (if due2 && healed2 then 1 else 0) + (if due1 && healed2 && healed1 then 1 else 0)
  {
    hide Audited, ReadyForProcessing;
  }
}
