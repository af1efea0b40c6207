/** The persisted entities of the ARK workflow and what the workers read from outside. */
module ArkTypes {
  import opened Wrappers
  import Text

  type Ark = string
  type Authority = string
  type Cid = string
  type Time = int  // microseconds

  const SECOND: Time := 1_000_000
  const MINUTE: Time := 60 * SECOND

  datatype State = Reserved | Draft | Update | Published | Tombstone

  datatype Stage = NoStage | Metadata | Availability | Chain | Replication | Complete

  datatype Status = Ready | Waiting | Failed | Done | Cancelled

  datatype WaitReason =
    | NoReason
    | ClusterPinning
    | InitialVisibility
    | ReplicaTarget
    | StorageBackoff
    | ClusterQueued

  datatype ErrorCode =
    | StorageUnavailable
    | StorageInvalidResponse
    | ReplicationUnavailable
    | CidMismatch
    | ChainRpcUnavailable
    | ChainReverted
    | AuthorityNotFound
    | AuthorizationFailed
    | ChainStateConflict
    | Unexpected

  /** The seeded error catalogue: which codes may be retried automatically. */
  predicate Retryable(code: ErrorCode) {
    code in {StorageUnavailable, StorageInvalidResponse, ReplicationUnavailable, ChainRpcUnavailable, Unexpected}
  }

  /** What the metadata store is asked to keep. A Level-1 document embeds the CID of its Level-2 document. */
  datatype Document =
    | Level2Document(content: string, mediaType: string, schema: string)
    | Level1Document(fields: string, level2Cid: Cid)

  /** One accepted PUT: who submitted which payload and target for which ARK. `number` tells equal PUTs apart. */
  datatype Origin = Origin(number: nat, ark: Ark, authority: Authority, target: string,
                           fields: string, content: string, mediaType: string, schema: string)

  /**
   * The metadata row. `origin` is a history variable: the PUT that wrote the payload.
   * The program stores no such column and no operation below decides anything by it.
   */
  datatype Meta = Meta(
    level1Json: Option<string>,
    level1Cid: Option<Cid>,
    content: Option<string>,
    mediaType: string,
    schema: string,
    level2Cid: Option<Cid>,
    level1Count: Option<nat>,
    level2Count: Option<nat>,
    observations: nat,
    lastRepairAt: Option<Time>,
    createdAt: Time,
    origin: Origin)

  /** The ARK row together with its metadata row, if it has one. */
  datatype Row = Row(
    state: State,
    authority: Authority,
    target: Option<string>,
    stage: Stage,
    status: Status,
    attempts: nat,
    nextAt: Option<Time>,
    reason: WaitReason,
    error: Option<ErrorCode>,
    clientItem: Option<string>,
    meta: Option<Meta>)

  /** What a call into the chain client, the registry or the store can raise. */
  datatype Exn =
    | AuthorityMissing
    | Unauthorized
    | ConnectionProblem
    | OtherError(text: string)

  datatype Reply<+T> = Returned(value: T) | Raised(exn: Exn)

  /** Whether an exception is an infrastructure problem, by type or by the words of its message. */
  predicate IsInfrastructureError(exn: Exn) {
    match exn
    case ConnectionProblem => true
    case OtherError(text) =>
      var lowered := Text.Lower(text);
      || Text.Mentions(lowered, "connection")
      || Text.Mentions(lowered, "timeout")
      || Text.Mentions(lowered, "unavailable")
      || Text.Mentions(lowered, "refused")
      || Text.Mentions(lowered, "temporarily")
    case _ => false
  }

  /** The words that tell an infrastructure problem. */
  const OUTAGE_WORDS: set<string> := {"connection", "timeout", "unavailable", "refused", "temporarily"}

  /** An exception counts as one if and only if it is one by type or its text holds such a word, however it is spelt. */
  lemma InfrastructureMeans(exn: Exn)
    ensures IsInfrastructureError(exn)
            <==> || exn.ConnectionProblem?
                 || (exn.OtherError? && exists word :: word in OUTAGE_WORDS && Text.Holds(exn.text, word))
  {
    WordsAreSmall();
    if exn.OtherError? {
      forall word | word in OUTAGE_WORDS
        ensures Text.Mentions(Text.Lower(exn.text), word) <==> Text.Holds(exn.text, word)
      {
        Text.MentionsIgnoringCase(exn.text, word);
      }
      hide Text.Mentions, Text.Lower, Text.Holds;
      assert "connection" in OUTAGE_WORDS && "timeout" in OUTAGE_WORDS && "unavailable" in OUTAGE_WORDS;
      assert "refused" in OUTAGE_WORDS && "temporarily" in OUTAGE_WORDS;
    }
  }

  lemma WordsAreSmall()
    ensures forall word :: word in OUTAGE_WORDS ==> Text.Lower(word) == word
  {
  }

  datatype AuthorityInfo = AuthorityInfo(wallet: string, active: bool)

  datatype ChainRecord = ChainRecord(owner: string, url: string, cid: Cid)

  /** The answers of the registry and of the chain to one round of identity checks. */
  datatype Evidence = Evidence(
    authority: Reply<AuthorityInfo>,
    onChain: Reply<Option<ChainRecord>>,
    permitted: Reply<bool>)

  datatype PinStatus = UnknownPin | Unpinned | PinError | Pinned | Pinning | Queued | OtherPin

  /** One CID as the Store API reports it. */
  datatype Pin = Pin(status: PinStatus, total: int, pinsAssigned: Option<int>)

  /** Deployment settings. `lockKey` is the hash that names an ARK's advisory lock; it may collide. */
  datatype Config = Config(
    publishAfter: nat,
    targetReplicas: nat,
    repairGrace: Time,
    repairCooldown: Time,
    firstPin: seq<Time>,
    durability: seq<Time>,
    lockKey: Ark -> int)

  /** What the constructor of the replication worker guarantees. */
  predicate ValidConfig(c: Config) {
    && 1 <= c.publishAfter <= c.targetReplicas
    && |c.firstPin| == 3 && |c.durability| == 3
    && (forall i :: 0 <= i < 3 ==> c.firstPin[i] >= SECOND && c.durability[i] >= SECOND)
  }
}
