/**
 The durable rows of the SSH authority, and the CHECK predicates PostgreSQL
 enforces on them. Hashes are injective and keys are identities here, so an
 opaque ticket is its row ID and an offered key is its registration ID.
 */
module SshTables {
  import opened Wrappers

  type UserId = nat
  type KeyId = nat
  type GrantId = nat
  type CapsuleId = nat
  type BranchId = nat
  type TicketId = nat
  type RelayId = nat
  type OperationId = nat
  type GatewayId = string
  type Reason = string
  type Address = string

  datatype KeyStatus = KeyActive | KeyRevoked
  datatype GrantStatus = GrantActive | GrantRevoked
  datatype FenceState = Enabled | Blocked
  datatype TicketStatus = Issued | Redeemed | TicketRevoked
  datatype Lifecycle = InService | Destroying | OtherLifecycle
  datatype RelayStatus = Opening | Active | Closing | Closed

  datatype Key = Key(owner: UserId, status: KeyStatus, createdAt: int, revokedAt: Option<int>)

  datatype Grant = Grant(
    key: KeyId, keyOwner: UserId, capsuleOwner: UserId, capsule: CapsuleId, branch: BranchId, boundBy: UserId,
    revokedBy: Option<UserId>, status: GrantStatus, createdAt: int, revokedAt: Option<int>)

  datatype Fence = Fence(
    state: FenceState, blockReason: Option<Reason>, enabledAt: Option<int>, blockedAt: Option<int>, createdAt: int,
    updatedAt: int)

  datatype Ticket = Ticket(
    key: KeyId, grant: GrantId, user: UserId, capsule: CapsuleId, branch: BranchId, status: TicketStatus,
    expiresAt: int, issuedAt: int, redeemedAt: Option<int>, revokedAt: Option<int>)

  datatype Relay = Relay(
    ticket: TicketId, key: KeyId, user: UserId, capsule: CapsuleId, branch: BranchId, gateway: GatewayId,
    status: RelayStatus, openedAt: int, activatedAt: Option<int>, closingAt: Option<int>, closedAt: Option<int>,
    reason: Option<Reason>)

  /** Rows of other subsystems that the policy only reads. */
  datatype Branch = Branch(capsule: CapsuleId, owner: UserId, online: bool, address: Option<Address>)
  datatype Capsule = Capsule(owner: UserId, lifecycle: Lifecycle, archived: bool, destroyed: bool)

  /**
   A capsule operation with its audit fields. It has `ended` if it was completed or
   has anything recorded of a failure.
   */
  datatype Operation = Operation(
    owner: UserId, capsule: CapsuleId, destroys: bool, running: bool, started: bool, ended: bool, byUser: bool, force: bool,
    forceReason: Option<string>, forceAcknowledged: bool)

  datatype Directory = Directory(
    admins: set<UserId>, branches: map<BranchId, Branch>, capsules: map<CapsuleId, Capsule>,
    operations: map<OperationId, Operation>)

  datatype Tables = Tables(
    keys: map<KeyId, Key>, grants: map<GrantId, Grant>, fences: map<BranchId, Fence>, tickets: map<TicketId, Ticket>,
    relays: map<RelayId, Relay>, directory: Directory)

  const NO_TABLES := Tables(map[], map[], map[], map[], map[], Directory({}, map[], map[], map[]))

  // ----- CHECK predicates -----

  predicate KeyCheck(k: Key) {
    k.status == KeyActive <==> k.revokedAt.None?
  }

  predicate GrantCheck(g: Grant) {
    && match g.status {
         case GrantActive => g.revokedAt.None? && g.revokedBy.None?
         case GrantRevoked => g.revokedAt.Some?
       }
    && (g.revokedAt.Some? ==> g.revokedAt.value >= g.createdAt)
  }

  predicate FenceCheck(f: Fence) {
    && match f.state {
         case Enabled => f.blockReason.None? && f.enabledAt.Some?
         case Blocked => f.blockReason.Some? && f.blockedAt.Some?
       }
    && (f.enabledAt.Some? ==> f.enabledAt.value >= f.createdAt)
    && (f.blockedAt.Some? ==> f.blockedAt.value >= f.createdAt)
  }

  predicate TicketCheck(k: Ticket) {
    && k.expiresAt > k.issuedAt
    && match k.status {
         case Issued => k.redeemedAt.None? && k.revokedAt.None?
         case Redeemed => k.redeemedAt.Some? && k.revokedAt.None?
         case TicketRevoked => k.revokedAt.Some?
       }
    && (k.redeemedAt.Some? ==> k.redeemedAt.value >= k.issuedAt)
    && (k.revokedAt.Some? ==> k.revokedAt.value >= k.issuedAt)
    && (k.redeemedAt.Some? && k.revokedAt.Some? ==> k.revokedAt.value >= k.redeemedAt.value)
  }

  predicate RelayCheck(r: Relay) {
    && match r.status {
         case Opening => r.activatedAt.None? && r.closingAt.None? && r.closedAt.None? && r.reason.None?
         case Active => r.activatedAt.Some? && r.closingAt.None? && r.closedAt.None? && r.reason.None?
         case Closing => r.closingAt.Some? && r.closedAt.None? && r.reason.Some?
         case Closed => r.closingAt.Some? && r.closedAt.Some? && r.reason.Some?
       }
    && (r.activatedAt.Some? ==> r.activatedAt.value >= r.openedAt)
    && (r.closingAt.Some? ==> r.closingAt.value >= r.openedAt)
    && (r.closedAt.Some? ==> r.closingAt.Some? && r.closedAt.value >= r.closingAt.value)
  }

  predicate NotAfter(at: Option<int>, now: int) {
    at.Some? ==> at.value <= now
  }
}
