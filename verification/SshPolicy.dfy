/**
 The policy transactions over the durable rows, as values.

 A transaction holds its row locks until it commits, so each one is a single
 step. It commits exactly when it is allowed, and otherwise rolls back.
 */
module SshPolicy {
  import opened Wrappers
  import opened SshTables
  import opened Characters

  datatype Command =
    | RegisterKey(user: UserId, newKey: KeyId)
    | RevokeKey(user: UserId, key: KeyId)
    | Bind(admin: UserId, key: KeyId, branch: BranchId, newGrant: GrantId)
    | RevokeGrant(admin: UserId, grant: GrantId)
    | InitializeBlocked(user: UserId, capsule: CapsuleId, branch: BranchId, reason: Reason)
    | Enable(user: UserId, capsule: CapsuleId, branch: BranchId)
    | RevokeAccess(user: UserId, capsule: CapsuleId, only: Option<BranchId>, reason: Reason,
                   operation: Option<OperationId>)
    | Issue(key: KeyId, newTicket: TicketId, ttl: int)
    | Redeem(ticket: TicketId, key: KeyId, gateway: GatewayId, newRelay: RelayId)
    | Activate(relay: RelayId, gateway: GatewayId)
    | Close(relay: RelayId, gateway: GatewayId, reason: Reason)
    | Recover(gateway: GatewayId)
    | Confirm(relays: set<RelayId>)
    | Administer(directory: Directory)

  const KEY_REVOCATION_REASON := "public_key_revoked"
  const GRANT_REVOCATION_REASON := "branch_grant_revoked"
  const CAPSULE_DESTROY_REASON := "capsule_destroy"
  const STARTUP_RECOVERY_REASON := "gateway_startup_recovery"

  // ----- what the transactions select -----

  function ActiveGrantsOf(t: Tables, key: KeyId): set<GrantId> {
    set g | g in t.grants && t.grants[g].key == key && t.grants[g].status == GrantActive
  }

  function ActiveGrantsOn(t: Tables, branches: set<BranchId>): set<GrantId> {
    set g | g in t.grants && t.grants[g].branch in branches && t.grants[g].status == GrantActive
  }

  function LiveTicketsOfKey(t: Tables, key: KeyId): set<TicketId> {
    set k | k in t.tickets && t.tickets[k].key == key && t.tickets[k].status != TicketRevoked
  }

  function LiveTicketsOfGrant(t: Tables, grant: GrantId): set<TicketId> {
    set k | k in t.tickets && t.tickets[k].grant == grant && t.tickets[k].status != TicketRevoked
  }

  function LiveTicketsOn(t: Tables, branches: set<BranchId>): set<TicketId> {
    set k | k in t.tickets && t.tickets[k].branch in branches && t.tickets[k].status != TicketRevoked
  }

  /** Opening, active or closing: the statuses a revocation selects. */
  predicate Revocable(r: Relay) {
    r.status != Closed
  }

  function RelaysOfKey(t: Tables, key: KeyId): set<RelayId> {
    set r | r in t.relays && t.relays[r].key == key && Revocable(t.relays[r])
  }

  function RelaysOfBinding(t: Tables, key: KeyId, branch: BranchId): set<RelayId> {
    set r | r in t.relays && t.relays[r].key == key && t.relays[r].branch == branch && Revocable(t.relays[r])
  }

  function RelaysOn(t: Tables, branches: set<BranchId>): set<RelayId> {
    set r | r in t.relays && t.relays[r].branch in branches && Revocable(t.relays[r])
  }

  function RelaysOfGateway(t: Tables, gateway: GatewayId): set<RelayId> {
    set r | r in t.relays && t.relays[r].gateway == gateway && Revocable(t.relays[r])
  }

  /** The branches of a capsule, or the one branch named in it. */
  function BranchesOf(t: Tables, capsule: CapsuleId, only: Option<BranchId>): set<BranchId> {
    set b | b in t.directory.branches && t.directory.branches[b].capsule == capsule && (only.Some? ==> only.value == b)
  }

  /** The relays whose closure the caller must confirm after the transaction. */
  function Selected(t: Tables, c: Command): set<RelayId> {
    match c
    case RevokeKey(_, key) => if key in t.keys && t.keys[key].status == KeyActive then RelaysOfKey(t, key) else {}
    case RevokeGrant(_, grant) =>
      if grant in t.grants && t.grants[grant].status == GrantActive then
        RelaysOfBinding(t, t.grants[grant].key, t.grants[grant].branch)
      else {}
    case RevokeAccess(_, capsule, only, _, _) => RelaysOn(t, BranchesOf(t, capsule, only))
    case Recover(gateway) => RelaysOfGateway(t, gateway)
    case _ => {}
  }

  // ----- UPDATE statements -----

  function RevokedGrants(grants: map<GrantId, Grant>, ids: set<GrantId>, actor: Option<UserId>, now: int)
    : map<GrantId, Grant>
  {
    map g | g in grants ::
      if g in ids then grants[g].(status := GrantRevoked, revokedBy := actor, revokedAt := Some(now)) else grants[g]
  }

  function RevokedTickets(tickets: map<TicketId, Ticket>, ids: set<TicketId>, now: int): map<TicketId, Ticket> {
    map k | k in tickets ::
      if k in ids then tickets[k].(status := TicketRevoked, revokedAt := Some(now)) else tickets[k]
  }

  /** Only an opening or active relay moves to closing; a closing one keeps its time and reason. */
  function MarkClosing(r: Relay, reason: Reason, now: int): Relay {
    if r.status == Opening || r.status == Active then r.(status := Closing, closingAt := Some(now), reason := Some(reason))
    else r
  }

  function MarkedClosing(relays: map<RelayId, Relay>, ids: set<RelayId>, reason: Reason, now: int): map<RelayId, Relay> {
    map r | r in relays :: if r in ids then MarkClosing(relays[r], reason, now) else relays[r]
  }

  function ConfirmClosed(r: Relay, now: int): Relay {
    if r.status == Closing then r.(status := Closed, closedAt := Some(now)) else r
  }

  function ConfirmedClosed(relays: map<RelayId, Relay>, ids: set<RelayId>, now: int): map<RelayId, Relay> {
    map r | r in relays :: if r in ids then ConfirmClosed(relays[r], now) else relays[r]
  }

  function BlockedFence(f: Fence, reason: Reason, now: int): Fence {
    if f.state == Enabled then f.(state := Blocked, blockReason := Some(reason), blockedAt := Some(now), updatedAt := now)
    else if f.blockReason != Some(reason) || f.blockedAt.None? then
      f.(blockReason := Some(reason), blockedAt := Some(now), updatedAt := now)
    else f
  }

  function NewFence(reason: Reason, now: int): Fence {
    Fence(Blocked, Some(reason), None, Some(now), now, now)
  }

  function BlockedFences(fences: map<BranchId, Fence>, branches: set<BranchId>, reason: Reason, now: int)
    : map<BranchId, Fence>
  {
    map b | b in fences.Keys + branches ::
      if b !in branches then fences[b] else if b in fences then BlockedFence(fences[b], reason, now) else NewFence(reason, now)
  }

  // ----- guards -----

  /** The branch is online in an active, unarchived capsule of the same owner. */
  predicate EditableBranch(d: Directory, branch: BranchId, capsule: CapsuleId, owner: UserId) {
    && branch in d.branches && capsule in d.capsules
    && d.branches[branch].capsule == capsule
    && d.branches[branch].owner == d.capsules[capsule].owner == owner
    && d.branches[branch].online && d.capsules[capsule].lifecycle == InService && !d.capsules[capsule].archived
  }

  predicate FenceEnabled(t: Tables, branch: BranchId) {
    branch in t.fences && t.fences[branch].state == Enabled
  }

  /** The binding that every admission step proves again under locks. */
  predicate Eligible(t: Tables, user: UserId, capsule: CapsuleId, branch: BranchId, key: KeyId, grant: GrantId) {
    && key in t.keys && grant in t.grants
    && var k, g := t.keys[key], t.grants[grant];
       && k.status == KeyActive && g.status == GrantActive
       && k.owner == user && g.key == key && g.keyOwner == user && g.capsule == capsule && g.branch == branch
       && EditableBranch(t.directory, branch, capsule, g.capsuleOwner)
       && FenceEnabled(t, branch)
       && t.directory.branches[branch].address.Some?
  }

  predicate TicketBound(k: Ticket, id: GrantId, g: Grant) {
    k.grant == id && k.key == g.key && k.user == g.keyOwner && k.capsule == g.capsule && k.branch == g.branch
  }

  predicate OwnedBranch(d: Directory, user: UserId, capsule: CapsuleId, branch: BranchId) {
    branch in d.branches && d.branches[branch].owner == user && d.branches[branch].capsule == capsule
  }

  predicate OwnedCapsule(d: Directory, user: UserId, capsule: CapsuleId) {
    capsule in d.capsules && d.capsules[capsule].owner == user
  }

  const MAX_FORCE_REASON := 2000

  /** The operation is destroying this capsule right now. */
  predicate Destroys(d: Directory, capsule: CapsuleId, operation: OperationId) {
    && capsule in d.capsules && operation in d.operations
    && var o, c := d.operations[operation], d.capsules[capsule];
       && o.owner == c.owner && o.capsule == capsule && o.destroys && o.running && o.started && !o.ended
       && c.lifecycle == Destroying && !c.destroyed
  }

  /** A user forced it, gave a reason, and acknowledged what that means. */
  predicate ForceAudited(o: Operation) {
    && o.byUser && o.forceAcknowledged && o.forceReason.Some?
    && 1 <= Units(o.forceReason.value) <= MAX_FORCE_REASON && IsTrimmed(o.forceReason.value)
  }

  /** Whether a revocation may repair missing fences; none if it is not authorized at all. */
  function Force(d: Directory, capsule: CapsuleId, reason: Reason, operation: Option<OperationId>): Option<bool> {
    if reason != CAPSULE_DESTROY_REASON then Some(false)
    else if operation.None? || !Destroys(d, capsule, operation.value) then None
    else
      var o := d.operations[operation.value];
      if o.force then (if ForceAudited(o) then Some(true) else None)
      else if o.forceReason.Some? || o.forceAcknowledged then None
      else Some(false)
  }

  predicate Allowed(t: Tables, now: int, c: Command) {
    var d := t.directory;
    match c
    case RegisterKey(user, newKey) => newKey !in t.keys
    case RevokeKey(user, key) => key in t.keys && t.keys[key].owner == user
    case Bind(admin, key, branch, newGrant) =>
      && admin in d.admins && key in t.keys && t.keys[key].status == KeyActive
      && branch in d.branches
      && EditableBranch(d, branch, d.branches[branch].capsule, d.branches[branch].owner)
      && FenceEnabled(t, branch) && ActiveGrantsOf(t, key) == {} && newGrant !in t.grants
    case RevokeGrant(admin, grant) =>
      admin in d.admins && grant in t.grants && t.grants[grant].key in t.keys && t.grants[grant].branch in d.branches
    case InitializeBlocked(user, capsule, branch, reason) =>
      && OwnedBranch(d, user, capsule, branch)
      && (branch in t.fences ==> t.fences[branch].state == Blocked && t.fences[branch].blockReason == Some(reason))
    case Enable(user, capsule, branch) =>
      && OwnedCapsule(d, user, capsule) && OwnedBranch(d, user, capsule, branch) && branch in t.fences
      && d.branches[branch].online && d.capsules[capsule].lifecycle == InService && !d.capsules[capsule].archived
    case RevokeAccess(user, capsule, only, reason, operation) =>
      var branches := BranchesOf(t, capsule, only);
      var force := Force(d, capsule, reason, operation);
      && OwnedCapsule(d, user, capsule) && force.Some? && branches != {}
      && (forall b :: b in branches ==> d.branches[b].owner == user)
      && (force.value || branches <= t.fences.Keys)
    case Issue(key, newTicket, ttl) =>
      && key in t.keys && ttl > 0 && newTicket !in t.tickets
      && exists g :: g in t.grants && ActiveGrantsOf(t, key) == {g}
                  && Eligible(t, t.keys[key].owner, t.grants[g].capsule, t.grants[g].branch, key, g)
    case Redeem(ticket, key, gateway, newRelay) =>
      && ticket in t.tickets && newRelay !in t.relays
      && var k := t.tickets[ticket];
         && k.status == Issued && k.expiresAt > now && k.key == key && k.grant in t.grants
         && TicketBound(k, k.grant, t.grants[k.grant])
         && Eligible(t, k.user, k.capsule, k.branch, k.key, k.grant)
    case Activate(relay, gateway) =>
      && relay in t.relays
      && var r := t.relays[relay];
         && r.gateway == gateway && r.status == Opening && r.ticket in t.tickets
         && var k := t.tickets[r.ticket];
            && k.status == Redeemed && k.grant in t.grants
            && r.key == k.key && r.user == k.user && r.capsule == k.capsule && r.branch == k.branch
            && TicketBound(k, k.grant, t.grants[k.grant])
            && Eligible(t, r.user, r.capsule, r.branch, r.key, k.grant)
    case Close(relay, gateway, _) => relay in t.relays && t.relays[relay].gateway == gateway
    case Recover(_) => true
    case Confirm(ids) =>
      ids <= t.relays.Keys && forall r :: r in ids ==> t.relays[r].status == Closing || t.relays[r].status == Closed
    case Administer(_) => true
  }

  // ----- effects -----

  function GrantToIssue(t: Tables, key: KeyId): (g: GrantId)
    requires exists g :: g in t.grants && ActiveGrantsOf(t, key) == {g}
    ensures ActiveGrantsOf(t, key) == {g}
  {
    var g :| g in ActiveGrantsOf(t, key);
    g
  }

  function ClosedRelay(r: Relay, reason: Reason, now: int): Relay {
    if r.status == Closed && r.closedAt.Some? then r
    else
      r.(status := Closed,
         closingAt := if r.closingAt.Some? then r.closingAt else Some(now),
         closedAt := Some(now),
         reason := if r.reason.Some? then r.reason else Some(reason))
  }

  function Commit(t: Tables, now: int, c: Command): Tables
    requires Allowed(t, now, c)
  {
    match c
    case RegisterKey(user, newKey) => t.(keys := t.keys[newKey := Key(user, KeyActive, now, None)])
    case RevokeKey(user, key) =>
      if t.keys[key].status == KeyRevoked then t
      else t.(keys := t.keys[key := t.keys[key].(status := KeyRevoked, revokedAt := Some(now))],
              grants := RevokedGrants(t.grants, ActiveGrantsOf(t, key), Some(user), now),
              tickets := RevokedTickets(t.tickets, LiveTicketsOfKey(t, key), now),
              relays := MarkedClosing(t.relays, RelaysOfKey(t, key), KEY_REVOCATION_REASON, now))
    case Bind(admin, key, branch, newGrant) =>
      var capsule := t.directory.branches[branch].capsule;
      t.(grants := t.grants[newGrant := Grant(key, t.keys[key].owner, t.directory.capsules[capsule].owner, capsule, branch,
                                              admin, None, GrantActive, now, None)])
    case RevokeGrant(admin, grant) =>
      var g := t.grants[grant];
      if g.status == GrantRevoked then t
      else t.(grants := RevokedGrants(t.grants, {grant}, Some(admin), now),
              tickets := RevokedTickets(t.tickets, LiveTicketsOfGrant(t, grant), now),
              relays := MarkedClosing(t.relays, RelaysOfBinding(t, g.key, g.branch), GRANT_REVOCATION_REASON, now))
    case InitializeBlocked(_, _, branch, reason) =>
      if branch in t.fences then t else t.(fences := t.fences[branch := NewFence(reason, now)])
    case Enable(_, _, branch) =>
      var f := t.fences[branch];
      if f.state == Enabled then t
      else t.(fences := t.fences[branch := f.(state := Enabled, blockReason := None, enabledAt := Some(now), updatedAt := now)])
    case RevokeAccess(_, capsule, only, reason, _) =>
      var branches := BranchesOf(t, capsule, only);
      t.(fences := BlockedFences(t.fences, branches, reason, now),
         grants := RevokedGrants(t.grants, ActiveGrantsOn(t, branches), None, now),
         tickets := RevokedTickets(t.tickets, LiveTicketsOn(t, branches), now),
         relays := MarkedClosing(t.relays, RelaysOn(t, branches), reason, now))
    case Issue(key, newTicket, ttl) =>
      var g := GrantToIssue(t, key);
      t.(tickets := t.tickets[newTicket := Ticket(key, g, t.keys[key].owner, t.grants[g].capsule, t.grants[g].branch, Issued,
                                                  now + ttl, now, None, None)])
    case Redeem(ticket, _, gateway, newRelay) =>
      var k := t.tickets[ticket];
      t.(tickets := t.tickets[ticket := k.(status := Redeemed, redeemedAt := Some(now))],
         relays := t.relays[newRelay := Relay(ticket, k.key, k.user, k.capsule, k.branch, gateway, Opening, now, None, None,
                                              None, None)])
    case Activate(relay, _) =>
      t.(relays := t.relays[relay := t.relays[relay].(status := Active, activatedAt := Some(now))])
    case Close(relay, _, reason) => t.(relays := t.relays[relay := ClosedRelay(t.relays[relay], reason, now)])
    case Recover(gateway) =>
      t.(relays := MarkedClosing(t.relays, RelaysOfGateway(t, gateway), STARTUP_RECOVERY_REASON, now))
    case Confirm(ids) => t.(relays := ConfirmedClosed(t.relays, ids, now))
    case Administer(directory) => t.(directory := directory)
  }

  /** One attempted transaction: it commits, or rolls back and changes nothing. */
  function Step(t: Tables, now: int, c: Command): Tables {
    if Allowed(t, now, c) then Commit(t, now, c) else t
  }
}
