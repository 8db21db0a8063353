/**
 The policy services over the rows they update in place, one method for each
 transaction, statement by statement. Each is proved against its value in module
 `SshPolicy`: it returns normally exactly when the transaction is allowed, it then
 leaves the rows that the transaction commits, and otherwise it rolls back.
 */
module SshStore {
  import opened Wrappers
  import opened SshTables
  import opened SshPolicy
  import opened Characters

  datatype Refusal = NotFound | Forbidden | Conflict

  /** What a revocation reports, and the relays whose closure must be confirmed. */
  datatype Revocation = Revocation(changed: bool, revokedGrants: nat, revokedTickets: nat, relays: set<RelayId>)

  class Store {
    var keys: map<KeyId, Key>
    var grants: map<GrantId, Grant>
    var fences: map<BranchId, Fence>
    var tickets: map<TicketId, Ticket>
    var relays: map<RelayId, Relay>
    var directory: Directory

    function Rows(): Tables
      reads this
    {
      Tables(keys, grants, fences, tickets, relays, directory)
    }

    constructor (t: Tables)
      ensures Rows() == t
    {
      keys, grants, fences, tickets, relays, directory := t.keys, t.grants, t.fences, t.tickets, t.relays, t.directory;
    }

    // ----- tickets -----

    /** The checks every admission step repeats under locks. */
    method ValidateDestination(user: UserId, capsule: CapsuleId, branch: BranchId, key: KeyId, grant: GrantId)
      returns (result: Outcome<Refusal>)
      requires key in keys && grant in grants
      ensures result.Pass? <==> Eligible(Rows(), user, capsule, branch, key, grant)
      ensures result == Fail(Conflict) ==>
        branch in directory.branches && directory.branches[branch].address.None? && FenceEnabled(Rows(), branch)
      ensures result != Fail(NotFound)
    {
      var k, g := keys[key], grants[grant];
      if branch !in directory.branches || directory.branches[branch].capsule != capsule {
        return Fail(Forbidden);
      }
      if capsule !in directory.capsules || branch !in fences {
        return Fail(Forbidden);
      }
      var b, c, access := directory.branches[branch], directory.capsules[capsule], fences[branch];
      if || k.status != KeyActive
         || g.status != GrantActive
         || k.owner != user
         || g.key != key
         || g.keyOwner != k.owner
         || g.keyOwner != user
         || g.capsule != capsule
         || g.branch != branch
         || b.owner != c.owner
         || b.owner != g.capsuleOwner
         || c.owner != g.capsuleOwner
         || !b.online
         || c.lifecycle != InService
         || c.archived
         || access.state != Enabled
      {
        return Fail(Forbidden);
      }
      if b.address.None? {
        return Fail(Conflict);
      }
      return Pass;
    }

    method Issue(key: KeyId, newTicket: TicketId, ttl: int, now: int) returns (result: Outcome<Refusal>)
      modifies this`tickets
      ensures result.Pass? <==> Allowed(old(Rows()), now, SshPolicy.Issue(key, newTicket, ttl))
      ensures Rows() == Step(old(Rows()), now, SshPolicy.Issue(key, newTicket, ttl))
    {
      if key !in keys || keys[key].status != KeyActive {
        return Fail(Forbidden);
      }
      var active := ActiveGrantsOf(Rows(), key);
      if |active| != 1 {
        OneActiveGrant(Rows(), key);
        return Fail(Forbidden);
      }
      var grant :| grant in active;
      TheActiveGrant(Rows(), key, grant);
      var g := grants[grant];
      var destination := ValidateDestination(keys[key].owner, g.capsule, g.branch, key, grant);
      if destination.Fail? {
        return destination;
      }
      if newTicket in tickets || ttl <= 0 {
        return Fail(Conflict);
      }
      tickets := tickets[newTicket := Ticket(key, grant, keys[key].owner, g.capsule, g.branch, Issued, now + ttl, now, None,
                                             None)];
      return Pass;
    }

    method Redeem(ticket: TicketId, key: KeyId, gateway: GatewayId, newRelay: RelayId, now: int)
      returns (result: Outcome<Refusal>)
      modifies this`tickets, this`relays
      ensures result.Pass? <==> Allowed(old(Rows()), now, SshPolicy.Redeem(ticket, key, gateway, newRelay))
      ensures Rows() == Step(old(Rows()), now, SshPolicy.Redeem(ticket, key, gateway, newRelay))
      ensures result.Pass? ==>
        && ticket in old(tickets) && old(tickets)[ticket].key == key && old(tickets)[ticket].status == Issued
        && now < old(tickets)[ticket].expiresAt
        && newRelay in relays && relays[newRelay].ticket == ticket && relays[newRelay].key == key
      ensures result == Fail(NotFound) <==> ticket !in old(tickets)
      ensures ticket in old(tickets) && (old(tickets)[ticket].status != Issued || old(tickets)[ticket].expiresAt <= now) ==>
        result == Fail(Forbidden)
    {
      if ticket !in tickets {
        return Fail(NotFound);
      }
      var k := tickets[ticket];
      if k.status != Issued || k.expiresAt <= now {
        return Fail(Forbidden);
      }
      if k.key !in keys || k.grant !in grants {
        return Fail(Conflict);
      }
      if k.key != key || !TicketBound(k, k.grant, grants[k.grant]) {
        return Fail(Conflict);
      }
      var destination := ValidateDestination(k.user, k.capsule, k.branch, k.key, k.grant);
      if destination.Fail? {
        return destination;
      }
      var before := tickets;
      tickets := tickets[ticket := k.(status := Redeemed, redeemedAt := Some(now))];
      if newRelay in relays {
        tickets := before;
        return Fail(Conflict);
      }
      relays := relays[newRelay := Relay(ticket, k.key, k.user, k.capsule, k.branch, gateway, Opening, now, None, None, None,
                                         None)];
      return Pass;
    }

    method Activate(relay: RelayId, gateway: GatewayId, now: int) returns (result: Outcome<Refusal>)
      modifies this`relays
      ensures result.Pass? <==> Allowed(old(Rows()), now, SshPolicy.Activate(relay, gateway))
      ensures Rows() == Step(old(Rows()), now, SshPolicy.Activate(relay, gateway))
      ensures result != Fail(NotFound)
    {
      if relay !in relays || relays[relay].gateway != gateway || relays[relay].status != Opening {
        return Fail(Conflict);
      }
      var r := relays[relay];
      if r.ticket !in tickets || r.key !in keys || tickets[r.ticket].grant !in grants {
        return Fail(Conflict);
      }
      var k := tickets[r.ticket];
      if k.status != Redeemed || r.key != k.key || r.user != k.user || r.capsule != k.capsule || r.branch != k.branch {
        return Fail(Conflict);
      }
      if !TicketBound(k, k.grant, grants[k.grant]) {
        return Fail(Conflict);
      }
      var destination := ValidateDestination(r.user, r.capsule, r.branch, r.key, k.grant);
      if destination.Fail? {
        return destination;
      }
      relays := relays[relay := r.(status := SshTables.Active, activatedAt := Some(now))];
      return Pass;
    }

    /** The durable closing time, whether the relay is closed now or was closed before. */
    method Close(relay: RelayId, gateway: GatewayId, reason: Reason, now: int) returns (result: Result<int, Refusal>)
      modifies this`relays
      ensures result.Success? <==> Allowed(old(Rows()), now, SshPolicy.Close(relay, gateway, reason))
      ensures Rows() == Step(old(Rows()), now, SshPolicy.Close(relay, gateway, reason))
      ensures result.Success? ==> relays[relay].status == Closed && relays[relay].closedAt == Some(result.value)
      ensures result.Failure? ==> result.error == NotFound
    {
      if relay !in relays || relays[relay].gateway != gateway {
        return Failure(NotFound);
      }
      var r := relays[relay];
      if r.status == Closed && r.closedAt.Some? {
        return Success(r.closedAt.value);
      }
      var closingAt := if r.closingAt.Some? then r.closingAt else Some(now);
      var closureReason := if r.reason.Some? then r.reason else Some(reason);
      relays := relays[relay := r.(status := Closed, closingAt := closingAt, closedAt := Some(now), reason := closureReason)];
      return Success(now);
    }

    // ----- relays -----

    /** Marks the opening and active ones of the selected relays, and returns all of them. */
    method MarkSelectedRelaysClosing(selected: set<RelayId>, reason: Reason, now: int) returns (ids: set<RelayId>)
      requires selected <= relays.Keys
      modifies this`relays
      ensures relays == MarkedClosing(old(relays), selected, reason, now)
      ensures ids == selected
    {
      var transition := set r | r in selected && (relays[r].status == Opening || relays[r].status == SshTables.Active);
      if transition != {} {
        relays := map r | r in relays ::
          if r in transition then relays[r].(status := Closing, closingAt := Some(now), reason := Some(reason)) else relays[r];
      }
      forall r | r in relays ensures relays[r] == MarkedClosing(old(relays), selected, reason, now)[r] {
        assert r in transition <==> r in selected && (old(relays)[r].status == Opening || old(relays)[r].status == SshTables.Active);
      }
      assert relays == MarkedClosing(old(relays), selected, reason, now);
      ids := selected;
    }

    method RecoverGatewayRelays(gateway: GatewayId, now: int) returns (ids: set<RelayId>)
      modifies this`relays
      ensures Rows() == Step(old(Rows()), now, Recover(gateway))
      ensures ids == Selected(old(Rows()), Recover(gateway))
    {
      var selected := RelaysOfGateway(Rows(), gateway);
      ids := MarkSelectedRelaysClosing(selected, STARTUP_RECOVERY_REASON, now);
    }

    /** The durable half of a confirmation, given what the local closer confirmed. */
    method ConfirmRelayClosures(ids: set<RelayId>, closed: set<RelayId>, now: int) returns (result: Result<nat, Refusal>)
      modifies this`relays
      ensures result.Success? <==> ids == {} || (closed == ids && Allowed(old(Rows()), now, Confirm(ids)))
      ensures result.Success? ==> Rows() == Step(old(Rows()), now, Confirm(ids)) && result.value == |ids|
      ensures result.Success? ==> forall r :: r in ids ==> r in relays && relays[r].status == Closed
      ensures result.Failure? ==> relays == old(relays) && result.error == Conflict
    {
      if ids == {} {
        assert relays == ConfirmedClosed(relays, {}, now);
        return Success(0);
      }
      if closed != ids || !(ids <= relays.Keys) {
        return Failure(Conflict);
      }
      if exists r :: r in ids && relays[r].status != Closing && relays[r].status != Closed {
        return Failure(Conflict);
      }
      var closing := set r | r in ids && relays[r].status == Closing;
      if closing != {} {
        relays := RelaysClosed(relays, closing, now);
      }
      ConfirmationUpdates(old(relays), ids, closing, now);
      return Success(|ids|);
    }

    // ----- keys and grants -----

    method RevokeKey(user: UserId, key: KeyId, now: int) returns (result: Result<set<RelayId>, Refusal>)
      modifies this`keys, this`grants, this`tickets, this`relays
      ensures result.Success? <==> Allowed(old(Rows()), now, SshPolicy.RevokeKey(user, key))
      ensures Rows() == Step(old(Rows()), now, SshPolicy.RevokeKey(user, key))
      ensures result.Success? ==> result.value == Selected(old(Rows()), SshPolicy.RevokeKey(user, key))
      ensures result.Success? <==> key in old(keys) && old(keys)[key].owner == user
      ensures result.Failure? ==> result.error == NotFound
    {
      if key !in keys || keys[key].owner != user {
        return Failure(NotFound);
      }
      if keys[key].status == KeyRevoked {
        return Success({});
      }
      var before := Rows();
      keys := keys[key := keys[key].(status := KeyRevoked, revokedAt := Some(now))];
      grants := RevokedGrants(grants, ActiveGrantsOf(Rows(), key), Some(user), now);
      tickets := RevokedTickets(tickets, LiveTicketsOfKey(Rows(), key), now);
      var selected := RelaysOfKey(Rows(), key);
      assert selected == RelaysOfKey(before, key);
      var ids := MarkSelectedRelaysClosing(selected, KEY_REVOCATION_REASON, now);
      return Success(ids);
    }

    method BindGrant(admin: UserId, key: KeyId, branch: BranchId, newGrant: GrantId, now: int)
      returns (result: Outcome<Refusal>)
      modifies this`grants
      ensures result.Pass? <==> Allowed(old(Rows()), now, Bind(admin, key, branch, newGrant))
      ensures Rows() == Step(old(Rows()), now, Bind(admin, key, branch, newGrant))
      ensures result == Fail(Forbidden) <==> admin !in directory.admins
    {
      if admin !in directory.admins {
        return Fail(Forbidden);
      }
      if key !in keys || keys[key].status != KeyActive {
        return Fail(NotFound);
      }
      if branch !in directory.branches {
        return Fail(NotFound);
      }
      var b := directory.branches[branch];
      if || b.capsule !in directory.capsules
         || directory.capsules[b.capsule].owner != b.owner
         || directory.capsules[b.capsule].lifecycle != InService
         || directory.capsules[b.capsule].archived
         || !b.online
         || branch !in fences
         || fences[branch].state != Enabled
      {
        return Fail(Conflict);
      }
      var existing := ActiveGrantsOf(Rows(), key);
      if existing != {} || newGrant in grants {
        return Fail(Conflict);
      }
      grants := grants[newGrant := Grant(key, keys[key].owner, directory.capsules[b.capsule].owner, b.capsule, branch, admin,
                                         None, GrantActive, now, None)];
      return Pass;
    }

    method RevokeGrant(admin: UserId, grant: GrantId, now: int) returns (result: Result<set<RelayId>, Refusal>)
      modifies this`grants, this`tickets, this`relays
      ensures result.Success? <==> Allowed(old(Rows()), now, SshPolicy.RevokeGrant(admin, grant))
      ensures Rows() == Step(old(Rows()), now, SshPolicy.RevokeGrant(admin, grant))
      ensures result.Success? ==> result.value == Selected(old(Rows()), SshPolicy.RevokeGrant(admin, grant))
      ensures result.Failure? ==> (result.error == Forbidden <==> admin !in directory.admins)
    {
      if admin !in directory.admins {
        return Failure(Forbidden);
      }
      if grant !in grants {
        return Failure(NotFound);
      }
      var g := grants[grant];
      if g.key !in keys || g.branch !in directory.branches {
        return Failure(Conflict);
      }
      if g.status == GrantRevoked {
        return Success({});
      }
      grants := RevokedGrants(grants, {grant}, Some(admin), now);
      tickets := RevokedTickets(tickets, LiveTicketsOfGrant(Rows(), grant), now);
      var selected := RelaysOfBinding(Rows(), g.key, g.branch);
      var ids := MarkSelectedRelaysClosing(selected, GRANT_REVOCATION_REASON, now);
      return Success(ids);
    }

    // ----- fences -----

    method InitializeBlocked(user: UserId, capsule: CapsuleId, branch: BranchId, reason: Reason, now: int)
      returns (result: Result<bool, Refusal>)
      modifies this`fences
      ensures result.Success? <==> Allowed(old(Rows()), now, SshPolicy.InitializeBlocked(user, capsule, branch, reason))
      ensures Rows() == Step(old(Rows()), now, SshPolicy.InitializeBlocked(user, capsule, branch, reason))
      ensures result.Success? ==> (result.value <==> Rows() != old(Rows()))
    {
      if !OwnedBranch(directory, user, capsule, branch) {
        return Failure(NotFound);
      }
      if branch in fences {
        if fences[branch].state != Blocked || fences[branch].blockReason != Some(reason) {
          return Failure(Conflict);
        }
        return Success(false);
      }
      fences := fences[branch := Fence(Blocked, Some(reason), None, Some(now), now, now)];
      assert branch in fences.Keys && branch !in old(fences).Keys;
      return Success(true);
    }

    method Enable(user: UserId, capsule: CapsuleId, branch: BranchId, now: int) returns (result: Result<bool, Refusal>)
      modifies this`fences
      ensures result.Success? <==> Allowed(old(Rows()), now, SshPolicy.Enable(user, capsule, branch))
      ensures Rows() == Step(old(Rows()), now, SshPolicy.Enable(user, capsule, branch))
      ensures result.Success? ==> FenceEnabled(Rows(), branch) && (result.value <==> Rows() != old(Rows()))
    {
      if !OwnedCapsule(directory, user, capsule) || !OwnedBranch(directory, user, capsule, branch) {
        return Failure(NotFound);
      }
      if branch !in fences {
        return Failure(Conflict);
      }
      var b, c, access := directory.branches[branch], directory.capsules[capsule], fences[branch];
      if !b.online || c.lifecycle != InService || c.archived {
        return Failure(Conflict);
      }
      if access.state == Enabled {
        return Success(false);
      }
      fences := fences[branch := access.(state := Enabled, blockReason := None, enabledAt := Some(now), updatedAt := now)];
      assert fences[branch] != old(fences)[branch];
      return Success(true);
    }

    /** Blocks the fences of the branches: missing ones are created, and others updated by their state. */
    method BlockFences(branches: set<BranchId>, reason: Reason, now: int) returns (changed: bool)
      modifies this`fences
      ensures fences == BlockedFences(old(fences), branches, reason, now)
      ensures changed <==> fences != old(fences)
    {
      var rows := fences;
      var missing := branches - rows.Keys;
      if missing != {} {
        fences := fences + CreatedFences(missing, reason, now);
      }
      assert fences == rows + CreatedFences(missing, reason, now);
      ghost var created := fences;
      var enabled := EnabledAmong(rows, branches);
      if enabled != {} {
        fences := FencesBlocked(fences, enabled, reason, now);
      }
      assert fences == FencesBlocked(created, enabled, reason, now);
      ghost var blocked := fences;
      var different := DifferentlyBlocked(rows, branches, reason);
      if different != {} {
        fences := FencesRelabelled(fences, different, reason, now);
      }
      assert fences == FencesRelabelled(blocked, different, reason, now);
      FenceUpdates(rows, branches, reason, now);
      FenceChanges(rows, branches, reason, now);
      return missing != {} || enabled != {} || different != {};
    }

    method RevokeBranches(branches: set<BranchId>, reason: Reason, now: int) returns (revocation: Revocation)
      modifies this`fences, this`grants, this`tickets, this`relays
      ensures fences == BlockedFences(old(fences), branches, reason, now)
      ensures grants == RevokedGrants(old(grants), ActiveGrantsOn(old(Rows()), branches), None, now)
      ensures tickets == RevokedTickets(old(tickets), LiveTicketsOn(old(Rows()), branches), now)
      ensures revocation.relays == RelaysOn(old(Rows()), branches)
      ensures relays == MarkedClosing(old(relays), revocation.relays, reason, now)
      ensures revocation.revokedGrants == |Changed(old(grants), grants)|
      ensures revocation.revokedTickets == |Changed(old(tickets), tickets)|
      ensures revocation.relays == {} ==> relays == old(relays)
      ensures revocation.changed <==>
        fences != old(fences) || grants != old(grants) || tickets != old(tickets) || revocation.relays != {}
    {
      hide BlockedFences, RevokedGrants, RevokedTickets, Changed;
      var blocked := BlockFences(branches, reason, now);
      var activeGrants := ActiveGrantsOn(Rows(), branches);
      GrantChanges(grants, activeGrants, None, now);
      grants := RevokedGrants(grants, activeGrants, None, now);
      var liveTickets := LiveTicketsOn(Rows(), branches);
      TicketChanges(tickets, liveTickets, now);
      tickets := RevokedTickets(tickets, liveTickets, now);
      var selected := RelaysOn(Rows(), branches);
      var ids := MarkSelectedRelaysClosing(selected, reason, now);
      var changed := blocked || activeGrants != {} || liveTickets != {} || ids != {};
      return Revocation(changed, |activeGrants|, |liveTickets|, ids);
    }

    /** Only the persisted audit fields of the running operation authorize a force, never a flag of the call. */
    method AuthorizeRevocation(capsule: CapsuleId, reason: Reason, operation: Option<OperationId>)
      returns (force: Result<bool, Refusal>)
      requires capsule in directory.capsules
      ensures force ==
        match Force(directory, capsule, reason, operation)
        case None => Failure(Conflict)
        case Some(forced) => Success(forced)
      ensures force == Success(true) ==>
        && reason == CAPSULE_DESTROY_REASON && operation.Some? && operation.value in directory.operations
        && ForceAudited(directory.operations[operation.value]) && directory.capsules[capsule].lifecycle == Destroying
    {
      if reason != CAPSULE_DESTROY_REASON {
        return Success(false);
      }
      if operation.None? || operation.value !in directory.operations {
        return Failure(Conflict);
      }
      var o, c := directory.operations[operation.value], directory.capsules[capsule];
      if || o.owner != c.owner
         || o.capsule != capsule
         || !o.destroys
         || !o.running
         || !o.started
         || o.ended
         || c.lifecycle != Destroying
         || c.destroyed
      {
        return Failure(Conflict);
      }
      if !o.force {
        if o.forceReason.Some? || o.forceAcknowledged {
          return Failure(Conflict);
        }
        return Success(false);
      }
      if || !o.byUser
         || !o.forceAcknowledged
         || o.forceReason.None?
         || Units(o.forceReason.value) < 1
         || Units(o.forceReason.value) > MAX_FORCE_REASON
         || !IsTrimmed(o.forceReason.value)
      {
        return Failure(Conflict);
      }
      return Success(true);
    }

    /** Reports changed exactly if a row changed or a relay is still to be confirmed closed. */
    method RevokeAccess(user: UserId, capsule: CapsuleId, only: Option<BranchId>, reason: Reason,
                        operation: Option<OperationId>, now: int)
      returns (result: Result<Revocation, Refusal>)
      modifies this`fences, this`grants, this`tickets, this`relays
      ensures result.Success? <==> Allowed(old(Rows()), now, SshPolicy.RevokeAccess(user, capsule, only, reason, operation))
      ensures Rows() == Step(old(Rows()), now, SshPolicy.RevokeAccess(user, capsule, only, reason, operation))
      ensures result.Success? ==>
        result.value.relays == Selected(old(Rows()), SshPolicy.RevokeAccess(user, capsule, only, reason, operation))
      ensures result.Success? ==>
        && (result.value.changed <==> Rows() != old(Rows()) || result.value.relays != {})
        && result.value.revokedGrants == |Changed(old(grants), grants)|
        && result.value.revokedTickets == |Changed(old(tickets), tickets)|
    {
      hide BlockedFences, RevokedGrants, RevokedTickets, MarkedClosing, Changed, RelaysOn, ActiveGrantsOn, LiveTicketsOn,
           Force;
      if !OwnedCapsule(directory, user, capsule) {
        return Failure(NotFound);
      }
      var force :- AuthorizeRevocation(capsule, reason, operation);
      var branches := BranchesOf(Rows(), capsule, only);
      if branches == {} {
        return Failure(NotFound);
      }
      if exists b :: b in branches && directory.branches[b].owner != user {
        return Failure(Conflict);
      }
      var missing := branches - fences.Keys;
      assert forall b :: b in branches ==> b in missing || b in fences.Keys;
      if missing != {} && !force {
        return Failure(Conflict);
      }
      var revocation := RevokeBranches(branches, reason, now);
      return Success(revocation);
    }
  }

  // ----- the statement that closes relays -----

  function RelaysClosed(relays: map<RelayId, Relay>, ids: set<RelayId>, now: int): map<RelayId, Relay> {
    map r | r in relays :: if r in ids then relays[r].(status := Closed, closedAt := Some(now)) else relays[r]
  }

  /** Closing the closing ones of some relays confirms all of them, if the others are closed. */
  lemma ConfirmationUpdates(relays: map<RelayId, Relay>, ids: set<RelayId>, closing: set<RelayId>, now: int)
    requires ids <= relays.Keys && forall r :: r in closing <==> r in ids && relays[r].status == Closing
    requires forall r :: r in ids ==> relays[r].status == Closing || relays[r].status == Closed
    ensures RelaysClosed(relays, closing, now) == ConfirmedClosed(relays, ids, now)
    ensures closing == {} ==> relays == ConfirmedClosed(relays, ids, now)
    ensures forall r :: r in ids ==> ConfirmedClosed(relays, ids, now)[r].status == Closed
  {
  }

  // ----- the statements that block fences -----

  function CreatedFences(missing: set<BranchId>, reason: Reason, now: int): map<BranchId, Fence> {
    map b | b in missing :: Fence(Blocked, Some(reason), None, Some(now), now, now)
  }

  function EnabledAmong(rows: map<BranchId, Fence>, branches: set<BranchId>): set<BranchId> {
    set b | b in branches && b in rows && rows[b].state == Enabled
  }

  function DifferentlyBlocked(rows: map<BranchId, Fence>, branches: set<BranchId>, reason: Reason): set<BranchId> {
    set b | b in branches && b in rows && rows[b].state == Blocked
            && (rows[b].blockReason != Some(reason) || rows[b].blockedAt.None?)
  }

  function FencesBlocked(fences: map<BranchId, Fence>, ids: set<BranchId>, reason: Reason, now: int): map<BranchId, Fence> {
    map b | b in fences ::
      if b in ids then fences[b].(state := Blocked, blockReason := Some(reason), blockedAt := Some(now), updatedAt := now)
      else fences[b]
  }

  function FencesRelabelled(fences: map<BranchId, Fence>, ids: set<BranchId>, reason: Reason, now: int)
    : map<BranchId, Fence>
  {
    map b | b in fences ::
      if b in ids then fences[b].(blockReason := Some(reason), blockedAt := Some(now), updatedAt := now) else fences[b]
  }

  /** The three statements together block every branch for the reason. */
  lemma FenceUpdates(rows: map<BranchId, Fence>, branches: set<BranchId>, reason: Reason, now: int)
    ensures var created := rows + CreatedFences(branches - rows.Keys, reason, now);
            var blocked := FencesBlocked(created, EnabledAmong(rows, branches), reason, now);
            FencesRelabelled(blocked, DifferentlyBlocked(rows, branches, reason), reason, now)
              == BlockedFences(rows, branches, reason, now)
  {
  }

  /** The rows of a table that an update changed. */
  function Changed<K, V(==)>(before: map<K, V>, after: map<K, V>): set<K> {
    set k | k in before && (k !in after || after[k] != before[k])
  }

  /** Each of the three selections leads to a row that differs. */
  lemma FenceChanges(rows: map<BranchId, Fence>, branches: set<BranchId>, reason: Reason, now: int)
    ensures BlockedFences(rows, branches, reason, now) != rows <==>
      branches - rows.Keys != {} || EnabledAmong(rows, branches) != {} || DifferentlyBlocked(rows, branches, reason) != {}
  {
    var after := BlockedFences(rows, branches, reason, now);
    if b :| b in branches - rows.Keys {
      assert b in after.Keys;
    } else if b :| b in EnabledAmong(rows, branches) {
      assert after[b] != rows[b];
    } else if b :| b in DifferentlyBlocked(rows, branches, reason) {
      assert after[b] != rows[b];
    } else {
      forall b | b in branches ensures b in rows {
        assert b !in branches - rows.Keys;
      }
      forall b | b in rows ensures after[b] == rows[b] {
        assert b !in EnabledAmong(rows, branches) && b !in DifferentlyBlocked(rows, branches, reason);
      }
    }
  }

  lemma GrantChanges(grants: map<GrantId, Grant>, ids: set<GrantId>, actor: Option<UserId>, now: int)
    requires forall g :: g in ids ==> g in grants && grants[g].status == GrantActive
    ensures Changed(grants, RevokedGrants(grants, ids, actor, now)) == ids
    ensures RevokedGrants(grants, ids, actor, now) != grants <==> ids != {}
  {
    if g :| g in ids {
      assert RevokedGrants(grants, ids, actor, now)[g] != grants[g];
    } else {
      assert RevokedGrants(grants, ids, actor, now) == grants;
    }
  }

  lemma TicketChanges(tickets: map<TicketId, Ticket>, ids: set<TicketId>, now: int)
    requires forall k :: k in ids ==> k in tickets && tickets[k].status != TicketRevoked
    ensures Changed(tickets, RevokedTickets(tickets, ids, now)) == ids
    ensures RevokedTickets(tickets, ids, now) != tickets <==> ids != {}
  {
    if k :| k in ids {
      assert RevokedTickets(tickets, ids, now)[k] != tickets[k];
    } else {
      assert RevokedTickets(tickets, ids, now) == tickets;
    }
  }

  // ----- "exactly one active grant" -----

  lemma OneActiveGrant(t: Tables, key: KeyId)
    requires |ActiveGrantsOf(t, key)| != 1
    ensures forall g :: ActiveGrantsOf(t, key) != {g}
  {
  }

  lemma TheActiveGrant(t: Tables, key: KeyId, grant: GrantId)
    requires grant in ActiveGrantsOf(t, key) && |ActiveGrantsOf(t, key)| == 1
    ensures ActiveGrantsOf(t, key) == {grant}
    ensures forall g :: ActiveGrantsOf(t, key) == {g} ==> g == grant
  {
    var others := ActiveGrantsOf(t, key) - {grant};
    assert |others| == 0;
    assert ActiveGrantsOf(t, key) == others + {grant};
    assert forall g :: ActiveGrantsOf(t, key) == {g} ==> g in ActiveGrantsOf(t, key);
  }
}
