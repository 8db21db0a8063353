/**
 What each policy transaction answers, in terms of the rows alone: exactly when it
 succeeds in a reachable state, and everything it then changes.
 */
module SshAnswers {
  import opened Wrappers
  import opened SshTables
  import opened SshPolicy
  import opened SshPolicySafety
  import Characters

  // ----- admission -----

  /** The branch of the grant can be reached now: it is online with an address, and its capsule serves its owner. */
  ghost predicate Reachable(t: Tables, g: Grant) {
    var d := t.directory;
    && g.branch in d.branches && g.capsule in d.capsules
    && d.branches[g.branch].online && d.branches[g.branch].address != None
    && d.branches[g.branch].capsule == g.capsule
    && d.capsules[g.capsule].lifecycle == InService && !d.capsules[g.capsule].archived
    && d.branches[g.branch].owner == g.capsuleOwner && d.capsules[g.capsule].owner == g.capsuleOwner
  }

  /** A key gets a ticket exactly if it has an active grant on a reachable branch. */
  lemma IssueExactly(t: Tables, now: int, key: KeyId, newTicket: TicketId, ttl: int)
    requires Sound(t, now)
    ensures Allowed(t, now, Issue(key, newTicket, ttl)) <==>
      && ttl > 0 && newTicket !in t.tickets
      && exists g :: g in t.grants && t.grants[g].key == key && t.grants[g].status == GrantActive && Reachable(t, t.grants[g])
    ensures Allowed(t, now, Issue(key, newTicket, ttl)) ==>
      var t' := Step(t, now, Issue(key, newTicket, ttl));
      && t' == t.(tickets := t'.tickets) && t'.tickets == t.tickets[newTicket := t'.tickets[newTicket]]
      && var k := t'.tickets[newTicket];
         && k.grant in t.grants && t.grants[k.grant].key == key && t.grants[k.grant].status == GrantActive
         && k.key == key && k.user == t.keys[key].owner
         && k.capsule == t.grants[k.grant].capsule && k.branch == t.grants[k.grant].branch
         && k.status == Issued && k.issuedAt == now && k.expiresAt == now + ttl && k.redeemedAt == None && k.revokedAt == None
  {
    hide KeysSound, FencesSound, TicketsSound, RelaysSound, OneRelayPerTicket;
    if g :| g in t.grants && t.grants[g].key == key && t.grants[g].status == GrantActive {
      assert GrantSound(t, t.grants[g], now);
      assert ActiveGrantsOf(t, key) == {g};
      forall h | ActiveGrantsOf(t, key) == {h} ensures h == g {
        assert h in ActiveGrantsOf(t, key);
      }
    } else {
      assert ActiveGrantsOf(t, key) == {};
      forall h ensures ActiveGrantsOf(t, key) != {h} {
        assert h !in ActiveGrantsOf(t, key);
      }
    }
  }

  /** A ticket opens one relay exactly if it is unspent, unexpired, and offered with its own key while its branch is reachable. */
  lemma RedeemExactly(t: Tables, now: int, ticket: TicketId, key: KeyId, gateway: GatewayId, newRelay: RelayId)
    requires Sound(t, now)
    ensures Allowed(t, now, Redeem(ticket, key, gateway, newRelay)) <==>
      && ticket in t.tickets && newRelay !in t.relays
      && t.tickets[ticket].status == Issued && now < t.tickets[ticket].expiresAt && t.tickets[ticket].key == key
      && t.tickets[ticket].grant in t.grants && Reachable(t, t.grants[t.tickets[ticket].grant])
    ensures Allowed(t, now, Redeem(ticket, key, gateway, newRelay)) ==>
      var t' := Step(t, now, Redeem(ticket, key, gateway, newRelay));
      var k := t.tickets[ticket];
      && t' == t.(tickets := t'.tickets, relays := t'.relays)
      && t'.tickets == t.tickets[ticket := k.(status := Redeemed, redeemedAt := Some(now))]
      && t'.relays == t.relays[newRelay := t'.relays[newRelay]]
      && var r := t'.relays[newRelay];
         && r.ticket == ticket && r.key == key && r.user == t.keys[key].owner && r.capsule == k.capsule
         && r.branch == k.branch && r.gateway == gateway && r.status == Opening && r.openedAt == now
  {
    hide KeysSound, FencesSound, RelaysSound, OneRelayPerTicket, OneGrantPerKey;
    if ticket in t.tickets {
      assert TicketSound(t, t.tickets[ticket], now);
      assert GrantSound(t, t.grants[t.tickets[ticket].grant], now);
    }
  }

  /** An opening relay becomes active exactly for its own gateway and while its branch is reachable. */
  lemma ActivateExactly(t: Tables, now: int, relay: RelayId, gateway: GatewayId)
    requires Sound(t, now)
    ensures Allowed(t, now, SshPolicy.Activate(relay, gateway)) <==>
      && relay in t.relays && t.relays[relay].gateway == gateway && t.relays[relay].status == Opening
      && t.relays[relay].ticket in t.tickets && t.tickets[t.relays[relay].ticket].grant in t.grants
      && Reachable(t, t.grants[t.tickets[t.relays[relay].ticket].grant])
    ensures Allowed(t, now, SshPolicy.Activate(relay, gateway)) ==>
      Step(t, now, SshPolicy.Activate(relay, gateway))
      == t.(relays := t.relays[relay := t.relays[relay].(status := SshTables.Active, activatedAt := Some(now))])
  {
    hide KeysSound, FencesSound, OneRelayPerTicket, OneGrantPerKey;
    if relay in t.relays {
      assert RelaySound(t, t.relays[relay], now);
      var k := t.tickets[t.relays[relay].ticket];
      assert TicketSound(t, k, now);
      assert GrantSound(t, t.grants[k.grant], now);
    }
  }

  /** An administrator grants an active key without a grant access to an enabled, online branch of a capsule in service. */
  lemma BindExactly(t: Tables, now: int, admin: UserId, key: KeyId, branch: BranchId, newGrant: GrantId)
    ensures Allowed(t, now, Bind(admin, key, branch, newGrant)) <==>
      var d := t.directory;
      && admin in d.admins && key in t.keys && t.keys[key].status == KeyActive && newGrant !in t.grants
      && (forall g :: g in t.grants && t.grants[g].key == key ==> t.grants[g].status == GrantRevoked)
      && branch in t.fences && t.fences[branch].state == Enabled
      && branch in d.branches && d.branches[branch].online && d.branches[branch].capsule in d.capsules
      && var c := d.capsules[d.branches[branch].capsule];
         c.owner == d.branches[branch].owner && c.lifecycle == InService && !c.archived
    ensures Allowed(t, now, Bind(admin, key, branch, newGrant)) ==>
      var t' := Step(t, now, Bind(admin, key, branch, newGrant));
      && t' == t.(grants := t'.grants) && t'.grants == t.grants[newGrant := t'.grants[newGrant]]
      && var g := t'.grants[newGrant];
         && g.key == key && g.keyOwner == t.keys[key].owner && g.branch == branch && g.boundBy == admin
         && g.capsule == t.directory.branches[branch].capsule && g.capsuleOwner == t.directory.branches[branch].owner
         && g.status == GrantActive && g.createdAt == now && g.revokedAt == None && g.revokedBy == None
  {
    if g :| g in t.grants && t.grants[g].key == key && t.grants[g].status == GrantActive {
      assert g in ActiveGrantsOf(t, key);
    } else {
      assert ActiveGrantsOf(t, key) == {};
    }
  }

  // ----- revocation -----

  /** The relay starts closing now for the reason, unless it is closing or closed already. */
  ghost predicate StartsClosing(r: Relay, r': Relay, now: int, reason: Reason) {
    if r.status == Opening || r.status == SshTables.Active
    then r' == r.(status := Closing, closingAt := Some(now), reason := Some(reason))
    else r' == r
  }

  /**
   What a revocation changes beside keys and fences: it revokes the active grants,
   the unrevoked tickets and the relays that are reached, and nothing else.
   */
  ghost predicate Revokes(t: Tables, t': Tables, grants: GrantId -> bool, tickets: TicketId -> bool, relays: RelayId -> bool,
                          actor: Option<UserId>, now: int, reason: Reason)
  {
    && t'.grants.Keys == t.grants.Keys && t'.tickets.Keys == t.tickets.Keys && t'.relays.Keys == t.relays.Keys
    && (forall g :: g in t.grants ==>
          t'.grants[g] == if grants(g) && t.grants[g].status == GrantActive
                          then t.grants[g].(status := GrantRevoked, revokedBy := actor, revokedAt := Some(now))
                          else t.grants[g])
    && (forall k :: k in t.tickets ==>
          t'.tickets[k] == if tickets(k) && t.tickets[k].status != TicketRevoked
                           then t.tickets[k].(status := TicketRevoked, revokedAt := Some(now))
                           else t.tickets[k])
    && (forall r :: r in t.relays ==>
          if relays(r) then StartsClosing(t.relays[r], t'.relays[r], now, reason) else t'.relays[r] == t.relays[r])
    && t'.directory == t.directory
  }

  /** Exactly the relays that are reached and not closed yet must be confirmed. */
  ghost predicate Selects(t: Tables, c: Command, relays: RelayId -> bool) {
    forall r :: r in Selected(t, c) <==> r in t.relays && relays(r) && t.relays[r].status != Closed
  }

  /** The three UPDATE statements of a revocation, for selections that are reached and not revoked or closed yet. */
  lemma RowsRevoked(t: Tables, t': Tables, c: Command, gs: set<GrantId>, ks: set<TicketId>, rs: set<RelayId>,
                    grants: GrantId -> bool, tickets: TicketId -> bool, relays: RelayId -> bool, actor: Option<UserId>,
                    now: int, reason: Reason)
    requires t'.grants == RevokedGrants(t.grants, gs, actor, now) && t'.tickets == RevokedTickets(t.tickets, ks, now)
    requires t'.relays == MarkedClosing(t.relays, rs, reason, now) && t'.directory == t.directory
    requires forall g :: g in t.grants ==> (g in gs <==> grants(g) && t.grants[g].status == GrantActive)
    requires forall k :: k in t.tickets ==> (k in ks <==> tickets(k) && t.tickets[k].status != TicketRevoked)
    requires forall r :: r in rs <==> r in t.relays && relays(r) && t.relays[r].status != Closed
    ensures Revokes(t, t', grants, tickets, relays, actor, now, reason)
    ensures Selected(t, c) == rs ==> Selects(t, c, relays)
  {
    hide Selected;
  }

  /** A key is revoked only by its owner, with everything that was admitted with it. */
  lemma RevokeKeyExactly(t: Tables, now: int, user: UserId, key: KeyId)
    ensures Allowed(t, now, RevokeKey(user, key)) <==> key in t.keys && t.keys[key].owner == user
    ensures Allowed(t, now, RevokeKey(user, key)) ==>
      var c := RevokeKey(user, key);
      var t' := Step(t, now, c);
      if t.keys[key].status == KeyRevoked then t' == t && Selected(t, c) == {}
      else
        && t'.keys == t.keys[key := t.keys[key].(status := KeyRevoked, revokedAt := Some(now))] && t'.fences == t.fences
        && Revokes(t, t', g => g in t.grants && t.grants[g].key == key, k => k in t.tickets && t.tickets[k].key == key,
                   r => r in t.relays && t.relays[r].key == key, Some(user), now, "public_key_revoked")
        && Selects(t, c, r => r in t.relays && t.relays[r].key == key)
  {
    if Allowed(t, now, RevokeKey(user, key)) && t.keys[key].status == KeyActive {
      var c := RevokeKey(user, key);
      var t' := Step(t, now, c);
      var gs, ks, rs := ActiveGrantsOf(t, key), LiveTicketsOfKey(t, key), RelaysOfKey(t, key);
      RowsRevoked(t, t', c, gs, ks, rs, g => g in t.grants && t.grants[g].key == key,
                  k => k in t.tickets && t.tickets[k].key == key, r => r in t.relays && t.relays[r].key == key, Some(user),
                  now, "public_key_revoked");
    }
    hide Revokes, Selects, RevokedGrants, RevokedTickets, MarkedClosing;
  }

  /** A grant is revoked only by an administrator, with its tickets and the relays of its key on its branch. */
  lemma RevokeGrantExactly(t: Tables, now: int, admin: UserId, grant: GrantId)
    ensures Allowed(t, now, RevokeGrant(admin, grant)) <==>
      && admin in t.directory.admins && grant in t.grants
      && t.grants[grant].key in t.keys && t.grants[grant].branch in t.directory.branches
    ensures Allowed(t, now, RevokeGrant(admin, grant)) ==>
      var c := RevokeGrant(admin, grant);
      var t' := Step(t, now, c);
      var reached := r => r in t.relays && t.relays[r].key == t.grants[grant].key
                          && t.relays[r].branch == t.grants[grant].branch;
      if t.grants[grant].status == GrantRevoked then t' == t && Selected(t, c) == {}
      else
        && t'.keys == t.keys && t'.fences == t.fences
        && Revokes(t, t', g => g == grant, k => k in t.tickets && t.tickets[k].grant == grant, reached, Some(admin), now,
                   "branch_grant_revoked")
        && Selects(t, c, reached)
  {
    if Allowed(t, now, RevokeGrant(admin, grant)) && t.grants[grant].status == GrantActive {
      var c := RevokeGrant(admin, grant);
      var t' := Step(t, now, c);
      var g := t.grants[grant];
      RowsRevoked(t, t', c, {grant}, LiveTicketsOfGrant(t, grant), RelaysOfBinding(t, g.key, g.branch), g => g == grant,
                  k => k in t.tickets && t.tickets[k].grant == grant,
                  r => r in t.relays && t.relays[r].key == g.key && t.relays[r].branch == g.branch, Some(admin), now,
                  "branch_grant_revoked");
    }
    hide Revokes, Selects, RevokedGrants, RevokedTickets, MarkedClosing;
  }

  /** The branches a revocation of access is about. */
  ghost predicate IsAbout(t: Tables, c: Command, branch: BranchId)
    requires c.RevokeAccess?
  {
    && branch in t.directory.branches && t.directory.branches[branch].capsule == c.capsule
    && (c.only == None || c.only == Some(branch))
  }

  /**
   Access is revoked only by the owner of the capsule and of every branch it is
   about, all of which have a fence, unless a destroy forces it.
   */
  lemma RevokeAccessExactly(t: Tables, now: int, c: Command)
    requires c.RevokeAccess?
    ensures Allowed(t, now, c) <==>
      && c.capsule in t.directory.capsules && t.directory.capsules[c.capsule].owner == c.user
      && (exists b :: IsAbout(t, c, b)) && (forall b :: IsAbout(t, c, b) ==> t.directory.branches[b].owner == c.user)
      && match DestroyAnswer(t.directory, c)
         case None => false
         case Some(forced) => forced || forall b :: IsAbout(t, c, b) ==> b in t.fences
  {
    var branches := BranchesOf(t, c.capsule, c.only);
    assert forall b :: b in branches <==> IsAbout(t, c, b);
    DestroyAnswered(t.directory, c);
    hide Force;
    if branches == {} {
      assert forall b :: !IsAbout(t, c, b);
    } else {
      var b :| b in branches;
      assert IsAbout(t, c, b);
    }
  }

  /** Everything admitted to those branches is revoked with it. */
  lemma RevokeAccessReaches(t: Tables, now: int, c: Command)
    requires c.RevokeAccess? && Allowed(t, now, c)
    ensures var t' := Step(t, now, c);
            && t'.keys == t.keys
            && Revokes(t, t', g => g in t.grants && IsAbout(t, c, t.grants[g].branch),
                       k => k in t.tickets && IsAbout(t, c, t.tickets[k].branch),
                       r => r in t.relays && IsAbout(t, c, t.relays[r].branch), None, now, c.reason)
            && Selects(t, c, r => r in t.relays && IsAbout(t, c, t.relays[r].branch))
  {
    var branches := BranchesOf(t, c.capsule, c.only);
    var t' := Step(t, now, c);
    assert forall b :: b in branches <==> IsAbout(t, c, b);
    hide Force, Allowed, BlockedFences, BranchesOf, IsAbout;
    RowsRevoked(t, t', c, ActiveGrantsOn(t, branches), LiveTicketsOn(t, branches), RelaysOn(t, branches),
                g => g in t.grants && IsAbout(t, c, t.grants[g].branch),
                k => k in t.tickets && IsAbout(t, c, t.tickets[k].branch),
                r => r in t.relays && IsAbout(t, c, t.relays[r].branch), None, now, c.reason);
  }

  /** A fence that is blocked already for the reason stays as it is; any other is blocked now. */
  lemma RevokeAccessFences(t: Tables, now: int, c: Command)
    requires c.RevokeAccess? && Allowed(t, now, c)
    ensures var t' := Step(t, now, c);
            && (forall b :: b in t'.fences <==> b in t.fences || IsAbout(t, c, b))
            && (forall b :: b in t.fences && !IsAbout(t, c, b) ==> t'.fences[b] == t.fences[b])
            && (forall b :: IsAbout(t, c, b) ==>
                  && t'.fences[b].state == Blocked && t'.fences[b].blockReason == Some(c.reason)
                  && t'.fences[b].blockedAt != None
                  && (b in t.fences ==>
                        && t'.fences[b].enabledAt == t.fences[b].enabledAt
                        && t'.fences[b].createdAt == t.fences[b].createdAt
                        && (t'.fences[b] == t.fences[b]
                            || (t'.fences[b].blockedAt == Some(now) && t'.fences[b].updatedAt == now))
                        && (t.fences[b].state == Enabled || t.fences[b].blockReason != Some(c.reason) ==>
                              t'.fences[b].blockedAt == Some(now))))
  {
    var branches := BranchesOf(t, c.capsule, c.only);
    assert forall b :: b in branches <==> IsAbout(t, c, b);
    hide Force, RevokedGrants, RevokedTickets, MarkedClosing;
  }

  /** Whether the destroy that a revocation names is allowed at all, and whether it was forced. */
  ghost function DestroyAnswer(d: Directory, c: Command): Option<bool>
    requires c.RevokeAccess? && c.capsule in d.capsules
  {
    if c.reason != "capsule_destroy" then Some(false)
    else if c.operation.None? || c.operation.value !in d.operations then None
    else
      var o, owned := d.operations[c.operation.value], d.capsules[c.capsule];
      if !(o.destroys && o.running && o.started) || o.ended || o.capsule != c.capsule || o.owner != owned.owner
         || owned.lifecycle != Destroying || owned.destroyed then None
      else
        match o.forceReason
        case None => if o.force || o.forceAcknowledged then None else Some(false)
        case Some(reason) =>
          if o.force && o.forceAcknowledged && o.byUser && reason != "" && Characters.Units(reason) <= 2000
             && !Characters.IsSpace(reason[0]) && !Characters.IsSpace(reason[|reason| - 1])
          then Some(true) else None
  }

  lemma DestroyAnswered(d: Directory, c: Command)
    requires c.RevokeAccess?
    ensures c.capsule in d.capsules ==> Force(d, c.capsule, c.reason, c.operation) == DestroyAnswer(d, c)
  {
  }

  // ----- the others -----

  lemma RegisterKeyExactly(t: Tables, now: int, user: UserId, newKey: KeyId)
    ensures Allowed(t, now, RegisterKey(user, newKey)) <==> newKey !in t.keys
    ensures newKey !in t.keys ==>
      var t' := Step(t, now, RegisterKey(user, newKey));
      t' == t.(keys := t'.keys) && t'.keys == t.keys[newKey := Key(user, KeyActive, now, None)]
  {
  }

  /** A fence starts blocked, for the owner of the branch; one that is there must be blocked for the same reason. */
  lemma InitializeExactly(t: Tables, now: int, user: UserId, capsule: CapsuleId, branch: BranchId, reason: Reason)
    ensures Allowed(t, now, InitializeBlocked(user, capsule, branch, reason)) <==>
      && branch in t.directory.branches && t.directory.branches[branch].owner == user
      && t.directory.branches[branch].capsule == capsule
      && (branch !in t.fences || (t.fences[branch].state == Blocked && t.fences[branch].blockReason == Some(reason)))
    ensures Allowed(t, now, InitializeBlocked(user, capsule, branch, reason)) ==>
      Step(t, now, InitializeBlocked(user, capsule, branch, reason))
      == if branch in t.fences then t
         else t.(fences := t.fences[branch := Fence(Blocked, Some(reason), None, Some(now), now, now)])
  {
  }

  /** The owner enables the fence of an online branch of a capsule in service; only the block is lifted. */
  lemma EnableExactly(t: Tables, now: int, user: UserId, capsule: CapsuleId, branch: BranchId)
    ensures Allowed(t, now, SshPolicy.Enable(user, capsule, branch)) <==>
      var d := t.directory;
      && branch in t.fences && branch in d.branches && capsule in d.capsules
      && d.branches[branch].owner == user && d.capsules[capsule].owner == user && d.branches[branch].capsule == capsule
      && d.branches[branch].online && d.capsules[capsule].lifecycle == InService && !d.capsules[capsule].archived
    ensures Allowed(t, now, SshPolicy.Enable(user, capsule, branch)) ==>
      var t' := Step(t, now, SshPolicy.Enable(user, capsule, branch));
      && t' == t.(fences := t'.fences) && t'.fences == t.fences[branch := t'.fences[branch]]
      && (t.fences[branch].state == Enabled ==> t' == t)
      && (t.fences[branch].state == Blocked ==>
            t'.fences[branch] == Fence(Enabled, None, Some(now), t.fences[branch].blockedAt, t.fences[branch].createdAt, now))
  {
  }

  /** A gateway closes its own relays from any status; what an earlier closer recorded stays. */
  lemma CloseExactly(t: Tables, now: int, relay: RelayId, gateway: GatewayId, reason: Reason)
    requires Sound(t, now)
    ensures Allowed(t, now, SshPolicy.Close(relay, gateway, reason)) <==>
      relay in t.relays && t.relays[relay].gateway == gateway
    ensures Allowed(t, now, SshPolicy.Close(relay, gateway, reason)) ==>
      var t' := Step(t, now, SshPolicy.Close(relay, gateway, reason));
      && t' == t.(relays := t'.relays) && t'.relays == t.relays[relay := t'.relays[relay]]
      && var r := t.relays[relay];
         match r.status
         case Closed => t' == t
         case Closing => t'.relays[relay] == r.(status := Closed, closedAt := Some(now))
         case _ => t'.relays[relay] == r.(status := Closed, closingAt := Some(now), closedAt := Some(now), reason := Some(reason))
  {
    if relay in t.relays {
      assert RelaySound(t, t.relays[relay], now);
    }
  }

  /** A starting gateway marks what an earlier process of it left open, and must confirm all that is not closed. */
  lemma RecoverExactly(t: Tables, now: int, gateway: GatewayId)
    ensures Allowed(t, now, Recover(gateway))
    ensures var t' := Step(t, now, Recover(gateway));
            && t' == t.(relays := t'.relays) && t'.relays.Keys == t.relays.Keys
            && (forall r :: r in t.relays ==>
                  if t.relays[r].gateway == gateway
                  then StartsClosing(t.relays[r], t'.relays[r], now, "gateway_startup_recovery")
                  else t'.relays[r] == t.relays[r])
            && Selects(t, Recover(gateway), r => r in t.relays && t.relays[r].gateway == gateway)
  {
  }

  /** A confirmation closes exactly the given relays, if each of them has started closing. */
  lemma ConfirmExactly(t: Tables, now: int, ids: set<RelayId>)
    ensures Allowed(t, now, Confirm(ids)) <==>
      forall r :: r in ids ==> r in t.relays && t.relays[r].status != Opening && t.relays[r].status != SshTables.Active
    ensures Allowed(t, now, Confirm(ids)) ==>
      var t' := Step(t, now, Confirm(ids));
      && t' == t.(relays := t'.relays) && t'.relays.Keys == t.relays.Keys
      && (forall r :: r in t.relays ==>
            t'.relays[r] == if r in ids && t.relays[r].status == Closing
                            then t.relays[r].(status := Closed, closedAt := Some(now)) else t.relays[r])
  {
  }
}
