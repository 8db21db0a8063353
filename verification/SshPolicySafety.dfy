/** What the policy transactions keep over every run. */
module SshPolicySafety {
  import opened Wrappers
  import opened SshTables
  import opened SshPolicy

  // ----- the invariant, table by table -----

  ghost predicate KeysSound(t: Tables, now: int) {
    forall k :: k in t.keys ==> KeyCheck(t.keys[k]) && t.keys[k].createdAt <= now
  }

  /** An active grant has an active key and an enabled fence. */
  ghost predicate GrantSound(t: Tables, g: Grant, now: int) {
    && GrantCheck(g) && g.createdAt <= now
    && g.key in t.keys && t.keys[g.key].owner == g.keyOwner
    && (g.status == GrantActive ==> t.keys[g.key].status == KeyActive && FenceEnabled(t, g.branch))
  }

  ghost predicate GrantsSound(t: Tables, now: int) {
    forall g :: g in t.grants ==> GrantSound(t, t.grants[g], now)
  }

  /** The unique index on active grants. */
  ghost predicate OneGrantPerKey(t: Tables) {
    forall g, h | g in t.grants && h in t.grants && t.grants[g].key == t.grants[h].key ::
      t.grants[g].status == GrantActive && t.grants[h].status == GrantActive ==> g == h
  }

  ghost predicate FencesSound(t: Tables, now: int) {
    forall b :: b in t.fences ==> FenceCheck(t.fences[b]) && t.fences[b].createdAt <= now
  }

  /** A live ticket has an active grant. */
  ghost predicate TicketSound(t: Tables, k: Ticket, now: int) {
    && TicketCheck(k) && k.issuedAt <= now && NotAfter(k.redeemedAt, now)
    && k.grant in t.grants && TicketBound(k, k.grant, t.grants[k.grant])
    && (k.status != TicketRevoked ==> t.grants[k.grant].status == GrantActive)
  }

  ghost predicate TicketsSound(t: Tables, now: int) {
    forall k :: k in t.tickets ==> TicketSound(t, t.tickets[k], now)
  }

  /** An opening or active relay has a redeemed ticket, and every relay's ticket was redeemed. */
  ghost predicate RelaySound(t: Tables, r: Relay, now: int) {
    && RelayCheck(r) && r.openedAt <= now && NotAfter(r.closingAt, now)
    && r.ticket in t.tickets
    && var k := t.tickets[r.ticket];
       && r.key == k.key && r.user == k.user && r.capsule == k.capsule && r.branch == k.branch
       && k.redeemedAt.Some?
       && (r.status == Opening || r.status == Active ==> k.status == Redeemed)
  }

  ghost predicate RelaysSound(t: Tables, now: int) {
    forall r :: r in t.relays ==> RelaySound(t, t.relays[r], now)
  }

  /** The unique index on relay tickets. */
  ghost predicate OneRelayPerTicket(t: Tables) {
    forall r, s :: r in t.relays && s in t.relays && t.relays[r].ticket == t.relays[s].ticket ==> r == s
  }

  ghost predicate Sound(t: Tables, now: int) {
    && KeysSound(t, now) && GrantsSound(t, now) && OneGrantPerKey(t) && FencesSound(t, now)
    && TicketsSound(t, now) && RelaysSound(t, now) && OneRelayPerTicket(t)
  }

  // ----- every transaction keeps it -----

  /** Time passing keeps every row sound. */
  lemma LaterSound(t: Tables, before: int, now: int)
    requires Sound(t, before) && before <= now
    ensures Sound(t, now)
  {
  }

  /** A transaction that rewrites only relay rows, each soundly and for the same ticket. */
  lemma RelayRowsSound(t: Tables, now: int, relays: map<RelayId, Relay>)
    requires Sound(t, now) && relays.Keys == t.relays.Keys
    requires forall r :: r in relays ==> relays[r].ticket == t.relays[r].ticket && RelaySound(t, relays[r], now)
    ensures Sound(t.(relays := relays), now)
  {
    var t' := t.(relays := relays);
    hide TicketCheck, GrantCheck, FenceCheck, KeyCheck, RelayCheck;
    assert TicketsSound(t', now) && GrantsSound(t', now);
    assert RelaysSound(t', now);
  }

  /** What a revocation leaves live must not depend on what it revokes. */
  ghost predicate Covered(t: Tables, keys: map<KeyId, Key>, fences: map<BranchId, Fence>, gs: set<GrantId>,
                          ks: set<TicketId>, rs: set<RelayId>)
  {
    && (forall g :: g in t.grants ==>
          && t.grants[g].key in keys && t.grants[g].key in t.keys && keys[t.grants[g].key].owner == t.keys[t.grants[g].key].owner
          && (t.grants[g].status == GrantActive && g !in gs ==>
                && keys[t.grants[g].key].status == KeyActive
                && t.grants[g].branch in fences && fences[t.grants[g].branch].state == Enabled))
    && (forall k :: k in t.tickets && t.tickets[k].status != TicketRevoked && k !in ks ==> t.tickets[k].grant !in gs)
    && (forall r :: r in t.relays && (t.relays[r].status == Opening || t.relays[r].status == Active) && r !in rs ==>
          t.relays[r].ticket !in ks)
  }

  function Revocation(t: Tables, keys: map<KeyId, Key>, fences: map<BranchId, Fence>, gs: set<GrantId>, ks: set<TicketId>,
                      rs: set<RelayId>, actor: Option<UserId>, reason: Reason, now: int): Tables
  {
    Tables(keys, RevokedGrants(t.grants, gs, actor, now), fences, RevokedTickets(t.tickets, ks, now),
           MarkedClosing(t.relays, rs, reason, now), t.directory)
  }

  lemma RevocationGrantsSound(t: Tables, keys: map<KeyId, Key>, fences: map<BranchId, Fence>, gs: set<GrantId>,
                              ks: set<TicketId>, rs: set<RelayId>, actor: Option<UserId>, reason: Reason, now: int)
    requires GrantsSound(t, now) && OneGrantPerKey(t) && Covered(t, keys, fences, gs, ks, rs)
    ensures var t' := Revocation(t, keys, fences, gs, ks, rs, actor, reason, now);
            GrantsSound(t', now) && OneGrantPerKey(t')
  {
    hide MarkedClosing, RevokedTickets;
    var t' := Revocation(t, keys, fences, gs, ks, rs, actor, reason, now);
    forall g | g in t'.grants ensures GrantSound(t', t'.grants[g], now) {
      assert GrantSound(t, t.grants[g], now);
    }
  }

  lemma RevocationTicketsSound(t: Tables, keys: map<KeyId, Key>, fences: map<BranchId, Fence>, gs: set<GrantId>,
                               ks: set<TicketId>, rs: set<RelayId>, actor: Option<UserId>, reason: Reason, now: int)
    requires TicketsSound(t, now) && Covered(t, keys, fences, gs, ks, rs)
    requires forall k :: k in ks ==> k in t.tickets && t.tickets[k].status != TicketRevoked
    ensures TicketsSound(Revocation(t, keys, fences, gs, ks, rs, actor, reason, now), now)
  {
    hide MarkedClosing;
    var t' := Revocation(t, keys, fences, gs, ks, rs, actor, reason, now);
    forall k | k in t'.tickets ensures TicketSound(t', t'.tickets[k], now) {
      assert TicketSound(t, t.tickets[k], now);
    }
  }

  /** One relay row, rewritten along with its ticket. */
  lemma RevokedRelaySound(t: Tables, t': Tables, ks: set<TicketId>, marked: bool, r: Relay, reason: Reason, now: int)
    requires RelaySound(t, r, now) && t'.tickets == RevokedTickets(t.tickets, ks, now)
    requires !marked && (r.status == Opening || r.status == SshTables.Active) ==> r.ticket !in ks
    ensures RelaySound(t', if marked then MarkClosing(r, reason, now) else r, now)
  {
  }

  lemma RevocationRelaysSound(t: Tables, keys: map<KeyId, Key>, fences: map<BranchId, Fence>, gs: set<GrantId>,
                              ks: set<TicketId>, rs: set<RelayId>, actor: Option<UserId>, reason: Reason, now: int)
    requires RelaysSound(t, now) && OneRelayPerTicket(t) && Covered(t, keys, fences, gs, ks, rs)
    ensures var t' := Revocation(t, keys, fences, gs, ks, rs, actor, reason, now);
            RelaysSound(t', now) && OneRelayPerTicket(t')
  {
    hide RevokedGrants, RevokedTickets, RelaySound, MarkClosing;
    var t' := Revocation(t, keys, fences, gs, ks, rs, actor, reason, now);
    forall r | r in t'.relays ensures RelaySound(t', t'.relays[r], now) {
      RevokedRelaySound(t, t', ks, r in rs, t.relays[r], reason, now);
    }
    forall r | r in t'.relays ensures t'.relays[r].ticket == t.relays[r].ticket {
      MarkingKeepsTicket(t.relays[r], reason, now);
    }
  }

  lemma MarkingKeepsTicket(r: Relay, reason: Reason, now: int)
    ensures MarkClosing(r, reason, now).ticket == r.ticket
  {
  }

  lemma RevocationSound(t: Tables, keys: map<KeyId, Key>, fences: map<BranchId, Fence>, gs: set<GrantId>,
                        ks: set<TicketId>, rs: set<RelayId>, actor: Option<UserId>, reason: Reason, now: int)
    requires Sound(t, now) && Covered(t, keys, fences, gs, ks, rs)
    requires forall k :: k in ks ==> k in t.tickets && t.tickets[k].status != TicketRevoked
    requires forall k :: k in keys ==> KeyCheck(keys[k]) && keys[k].createdAt <= now
    requires forall b :: b in fences ==> FenceCheck(fences[b]) && fences[b].createdAt <= now
    ensures Sound(Revocation(t, keys, fences, gs, ks, rs, actor, reason, now), now)
  {
    RevocationGrantsSound(t, keys, fences, gs, ks, rs, actor, reason, now);
    RevocationTicketsSound(t, keys, fences, gs, ks, rs, actor, reason, now);
    RevocationRelaysSound(t, keys, fences, gs, ks, rs, actor, reason, now);
  }

  lemma RevokeKeySound(t: Tables, now: int, c: Command)
    requires Sound(t, now) && c.RevokeKey? && Allowed(t, now, c)
    ensures Sound(Commit(t, now, c), now)
  {
    hide MarkedClosing, RevokedTickets, RevokedGrants, RelayCheck, GrantCheck, TicketCheck;
    if t.keys[c.key].status == KeyActive {
      var keys := t.keys[c.key := t.keys[c.key].(status := KeyRevoked, revokedAt := Some(now))];
      var gs, ks, rs := ActiveGrantsOf(t, c.key), LiveTicketsOfKey(t, c.key), RelaysOfKey(t, c.key);
      assert Covered(t, keys, t.fences, gs, ks, rs) by {
        forall k | k in t.tickets && t.tickets[k].grant in gs ensures t.tickets[k].key == c.key {
          assert TicketSound(t, t.tickets[k], now);
        }
        forall r | r in t.relays && t.relays[r].ticket in ks ensures t.relays[r].key == c.key {
          assert RelaySound(t, t.relays[r], now);
        }
        forall g | g in t.grants ensures GrantSound(t, t.grants[g], now) {
        }
      }
      RevocationSound(t, keys, t.fences, gs, ks, rs, Some(c.user), KEY_REVOCATION_REASON, now);
    }
  }

  lemma RevokeGrantSound(t: Tables, now: int, c: Command)
    requires Sound(t, now) && c.RevokeGrant? && Allowed(t, now, c)
    ensures Sound(Commit(t, now, c), now)
  {
    hide MarkedClosing, RevokedTickets, RevokedGrants, RelayCheck, GrantCheck, TicketCheck;
    var g := t.grants[c.grant];
    if g.status == GrantActive {
      var ks, rs := LiveTicketsOfGrant(t, c.grant), RelaysOfBinding(t, g.key, g.branch);
      assert Covered(t, t.keys, t.fences, {c.grant}, ks, rs) by {
        forall r | r in t.relays && t.relays[r].ticket in ks
          ensures t.relays[r].key == g.key && t.relays[r].branch == g.branch
        {
          assert RelaySound(t, t.relays[r], now);
          assert TicketSound(t, t.tickets[t.relays[r].ticket], now);
        }
        forall h | h in t.grants ensures GrantSound(t, t.grants[h], now) {
        }
      }
      RevocationSound(t, t.keys, t.fences, {c.grant}, ks, rs, Some(c.admin), GRANT_REVOCATION_REASON, now);
    }
  }

  lemma RevokeAccessSound(t: Tables, now: int, c: Command)
    requires Sound(t, now) && c.RevokeAccess? && Allowed(t, now, c)
    ensures Sound(Commit(t, now, c), now)
  {
    hide MarkedClosing, RevokedTickets, RevokedGrants, RelayCheck, GrantCheck, TicketCheck;
    var bs := BranchesOf(t, c.capsule, c.only);
    var fences := BlockedFences(t.fences, bs, c.reason, now);
    var gs, ks, rs := ActiveGrantsOn(t, bs), LiveTicketsOn(t, bs), RelaysOn(t, bs);
    assert Covered(t, t.keys, fences, gs, ks, rs) by {
      forall k | k in t.tickets && t.tickets[k].grant in gs ensures t.tickets[k].branch in bs {
        assert TicketSound(t, t.tickets[k], now);
      }
      forall r | r in t.relays && t.relays[r].ticket in ks ensures t.relays[r].branch in bs {
        assert RelaySound(t, t.relays[r], now);
      }
      forall h | h in t.grants ensures GrantSound(t, t.grants[h], now) {
      }
    }
    RevocationSound(t, t.keys, fences, gs, ks, rs, None, c.reason, now);
  }

  lemma BindSound(t: Tables, now: int, c: Command)
    requires Sound(t, now) && c.Bind? && Allowed(t, now, c)
    ensures Sound(Commit(t, now, c), now)
  {
    hide RelayCheck, TicketCheck;
    var t' := Commit(t, now, c);
    forall g | g in t'.grants ensures GrantSound(t', t'.grants[g], now) {
      if g != c.newGrant {
        assert GrantSound(t, t.grants[g], now);
      }
    }
    forall g | g in t.grants && t.grants[g].status == GrantActive ensures t.grants[g].key != c.key {
      assert g !in ActiveGrantsOf(t, c.key);
    }
    forall k | k in t'.tickets ensures TicketSound(t', t'.tickets[k], now) {
      assert TicketSound(t, t.tickets[k], now);
    }
    assert RelaysSound(t', now);
  }

  /** Keys, fences and other subsystems' rows may change as long as what admits a grant stays. */
  lemma SurroundingsSound(t: Tables, t': Tables, now: int)
    requires Sound(t, now) && KeysSound(t', now) && FencesSound(t', now)
    requires t'.grants == t.grants && t'.tickets == t.tickets && t'.relays == t.relays
    requires forall k :: k in t.keys ==> k in t'.keys && t'.keys[k] == t.keys[k]
    requires forall b :: FenceEnabled(t, b) ==> FenceEnabled(t', b)
    ensures Sound(t', now)
  {
    hide RelayCheck, TicketCheck, GrantCheck, FenceCheck, KeyCheck;
    forall g | g in t'.grants ensures GrantSound(t', t'.grants[g], now) {
      assert GrantSound(t, t.grants[g], now);
    }
    assert TicketsSound(t', now);
    assert RelaysSound(t', now);
  }

  /** Keys and fences change alone: a new key, a new blocked fence, an enabled fence, other subsystems' rows. */
  lemma FenceAndKeySound(t: Tables, now: int, c: Command)
    requires Sound(t, now) && Allowed(t, now, c)
    requires c.RegisterKey? || c.InitializeBlocked? || c.Enable? || c.Administer?
    ensures Sound(Commit(t, now, c), now)
  {
    hide RelayCheck, TicketCheck, GrantCheck, GrantsSound, TicketsSound, RelaysSound, OneGrantPerKey, OneRelayPerTicket;
    SurroundingsSound(t, Commit(t, now, c), now);
  }

  lemma IssueSound(t: Tables, now: int, c: Command)
    requires Sound(t, now) && c.Issue? && Allowed(t, now, c)
    ensures Sound(Commit(t, now, c), now)
  {
    hide RelayCheck, GrantCheck, FenceCheck, KeyCheck;
    var t' := Commit(t, now, c);
    var g := GrantToIssue(t, c.key);
    assert g in ActiveGrantsOf(t, c.key);
    assert GrantSound(t, t.grants[g], now);
    forall k | k in t'.tickets ensures TicketSound(t', t'.tickets[k], now) {
      if k != c.newTicket {
        assert TicketSound(t, t.tickets[k], now);
      }
    }
    forall r | r in t'.relays ensures RelaySound(t', t'.relays[r], now) {
      assert RelaySound(t, t.relays[r], now);
    }
  }

  lemma RedeemTicketsSound(t: Tables, now: int, c: Command)
    requires Sound(t, now) && c.Redeem? && Allowed(t, now, c)
    ensures TicketsSound(Commit(t, now, c), now)
  {
    hide GrantCheck, FenceCheck, KeyCheck, RelayCheck, Eligible, RelaysSound, KeysSound, FencesSound, OneGrantPerKey;
    var t' := Commit(t, now, c);
    assert TicketSound(t, t.tickets[c.ticket], now);
    forall k | k in t'.tickets ensures TicketSound(t', t'.tickets[k], now) {
      assert TicketSound(t, t.tickets[k], now);
    }
  }

  lemma RedeemRelaysSound(t: Tables, now: int, c: Command)
    requires Sound(t, now) && c.Redeem? && Allowed(t, now, c)
    ensures RelaysSound(Commit(t, now, c), now) && OneRelayPerTicket(Commit(t, now, c))
  {
    hide GrantCheck, FenceCheck, KeyCheck, Eligible, GrantsSound, KeysSound, FencesSound, OneGrantPerKey;
    var t' := Commit(t, now, c);
    assert TicketSound(t, t.tickets[c.ticket], now);
    forall r | r in t.relays ensures t.relays[r].ticket != c.ticket {
      assert RelaySound(t, t.relays[r], now);
    }
    forall r | r in t'.relays ensures RelaySound(t', t'.relays[r], now) {
      if r != c.newRelay {
        assert RelaySound(t, t.relays[r], now);
      }
    }
  }

  lemma RedeemSound(t: Tables, now: int, c: Command)
    requires Sound(t, now) && c.Redeem? && Allowed(t, now, c)
    ensures Sound(Commit(t, now, c), now)
  {
    RedeemTicketsSound(t, now, c);
    RedeemRelaysSound(t, now, c);
    hide TicketsSound, RelaysSound, OneRelayPerTicket, Eligible, GrantCheck, KeyCheck, FenceCheck;
  }

  /** Activation, closure, recovery and confirmation rewrite relay rows alone. */
  lemma RelayTransitionSound(t: Tables, now: int, c: Command)
    requires Sound(t, now) && Allowed(t, now, c)
    requires c.Activate? || c.Close? || c.Recover? || c.Confirm?
    ensures Sound(Commit(t, now, c), now)
  {
    hide Sound, Eligible;
    var t' := Commit(t, now, c);
    forall r | r in t'.relays
      ensures t'.relays[r].ticket == t.relays[r].ticket && RelaySound(t, t'.relays[r], now)
    {
      SoundRelay(t, now, r);
      RowSound(t, t.relays[r], now);
    }
    RelayRowsSound(t, now, t'.relays);
  }

  lemma SoundRelay(t: Tables, now: int, r: RelayId)
    requires Sound(t, now) && r in t.relays
    ensures RelaySound(t, t.relays[r], now)
  {
  }

  /** Every rewriting of one relay row keeps it sound. */
  lemma RowSound(t: Tables, r: Relay, now: int)
    requires RelaySound(t, r, now)
    ensures forall reason :: RelaySound(t, MarkClosing(r, reason, now), now)
    ensures forall reason :: RelaySound(t, ClosedRelay(r, reason, now), now)
    ensures RelaySound(t, ConfirmClosed(r, now), now)
    ensures r.status == Opening ==> RelaySound(t, r.(status := SshTables.Active, activatedAt := Some(now)), now)
  {
  }

  lemma CommitSound(t: Tables, before: int, now: int, c: Command)
    requires Sound(t, before) && before <= now && Allowed(t, now, c)
    ensures Sound(Commit(t, now, c), now)
  {
    LaterSound(t, before, now);
    hide Sound, Commit, Allowed;
    match c {
      case RevokeKey(_, _) => RevokeKeySound(t, now, c);
      case Bind(_, _, _, _) => BindSound(t, now, c);
      case RevokeGrant(_, _) => RevokeGrantSound(t, now, c);
      case RevokeAccess(_, _, _, _, _) => RevokeAccessSound(t, now, c);
      case Issue(_, _, _) => IssueSound(t, now, c);
      case Redeem(_, _, _, _) => RedeemSound(t, now, c);
      case Activate(_, _) => RelayTransitionSound(t, now, c);
      case Close(_, _, _) => RelayTransitionSound(t, now, c);
      case Recover(_) => RelayTransitionSound(t, now, c);
      case Confirm(_) => RelayTransitionSound(t, now, c);
      case _ => FenceAndKeySound(t, now, c);
    }
  }
}
