/** Whole runs of policy transactions, attempted in any order at non-decreasing times. */
module SshPolicyRuns {
  import opened Wrappers
  import opened SshTables
  import opened SshPolicy
  import opened SshPolicySafety

  datatype Event = Event(at: int, command: Command)

  /** The rows after attempting every command in order. */
  function Replay(t: Tables, es: seq<Event>): Tables {
    if es == [] then t
    else
      var e := es[|es| - 1];
      Step(Replay(t, es[..|es| - 1]), e.at, e.command)
  }

  ghost predicate Ordered(start: int, es: seq<Event>) {
    && (forall i :: 0 <= i < |es| ==> start <= es[i].at)
    && (forall i, j :: 0 <= i < j < |es| ==> es[i].at <= es[j].at)
  }

  function LastTime(start: int, es: seq<Event>): int {
    if es == [] then start else es[|es| - 1].at
  }

  lemma OrderedFront(start: int, es: seq<Event>)
    requires Ordered(start, es) && es != []
    ensures Ordered(start, es[..|es| - 1]) && LastTime(start, es[..|es| - 1]) <= es[|es| - 1].at
  {
  }

  lemma {:induction false} ReplaySound(t: Tables, start: int, es: seq<Event>)
    requires Sound(t, start) && Ordered(start, es)
    ensures Sound(Replay(t, es), LastTime(start, es))
  {
    hide Sound, Allowed, Commit;
    if es != [] {
      var front := es[..|es| - 1];
      var e := es[|es| - 1];
      OrderedFront(start, es);
      ReplaySound(t, start, front);
      var mid := Replay(t, front);
      if Allowed(mid, e.at, e.command) {
        CommitSound(mid, LastTime(start, front), e.at, e.command);
      } else {
        LaterSound(mid, LastTime(start, front), e.at);
      }
    }
  }

  // ----- authorization in every reachable state -----

  /** The complete chain that authorizes a relay, all of it agreeing. */
  ghost predicate AuthorizedRelay(t: Tables, r: Relay) {
    && r.ticket in t.tickets
    && var k := t.tickets[r.ticket];
       && k.status == Redeemed && k.revokedAt.None? && k.grant in t.grants
       && var g := t.grants[k.grant];
          && g.status == GrantActive && g.key in t.keys
          && t.keys[g.key].status == KeyActive && t.keys[g.key].revokedAt.None?
          && r.key == k.key == g.key
          && r.user == k.user == g.keyOwner == t.keys[g.key].owner
          && r.capsule == k.capsule == g.capsule
          && r.branch == k.branch == g.branch
          && FenceEnabled(t, r.branch)
  }

  /** In every reachable state the authority admits only what is authorized, and only once. */
  lemma {:induction false} ReachableIsAuthorized(start: int, es: seq<Event>)
    requires Ordered(start, es)
    ensures var t := Replay(NO_TABLES, es);
            && (forall r :: r in t.relays && (t.relays[r].status == Opening || t.relays[r].status == SshTables.Active) ==>
                  AuthorizedRelay(t, t.relays[r]))
            && (forall k :: k in t.tickets && t.tickets[k].status != TicketRevoked ==>
                  t.tickets[k].grant in t.grants && t.grants[t.tickets[k].grant].status == GrantActive)
            && OneGrantPerKey(t)
            && OneRelayPerTicket(t)
  {
    var t := Replay(NO_TABLES, es);
    var now := LastTime(start, es);
    ReplaySound(NO_TABLES, start, es);
    forall r | r in t.relays && (t.relays[r].status == Opening || t.relays[r].status == SshTables.Active)
      ensures AuthorizedRelay(t, t.relays[r])
    {
      RelayAuthorized(t, now, r);
    }
    forall k | k in t.tickets && t.tickets[k].status != TicketRevoked
      ensures t.tickets[k].grant in t.grants && t.grants[t.tickets[k].grant].status == GrantActive
    {
      assert TicketSound(t, t.tickets[k], now);
    }
  }

  lemma RelayAuthorized(t: Tables, now: int, r: RelayId)
    requires Sound(t, now) && r in t.relays
    requires t.relays[r].status == Opening || t.relays[r].status == SshTables.Active
    ensures AuthorizedRelay(t, t.relays[r])
  {
    assert RelaySound(t, t.relays[r], now);
    var k := t.tickets[t.relays[r].ticket];
    assert TicketSound(t, k, now);
    assert GrantSound(t, t.grants[k.grant], now);
  }

  /** A time that is set is not before the other one. */
  predicate FromThenOn(at: int, later: Option<int>) {
    later.None? || at <= later.value
  }

  /** The statuses of a run's rows say what has happened to them, and it happened in order. */
  lemma ReachableInTime(start: int, es: seq<Event>)
    requires Ordered(start, es)
    ensures var t := Replay(NO_TABLES, es);
            && (forall k :: k in t.keys ==> (t.keys[k].revokedAt.Some? <==> t.keys[k].status == KeyRevoked))
            && (forall g :: g in t.grants ==> var row := t.grants[g];
                  (row.revokedAt.Some? <==> row.status == GrantRevoked) && FromThenOn(row.createdAt, row.revokedAt))
            && (forall b :: b in t.fences ==> var row := t.fences[b];
                  && (row.blockReason.Some? <==> row.state == Blocked) && (row.state == Enabled ==> row.enabledAt.Some?)
                  && (row.state == Blocked ==> row.blockedAt.Some?)
                  && FromThenOn(row.createdAt, row.enabledAt) && FromThenOn(row.createdAt, row.blockedAt))
            && (forall k :: k in t.tickets ==> var row := t.tickets[k];
                  && row.issuedAt < row.expiresAt
                  && (row.status == Issued <==> row.redeemedAt.None? && row.revokedAt.None?)
                  && (row.status == TicketRevoked <==> row.revokedAt.Some?)
                  && FromThenOn(row.issuedAt, row.redeemedAt) && FromThenOn(row.issuedAt, row.revokedAt))
            && (forall r :: r in t.relays ==> var row := t.relays[r];
                  && (row.status == Opening ==> row.activatedAt.None?)
                  && (row.status == SshTables.Active ==> row.activatedAt.Some?)
                  && (row.closingAt.Some? <==> row.status == Closing || row.status == Closed)
                  && (row.closedAt.Some? <==> row.status == Closed) && (row.reason.Some? <==> row.closingAt.Some?)
                  && FromThenOn(row.openedAt, row.activatedAt) && FromThenOn(row.openedAt, row.closingAt)
                  && (row.closingAt.Some? ==> FromThenOn(row.closingAt.value, row.closedAt)))
  {
    ReachableSatisfiesChecks(start, es);
    hide Replay;
  }

  /** Every row a run leaves behind satisfies the CHECK predicates of its table. */
  lemma {:induction false} ReachableSatisfiesChecks(start: int, es: seq<Event>)
    requires Ordered(start, es)
    ensures var t := Replay(NO_TABLES, es);
            && (forall k :: k in t.keys ==> KeyCheck(t.keys[k]))
            && (forall g :: g in t.grants ==> GrantCheck(t.grants[g]))
            && (forall b :: b in t.fences ==> FenceCheck(t.fences[b]))
            && (forall k :: k in t.tickets ==> TicketCheck(t.tickets[k]))
            && (forall r :: r in t.relays ==> RelayCheck(t.relays[r]))
  {
    hide KeyCheck, GrantCheck, FenceCheck, TicketCheck, RelayCheck;
    ReplaySound(NO_TABLES, start, es);
    var t, now := Replay(NO_TABLES, es), LastTime(start, es);
    forall g | g in t.grants ensures GrantCheck(t.grants[g]) {
      assert GrantSound(t, t.grants[g], now);
    }
    forall k | k in t.tickets ensures TicketCheck(t.tickets[k]) {
      assert TicketSound(t, t.tickets[k], now);
    }
    forall r | r in t.relays ensures RelayCheck(t.relays[r]) {
      assert RelaySound(t, t.relays[r], now);
    }
  }

  // ----- rows only move forward -----

  function Rank(s: RelayStatus): nat {
    match s
    case Opening => 0
    case Active => 1
    case Closing => 2
    case Closed => 3
  }

  /** Identity is fixed, status only advances, and the first closing time and reason stay. */
  ghost predicate RelayForward(r: Relay, r': Relay) {
    && r' == r.(status := r'.status, activatedAt := r'.activatedAt, closingAt := r'.closingAt, closedAt := r'.closedAt,
                reason := r'.reason)
    && Rank(r.status) <= Rank(r'.status)
    && (r.activatedAt.Some? ==> r'.activatedAt == r.activatedAt)
    && (r.closingAt.Some? ==> r'.closingAt == r.closingAt && r'.reason == r.reason)
    && (r.status == Closed ==> r' == r)
  }

  /** Identity and expiry are fixed, and neither redemption nor revocation is undone. */
  ghost predicate TicketForward(k: Ticket, k': Ticket) {
    && k' == k.(status := k'.status, redeemedAt := k'.redeemedAt, revokedAt := k'.revokedAt)
    && (k.status != Issued ==> k'.status != Issued && k'.redeemedAt == k.redeemedAt)
    && (k.status == TicketRevoked ==> k' == k)
  }

  ghost predicate GrantForward(g: Grant, g': Grant) {
    && g' == g.(status := g'.status, revokedBy := g'.revokedBy, revokedAt := g'.revokedAt)
    && (g.status == GrantRevoked ==> g' == g)
  }

  ghost predicate KeyForward(k: Key, k': Key) {
    && k' == k.(status := k'.status, revokedAt := k'.revokedAt)
    && (k.status == KeyRevoked ==> k' == k)
  }

  ghost predicate Forward(t: Tables, t': Tables) {
    && (forall k :: k in t.keys ==> k in t'.keys && KeyForward(t.keys[k], t'.keys[k]))
    && (forall g :: g in t.grants ==> g in t'.grants && GrantForward(t.grants[g], t'.grants[g]))
    && (forall b :: b in t.fences ==> b in t'.fences && t'.fences[b].createdAt == t.fences[b].createdAt)
    && (forall k :: k in t.tickets ==> k in t'.tickets && TicketForward(t.tickets[k], t'.tickets[k]))
    && (forall r :: r in t.relays ==> r in t'.relays && RelayForward(t.relays[r], t'.relays[r]))
  }

  lemma ForwardTransitive(a: Tables, b: Tables, c: Tables)
    requires Forward(a, b) && Forward(b, c)
    ensures Forward(a, c)
  {
  }

  /** Every rewriting of one relay row moves it forward. */
  lemma RowForward(r: Relay, now: int)
    requires RelayCheck(r)
    ensures RelayForward(r, r)
    ensures forall reason :: RelayForward(r, MarkClosing(r, reason, now))
    ensures forall reason :: RelayForward(r, ClosedRelay(r, reason, now))
    ensures RelayForward(r, ConfirmClosed(r, now))
    ensures r.status == Opening ==> RelayForward(r, r.(status := SshTables.Active, activatedAt := Some(now)))
  {
  }

  lemma RelayRowsForward(t: Tables, now: int, c: Command)
    requires Sound(t, now) && Allowed(t, now, c)
    ensures var t' := Commit(t, now, c);
            forall r :: r in t.relays ==> r in t'.relays && RelayForward(t.relays[r], t'.relays[r])
  {
    hide Eligible, Sound, BranchesOf, BlockedFences, RevokedGrants, RevokedTickets, RelayForward, MarkClosing, ClosedRelay,
         ConfirmClosed;
    var t' := Commit(t, now, c);
    forall r | r in t.relays ensures r in t'.relays && RelayForward(t.relays[r], t'.relays[r]) {
      SoundRelay(t, now, r);
      RowForward(t.relays[r], now);
    }
  }

  lemma KeyAndFenceRowsForward(t: Tables, now: int, c: Command)
    requires Allowed(t, now, c)
    ensures var t' := Commit(t, now, c);
            && (forall k :: k in t.keys ==> k in t'.keys && KeyForward(t.keys[k], t'.keys[k]))
            && (forall b :: b in t.fences ==> b in t'.fences && t'.fences[b].createdAt == t.fences[b].createdAt)
  {
    hide Eligible, BranchesOf, MarkedClosing, ConfirmedClosed, ClosedRelay, RelaysOn, RelaysOfKey, RelaysOfBinding,
         RevokedTickets, RevokedGrants;
  }

  lemma GrantRowsForward(t: Tables, now: int, c: Command)
    requires Allowed(t, now, c)
    ensures var t' := Commit(t, now, c);
            forall g :: g in t.grants ==> g in t'.grants && GrantForward(t.grants[g], t'.grants[g])
  {
    hide Eligible, BranchesOf, MarkedClosing, ConfirmedClosed, ClosedRelay, RelaysOn, RelaysOfKey, RelaysOfBinding,
         RevokedTickets, BlockedFences, EditableBranch;
  }

  lemma TicketRowsForward(t: Tables, now: int, c: Command)
    requires Allowed(t, now, c)
    ensures var t' := Commit(t, now, c);
            forall k :: k in t.tickets ==> k in t'.tickets && TicketForward(t.tickets[k], t'.tickets[k])
  {
    hide Eligible, BranchesOf, MarkedClosing, ConfirmedClosed, ClosedRelay, RelaysOn, RelaysOfKey, RelaysOfBinding,
         RevokedGrants, BlockedFences;
  }

  lemma CommitForward(t: Tables, now: int, c: Command)
    requires Sound(t, now) && Allowed(t, now, c)
    ensures Forward(t, Commit(t, now, c))
  {
    hide Commit, Sound;
    RelayRowsForward(t, now, c);
    KeyAndFenceRowsForward(t, now, c);
    GrantRowsForward(t, now, c);
    TicketRowsForward(t, now, c);
  }

  /**
   Over any run no revoked key, grant or ticket and no closed relay comes back,
   whatever is enabled in between, and relay rows only advance.
   */
  lemma {:induction false} RunsOnlyMoveForward(t: Tables, start: int, es: seq<Event>)
    requires Sound(t, start) && Ordered(start, es)
    ensures Forward(t, Replay(t, es))
  {
    if es != [] {
      var front := es[..|es| - 1];
      var e := es[|es| - 1];
      OrderedFront(start, es);
      RunsOnlyMoveForward(t, start, front);
      ReplaySound(t, start, front);
      var mid := Replay(t, front);
      hide Sound, Allowed, Commit, Forward;
      if Allowed(mid, e.at, e.command) {
        LaterSound(mid, LastTime(start, front), e.at);
        CommitForward(mid, e.at, e.command);
        ForwardTransitive(t, mid, Replay(t, es));
      }
    }
  }

  // ----- branch revocation -----

  function RelayIdsOn(t: Tables, branch: BranchId): set<RelayId> {
    set r | r in t.relays && t.relays[r].branch == branch
  }

  function TicketIdsOn(t: Tables, branch: BranchId): set<TicketId> {
    set k | k in t.tickets && t.tickets[k].branch == branch
  }

  /** The fence blocks the branch and nothing admitted through it is left. */
  ghost predicate Fenced(t: Tables, branch: BranchId) {
    && branch in t.fences && t.fences[branch].state == Blocked
    && (forall g :: g in t.grants && t.grants[g].branch == branch ==> t.grants[g].status == GrantRevoked)
    && (forall k :: k in t.tickets && t.tickets[k].branch == branch ==> t.tickets[k].status == TicketRevoked)
    && (forall r :: r in t.relays && t.relays[r].branch == branch ==>
          t.relays[r].status == Closing || t.relays[r].status == Closed)
  }

  ghost predicate Enables(e: Event, branch: BranchId) {
    e.command.Enable? && e.command.branch == branch
  }

  /** No event of the run enables the branch; whether one is attempted and refused does not matter. */
  ghost predicate NeverEnabled(t: Tables, es: seq<Event>, branch: BranchId) {
    forall i :: 0 <= i < |es| && Enables(es[i], branch) ==> !Allowed(Replay(t, es[..i]), es[i].at, es[i].command)
  }

  lemma NeverEnabledFront(t: Tables, es: seq<Event>, branch: BranchId)
    requires es != [] && NeverEnabled(t, es, branch)
    ensures NeverEnabled(t, es[..|es| - 1], branch)
  {
    hide Allowed, Replay;
    var front := es[..|es| - 1];
    assert forall i :: 0 <= i < |front| ==> front[..i] == es[..i];
  }

  lemma RevocationRows(t: Tables, now: int, c: Command, branch: BranchId)
    requires c.RevokeAccess? && Allowed(t, now, c) && branch in BranchesOf(t, c.capsule, c.only)
    ensures var t' := Commit(t, now, c);
            && Fenced(t', branch)
            && t'.relays.Keys == t.relays.Keys && t'.tickets.Keys == t.tickets.Keys
            && (forall r :: r in t.relays ==> t'.relays[r].branch == t.relays[r].branch)
            && (forall k :: k in t.tickets ==> t'.tickets[k].branch == t.tickets[k].branch)
  {
    hide EditableBranch, OwnedCapsule;
  }

  /** The revocation transaction alone fences each of its branches. */
  lemma RevocationFences(t: Tables, now: int, c: Command, branch: BranchId)
    requires c.RevokeAccess? && Allowed(t, now, c) && branch in BranchesOf(t, c.capsule, c.only)
    ensures var t' := Commit(t, now, c);
            && Fenced(t', branch)
            && RelayIdsOn(t', branch) == RelayIdsOn(t, branch) && TicketIdsOn(t', branch) == TicketIdsOn(t, branch)
            && (forall r :: r in RelayIdsOn(t, branch) && r !in Selected(t, c) ==> t'.relays[r].status == Closed)
  {
    RevocationRows(t, now, c, branch);
    hide Fenced, BranchesOf, BlockedFences, RevokedGrants, RevokedTickets;
  }

  /** Only an enabled fence admits a new grant, ticket or relay. */
  lemma NewRowsAdmitted(t: Tables, now: int, c: Command)
    requires Allowed(t, now, c)
    ensures var t' := Commit(t, now, c);
            && (forall g :: g in t'.grants && g !in t.grants ==> FenceEnabled(t, t'.grants[g].branch))
            && (forall k :: k in t'.tickets && k !in t.tickets ==> FenceEnabled(t, t'.tickets[k].branch))
            && (forall r :: r in t'.relays && r !in t.relays ==> FenceEnabled(t, t'.relays[r].branch))
  {
    hide EditableBranch, BranchesOf, FenceEnabled;
  }

  /** Only enabling a fence unblocks it. */
  lemma BlockedFenceStays(t: Tables, now: int, c: Command, branch: BranchId)
    requires Allowed(t, now, c) && branch in t.fences && t.fences[branch].state == Blocked
    requires !(c.Enable? && c.branch == branch)
    ensures var t' := Commit(t, now, c); branch in t'.fences && t'.fences[branch].state == Blocked
  {
    hide Eligible, EditableBranch, BranchesOf, RevokedGrants, RevokedTickets, MarkedClosing, ConfirmedClosed, ClosedRelay;
  }

  /** Until the fence is enabled again, no transaction unfences the branch or adds a ticket or relay to it. */
  lemma FencedStep(t: Tables, now: int, c: Command, branch: BranchId)
    requires Sound(t, now) && Fenced(t, branch) && Allowed(t, now, c)
    requires !(c.Enable? && c.branch == branch)
    ensures Fenced(Commit(t, now, c), branch)
    ensures RelayIdsOn(Commit(t, now, c), branch) == RelayIdsOn(t, branch)
    ensures TicketIdsOn(Commit(t, now, c), branch) == TicketIdsOn(t, branch)
  {
    hide Sound, Allowed, Commit;
    CommitForward(t, now, c);
    NewRowsAdmitted(t, now, c);
    BlockedFenceStays(t, now, c, branch);
  }

  /** The closing confirmations of a run that commit and cover the selected relays. */
  ghost predicate Confirms(t: Tables, es: seq<Event>, i: nat, selected: set<RelayId>)
    requires i < |es|
  {
    && es[i].command.Confirm? && selected <= es[i].command.relays
    && Allowed(Replay(t, es[..i]), es[i].at, es[i].command)
  }

  /**
   From the transaction that revokes a branch until the branch is enabled again,
   the branch stays fenced and gains no ticket and no relay. Once a confirmation
   of what the transaction selected has committed, every relay of the branch is
   durably closed.
   */
  lemma {:induction false} RevokedBranchStaysRevoked(t: Tables, now: int, c: Command, branch: BranchId, es: seq<Event>)
    requires Sound(t, now) && Allowed(t, now, c)
    requires c.RevokeAccess? && branch in BranchesOf(t, c.capsule, c.only)
    requires Ordered(now, es) && NeverEnabled(Commit(t, now, c), es, branch)
    ensures var revoked := Commit(t, now, c);
            var t' := Replay(revoked, es);
            && Fenced(t', branch)
            && RelayIdsOn(t', branch) == RelayIdsOn(t, branch) && TicketIdsOn(t', branch) == TicketIdsOn(t, branch)
            && ((exists i :: 0 <= i < |es| && Confirms(revoked, es, i, Selected(t, c))) ==>
                  forall r :: r in RelayIdsOn(t', branch) ==> t'.relays[r].status == Closed)
  {
    hide Sound, Allowed, Fenced, BranchesOf, Selected;
    var revoked := Commit(t, now, c);
    RevocationFences(t, now, c, branch);
    CommitSound(t, now, now, c);
    FencedRun(revoked, now, branch, es);
    var t' := Replay(revoked, es);
    if i :| 0 <= i < |es| && Confirms(revoked, es, i, Selected(t, c)) {
      forall r | r in RelayIdsOn(t', branch) ensures t'.relays[r].status == Closed {
        ConfirmedStaysClosed(revoked, now, es, i, Selected(t, c), r);
      }
    }
  }

  lemma {:induction false} FencedRun(t: Tables, now: int, branch: BranchId, es: seq<Event>)
    requires Sound(t, now) && Fenced(t, branch)
    requires Ordered(now, es) && NeverEnabled(t, es, branch)
    ensures var t' := Replay(t, es);
            && Fenced(t', branch)
            && RelayIdsOn(t', branch) == RelayIdsOn(t, branch) && TicketIdsOn(t', branch) == TicketIdsOn(t, branch)
  {
    hide Sound, Allowed, Commit, Fenced;
    if es != [] {
      var front := es[..|es| - 1];
      var e := es[|es| - 1];
      OrderedFront(now, es);
      NeverEnabledFront(t, es, branch);
      FencedRun(t, now, branch, front);
      ReplaySound(t, now, front);
      var mid := Replay(t, front);
      if Allowed(mid, e.at, e.command) {
        LaterSound(mid, LastTime(now, front), e.at);
        assert !Enables(e, branch) by {
          assert es[..|es| - 1] == front;
        }
        FencedStep(mid, e.at, e.command, branch);
      }
    }
  }

  /** A relay that is selected, or that was closed already, is closed after the confirmation and stays closed. */
  lemma {:induction false} ConfirmedStaysClosed(t: Tables, now: int, es: seq<Event>, i: nat, selected: set<RelayId>,
                                                r: RelayId)
    requires Sound(t, now) && Ordered(now, es) && i < |es| && Confirms(t, es, i, selected)
    requires r in t.relays && (r in selected || t.relays[r].status == Closed)
    ensures r in Replay(t, es).relays && Replay(t, es).relays[r].status == Closed
  {
    hide Sound, Commit;
    var n := |es| - 1;
    var front := es[..n];
    OrderedFront(now, es);
    RunsOnlyMoveForward(t, now, front);
    ReplaySound(t, now, front);
    var mid := Replay(t, front);
    if i < n {
      assert front[..i] == es[..i];
      ConfirmedStaysClosed(t, now, front, i, selected, r);
    } else {
      assert es[..i] == front;
      ConfirmCloses(mid, es[n].at, es[n].command, r);
    }
    if Allowed(mid, es[n].at, es[n].command) {
      LaterSound(mid, LastTime(now, front), es[n].at);
      CommitForward(mid, es[n].at, es[n].command);
    }
  }

  lemma ConfirmCloses(t: Tables, now: int, c: Command, r: RelayId)
    requires c.Confirm? && Allowed(t, now, c) && r in t.relays
    ensures r in c.relays || t.relays[r].status == Closed ==> Commit(t, now, c).relays[r].status == Closed
  {
  }

  /**
   A repeated revocation selects every relay of its branches that is still
   opening, active or closing, so a failed confirmation can be made up for.
   */
  lemma {:induction false} RepeatedRevocationReselects(t: Tables, now: int, c: Command, branch: BranchId,
                                                       es: seq<Event>, again: Command)
    requires Sound(t, now) && Allowed(t, now, c) && Ordered(now, es)
    requires c.RevokeAccess? && branch in BranchesOf(t, c.capsule, c.only)
    requires var t' := Replay(Commit(t, now, c), es);
             again.RevokeAccess? && branch in BranchesOf(t', again.capsule, again.only)
    ensures var t' := Replay(Commit(t, now, c), es);
            && Selected(t', again) * RelayIdsOn(t', branch)
                 == (set r | r in RelayIdsOn(t', branch) && t'.relays[r].status != Closed)
            && RelayIdsOn(t, branch) <= RelayIdsOn(t', branch)
  {
    hide Sound, Allowed, BranchesOf, Commit;
    CommitSound(t, now, now, c);
    CommitForward(t, now, c);
    RunsOnlyMoveForward(Commit(t, now, c), now, es);
  }

  // ----- fences -----

  /**
   A fence appears only blocked, and only because the owner initialized it, or
   because a destroy operation of the owner that is running on the capsule was
   forced by a user with a reason, acknowledged, and found it missing.
   */
  lemma NewFencesAreAuthorized(t: Tables, now: int, c: Command, branch: BranchId)
    requires Allowed(t, now, c) && branch !in t.fences && branch in Commit(t, now, c).fences
    ensures Commit(t, now, c).fences[branch] == NewFence(c.reason, now)
    ensures branch in t.directory.branches && t.directory.branches[branch].owner == c.user
    ensures
      || c.InitializeBlocked?
      || (c.RevokeAccess? && c.reason == CAPSULE_DESTROY_REASON && c.operation.Some?
          && Destroys(t.directory, c.capsule, c.operation.value)
          && t.directory.operations[c.operation.value].force && ForceAudited(t.directory.operations[c.operation.value]))
  {
    hide Eligible, EditableBranch, RevokedGrants, RevokedTickets, MarkedClosing, ConfirmedClosed, ClosedRelay;
  }

  /** Tickets and relays are only created on branches of capsules in service. */
  lemma NewRowsInService(t: Tables, now: int, c: Command)
    requires Allowed(t, now, c)
    ensures var t' := Commit(t, now, c);
            && (forall k :: k in t'.tickets && k !in t.tickets ==> InServiceBranch(t.directory, t'.tickets[k].branch))
            && (forall r :: r in t'.relays && r !in t.relays ==> InServiceBranch(t.directory, t'.relays[r].branch))
  {
    hide BranchesOf, FenceEnabled;
  }

  predicate InServiceBranch(d: Directory, branch: BranchId) {
    && branch in d.branches && d.branches[branch].capsule in d.capsules
    && d.capsules[d.branches[branch].capsule].lifecycle == InService
  }

  lemma EnablingInService(t: Tables, now: int, c: Command, branch: BranchId)
    requires Allowed(t, now, c) && !FenceEnabled(t, branch) && FenceEnabled(Commit(t, now, c), branch)
    ensures InServiceBranch(t.directory, branch)
  {
    hide Eligible, RevokedGrants, RevokedTickets, MarkedClosing, ConfirmedClosed, ClosedRelay;
  }

  /** On a branch whose capsule is not in service, say while it is destroyed, nothing is enabled or created. */
  lemma OutOfServiceAdmitsNothing(t: Tables, now: int, c: Command, branch: BranchId)
    requires Sound(t, now) && Allowed(t, now, c) && !InServiceBranch(t.directory, branch)
    ensures FenceEnabled(Commit(t, now, c), branch) ==> FenceEnabled(t, branch)
    ensures RelayIdsOn(Commit(t, now, c), branch) == RelayIdsOn(t, branch)
    ensures TicketIdsOn(Commit(t, now, c), branch) == TicketIdsOn(t, branch)
  {
    hide Sound, Allowed, Commit, InServiceBranch;
    CommitForward(t, now, c);
    NewRowsInService(t, now, c);
    if FenceEnabled(Commit(t, now, c), branch) && !FenceEnabled(t, branch) {
      EnablingInService(t, now, c, branch);
    }
  }
}
