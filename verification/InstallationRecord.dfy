/**
 The retained record of one installation: which host it belongs to, which hosts it
 had before, and its two pins. A record is replaced as a whole, and only by a
 permitted transition.
 */
module InstallationRecord {
  import opened Wrappers

  /** `details` stands for the fields of a deployment's binding that no rule reads. */
  datatype Host = Local(machine: string) | Aws(deployment: string, dataVolume: string, details: string)

  datatype Reassignment = Reassignment(host: Host, reassignedAt: int, approver: nat)

  /** What registration fixes for good. */
  datatype Identity = Identity(name: string, architecture: string, layout: string, checkoutPath: string)

  datatype Record = Record(
    identity: Identity, host: Host, history: seq<Reassignment>, checkoutCommit: Option<string>,
    imageFingerprint: Option<string>)

  datatype Refusal = InvalidState | InvalidFingerprint | InternalError

  const MAX_HISTORY := 32

  // ----- the rules -----

  /** Every host so far, the current one last. */
  function Hosts(r: Record): (hosts: seq<Host>)
    ensures |hosts| == |r.history| + 1 && hosts[|r.history|] == r.host
  {
    seq(|r.history|, i requires 0 <= i < |r.history| => r.history[i].host) + [r.host]
  }

  /** Earlier hosts are distinct deployments of the same retained volume. */
  predicate IsLineage(r: Record) {
    r.history != [] ==>
      && r.host.Aws?
      && (forall i :: 0 <= i < |r.history| ==> r.history[i].host.Aws?)
      && (forall i, j :: 0 <= i < j < |Hosts(r)| ==> Hosts(r)[i].deployment != Hosts(r)[j].deployment)
      && (forall i :: 0 <= i < |Hosts(r)| ==> Hosts(r)[i].dataVolume == r.host.dataVolume)
  }

  predicate IsHex(s: string, length: nat) {
    |s| == length && forall i :: 0 <= i < length ==> '0' <= s[i] <= '9' || 'a' <= s[i] <= 'f'
  }

  predicate IsRecord(r: Record) {
    && |r.history| <= MAX_HISTORY
    && (forall i :: 0 <= i < |r.history| ==> r.history[i].host.Aws?)
    && (r.imageFingerprint.Some? ==> IsHex(r.imageFingerprint.value, 64))
    && (r.checkoutCommit.Some? ==> IsHex(r.checkoutCommit.value, 40))
    && IsLineage(r)
    && (r.host.Aws? || r.checkoutCommit.None?)
  }

  function WithoutPins(r: Record): Record {
    r.(imageFingerprint := None, checkoutCommit := None)
  }

  /** The write rule, between valid records. */
  predicate IsTransition(before: Record, after: Record) {
    var n := |before.history|;
    if |after.history| > n then
      && |after.history| == n + 1 && after.history[..n] == before.history && after.history[n].host == before.host
      && before.(host := after.host, history := after.history) == after
    else
      && (before.imageFingerprint == after.imageFingerprint || before.checkoutCommit == after.checkoutCommit)
      && (before.checkoutCommit != after.checkoutCommit ==> after.checkoutCommit.Some?)
      && WithoutPins(before) == WithoutPins(after)
  }

  /** A reassignment to another host, which moves the current one to the history. */
  function Reassigned(r: Record, host: Host, at: int, approver: nat): Record {
    r.(host := host, history := r.history + [Reassignment(r.host, at, approver)])
  }

  // ----- what the rules mean -----

  /** The rule permits exactly a new image pin, a new restore point, or one reassignment. */
  lemma TransitionsAreSingleChanges(before: Record, after: Record)
    ensures IsTransition(before, after) <==>
      || after == before.(imageFingerprint := after.imageFingerprint)
      || (after == before.(checkoutCommit := after.checkoutCommit) && after.checkoutCommit.Some?)
      || (|after.history| > 0
          && var last := after.history[|after.history| - 1];
             after == Reassigned(before, after.host, last.reassignedAt, last.approver))
  {
    var n := |before.history|;
    if |after.history| == n + 1 {
      var last := after.history[n];
      assert after.history == after.history[..n] + [last];
      if after == Reassigned(before, after.host, last.reassignedAt, last.approver) {
        assert after.history[..n] == before.history;
      }
    }
  }

  /** So a transition changes one pin, or appends the current host to the history and names another. */
  lemma TransitionExactly(before: Record, after: Record)
    ensures IsTransition(before, after) <==>
      || (exists pin :: after == Record(before.identity, before.host, before.history, before.checkoutCommit, pin))
      || (exists commit ::
            after == Record(before.identity, before.host, before.history, Some(commit), before.imageFingerprint))
      || (exists host, at, approver ::
            after == Record(before.identity, host, before.history + [Reassignment(before.host, at, approver)],
                            before.checkoutCommit, before.imageFingerprint))
  {
    TransitionsAreSingleChanges(before, after);
    hide IsTransition;
    if after == before.(imageFingerprint := after.imageFingerprint) {
      assert after == Record(before.identity, before.host, before.history, before.checkoutCommit, after.imageFingerprint);
    }
    if after == before.(checkoutCommit := after.checkoutCommit) && after.checkoutCommit.Some? {
      assert after == Record(before.identity, before.host, before.history, Some(after.checkoutCommit.value),
                             before.imageFingerprint);
    }
    if |after.history| > 0 {
      var last := after.history[|after.history| - 1];
      if after == Reassigned(before, after.host, last.reassignedAt, last.approver) {
        assert after == Record(before.identity, after.host,
                               before.history + [Reassignment(before.host, last.reassignedAt, last.approver)],
                               before.checkoutCommit, before.imageFingerprint);
      }
    }
    if host, at, approver :|
      after == Record(before.identity, host, before.history + [Reassignment(before.host, at, approver)],
                      before.checkoutCommit, before.imageFingerprint)
    {
      assert after.history[|after.history| - 1] == Reassignment(before.host, at, approver);
    }
  }

  /** Lower-case hexadecimal digits. */
  predicate AreDigits(s: string) {
    forall i :: 0 <= i < |s| ==> s[i] in "0123456789abcdef"
  }

  lemma DigitsExactly(s: string, length: nat)
    ensures IsHex(s, length) <==> |s| == length && AreDigits(s)
  {
    var digits := "0123456789abcdef";
    assert digits[0] == '0' && digits[1] == '1' && digits[2] == '2' && digits[3] == '3' && digits[4] == '4'
        && digits[5] == '5' && digits[6] == '6' && digits[7] == '7' && digits[8] == '8' && digits[9] == '9'
        && digits[10] == 'a' && digits[11] == 'b' && digits[12] == 'c' && digits[13] == 'd' && digits[14] == 'e'
        && digits[15] == 'f';
  }

  /** A valid record has at most 32 earlier hosts, all other deployments of the same volume, and well-formed pins. */
  lemma RecordExactly(r: Record)
    ensures IsRecord(r) <==>
      && |r.history| <= 32
      && (r.imageFingerprint.Some? ==> |r.imageFingerprint.value| == 64 && AreDigits(r.imageFingerprint.value))
      && (r.checkoutCommit.Some? ==>
            r.host.Aws? && |r.checkoutCommit.value| == 40 && AreDigits(r.checkoutCommit.value))
      && (r.history != [] ==> r.host.Aws?)
      && (forall i :: 0 <= i < |r.history| ==>
            var former := r.history[i].host;
            && former.Aws? && former.dataVolume == r.host.dataVolume && former.deployment != r.host.deployment)
      && (forall i, j :: 0 <= i < j < |r.history| ==>
            r.history[i].host.Aws? && r.history[j].host.Aws?
            && r.history[i].host.deployment != r.history[j].host.deployment)
  {
    if r.imageFingerprint.Some? {
      DigitsExactly(r.imageFingerprint.value, 64);
    }
    if r.checkoutCommit.Some? {
      DigitsExactly(r.checkoutCommit.value, 40);
    }
    hide IsHex, AreDigits;
    var n := |r.history|;
    assert forall i :: 0 <= i < n ==> Hosts(r)[i] == r.history[i].host;
    assert Hosts(r)[n] == r.host;
  }

  /** The records that were stored one after the other. */
  ghost predicate Stored(rs: seq<Record>) {
    && (forall i :: 0 <= i < |rs| ==> IsRecord(rs[i]))
    && (forall i :: 0 < i < |rs| ==> IsTransition(rs[i - 1], rs[i]))
  }

  lemma TransitionExtends(before: Record, after: Record)
    requires IsTransition(before, after)
    ensures Hosts(before) <= Hosts(after) && after.identity == before.identity
    ensures before.checkoutCommit.Some? ==> after.checkoutCommit.Some?
  {
    var n := |before.history|;
    if |after.history| == n + 1 {
      forall i | 0 <= i <= n ensures Hosts(before)[i] == Hosts(after)[i] {
        if i < n {
          assert after.history[..n][i] == before.history[i];
        }
      }
    }
  }

  /**
   Over any run of writes the sequence of hosts only grows at its end, so an
   installation never returns to an earlier host; its deployments stay distinct and
   share one data volume; and a restore point once set is never dropped.
   */
  lemma {:induction false} HostsOnlyGrow(rs: seq<Record>, i: nat, j: nat)
    requires Stored(rs) && i <= j < |rs|
    ensures Hosts(rs[i]) <= Hosts(rs[j]) && rs[j].identity == rs[i].identity
    ensures rs[i].checkoutCommit.Some? ==> rs[j].checkoutCommit.Some?
    ensures rs[i].host != rs[j].host ==>
      var former, latter := rs[i].host, rs[j].host;
      former.Aws? && latter.Aws? && former.deployment != latter.deployment && former.dataVolume == latter.dataVolume
    decreases j
  {
    hide IsTransition;
    if i < j {
      HostsOnlyGrow(rs, i, j - 1);
      TransitionExtends(rs[j - 1], rs[j]);
    }
    assert Hosts(rs[j])[|rs[i].history|] == rs[i].host;
    if rs[i].host != rs[j].host {
      assert |rs[i].history| < |rs[j].history|;
      assert IsLineage(rs[j]);
    }
  }

  /** Once another host was assigned, no later record assigns an earlier one again. */
  lemma NeverReturns(rs: seq<Record>, i: nat, j: nat, k: nat)
    requires Stored(rs) && i <= j <= k < |rs| && rs[i].host != rs[j].host
    ensures rs[k].host != rs[i].host
  {
    HostsOnlyGrow(rs, i, j);
    HostsOnlyGrow(rs, i, k);
    HostsOnlyGrow(rs, j, k);
    var hosts := Hosts(rs[k]);
    assert hosts[|rs[i].history|] == rs[i].host && hosts[|rs[j].history|] == rs[j].host;
    assert |rs[i].history| < |rs[j].history| <= |rs[k].history|;
    assert IsLineage(rs[k]);
  }

  // ----- the stored record -----

  class Store {
    var stored: Option<Record>

    ghost predicate Valid()
      reads this
    {
      stored.Some? ==> IsRecord(stored.value)
    }

    constructor ()
      ensures Valid() && stored == None
    {
      stored := None;
    }

    /** Replaces the record if it is valid and the transition is permitted. */
    method Save(next: Record) returns (result: Outcome<Refusal>)
      requires Valid()
      modifies this
      ensures Valid()
      ensures result.Pass? <==> IsRecord(next) && (old(stored).Some? ==> IsTransition(old(stored).value, next))
      ensures stored == if result.Pass? then Some(next) else old(stored)
    {
      if !IsRecord(next) {
        return Fail(InvalidState);
      }
      if stored.Some? && !IsTransition(stored.value, next) {
        return Fail(InvalidState);
      }
      stored := Some(next);
      return Pass;
    }

    /** Pinning an image of the stored record is always permitted. */
    method PinImage(r: Record, fingerprint: string) returns (result: Result<Record, Refusal>)
      requires Valid() && stored == Some(r)
      modifies this
      ensures Valid()
      ensures result.Success? <==> IsHex(fingerprint, 64)
      ensures result.Success? ==> stored == Some(result.value) && result.value == r.(imageFingerprint := Some(fingerprint))
      ensures result.Failure? ==> stored == old(stored) && result.error == InvalidFingerprint
    {
      if !IsHex(fingerprint, 64) {
        return Failure(InvalidFingerprint);
      }
      var next := r.(imageFingerprint := Some(fingerprint));
      SamePinLineage(r, next);
      // This record is valid and its transition permitted, so the save passes.
      var saved := Save(next);
      return Success(next);
    }

    /** Pinning a restore point of the stored record is permitted exactly for an AWS host. */
    method PinCheckout(r: Record, commit: string) returns (result: Result<Record, Refusal>)
      requires Valid() && stored == Some(r) && IsHex(commit, 40)
      modifies this
      ensures Valid()
      ensures result.Success? <==> r.host.Aws?
      ensures result.Success? ==> stored == Some(result.value) && result.value == r.(checkoutCommit := Some(commit))
      ensures result.Failure? ==> stored == old(stored)
    {
      var next := r.(checkoutCommit := Some(commit));
      SamePinLineage(r, next);
      var saved := Save(next);
      return if saved.Pass? then Success(next) else Failure(saved.error);
    }

    /** A reassignment of the stored record is permitted exactly if it continues its lineage. */
    method AssignHost(r: Record, host: Host, at: int, approver: nat) returns (result: Result<Record, Refusal>)
      requires Valid() && stored == Some(r) && host.Aws?
      modifies this
      ensures Valid()
      ensures result.Success? <==>
        && r.host.Aws? && |r.history| < MAX_HISTORY && host.dataVolume == r.host.dataVolume
        && forall i :: 0 <= i < |Hosts(r)| ==> Hosts(r)[i].Aws? && Hosts(r)[i].deployment != host.deployment
      ensures result.Success? ==> stored == Some(result.value) && result.value == Reassigned(r, host, at, approver)
      ensures result.Failure? ==> stored == old(stored)
    {
      if !r.host.Aws? {
        return Failure(InternalError);
      }
      var next := Reassigned(r, host, at, approver);
      assert next.history[..|r.history|] == r.history;
      ReassignmentLineage(r, host, at, approver);
      var saved := Save(next);
      return if saved.Pass? then Success(next) else Failure(saved.error);
    }
  }

  lemma SamePinLineage(r: Record, next: Record)
    requires next.host == r.host && next.history == r.history
    ensures Hosts(next) == Hosts(r) && (IsLineage(next) <==> IsLineage(r))
  {
    assert Hosts(next) == Hosts(r);
  }

  lemma ReassignmentLineage(r: Record, host: Host, at: int, approver: nat)
    requires IsRecord(r) && r.host.Aws? && host.Aws?
    ensures var next := Reassigned(r, host, at, approver);
            IsLineage(next) <==>
              && host.dataVolume == r.host.dataVolume
              && forall i :: 0 <= i < |Hosts(r)| ==> Hosts(r)[i].Aws? && Hosts(r)[i].deployment != host.deployment
  {
    var next := Reassigned(r, host, at, approver);
    var n := |Hosts(r)|;
    assert Hosts(next) == Hosts(r) + [host];
    assert forall i :: 0 <= i < n ==> Hosts(next)[i] == Hosts(r)[i];
    assert Hosts(next)[n] == host && Hosts(next)[n - 1] == r.host;
  }
}
