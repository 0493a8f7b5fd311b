/**
  The store layer as it runs: one object whose fields are the tables, one
  method per transaction, statement by statement. A rollback puts back what the
  transaction wrote. Every method is proved to do what its function in `Store`
  says, so whatever is proved about those functions holds of these methods.
 */
module Database {
  import opened Wrappers
  import opened Store

  class Database {
    var secrets: map<Id, Secret>
    var versions: map<Id, Version>
    var requests: map<Id, Request>
    var grants: map<Id, Grant>
    var grantReads: map<(Id, string), ReadRow>
    var attempts: seq<Attempt>
    var notes: multiset<Note>
    var events: seq<SecretEvent>

    ghost function Value(): Tables
      reads this
    {
      Tables(secrets, versions, requests, grants, grantReads, attempts, notes, events)
    }

    constructor ()
      ensures Value() == EmptyTables
    {
      secrets, versions, requests, grants, grantReads, attempts, notes, events :=
        map[], map[], map[], map[], map[], [], multiset{}, [];
    }

    method BeginGrantUse(
      now: Time, grantId: Id, key: Option<string>, versionId: Option<Id>, kind: AttemptKind, window: nat)
      returns (outcome: GrantUse)
      modifies this
      ensures (Value(), outcome) == Store.BeginGrantUse(old(Value()), now, grantId, key, versionId, kind, window)
    {
      if grantId !in grants {
        return NotFound;
      }
      var grant := grants[grantId];
      if grant.revoked || now >= grant.notAfter {
        return ExpiredOrRevoked;
      }
      if key.Some? && (grantId, key.value) in grantReads {
        var prior := grantReads[(grantId, key.value)];
        if prior.firstReadAt > now - window {
          attempts := attempts + [Attempt(kind, grantId, prior.versionId, true)];
          return Replay(grant, prior.versionId, prior.passthrough);
        }
        return Exhausted;
      }
      if grant.maxUses.Some? && grant.useCount >= grant.maxUses.value {
        return Exhausted;
      }
      if grant.useCount == MAX_I32 {
        return DatabaseError;
      }
      grant := grant.(useCount := grant.useCount + 1);
      grants := grants[grantId := grant];
      if key.Some? {
        grantReads := grantReads[(grantId, key.value) := ReadRow(versionId, grant.payload.Some?, now)];
      }
      attempts := attempts + [Attempt(kind, grantId, versionId, false)];
      return FirstUse(grant);
    }

    method RevokeGrant(grantId: Id) returns (done: bool)
      modifies this
      ensures (Value(), done) == Store.RevokeGrant(old(Value()), grantId)
    {
      if grantId !in grants || grants[grantId].revoked {
        return false;
      }
      grants := grants[grantId := grants[grantId].(revoked := true, payload := None)];
      notes := notes + multiset{GrantRevoked(grantId)};
      return true;
    }

    /** `window` replays back from `now` keep a consumed grant's payload. */
    method SweepPayloads(now: Time, window: nat)
      modifies this
      ensures Value() == Store.SweepPayloads(old(Value()), now, window)
    {
      var open := set p | p in grantReads && grantReads[p].firstReadAt > now - window :: p.0;
      grants := map g | g in grants ::
        if grants[g].payload.Some?
           && (grants[g].revoked || grants[g].notAfter < now
               || (grants[g].maxUses.Some? && grants[g].useCount >= grants[g].maxUses.value && g !in open))
        then grants[g].(payload := None) else grants[g];
      assert forall g :: g in open <==> ReplayOpen(grantReads, g, now, window);
    }

    method UnpinStaleReads(now: Time, window: nat)
      modifies this
      ensures Value() == Store.UnpinStaleReads(old(Value()), now, window)
    {
      grantReads := map p | p in grantReads ::
        if grantReads[p].firstReadAt < now - window then grantReads[p].(versionId := None) else grantReads[p];
    }

    /** `secret_incarnation_exists`, refused without an id. */
    method SameIncarnation(secretId: Option<Id>, name: string) returns (same: bool)
      ensures same == IncarnationExists(Value(), secretId, name)
    {
      if secretId.None? {
        return false;
      }
      return secretId.value in secrets && secrets[secretId.value].name == name;
    }

    method ApproveRequest(now: Time, requestId: Id, grantId: Id, p: GrantParams, store: Option<NewSecret>)
      returns (outcome: ApproveOutcome)
      modifies this
      ensures (Value(), outcome) == Store.ApproveRequest(old(Value()), now, requestId, grantId, p, store)
    {
      if p.passthrough.None? && store.None? {
        var same := SameIncarnation(p.secretId, p.secretName);
        if !same {
          return SecretGone;
        }
      }
      if requestId !in requests || requests[requestId].state != Pending
         || now >= requests[requestId].expiresAt || now >= p.notAfter {
        return NotApprovable;
      }
      var before := requests;
      requests := requests[requestId := requests[requestId].(state := Approved)];
      var decidedOn := p.secretId;
      if store.Some? {
        var s := store.value;
        if exists t :: t in secrets && secrets[t].name == s.name {
          requests := before;
          return SecretNameTaken;
        }
        secrets := secrets[s.secretId := Secret(s.name, 1, true)];
        versions := versions[s.versionId := Version(s.secretId, 1, s.plaintext)];
        events := events + [SecretCreated(s.name, ByRequest(requestId))];
        decidedOn := Some(s.secretId);
      }
      grants := grants[grantId := Grant(requestId, p.client, p.secretName, p.notAfter, p.maxUses, 0, false,
                                        p.passthrough, p.passthrough.Some?, decidedOn)];
      notes := notes + multiset{RequestApproved(requestId, grantId)};
      return ApprovedAs(grantId);
    }

    /** One audit row for each member of `rows`, in no particular order. */
    method AuditEach(rows: set<Note>)
      modifies `notes
      ensures notes == old(notes) + multiset(rows)
    {
      var todo := rows;
      while todo != {}
        invariant todo <= rows
        invariant notes + multiset(todo) == old(notes) + multiset(rows)
      {
        var row :| row in todo;
        assert multiset(todo) == multiset(todo - {row}) + multiset{row};
        notes := notes + multiset{row};
        todo := todo - {row};
      }
    }

    method CapExceeded(now: Time, client: string, cap: Option<nat>) returns (exceeded: bool)
      ensures exceeded == (cap.Some? && |PendingOf(requests, client, now)| > cap.value)
    {
      if cap.None? {
        return false;
      }
      var pending := set r | r in requests && requests[r].client == client
                             && requests[r].state == Pending && now < requests[r].expiresAt;
      assert pending == PendingOf(requests, client, now);
      return |pending| > cap.value;
    }

    /** The resolution that policy decided on, in the transaction that inserted row `id`. An auto-grant whose
        deadline has passed changes nothing; the caller then rolls its own writes back. */
    method ApplyResolution(now: Time, id: Id, resolution: Resolution, grantId: Id) returns (outcome: InsertOutcome)
      requires id in requests
      modifies `requests, `grants, `notes
      ensures if resolution.PolicyApproved? && now >= resolution.params.notAfter then
                Value() == old(Value()) && outcome == Aborted
              else match resolution
              case Undecided => Value() == old(Value()) && outcome == Created(id, None)
              case PolicyDenied =>
                && Value() == old(Value()).(requests := old(requests)[id := old(requests)[id].(state := Denied)],
                                            notes := old(notes) + multiset{RequestDenied(id)})
                && outcome == Created(id, None)
              case PolicyApproved(p) =>
                && Value() == old(Value()).(requests := old(requests)[id := old(requests)[id].(state := Approved)],
                                            grants := old(grants)[grantId := NewGrant(id, p, p.secretId)],
                                            notes := old(notes) + multiset{RequestApproved(id, grantId)})
                && outcome == Created(id, Some(grantId))
    {
      outcome := Created(id, None);
      match resolution {
        case Undecided =>
        case PolicyDenied =>
          requests := requests[id := requests[id].(state := Denied)];
          notes := notes + multiset{RequestDenied(id)};
        case PolicyApproved(p) =>
          if now >= p.notAfter {
            return Aborted;
          }
          requests := requests[id := requests[id].(state := Approved)];
          grants := grants[grantId := Grant(id, p.client, p.secretName, p.notAfter, p.maxUses, 0, false,
                                            p.passthrough, p.passthrough.Some?, p.secretId)];
          notes := notes + multiset{RequestApproved(id, grantId)};
          outcome := Created(id, Some(grantId));
      }
    }

    /** `get_request_by_idem`; the unique index leaves at most one row to find. */
    method RequestByIdem(client: string, idemKey: string) returns (found: Option<Id>)
      requires forall r, q :: r in requests && q in requests && HasIdem(requests[r], requests[q].client, requests[q].idemKey) ==> r == q
      ensures found == FindByIdem(Value(), client, idemKey)
    {
      if r :| r in requests && requests[r].client == client && requests[r].idemKey == idemKey {
        assert HasIdem(requests[r], client, idemKey);
        return Some(r);
      }
      assert forall r :: r in requests ==> !HasIdem(requests[r], client, idemKey);
      return None;
    }

    method InsertRequest(
      now: Time, id: Id, req: NewRequest, cap: Option<nat>, resolution: Resolution, grantId: Id)
      returns (outcome: InsertOutcome)
      requires forall r, q :: r in requests && q in requests && HasIdem(requests[r], requests[q].client, requests[q].idemKey) ==> r == q
      modifies this
      ensures (Value(), outcome) == Store.InsertRequest(old(Value()), now, id, req, cap, resolution, grantId)
    {
      if resolution.PolicyApproved? && resolution.params.passthrough.None? {
        var same := SameIncarnation(resolution.params.secretId, resolution.params.secretName);
        if !same {
          return Aborted;
        }
      }
      var prior := RequestByIdem(req.client, req.idemKey);
      if prior.Some? {
        return Existing(prior.value);
      }
      var before, noted := requests, notes;
      requests := requests[id := Request(req.client, req.secretName, Pending, req.expiresAt, req.idemKey, req.mac)];
      var exceeded := CapExceeded(now, req.client, cap);
      if exceeded {
        requests := before;
        return PendingCapExceeded;
      }
      notes := notes + multiset{RequestCreated(id)};
      outcome := ApplyResolution(now, id, resolution, grantId);
      if outcome.Aborted? {
        requests, notes := before, noted;
        return;
      }
      NotedTogether(noted, RequestCreated(id), RequestDenied(id));
      NotedTogether(noted, RequestCreated(id), RequestApproved(id, grantId));
    }

    method DenyRequest(now: Time, requestId: Id) returns (done: bool)
      modifies this
      ensures (Value(), done) == Store.DenyRequest(old(Value()), now, requestId)
    {
      if requestId !in requests || requests[requestId].state != Pending || now >= requests[requestId].expiresAt {
        return false;
      }
      requests := requests[requestId := requests[requestId].(state := Denied)];
      notes := notes + multiset{RequestDenied(requestId)};
      return true;
    }

    /** One statement expires the rows it returns; a loop audits them. */
    method ExpireStale(now: Time) returns (expired: nat)
      modifies this
      ensures Value() == Store.ExpireStale(old(Value()), now)
      ensures expired == |Stale(old(requests), now)|
    {
      var stale := set r | r in requests && requests[r].state == Pending && requests[r].expiresAt < now;
      assert stale == Stale(requests, now);
      requests := map r | r in requests :: if r in stale then requests[r].(state := Expired) else requests[r];
      AuditEach(set r | r in stale :: RequestExpired(r));
      return |stale|;
    }

    /** A client's deposit, or the operator's own secret. */
    method CreateSecret(s: NewSecret, depositor: Option<string>) returns (done: bool)
      modifies this
      ensures (Value(), done) == Store.CreateSecret(old(Value()), s, depositor)
    {
      if exists t :: t in secrets && secrets[t].name == s.name {
        return false;
      }
      secrets := secrets[s.secretId := Secret(s.name, 1, depositor.None?)];
      versions := versions[s.versionId := Version(s.secretId, 1, s.plaintext)];
      events := events + [SecretCreated(s.name, if depositor.Some? then ByClient(depositor.value) else ByOperator)];
      return true;
    }

    method RotateSecret(secretId: Id, name: string, versionId: Id, plaintext: bytes) returns (done: bool)
      modifies this
      ensures (Value(), done) == Store.RotateSecret(old(Value()), secretId, name, versionId, plaintext)
    {
      if secretId !in secrets {
        return false;
      }
      var number := secrets[secretId].currentVersion + 1;
      secrets := secrets[secretId := secrets[secretId].(currentVersion := number, vetted := true)];
      versions := versions[versionId := Version(secretId, number, plaintext)];
      events := events + [SecretRotated(name, versionId)];
      return true;
    }

    method MarkVetted(secretId: Id, reviewed: nat) returns (done: bool)
      modifies this
      ensures (Value(), done) == Store.MarkVetted(old(Value()), secretId, reviewed)
    {
      if secretId !in secrets || secrets[secretId].vetted || secrets[secretId].currentVersion != reviewed {
        return false;
      }
      secrets := secrets[secretId := secrets[secretId].(vetted := true)];
      events := events + [SecretVetted(secrets[secretId].name, reviewed)];
      return true;
    }

    /** Deletes the row; its versions cascade, counted before they go. */
    method RemoveSecret(secretId: Id) returns (dropped: nat)
      requires secretId in secrets
      modifies `secrets, `versions
      ensures secrets == old(secrets) - {secretId}
      ensures versions == old(versions) - VersionsOf(old(versions), secretId)
      ensures dropped == |VersionsOf(old(versions), secretId)|
    {
      var gone := set v | v in versions && versions[v].secretId == secretId;
      assert gone == VersionsOf(versions, secretId);
      secrets := secrets - {secretId};
      versions := versions - gone;
      return |gone|;
    }

    /** Revokes the live grants of a name that have no payload of their own, and says which. */
    method RevokeBacked(name: string, now: Time) returns (revoked: set<Id>)
      modifies `grants
      ensures revoked == Backed(old(grants), name, now)
      ensures grants == RevokeAll(old(grants), revoked)
    {
      revoked := set g | g in grants && grants[g].secretName == name && !grants[g].revoked
                         && now < grants[g].notAfter && !grants[g].ephemeral;
      grants := map g | g in grants ::
        if g in revoked then grants[g].(revoked := true, payload := None) else grants[g];
    }

    method DeleteSecret(now: Time, secretId: Id, expected: nat) returns (outcome: DeleteOutcome)
      modifies this
      ensures (Value(), outcome) == Store.DeleteSecret(old(Value()), now, secretId, expected)
    {
      if secretId !in secrets || secrets[secretId].currentVersion != expected {
        return StaleDelete;
      }
      ghost var (after, _) := Store.DeleteSecret(Value(), now, secretId, expected);
      var name := secrets[secretId].name;
      var dropped := RemoveSecret(secretId);
      assert secrets == after.secrets && versions == after.versions;
      var backed := RevokeBacked(name, now);
      assert grants == after.grants;
      AuditEach(set g | g in backed :: GrantRevoked(g));
      assert notes == after.notes;
      events := events + [SecretDeleted(name, expected, dropped, |backed|)];
      return Deleted(|backed|);
    }
  }

  lemma NotedTogether(notes: multiset<Note>, a: Note, b: Note)
    ensures notes + multiset{a} + multiset{b} == notes + multiset{a, b}
  {
  }
}
