/**
  What each step does and what alone does it, in the columns of the tables: when
  a request is resolved, when a grant falls or loses its payload, when a pin is
  dropped, when a secret comes, changes and goes.
 */
module Effects {
  import opened Wrappers
  import opened Store
  import opened World
  import opened Frames
  import opened GrantSafety
  import Origins
  import RequestLifecycle
  import SecretAudit

  // ---------- requests are resolved ----------

  /** There is something for the grant to release: a payload of its own, a secret stored with it, or the secret
      row that was reviewed. */
  predicate Backable(secrets: map<Id, Secret>, p: GrantParams, stored: bool) {
    || p.passthrough.Some? || stored
    || (p.secretId.Some? && p.secretId.value in secrets && secrets[p.secretId.value].name == p.secretName)
  }

  ghost predicate NameFree(secrets: map<Id, Secret>, store: Option<NewSecret>) {
    store.Some? ==> forall s :: s in secrets ==> secrets[s].name != store.value.name
  }

  predicate ApprovesRequest(a: Action, r: Id) {
    a.Approve? && a.request == r
  }

  /** What approving the pending request `row` takes, beside the request itself. */
  ghost predicate Grantable(db: Tables, a: Action, row: Request, now: Time)
    requires a.Approve?
  {
    && now < row.expiresAt && now < a.params.notAfter
    && Backable(db.secrets, a.params, a.store.Some?) && NameFree(db.secrets, a.store)
  }

  /** How a pending row may leave a step. */
  ghost predicate ResolvedBy(db: Tables, a: Action, now: Time, r: Id, row: Request, state: RequestState) {
    && (state == Denied <==> a == Deny(r) && now < row.expiresAt)
    && (state == Expired <==> a.Expire? && row.expiresAt < now)
    && (state == Approved <==> ApprovesRequest(a, r) && Grantable(db, a, row, now))
  }

  lemma DenyResolves(w: World, q: Id, r: Id)
    requires r in w.db.requests && w.db.requests[r].state == Pending
    ensures var n := DenyRequest(w.db, w.clock, q).0;
            r in n.requests && ResolvedBy(w.db, Deny(q), w.clock, r, w.db.requests[r], n.requests[r].state)
  {
  }

  lemma ExpireResolves(w: World, r: Id)
    requires r in w.db.requests && w.db.requests[r].state == Pending
    ensures var n := ExpireStale(w.db, w.clock);
            r in n.requests && ResolvedBy(w.db, Expire, w.clock, r, w.db.requests[r], n.requests[r].state)
  {
  }

  lemma ApproveResolves(w: World, q: Id, grantId: Id, p: GrantParams, store: Option<NewSecret>, r: Id)
    requires r in w.db.requests && w.db.requests[r].state == Pending
    ensures var n := ApproveAt(w, q, grantId, p, store).db;
            r in n.requests && ResolvedBy(w.db, Approve(q, grantId, p, store), w.clock, r, w.db.requests[r], n.requests[r].state)
  {
  }

  lemma InsertResolvesNothing(w: World, id: Id, req: NewRequest, cap: Option<nat>, resolution: Resolution, g: Id, r: Id)
    requires IssuedOk(w) && id !in w.issued && r in w.db.requests
    ensures var n := InsertAt(w, id, req, cap, resolution, g).db.requests; r in n && n[r] == w.db.requests[r]
  {
    RequestLifecycle.InsertRequestsShape(w.db, w.clock, id, req, cap, resolution, g);
    InsertTables(w, id, req, cap, resolution, g);
  }

  lemma OthersResolveNothing(w: World, a: Action, r: Id)
    requires IssuedOk(w) && CanAct(w, a) && !a.Deny? && !a.Expire? && !a.Approve? && r in w.db.requests
    ensures r in Act(w, a).db.requests && Act(w, a).db.requests[r] == w.db.requests[r]
  {
    if a.Insert? {
      InsertResolvesNothing(w, a.request, a.req, a.cap, a.resolution, a.grantId, r);
    } else {
      ActFrame(w, a);
    }
  }

  lemma ActResolves(w: World, a: Action, r: Id)
    requires IssuedOk(w) && CanAct(w, a) && r in w.db.requests && w.db.requests[r].state == Pending
    ensures r in Act(w, a).db.requests
    ensures ResolvedBy(w.db, a, w.clock, r, w.db.requests[r], Act(w, a).db.requests[r].state)
  {
    if a.Deny? {
      DenyResolves(w, a.request, r);
    } else if a.Expire? {
      ExpireResolves(w, r);
    } else if a.Approve? {
      ApproveResolves(w, a.request, a.grantId, a.params, a.store, r);
    } else {
      OthersResolveNothing(w, a, r);
    }
  }

  /** A pending request is denied, expired or approved by exactly the steps that meet the conditions for it. */
  lemma RequestsResolveExactly(ws: seq<World>, steps: seq<Step>, j: nat, r: Id)
    requires Run(ws, steps) && j < |steps| && r in ws[j].db.requests && ws[j].db.requests[r].state == Pending
    ensures r in ws[j + 1].db.requests
    ensures ResolvedBy(ws[j].db, steps[j].action, steps[j].now, r, ws[j].db.requests[r], ws[j + 1].db.requests[r].state)
  {
    StepTaken(ws, steps, j);
    RunIssuesOnce(ws, steps, j);
    ActResolves(ws[j].(clock := steps[j].now), steps[j].action, r);
  }

  /** An approval takes effect whole: the grant is there, unused, with its payload, and the secret stored with it
      is at its first version; or nothing changes at all. */
  lemma ApprovalsAreWhole(ws: seq<World>, steps: seq<Step>, j: nat, r: Id, g: Id, p: GrantParams, store: Option<NewSecret>)
    requires Run(ws, steps) && j < |steps| && steps[j].action == Approve(r, g, p, store)
    ensures var (db, n) := (ws[j].db, ws[j + 1].db);
            if r in db.requests && db.requests[r].state == Pending && Grantable(ws[j].db, steps[j].action, db.requests[r], steps[j].now)
            then g in n.grants && n.grants[g].payload == p.passthrough && n.grants[g].useCount == 0 && !n.grants[g].revoked
                 && (store.Some? ==> store.value.secretId in n.secrets
                                     && n.secrets[store.value.secretId] == Secret(store.value.name, 1, true))
            else n == db
  {
    StepTaken(ws, steps, j);
  }

  // ---------- requests are created ----------

  /** The client's requests that await a decision. */
  function Awaiting(requests: map<Id, Request>, client: string, now: Time): set<Id> {
    set r | r in requests && requests[r].client == client && requests[r].state == Pending && now < requests[r].expiresAt
  }

  ghost predicate KeyUnused(requests: map<Id, Request>, req: NewRequest) {
    forall r :: r in requests ==> !(requests[r].client == req.client && requests[r].idemKey == req.idemKey)
  }

  /** A new request counts against the cap with those that await a decision. */
  predicate WithinCap(requests: map<Id, Request>, req: NewRequest, now: Time, cap: Option<nat>) {
    cap.Some? ==> |Awaiting(requests, req.client, now)| + (if now < req.expiresAt then 1 else 0) <= cap.value
  }

  /** What policy approved can still be granted. */
  predicate Stands(secrets: map<Id, Secret>, resolution: Resolution, now: Time) {
    resolution.PolicyApproved? ==> Backable(secrets, resolution.params, false) && now < resolution.params.notAfter
  }

  ghost predicate Insertable(db: Tables, req: NewRequest, now: Time, cap: Option<nat>, resolution: Resolution) {
    KeyUnused(db.requests, req) && WithinCap(db.requests, req, now, cap) && Stands(db.secrets, resolution, now)
  }

  function StateAfter(resolution: Resolution): RequestState {
    match resolution
    case Undecided => Pending
    case PolicyDenied => Denied
    case PolicyApproved(_) => Approved
  }

  /** The row of what was asked, in a state. */
  function AskedFor(req: NewRequest, state: RequestState): Request {
    Request(req.client, req.secretName, state, req.expiresAt, req.idemKey, req.mac)
  }

  lemma NoPriorRow(t: Tables, req: NewRequest)
    ensures FindByIdem(t, req.client, req.idemKey).None? <==> KeyUnused(t.requests, req)
  {
    if r :| r in t.requests && HasIdem(t.requests[r], req.client, req.idemKey) {
    }
  }

  lemma CountedWithTheNew(requests: map<Id, Request>, id: Id, req: NewRequest, row: Request, now: Time)
    requires id !in requests && row == AskedFor(req, Pending)
    ensures |PendingOf(requests[id := row], req.client, now)|
         == |Awaiting(requests, req.client, now)| + if now < req.expiresAt then 1 else 0
  {
    assert PendingOf(requests[id := row], req.client, now)
        == Awaiting(requests, req.client, now) + if now < req.expiresAt then {id} else {};
  }

  /** An insert is refused for the first of these that holds: a policy grant with nothing to release, a key that is
      used, a cap that is full, a policy grant that would be past its deadline. */
  lemma InsertAnswers(t: Tables, now: Time, id: Id, req: NewRequest, cap: Option<nat>, resolution: Resolution, g: Id)
    requires id !in t.requests
    ensures var out := InsertRequest(t, now, id, req, cap, resolution, g).1;
            var backed := resolution.PolicyApproved? ==> Backable(t.secrets, resolution.params, false);
            var unused, room := KeyUnused(t.requests, req), WithinCap(t.requests, req, now, cap);
            var timely := resolution.PolicyApproved? ==> now < resolution.params.notAfter;
            && (out.Aborted? <==> !backed || (unused && room && !timely))
            && (out.Existing? <==> backed && !unused)
            && (out.PendingCapExceeded? <==> backed && unused && !room)
            && (out.Created? ==> out == Created(id, if resolution.PolicyApproved? then Some(g) else None))
            && (out.Existing? ==> out.request in t.requests && t.requests[out.request].client == req.client
                                  && t.requests[out.request].idemKey == req.idemKey)
  {
    NoPriorRow(t, req);
    CountedWithTheNew(t.requests, id, req, AskedFor(req, Pending), now);
  }

  lemma InsertLeaves(t: Tables, now: Time, id: Id, req: NewRequest, cap: Option<nat>, resolution: Resolution, g: Id)
    ensures var (n, out) := InsertRequest(t, now, id, req, cap, resolution, g);
            if out.Created?
            then n.requests == t.requests[id := AskedFor(req, StateAfter(resolution))]
            else n == t
  {
  }

  lemma InsertDecides(t: Tables, now: Time, id: Id, req: NewRequest, cap: Option<nat>, resolution: Resolution, g: Id)
    requires id !in t.requests
    ensures var n := InsertRequest(t, now, id, req, cap, resolution, g).0;
            if Insertable(t, req, now, cap, resolution)
            then n.requests == t.requests[id := AskedFor(req, StateAfter(resolution))]
            else n == t
  {
    InsertAnswers(t, now, id, req, cap, resolution, g);
    InsertLeaves(t, now, id, req, cap, resolution, g);
  }

  /** A request is created, in the state its policy decision gives it, exactly when its key is unused, the client's
      cap has room and what was decided still stands; otherwise nothing changes. */
  lemma RequestsAreCreatedExactly(
    ws: seq<World>, steps: seq<Step>, j: nat, r: Id, req: NewRequest, cap: Option<nat>, resolution: Resolution, g: Id)
    requires Run(ws, steps) && j < |steps| && steps[j].action == Insert(r, req, cap, resolution, g)
    ensures if Insertable(ws[j].db, req, steps[j].now, cap, resolution)
            then ws[j + 1].db.requests == ws[j].db.requests[r := AskedFor(req, StateAfter(resolution))]
            else ws[j + 1].db == ws[j].db
  {
    StepTaken(ws, steps, j);
    RunIssuesOnce(ws, steps, j);
    InsertDecides(ws[j].db, steps[j].now, r, req, cap, resolution, g);
    InsertTables(ws[j].(clock := steps[j].now), r, req, cap, resolution, g);
  }

  // ---------- grants fall ----------

  /** A deletion takes the live grants that stand on a stored secret of the name deleted. */
  predicate FallsWith(db: Tables, a: Action, g: Grant, now: Time) {
    && a.Delete? && a.secretId in db.secrets && db.secrets[a.secretId].currentVersion == a.expected
    && db.secrets[a.secretId].name == g.secretName && !g.ephemeral && !g.revoked && now < g.notAfter
  }

  /** What `a` does to the grant row `g`, its uses aside. */
  ghost predicate Falls(db: Tables, a: Action, id: Id, g: Grant, n: Grant, now: Time) {
    && (n.revoked <==> g.revoked || a == RevokeOne(id) || FallsWith(db, a, g, now))
    && (n.revoked && !g.revoked ==> n.payload.None?)
  }

  lemma DeleteFells(w: World, s: Id, expected: nat, id: Id)
    requires id in w.db.grants
    ensures var n := DeleteSecret(w.db, w.clock, s, expected).0.grants;
            id in n && Falls(w.db, Delete(s, expected), id, w.db.grants[id], n[id], w.clock)
            && (n[id].revoked == w.db.grants[id].revoked ==> n[id] == w.db.grants[id])
  {
  }

  lemma RevokeFells(w: World, g: Id, id: Id)
    requires id in w.db.grants
    ensures var n := RevokeGrant(w.db, g).0.grants;
            id in n && Falls(w.db, RevokeOne(g), id, w.db.grants[id], n[id], w.clock)
            && (n[id].revoked == w.db.grants[id].revoked ==> n[id] == w.db.grants[id])
  {
  }

  lemma InsertFellsNothing(w: World, r: Id, req: NewRequest, cap: Option<nat>, resolution: Resolution, g: Id, id: Id)
    requires IssuedOk(w) && g !in w.issued && id in w.db.grants
    ensures var n := InsertAt(w, r, req, cap, resolution, g).db.grants; id in n && n[id] == w.db.grants[id]
  {
    InsertShape(w.db, w.clock, r, req, cap, resolution, g);
    InsertTables(w, r, req, cap, resolution, g);
  }

  lemma ApproveFellsNothing(w: World, r: Id, g: Id, p: GrantParams, store: Option<NewSecret>, id: Id)
    requires IssuedOk(w) && g !in w.issued && id in w.db.grants
    ensures var n := ApproveAt(w, r, g, p, store).db.grants; id in n && n[id] == w.db.grants[id]
  {
  }

  lemma OthersFellNothing(w: World, a: Action, id: Id)
    requires IssuedOk(w) && CanAct(w, a) && !a.RevokeOne? && !a.Delete? && id in w.db.grants
    ensures id in Act(w, a).db.grants && Act(w, a).db.grants[id].revoked == w.db.grants[id].revoked
  {
    if a.Insert? {
      InsertFellsNothing(w, a.request, a.req, a.cap, a.resolution, a.grantId, id);
    } else if a.Approve? {
      ApproveFellsNothing(w, a.request, a.grantId, a.params, a.store, id);
    } else if WritesGrants(a) {
      RequestLifecycle.OtherActIsSame(w, a);
    } else {
      KeepsGrants(w, a);
    }
  }

  lemma ActFells(w: World, a: Action, id: Id)
    requires IssuedOk(w) && CanAct(w, a) && id in w.db.grants
    ensures id in Act(w, a).db.grants && Falls(w.db, a, id, w.db.grants[id], Act(w, a).db.grants[id], w.clock)
  {
    if a.RevokeOne? {
      RevokeFells(w, a.grantId, id);
    } else if a.Delete? {
      DeleteFells(w, a.secretId, a.expected, id);
    } else {
      OthersFellNothing(w, a, id);
    }
  }

  /** A grant is revoked by its own revocation and by the deletion of the secret it stands on, and by nothing
      else; the payload goes with it. */
  lemma GrantsFallExactly(ws: seq<World>, steps: seq<Step>, j: nat, g: Id)
    requires Run(ws, steps) && j < |steps| && g in ws[j].db.grants
    ensures g in ws[j + 1].db.grants
    ensures Falls(ws[j].db, steps[j].action, g, ws[j].db.grants[g], ws[j + 1].db.grants[g], steps[j].now)
  {
    StepTaken(ws, steps, j);
    RunIssuesOnce(ws, steps, j);
    ActFells(ws[j].(clock := steps[j].now), steps[j].action, g);
  }

  lemma {:induction false} RevokedStaysRevoked(ws: seq<World>, steps: seq<Step>, i: nat, k: nat, g: Id)
    requires Run(ws, steps) && i <= k < |ws| && g in ws[i].db.grants && ws[i].db.grants[g].revoked
    ensures g in ws[k].db.grants && ws[k].db.grants[g].revoked
    decreases k - i
  {
    if i < k {
      RevokedStaysRevoked(ws, steps, i, k - 1, g);
      GrantsFallExactly(ws, steps, k - 1, g);
    }
  }

  /** Revoking a grant takes effect at once and for good: no use of it is audited any more. */
  lemma RevocationIsFinal(ws: seq<World>, steps: seq<Step>, j: nat, k: nat, g: Id, a: Attempt)
    requires Run(ws, steps) && j < k < |steps| && steps[j].action == RevokeOne(g) && g in ws[j].db.grants
    requires ws[k + 1].db.attempts == ws[k].db.attempts + [a]
    ensures a.grantId != g
  {
    GrantsFallExactly(ws, steps, j, g);
    RevokedStaysRevoked(ws, steps, j + 1, k, g);
    Origins.UsesComeBeforeTheDeadline(ws, steps, k, a);
  }

  // ---------- payloads are lost ----------

  /** Nothing is owed from the payload any more: the grant is revoked or past its deadline, or its uses are spent
      and no read under it is younger than the window. */
  ghost predicate NothingOwed(db: Tables, id: Id, now: Time, window: nat)
    requires id in db.grants
  {
    var g := db.grants[id];
    || g.revoked || g.notAfter < now
    || (g.maxUses.Some? && g.useCount >= g.maxUses.value
        && forall p :: p in db.grantReads && p.0 == id ==> db.grantReads[p].firstReadAt <= now - window)
  }

  /** A payload leaves its row with a revocation, or by a sweep when nothing is owed from it. */
  ghost predicate Loses(w: World, a: Action, id: Id, n: Grant, now: Time)
    requires id in w.db.grants
  {
    && (n.payload.None? <==> a == RevokeOne(id) || FallsWith(w.db, a, w.db.grants[id], now)
                             || (a.Sweep? && NothingOwed(w.db, id, now, w.window)))
    && (n.payload.Some? ==> n.payload == w.db.grants[id].payload)
  }

  lemma SweepLoses(w: World, id: Id)
    requires id in w.db.grants && w.db.grants[id].payload.Some?
    ensures var n := SweepPayloads(w.db, w.clock, w.window).grants; id in n && Loses(w, Sweep, id, n[id], w.clock)
  {
  }

  lemma UseKeepsPayload(t: Tables, now: Time, g: Id, key: Option<string>, v: Option<Id>, kind: AttemptKind, window: nat, id: Id)
    requires id in t.grants
    ensures var n := BeginGrantUse(t, now, g, key, v, kind, window).0.grants; id in n && n[id].payload == t.grants[id].payload
  {
  }

  lemma UseLosesNothing(w: World, a: Action, id: Id)
    requires CanAct(w, a) && (a.ReadAccount? || a.ProxyUse?) && id in w.db.grants
    ensures id in Act(w, a).db.grants && Act(w, a).db.grants[id].payload == w.db.grants[id].payload
  {
    if a.ReadAccount? {
      var Resolved(g, key, _, payloadId) := w.readers[a.reader];
      AccountTables(w, a.reader);
      UseKeepsPayload(w.db, w.clock, g, Some(key), Some(payloadId), ReleaseAttempt, w.window, id);
    } else {
      UseKeepsPayload(w.db, w.clock, a.grantId, None, Some(a.credential), ProxyAttempt, w.window, id);
    }
  }

  lemma OthersLoseNothing(w: World, a: Action, id: Id)
    requires IssuedOk(w) && CanAct(w, a) && !a.RevokeOne? && !a.Delete? && !a.Sweep? && id in w.db.grants
    ensures id in Act(w, a).db.grants && Act(w, a).db.grants[id].payload == w.db.grants[id].payload
  {
    if a.Insert? {
      InsertFellsNothing(w, a.request, a.req, a.cap, a.resolution, a.grantId, id);
    } else if a.Approve? {
      ApproveFellsNothing(w, a.request, a.grantId, a.params, a.store, id);
    } else if a.ReadAccount? || a.ProxyUse? {
      UseLosesNothing(w, a, id);
    } else {
      KeepsGrants(w, a);
    }
  }

  lemma ActLoses(w: World, a: Action, id: Id)
    requires IssuedOk(w) && CanAct(w, a) && id in w.db.grants && w.db.grants[id].payload.Some? && !w.db.grants[id].revoked
    ensures id in Act(w, a).db.grants && Loses(w, a, id, Act(w, a).db.grants[id], w.clock)
  {
    if a.Sweep? {
      SweepLoses(w, id);
    } else if a.RevokeOne? {
      RevokeFells(w, a.grantId, id);
    } else if a.Delete? {
      DeleteFells(w, a.secretId, a.expected, id);
    } else {
      OthersLoseNothing(w, a, id);
    }
  }

  /** An unrevoked grant's payload is dropped exactly then. */
  lemma PayloadsAreLostExactly(ws: seq<World>, steps: seq<Step>, j: nat, g: Id)
    requires Run(ws, steps) && j < |steps| && g in ws[j].db.grants
    requires ws[j].db.grants[g].payload.Some? && !ws[j].db.grants[g].revoked
    ensures g in ws[j + 1].db.grants
    ensures Loses(ws[j], steps[j].action, g, ws[j + 1].db.grants[g], steps[j].now)
  {
    StepTaken(ws, steps, j);
    RunIssuesOnce(ws, steps, j);
    ActLoses(ws[j].(clock := steps[j].now), steps[j].action, g);
  }

  // ---------- pins are dropped ----------

  ghost predicate PinKept(w: World, a: Action, p: (Id, string), n: Reads, now: Time)
    requires p in w.db.grantReads
  {
    && p in n
    && n[p] == if a.Unpin? && w.db.grantReads[p].firstReadAt < now - w.window
               then ReadRow(None, w.db.grantReads[p].passthrough, w.db.grantReads[p].firstReadAt) else w.db.grantReads[p]
  }

  lemma UseKeepsRow(t: Tables, now: Time, g: Id, key: Option<string>, v: Option<Id>, kind: AttemptKind, window: nat, p: (Id, string))
    requires p in t.grantReads
    ensures var n := BeginGrantUse(t, now, g, key, v, kind, window).0.grantReads; p in n && n[p] == t.grantReads[p]
  {
  }

  lemma AccountPins(w: World, r: nat, p: (Id, string))
    requires r in w.readers && w.readers[r].Resolved? && p in w.db.grantReads
    ensures PinKept(w, ReadAccount(r), p, Account(w, r).db.grantReads, w.clock)
  {
    var Resolved(g, key, _, payloadId) := w.readers[r];
    AccountTables(w, r);
    UseKeepsRow(w.db, w.clock, g, Some(key), Some(payloadId), ReleaseAttempt, w.window, p);
  }

  lemma ActPins(w: World, a: Action, p: (Id, string))
    requires CanAct(w, a) && p in w.db.grantReads
    ensures PinKept(w, a, p, Act(w, a).db.grantReads, w.clock)
  {
    if a.ReadAccount? {
      AccountPins(w, a.reader, p);
    } else if !a.Unpin? {
      ActFrame(w, a);
    }
  }

  /** A replay row loses its pin exactly when the unpin sweep finds it older than the window, and otherwise stays
      as its first use left it. */
  lemma PinsAreDroppedExactly(ws: seq<World>, steps: seq<Step>, j: nat, p: (Id, string))
    requires Run(ws, steps) && j < |steps| && p in ws[j].db.grantReads
    ensures PinKept(ws[j], steps[j].action, p, ws[j + 1].db.grantReads, steps[j].now)
  {
    StepTaken(ws, steps, j);
    ActPins(ws[j].(clock := steps[j].now), steps[j].action, p);
  }

  // ---------- secrets come, change and go ----------

  ghost predicate Free(secrets: map<Id, Secret>, name: string) {
    forall s :: s in secrets ==> secrets[s].name != name
  }

  /** What becomes of a stored secret. */
  ghost predicate Becomes(w: World, n: World, a: Action, s: Id)
    requires s in w.db.secrets
  {
    var row := w.db.secrets[s];
    && (s !in n.db.secrets <==> a == Delete(s, row.currentVersion))
    && (s in n.db.secrets ==>
          && n.db.secrets[s].name == row.name
          && n.db.secrets[s].currentVersion == row.currentVersion + (if a.Rotate? && a.secretId == s then 1 else 0)
          && (n.db.secrets[s].vetted <==> row.vetted || a == Vet(s, row.currentVersion) || (a.Rotate? && a.secretId == s)))
  }

  lemma VetBecomes(w: World, id: Id, reviewed: nat, s: Id)
    requires s in w.db.secrets
    ensures Becomes(w, w.(db := MarkVetted(w.db, id, reviewed).0), Vet(id, reviewed), s)
  {
  }

  lemma DeleteBecomes(w: World, id: Id, expected: nat, s: Id)
    requires s in w.db.secrets
    ensures Becomes(w, w.(db := DeleteSecret(w.db, w.clock, id, expected).0), Delete(id, expected), s)
  {
  }

  lemma CreateBecomes(w: World, c: NewSecret, depositor: Option<string>, s: Id)
    requires IssuedOk(w) && FreshSecret(w, c) && s in w.db.secrets
    ensures Becomes(w, CreateAt(w, c, depositor), Create(c, depositor), s)
  {
  }

  lemma RotateBecomes(w: World, id: Id, name: string, v: Id, plaintext: bytes, s: Id)
    requires s in w.db.secrets
    ensures Becomes(w, RotateAt(w, id, name, v, plaintext), Rotate(id, name, v, plaintext), s)
  {
  }

  lemma ApproveBecomes(w: World, r: Id, g: Id, p: GrantParams, store: Option<NewSecret>, s: Id)
    requires IssuedOk(w) && MayApprove(w, g, p, store) && s in w.db.secrets
    ensures Becomes(w, ApproveAt(w, r, g, p, store), Approve(r, g, p, store), s)
  {
    SecretAudit.ApproveSecrets(w, r, g, p, store);
  }

  lemma ActBecomes(w: World, a: Action, s: Id)
    requires IssuedOk(w) && CanAct(w, a) && s in w.db.secrets
    ensures Becomes(w, Act(w, a), a, s)
  {
    if a.Vet? {
      VetBecomes(w, a.secretId, a.reviewed, s);
    } else if a.Delete? {
      DeleteBecomes(w, a.secretId, a.expected, s);
    } else if a.Create? {
      CreateBecomes(w, a.created, a.depositor, s);
    } else if a.Rotate? {
      RotateBecomes(w, a.secretId, a.name, a.versionId, a.plaintext, s);
    } else if a.Approve? {
      ApproveBecomes(w, a.request, a.grantId, a.params, a.store, s);
    } else {
      KeepsSecrets(w, a);
    }
  }

  /** A stored secret leaves by its deletion at the version it has, moves on one version by a rotation, and is
      vetted by a rotation or by a review of the version it has; nothing else touches it. */
  lemma SecretsChangeExactly(ws: seq<World>, steps: seq<Step>, j: nat, s: Id)
    requires Run(ws, steps) && j < |steps| && s in ws[j].db.secrets
    ensures Becomes(ws[j], ws[j + 1], steps[j].action, s)
  {
    StepTaken(ws, steps, j);
    RunIssuesOnce(ws, steps, j);
    ActBecomes(ws[j].(clock := steps[j].now), steps[j].action, s);
  }

  /** A secret is created under a free name, unvetted exactly when a client deposited it; under a taken name
      nothing is. */
  lemma SecretsAreCreatedExactly(ws: seq<World>, steps: seq<Step>, j: nat, c: NewSecret, depositor: Option<string>)
    requires Run(ws, steps) && j < |steps| && steps[j].action == Create(c, depositor)
    ensures if Free(ws[j].db.secrets, c.name)
            then ws[j + 1].db.secrets == ws[j].db.secrets[c.secretId := Secret(c.name, 1, depositor.None?)]
                 && ws[j + 1].db.versions == ws[j].db.versions[c.versionId := Version(c.secretId, 1, c.plaintext)]
            else ws[j + 1] == ws[j].(clock := steps[j].now)
  {
    StepTaken(ws, steps, j);
  }

  /** The versions of a secret stay with it and go with it. */
  ghost predicate VersionsFollow(w: World, n: World, a: Action) {
    forall v :: v in w.db.versions ==>
      && (v !in n.db.versions <==> a.Delete? && a.secretId == w.db.versions[v].secretId && a.secretId in w.db.secrets
                                   && w.db.secrets[a.secretId].currentVersion == a.expected)
      && (v in n.db.versions ==> n.db.versions[v] == w.db.versions[v])
  }

  lemma WriteVersions(w: World, a: Action)
    requires IssuedOk(w) && CanAct(w, a) && (a.Create? || a.Rotate? || a.Vet?)
    ensures VersionsFollow(w, Act(w, a), a)
  {
  }

  lemma DeleteVersions(w: World, s: Id, expected: nat)
    ensures VersionsFollow(w, w.(db := DeleteSecret(w.db, w.clock, s, expected).0), Delete(s, expected))
  {
  }

  lemma ApproveVersions(w: World, r: Id, g: Id, p: GrantParams, store: Option<NewSecret>)
    requires IssuedOk(w) && MayApprove(w, g, p, store)
    ensures VersionsFollow(w, ApproveAt(w, r, g, p, store), Approve(r, g, p, store))
  {
    SecretAudit.ApproveSecrets(w, r, g, p, store);
  }

  lemma ActVersions(w: World, a: Action)
    requires IssuedOk(w) && CanAct(w, a)
    ensures VersionsFollow(w, Act(w, a), a)
  {
    if a.Create? || a.Rotate? || a.Vet? {
      WriteVersions(w, a);
    } else if a.Delete? {
      DeleteVersions(w, a.secretId, a.expected);
    } else if a.Approve? {
      ApproveVersions(w, a.request, a.grantId, a.params, a.store);
    } else {
      KeepsSecrets(w, a);
    }
  }

  lemma VersionsStayWithTheirSecret(ws: seq<World>, steps: seq<Step>, j: nat)
    requires Run(ws, steps) && j < |steps|
    ensures VersionsFollow(ws[j], ws[j + 1], steps[j].action)
  {
    StepTaken(ws, steps, j);
    RunIssuesOnce(ws, steps, j);
    ActVersions(ws[j].(clock := steps[j].now), steps[j].action);
  }

  // ---------- what the audit log says of secrets ----------

  function Depositor(depositor: Option<string>): Provenance {
    match depositor
    case Some(client) => ByClient(client)
    case None => ByOperator
  }

  /** The rows that a step adds. */
  ghost function Events(db: Tables, a: Action, now: Time): seq<SecretEvent> {
    match a
    case Create(c, depositor) => if Free(db.secrets, c.name) then [SecretCreated(c.name, Depositor(depositor))] else []
    case Approve(r, _, _, Some(c)) =>
      if r in db.requests && db.requests[r].state == Pending && Grantable(db, a, db.requests[r], now)
      then [SecretCreated(c.name, ByRequest(r))] else []
    case Rotate(s, name, v, _) => if s in db.secrets then [SecretRotated(name, v)] else []
    case Vet(s, version) =>
      if s in db.secrets && !db.secrets[s].vetted && db.secrets[s].currentVersion == version
      then [SecretVetted(db.secrets[s].name, version)] else []
    case Delete(s, version) =>
      if s in db.secrets && db.secrets[s].currentVersion == version
      then [SecretDeleted(db.secrets[s].name, version,
                          |set v | v in db.versions && db.versions[v].secretId == s|,
                          |set g | g in db.grants && FallsWith(db, a, db.grants[g], now)|)]
      else []
    case _ => []
  }

  lemma CreateEvents(w: World, c: NewSecret, depositor: Option<string>)
    ensures CreateAt(w, c, depositor).db.events == w.db.events + Events(w.db, Create(c, depositor), w.clock)
  {
  }

  lemma ApproveEvents(w: World, r: Id, g: Id, p: GrantParams, store: Option<NewSecret>)
    ensures ApproveAt(w, r, g, p, store).db.events == w.db.events + Events(w.db, Approve(r, g, p, store), w.clock)
  {
  }

  lemma RotateEvents(w: World, s: Id, name: string, v: Id, plaintext: bytes)
    ensures RotateAt(w, s, name, v, plaintext).db.events == w.db.events + Events(w.db, Rotate(s, name, v, plaintext), w.clock)
  {
  }

  lemma VetEvents(w: World, s: Id, version: nat)
    ensures MarkVetted(w.db, s, version).0.events == w.db.events + Events(w.db, Vet(s, version), w.clock)
  {
  }

  lemma DeleteEvents(w: World, s: Id, version: nat)
    ensures DeleteSecret(w.db, w.clock, s, version).0.events == w.db.events + Events(w.db, Delete(s, version), w.clock)
  {
    if s in w.db.secrets && w.db.secrets[s].currentVersion == version {
      assert VersionsOf(w.db.versions, s) == set v | v in w.db.versions && w.db.versions[v].secretId == s;
      assert Backed(w.db.grants, w.db.secrets[s].name, w.clock)
          == set g | g in w.db.grants && FallsWith(w.db, Delete(s, version), w.db.grants[g], w.clock);
    }
  }

  lemma ActEvents(w: World, a: Action)
    requires CanAct(w, a)
    ensures Act(w, a).db.events == w.db.events + Events(w.db, a, w.clock)
  {
    if a.Create? {
      CreateEvents(w, a.created, a.depositor);
    } else if a.Approve? {
      ApproveEvents(w, a.request, a.grantId, a.params, a.store);
    } else if a.Rotate? {
      RotateEvents(w, a.secretId, a.name, a.versionId, a.plaintext);
    } else if a.Vet? {
      VetEvents(w, a.secretId, a.reviewed);
    } else if a.Delete? {
      DeleteEvents(w, a.secretId, a.expected);
    } else {
      KeepsSecrets(w, a);
    }
  }

  /** Every step adds exactly the rows about secrets that say what it did: who created, which version was written
      or reviewed, how many versions and grants a deletion took. */
  lemma SecretEventsSayWhatHappened(ws: seq<World>, steps: seq<Step>, j: nat)
    requires Run(ws, steps) && j < |steps|
    ensures ws[j + 1].db.events == ws[j].db.events + Events(ws[j].db, steps[j].action, steps[j].now)
  {
    StepTaken(ws, steps, j);
    ActEvents(ws[j].(clock := steps[j].now), steps[j].action);
  }

  // ---------- what the callers are told ----------

  predicate Revocable(t: Tables, g: Id) {
    g in t.grants && !t.grants[g].revoked
  }

  predicate Deletable(t: Tables, s: Id, version: nat) {
    s in t.secrets && t.secrets[s].currentVersion == version
  }

  /** A use is refused for the first of these that holds: no such grant, a dead one, a burned key or no use left,
      a count that would overflow. */
  lemma UseAnswers(t: Tables, now: Time, g: Id, key: Option<string>, v: Option<Id>, kind: AttemptKind, window: nat)
    ensures var out := BeginGrantUse(t, now, g, key, v, kind, window).1;
            var known := g in t.grants;
            var dead := known && (t.grants[g].revoked || now >= t.grants[g].notAfter);
            var seen := key.Some? && (g, key.value) in t.grantReads;
            var recent := seen && now - window < t.grantReads[(g, key.value)].firstReadAt;
            var spent := known && t.grants[g].maxUses.Some? && t.grants[g].useCount >= t.grants[g].maxUses.value;
            && (out.NotFound? <==> !known)
            && (out.ExpiredOrRevoked? <==> dead)
            && (out.Replay? <==> known && !dead && recent)
            && (out.Exhausted? <==> known && !dead && !recent && (seen || spent))
            && (out.DatabaseError? <==> known && !dead && !seen && !spent && t.grants[g].useCount == 0x7fff_ffff)
  {
  }

  /** An approval is refused for the first of these that holds: nothing to release, a request that is not there to
      approve or a deadline that has passed, a name that is taken. */
  lemma ApproveAnswers(t: Tables, now: Time, r: Id, g: Id, p: GrantParams, store: Option<NewSecret>)
    ensures var out := ApproveRequest(t, now, r, g, p, store).1;
            var backed := Backable(t.secrets, p, store.Some?);
            var timely := r in t.requests && t.requests[r].state == Pending && now < t.requests[r].expiresAt && now < p.notAfter;
            && (out == SecretGone <==> !backed)
            && (out == NotApprovable <==> backed && !timely)
            && (out == SecretNameTaken <==> backed && timely && !NameFree(t.secrets, store))
            && (out == ApprovedAs(g) <==> backed && timely && NameFree(t.secrets, store))
  {
  }

  /** The other callers are told exactly whether there was something to do, and a deletion how many grants fell. */
  lemma OtherAnswers(t: Tables, now: Time, id: Id, version: nat, c: NewSecret, depositor: Option<string>, name: string, plaintext: bytes)
    ensures RevokeGrant(t, id).1 <==> Revocable(t, id)
    ensures DenyRequest(t, now, id).1 <==> id in t.requests && t.requests[id].state == Pending && now < t.requests[id].expiresAt
    ensures CreateSecret(t, c, depositor).1 <==> Free(t.secrets, c.name)
    ensures RotateSecret(t, id, name, version, plaintext).1 <==> id in t.secrets
    ensures MarkVetted(t, id, version).1 <==> Deletable(t, id, version) && !t.secrets[id].vetted
    ensures DeleteSecret(t, now, id, version).1 ==
              if Deletable(t, id, version)
              then Deleted(|set g | g in t.grants && FallsWith(t, Delete(id, version), t.grants[g], now)|) else StaleDelete
  {
    if Deletable(t, id, version) {
      assert Backed(t.grants, t.secrets[id].name, now)
          == set g | g in t.grants && FallsWith(t, Delete(id, version), t.grants[g], now);
    }
  }
}
