/**
  The broker's tables and the transactions over them, as values.

  One function per committed transaction: it takes the tables and the
  transaction's `now()` and gives the tables after commit together with what
  the caller is told. A transaction that rolls back gives the tables back
  unchanged. Class `Database` runs the same transactions statement by statement
  and is proved equal to these functions; the lemmas elsewhere are about them.
 */
module Store {
  import opened Wrappers

  type Id = nat
  type Time = int

  datatype Secret = Secret(name: string, currentVersion: nat, vetted: bool)

  /** A version row. `plaintext` is what its ciphertext opens to (see `Envelope`). */
  datatype Version = Version(secretId: Id, number: nat, plaintext: bytes)

  datatype RequestState = Pending | Approved | Denied | Expired

  datatype Request = Request(
    client: string, secretName: string, state: RequestState, expiresAt: Time,
    idemKey: string, mac: bytes)

  /** A passthrough payload, wrapped under the ephemeral key of server process `process`. */
  datatype Payload = Payload(process: nat, plaintext: bytes)

  /** `decidedOn` is not a column: it is the secret row the approval checked, kept so that
      properties can name it. No transaction reads it. */
  datatype Grant = Grant(
    requestId: Id, client: string, secretName: string, notAfter: Time, maxUses: Option<nat>,
    useCount: nat, revoked: bool, payload: Option<Payload>, ephemeral: bool, decidedOn: Option<Id>)

  datatype ReadRow = ReadRow(versionId: Option<Id>, passthrough: bool, firstReadAt: Time)

  datatype AttemptKind = ReleaseAttempt | ProxyAttempt

  /** The write-ahead audit rows of grant use, in commit order. */
  datatype Attempt = Attempt(kind: AttemptKind, grantId: Id, versionId: Option<Id>, replay: bool)

  /** The audit rows about requests and grants. */
  datatype Note =
    | RequestCreated(request: Id)
    | RequestApproved(request: Id, grant: Id)
    | RequestDenied(request: Id)
    | RequestExpired(request: Id)
    | GrantRevoked(grant: Id)

  /** Where a stored secret came from: an approval that stored it, a client deposit, or the operator. */
  datatype Provenance = ByRequest(request: Id) | ByClient(client: string) | ByOperator

  /** The audit rows about stored secrets. */
  datatype SecretEvent =
    | SecretCreated(name: string, origin: Provenance)
    | SecretRotated(name: string, versionId: Id)
    | SecretVetted(name: string, version: nat)
    | SecretDeleted(name: string, version: nat, versionsDeleted: nat, grantsRevoked: nat)

  datatype Tables = Tables(
    secrets: map<Id, Secret>, versions: map<Id, Version>, requests: map<Id, Request>,
    grants: map<Id, Grant>, grantReads: map<(Id, string), ReadRow>,
    attempts: seq<Attempt>, notes: multiset<Note>, events: seq<SecretEvent>)

  const EmptyTables := Tables(map[], map[], map[], map[], map[], [], multiset{}, [])

  /** `use_count` is a 32-bit column: adding to its largest value is a database error. */
  const MAX_I32: nat := 0x7fff_ffff

  // ---------- grant use ----------

  /** `NOT revoked AND now() < not_after`. */
  predicate Live(g: Grant, now: Time) {
    !g.revoked && now < g.notAfter
  }

  predicate UseRemains(g: Grant) {
    g.maxUses.None? || g.useCount < g.maxUses.value
  }

  /** `first_read_at > now() - window`. */
  predicate InWindow(r: ReadRow, now: Time, window: nat) {
    r.firstReadAt > now - window
  }

  ghost predicate ReplayOpen(grantReads: map<(Id, string), ReadRow>, grantId: Id, now: Time, window: nat) {
    exists p :: p in grantReads && p.0 == grantId && InWindow(grantReads[p], now, window)
  }

  datatype GrantUse =
    | NotFound
    | ExpiredOrRevoked
    | Exhausted
    | Replay(grant: Grant, versionId: Option<Id>, passthrough: bool)
    | FirstUse(grant: Grant)
    | DatabaseError

  function BeginGrantUse(
    t: Tables, now: Time, grantId: Id, key: Option<string>, versionId: Option<Id>,
    kind: AttemptKind, window: nat): (Tables, GrantUse)
  {
    if grantId !in t.grants then
      (t, NotFound)
    else
      var g := t.grants[grantId];
      if !Live(g, now) then
        (t, ExpiredOrRevoked)
      else if key.Some? && (grantId, key.value) in t.grantReads then
        var prior := t.grantReads[(grantId, key.value)];
        if InWindow(prior, now, window) then
          (t.(attempts := t.attempts + [Attempt(kind, grantId, prior.versionId, true)]),
           Replay(g, prior.versionId, prior.passthrough))
        else
          (t, Exhausted)
      else if !UseRemains(g) then
        (t, Exhausted)
      else if g.useCount == MAX_I32 then
        (t, DatabaseError)
      else
        var used := g.(useCount := g.useCount + 1);
        var row := ReadRow(versionId, used.payload.Some?, now);
        (t.(grants := t.grants[grantId := used],
            grantReads := if key.Some? then t.grantReads[(grantId, key.value) := row] else t.grantReads,
            attempts := t.attempts + [Attempt(kind, grantId, versionId, false)]),
         FirstUse(used))
  }

  function Revoke(g: Grant): Grant {
    g.(revoked := true, payload := None)
  }

  function RevokeGrant(t: Tables, grantId: Id): (Tables, bool) {
    if grantId !in t.grants || t.grants[grantId].revoked then
      (t, false)
    else
      (t.(grants := t.grants[grantId := Revoke(t.grants[grantId])],
          notes := t.notes + multiset{GrantRevoked(grantId)}),
       true)
  }

  // ---------- sweeps ----------

  /** The sweep's `WHERE` clause. */
  ghost predicate PayloadDue(t: Tables, grantId: Id, now: Time, window: nat)
    requires grantId in t.grants
  {
    var g := t.grants[grantId];
    && g.payload.Some?
    && (g.revoked || g.notAfter < now || (!UseRemains(g) && !ReplayOpen(t.grantReads, grantId, now, window)))
  }

  ghost function SweepPayloads(t: Tables, now: Time, window: nat): Tables {
    t.(grants := map g | g in t.grants ::
         if PayloadDue(t, g, now, window) then t.grants[g].(payload := None) else t.grants[g])
  }

  function UnpinStaleReads(t: Tables, now: Time, window: nat): Tables {
    t.(grantReads := map p | p in t.grantReads ::
         if t.grantReads[p].firstReadAt < now - window then t.grantReads[p].(versionId := None) else t.grantReads[p])
  }

  // ---------- requests ----------

  /** `state = 'pending' AND now() < expires_at`. */
  predicate Approvable(r: Request, now: Time) {
    r.state == Pending && now < r.expiresAt
  }

  datatype GrantParams = GrantParams(
    client: string, secretName: string, secretId: Option<Id>, notAfter: Time,
    maxUses: Option<nat>, passthrough: Option<Payload>)

  datatype NewSecret = NewSecret(secretId: Id, versionId: Id, name: string, plaintext: bytes)

  /** `SELECT EXISTS (... WHERE id = $1 AND name = $2)`, failing closed without an id. */
  predicate IncarnationExists(t: Tables, secretId: Option<Id>, name: string) {
    secretId.Some? && secretId.value in t.secrets && t.secrets[secretId.value].name == name
  }

  predicate NameTaken(t: Tables, name: string) {
    exists s :: s in t.secrets && t.secrets[s].name == name
  }

  /** Only what a client deposited is unvetted. */
  function InsertSecret(t: Tables, s: NewSecret, origin: Provenance): Tables {
    t.(secrets := t.secrets[s.secretId := Secret(s.name, 1, !origin.ByClient?)],
       versions := t.versions[s.versionId := Version(s.secretId, 1, s.plaintext)],
       events := t.events + [SecretCreated(s.name, origin)])
  }

  function NewGrant(requestId: Id, p: GrantParams, decidedOn: Option<Id>): Grant {
    Grant(requestId, p.client, p.secretName, p.notAfter, p.maxUses, 0, false,
          p.passthrough, p.passthrough.Some?, decidedOn)
  }

  datatype ApproveOutcome = ApprovedAs(grant: Id) | NotApprovable | SecretNameTaken | SecretGone

  function ApproveRequest(
    t: Tables, now: Time, requestId: Id, grantId: Id, p: GrantParams, store: Option<NewSecret>)
    : (Tables, ApproveOutcome)
  {
    if p.passthrough.None? && store.None? && !IncarnationExists(t, p.secretId, p.secretName) then
      (t, SecretGone)
    else if requestId !in t.requests || !Approvable(t.requests[requestId], now) || now >= p.notAfter then
      (t, NotApprovable)
    else if store.Some? && NameTaken(t, store.value.name) then
      (t, SecretNameTaken)
    else
      var stored := if store.Some? then InsertSecret(t, store.value, ByRequest(requestId)) else t;
      var decidedOn := if store.Some? then Some(store.value.secretId) else p.secretId;
      (stored.(requests := t.requests[requestId := t.requests[requestId].(state := Approved)],
               grants := t.grants[grantId := NewGrant(requestId, p, decidedOn)],
               notes := t.notes + multiset{RequestApproved(requestId, grantId)}),
       ApprovedAs(grantId))
  }

  datatype NewRequest = NewRequest(client: string, secretName: string, expiresAt: Time, idemKey: string, mac: bytes)

  /** What policy decided before the insert. */
  datatype Resolution = Undecided | PolicyDenied | PolicyApproved(params: GrantParams)

  datatype InsertOutcome =
    | Created(request: Id, grant: Option<Id>)
    | Existing(request: Id)
    | PendingCapExceeded
    | Aborted

  /** `idem_client` is the authenticated client, the same value as `client_name`. */
  predicate HasIdem(r: Request, client: string, idemKey: string) {
    r.client == client && r.idemKey == idemKey
  }

  function PendingOf(requests: map<Id, Request>, client: string, now: Time): set<Id> {
    set r | r in requests && requests[r].client == client && Approvable(requests[r], now)
  }

  /** The surviving row of an idempotency key; the unique index leaves at most one. */
  ghost function FindByIdem(t: Tables, client: string, idemKey: string): Option<Id> {
    if r :| r in t.requests && HasIdem(t.requests[r], client, idemKey) then Some(r) else None
  }

  ghost function InsertRequest(
    t: Tables, now: Time, id: Id, req: NewRequest, cap: Option<nat>, resolution: Resolution, grantId: Id)
    : (Tables, InsertOutcome)
  {
    var prior := FindByIdem(t, req.client, req.idemKey);
    var row := Request(req.client, req.secretName, Pending, req.expiresAt, req.idemKey, req.mac);
    var inserted := t.requests[id := row];
    if resolution.PolicyApproved? && resolution.params.passthrough.None?
       && !IncarnationExists(t, resolution.params.secretId, resolution.params.secretName) then
      (t, Aborted)
    else if prior.Some? then
      (t, Existing(prior.value))
    else if cap.Some? && |PendingOf(inserted, req.client, now)| > cap.value then
      (t, PendingCapExceeded)
    else
      match resolution
      case Undecided =>
        (t.(requests := inserted, notes := t.notes + multiset{RequestCreated(id)}), Created(id, None))
      case PolicyDenied =>
        (t.(requests := inserted[id := row.(state := Denied)],
            notes := t.notes + multiset{RequestCreated(id), RequestDenied(id)}),
         Created(id, None))
      case PolicyApproved(p) =>
        if now >= p.notAfter then
          (t, Aborted)
        else
          (t.(requests := inserted[id := row.(state := Approved)],
              grants := t.grants[grantId := NewGrant(id, p, p.secretId)],
              notes := t.notes + multiset{RequestCreated(id), RequestApproved(id, grantId)}),
           Created(id, Some(grantId)))
  }

  function DenyRequest(t: Tables, now: Time, requestId: Id): (Tables, bool) {
    if requestId !in t.requests || !Approvable(t.requests[requestId], now) then
      (t, false)
    else
      (t.(requests := t.requests[requestId := t.requests[requestId].(state := Denied)],
          notes := t.notes + multiset{RequestDenied(requestId)}),
       true)
  }

  /** `state = 'pending' AND expires_at < now()`. */
  function Stale(requests: map<Id, Request>, now: Time): set<Id> {
    set r | r in requests && requests[r].state == Pending && requests[r].expiresAt < now
  }

  function ExpireStale(t: Tables, now: Time): Tables {
    t.(requests := map r | r in t.requests ::
         if r in Stale(t.requests, now) then t.requests[r].(state := Expired) else t.requests[r],
       notes := t.notes + multiset(set r | r in Stale(t.requests, now) :: RequestExpired(r)))
  }

  // ---------- stored secrets ----------

  function Creator(depositor: Option<string>): Provenance {
    if depositor.Some? then ByClient(depositor.value) else ByOperator
  }

  function CreateSecret(t: Tables, s: NewSecret, depositor: Option<string>): (Tables, bool) {
    if NameTaken(t, s.name) then (t, false) else (InsertSecret(t, s, Creator(depositor)), true)
  }

  /** The caller passes the name it knows the secret by. */
  function RotateSecret(t: Tables, secretId: Id, name: string, versionId: Id, plaintext: bytes): (Tables, bool) {
    if secretId !in t.secrets then
      (t, false)
    else
      var number := t.secrets[secretId].currentVersion + 1;
      (t.(secrets := t.secrets[secretId := t.secrets[secretId].(currentVersion := number, vetted := true)],
          versions := t.versions[versionId := Version(secretId, number, plaintext)],
          events := t.events + [SecretRotated(name, versionId)]),
       true)
  }

  function MarkVetted(t: Tables, secretId: Id, reviewed: nat): (Tables, bool) {
    if secretId !in t.secrets || t.secrets[secretId].vetted || t.secrets[secretId].currentVersion != reviewed then
      (t, false)
    else
      (t.(secrets := t.secrets[secretId := t.secrets[secretId].(vetted := true)],
          events := t.events + [SecretVetted(t.secrets[secretId].name, reviewed)]),
       true)
  }

  /** The grants a deletion revokes: the live ones with this name and no payload of their own. */
  function Backed(grants: map<Id, Grant>, name: string, now: Time): set<Id> {
    set g | g in grants && grants[g].secretName == name && Live(grants[g], now) && !grants[g].ephemeral
  }

  datatype DeleteOutcome = Deleted(grantsRevoked: nat) | StaleDelete

  function VersionsOf(versions: map<Id, Version>, secretId: Id): set<Id> {
    set v | v in versions && versions[v].secretId == secretId
  }

  function RevokeAll(grants: map<Id, Grant>, revoked: set<Id>): map<Id, Grant> {
    map g | g in grants :: if g in revoked then Revoke(grants[g]) else grants[g]
  }

  /** Versions go with their secret (`ON DELETE CASCADE`). */
  function DeleteSecret(t: Tables, now: Time, secretId: Id, expected: nat): (Tables, DeleteOutcome) {
    if secretId !in t.secrets || t.secrets[secretId].currentVersion != expected then
      (t, StaleDelete)
    else
      var backed := Backed(t.grants, t.secrets[secretId].name, now);
      (t.(secrets := t.secrets - {secretId},
          versions := t.versions - VersionsOf(t.versions, secretId),
          grants := RevokeAll(t.grants, backed),
          notes := t.notes + multiset(set g | g in backed :: GrantRevoked(g)),
          events := t.events + [SecretDeleted(t.secrets[secretId].name, expected, |VersionsOf(t.versions, secretId)|, |backed|)]),
       Deleted(|backed|))
  }
}
