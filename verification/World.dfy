/**
  The broker as a transition system: its tables, its clock, the reads in flight
  and what has been released.

  A read is not one transaction. The handler looks at the grant, then at the
  secret, then at the version, accounts the use, and for a replay looks at the
  pinned version; each look is a step of its own, so every other transaction
  can commit in between. A handler may stop after any step (`ReadAbort` covers
  every error return and every client that goes away).
 */
module World {
  import opened Wrappers
  import opened Store

  /** Where a read will take its payload from, decided before the use is accounted. */
  datatype Source = FromPayload | PayloadGone | FromVersion(row: Version)

  datatype Reader =
    | Started(grantId: Id, key: string, hasPayload: bool, ephemeral: bool, secretName: string)
    | Located(grantId: Id, key: string, hasPayload: bool, ephemeral: bool, secret: Option<(Id, nat)>)
    | Resolved(grantId: Id, key: string, source: Source, payloadId: Id)
    | Replaying(grantId: Id, key: string, grant: Grant, pinned: Option<Id>, passthrough: bool)

  datatype Release = Release(grantId: Id, key: string, payloadId: Id, plaintext: bytes)

  /** A read that got past accounting: a first use, or a replay of one. */
  datatype Served = Served(grantId: Id, key: string, replay: bool)

  /** The fields after `served` are history: they record what was once true and no step reads them,
      except that new ids avoid `issued`. */
  datatype World = World(
    db: Tables, clock: Time, process: nat, window: nat, readers: map<nat, Reader>,
    releases: seq<Release>, served: seq<Served>,
    archive: map<Id, Version>,      // every version row ever inserted
    names: map<Id, string>,         // the name of every secret ever created
    entered: map<Id, bytes>,        // the payload of every passthrough grant, as approved
    pins: map<(Id, string), Id>,    // the payload id of every first use
    issued: set<Id>)

  function Init(window: nat): World {
    World(EmptyTables, 0, 0, window, map[], [], [], map[], map[], map[], map[], {})
  }

  datatype Action =
    | ReadStart(reader: nat, grantId: Id, key: string)
    | ReadLocate(reader: nat, secret: Option<Id>)
    | ReadResolve(reader: nat, version: Option<Id>)
    | ReadAccount(reader: nat)
    | ReadFinish(reader: nat)
    | ReadAbort(reader: nat)
    | ProxyUse(grantId: Id, credential: Id)
    | RevokeOne(grantId: Id)
    | Sweep
    | Unpin
    | Approve(request: Id, grantId: Id, params: GrantParams, store: Option<NewSecret>)
    | Insert(request: Id, req: NewRequest, cap: Option<nat>, resolution: Resolution, grantId: Id)
    | Deny(request: Id)
    | Expire
    | Create(created: NewSecret, depositor: Option<string>)
    | Rotate(secretId: Id, name: string, versionId: Id, plaintext: bytes)
    | Vet(secretId: Id, reviewed: nat)
    | Delete(secretId: Id, expected: nat)
    | Restart

  /** `now` is the stamp of the transaction the step commits. */
  datatype Step = Step(now: Time, action: Action)

  /** `open_passthrough`: only the process that wrapped a payload can open it. */
  function OpenPassthrough(process: nat, g: Grant): Option<bytes> {
    if g.payload.None? || !g.ephemeral || g.payload.value.process != process then None
    else Some(g.payload.value.plaintext)
  }

  function OpenSource(process: nat, source: Source, g: Grant): Option<bytes> {
    match source
    case FromPayload => OpenPassthrough(process, g)
    case PayloadGone => None
    case FromVersion(row) => Some(row.plaintext)
  }

  /** The payload a replay resolves, after accounting. */
  function OpenReplay(w: World, g: Grant, grantId: Id, pinned: Option<Id>, passthrough: bool): Option<(Id, bytes)> {
    if passthrough then
      var plaintext := OpenPassthrough(w.process, g);
      if plaintext.Some? then Some((grantId, plaintext.value)) else None
    else if pinned.None? || pinned.value !in w.db.versions then
      None
    else
      Some((pinned.value, w.db.versions[pinned.value].plaintext))
  }

  predicate FreshSecret(w: World, s: NewSecret) {
    s.secretId !in w.issued && s.versionId !in w.issued && s.secretId != s.versionId
  }

  /** Uuids do not repeat; a payload is wrapped by the running process; a secret stored with its
      approval carries the name that the grant carries; a rotation is of a secret that was looked up. */
  ghost predicate CanAct(w: World, a: Action) {
    match a
    case ReadStart(r, g, _) => r !in w.readers && g in w.db.grants
    case ReadLocate(r, secret) =>
      && r in w.readers && w.readers[r].Started?
      && (if secret.Some?
          then secret.value in w.db.secrets && w.db.secrets[secret.value].name == w.readers[r].secretName
          else !NameTaken(w.db, w.readers[r].secretName))
    case ReadResolve(r, version) =>
      && r in w.readers && w.readers[r].Located?
      && (if version.Some? then VersionMatches(w, w.readers[r].secret, version.value)
          else forall v: Id :: !VersionMatches(w, w.readers[r].secret, v))
    case ReadAccount(r) => r in w.readers && w.readers[r].Resolved?
    case ReadFinish(r) => r in w.readers && w.readers[r].Replaying?
    case Approve(_, grantId, p, store) => MayApprove(w, grantId, p, store)
    case Insert(request, _, _, resolution, grantId) =>
      && request !in w.issued && grantId !in w.issued && request != grantId
      && (resolution.PolicyApproved? ==> WrappedHere(w, resolution.params))
    case Create(secret, _) => FreshSecret(w, secret)
    case Rotate(secretId, name, versionId, _) =>
      versionId !in w.issued && secretId in w.names && w.names[secretId] == name
    case _ => true
  }

  /** `get_secret_version(secret.id, secret.current_version)`. */
  predicate VersionMatches(w: World, secret: Option<(Id, nat)>, v: Id) {
    && secret.Some? && v in w.db.versions
    && w.db.versions[v].secretId == secret.value.0 && w.db.versions[v].number == secret.value.1
  }

  predicate WrappedHere(w: World, p: GrantParams) {
    p.passthrough.Some? ==> p.passthrough.value.process == w.process
  }

  predicate MayApprove(w: World, grantId: Id, p: GrantParams, store: Option<NewSecret>) {
    && grantId !in w.issued && WrappedHere(w, p)
    && (store.Some? ==>
          && FreshSecret(w, store.value)
          && grantId != store.value.secretId && grantId != store.value.versionId
          && store.value.name == p.secretName)
  }

  // ---------- the steps, each at the stamp `w.clock` ----------

  function Without(readers: map<nat, Reader>, r: nat): map<nat, Reader> {
    readers - {r}
  }

  function Start(w: World, r: nat, g: Id, key: string): World
    requires g in w.db.grants
  {
    var grant := w.db.grants[g];
    w.(readers := w.readers[r := Started(g, key, grant.payload.Some?, grant.ephemeral, grant.secretName)])
  }

  function Locate(w: World, r: nat, secret: Option<Id>): World
    requires r in w.readers && w.readers[r].Started? && (secret.Some? ==> secret.value in w.db.secrets)
  {
    var Started(g, key, hasPayload, ephemeral, _) := w.readers[r];
    var found := if secret.Some? then Some((secret.value, w.db.secrets[secret.value].currentVersion)) else None;
    w.(readers := w.readers[r := Located(g, key, hasPayload, ephemeral, found)])
  }

  function Resolve(w: World, r: nat, version: Option<Id>): World
    requires r in w.readers && w.readers[r].Located?
    requires version.Some? ==> version.value in w.db.versions
  {
    var Located(g, key, hasPayload, ephemeral, _) := w.readers[r];
    if hasPayload then
      w.(readers := w.readers[r := Resolved(g, key, FromPayload, g)])
    else if ephemeral then
      w.(readers := w.readers[r := Resolved(g, key, PayloadGone, g)])
    else if version.Some? then
      w.(readers := w.readers[r := Resolved(g, key, FromVersion(w.db.versions[version.value]), version.value)])
    else
      w.(readers := Without(w.readers, r))
  }

  function Account(w: World, r: nat): World
    requires r in w.readers && w.readers[r].Resolved?
  {
    var Resolved(g, key, source, payloadId) := w.readers[r];
    var (db, outcome) := BeginGrantUse(w.db, w.clock, g, Some(key), Some(payloadId), ReleaseAttempt, w.window);
    match outcome
    case FirstUse(grant) =>
      var plaintext := OpenSource(w.process, source, grant);
      w.(db := db, readers := Without(w.readers, r), served := w.served + [Served(g, key, false)],
         pins := w.pins[(g, key) := payloadId],
         releases := if plaintext.Some? then w.releases + [Release(g, key, payloadId, plaintext.value)] else w.releases)
    case Replay(grant, pinned, passthrough) =>
      w.(db := db, readers := w.readers[r := Replaying(g, key, grant, pinned, passthrough)],
         served := w.served + [Served(g, key, true)])
    case _ =>
      w.(readers := Without(w.readers, r))
  }

  function Finish(w: World, r: nat): World
    requires r in w.readers && w.readers[r].Replaying?
  {
    var Replaying(g, key, grant, pinned, passthrough) := w.readers[r];
    var found := OpenReplay(w, grant, g, pinned, passthrough);
    w.(readers := Without(w.readers, r),
       releases := if found.Some? then w.releases + [Release(g, key, found.value.0, found.value.1)] else w.releases)
  }

  function Proxy(w: World, g: Id, credential: Id): World {
    w.(db := BeginGrantUse(w.db, w.clock, g, None, Some(credential), ProxyAttempt, w.window).0)
  }

  /** History after a secret's first version row was inserted. */
  function RecordSecret(w: World, s: NewSecret): World {
    w.(archive := w.archive[s.versionId := Version(s.secretId, 1, s.plaintext)],
       names := w.names[s.secretId := s.name],
       issued := w.issued + {s.secretId, s.versionId})
  }

  /** History after a grant row was inserted. */
  function RecordGrant(w: World, grantId: Id, p: GrantParams, ids: set<Id>): World {
    w.(issued := w.issued + ids,
       entered := if p.passthrough.Some? then w.entered[grantId := p.passthrough.value.plaintext] else w.entered)
  }

  function ApproveAt(w: World, request: Id, grantId: Id, p: GrantParams, store: Option<NewSecret>): World {
    var (db, outcome) := ApproveRequest(w.db, w.clock, request, grantId, p, store);
    if !outcome.ApprovedAs? then w
    else RecordGrant(if store.Some? then RecordSecret(w, store.value) else w, grantId, p, {grantId}).(db := db)
  }

  ghost function InsertAt(
    w: World, request: Id, req: NewRequest, cap: Option<nat>, resolution: Resolution, grantId: Id): World
  {
    var (db, outcome) := InsertRequest(w.db, w.clock, request, req, cap, resolution, grantId);
    if outcome.Created? && resolution.PolicyApproved?
    then RecordGrant(w, grantId, resolution.params, {request, grantId}).(db := db)
    else w.(db := db, issued := w.issued + {request, grantId})
  }

  function CreateAt(w: World, s: NewSecret, depositor: Option<string>): World {
    if NameTaken(w.db, s.name) then w else RecordSecret(w, s).(db := CreateSecret(w.db, s, depositor).0)
  }

  function RotateAt(w: World, secretId: Id, name: string, versionId: Id, plaintext: bytes): World {
    var db := RotateSecret(w.db, secretId, name, versionId, plaintext).0;
    if secretId !in w.db.secrets then w
    else w.(db := db, archive := w.archive[versionId := db.versions[versionId]], issued := w.issued + {versionId})
  }

  ghost function Act(w: World, a: Action): World
    requires CanAct(w, a)
  {
    match a
    case ReadStart(r, g, key) => Start(w, r, g, key)
    case ReadLocate(r, secret) => Locate(w, r, secret)
    case ReadResolve(r, version) => Resolve(w, r, version)
    case ReadAccount(r) => Account(w, r)
    case ReadFinish(r) => Finish(w, r)
    case ReadAbort(r) => w.(readers := Without(w.readers, r))
    case ProxyUse(g, credential) => Proxy(w, g, credential)
    case RevokeOne(g) => w.(db := RevokeGrant(w.db, g).0)
    case Sweep => w.(db := SweepPayloads(w.db, w.clock, w.window))
    case Unpin => w.(db := UnpinStaleReads(w.db, w.clock, w.window))
    case Approve(request, grantId, p, store) => ApproveAt(w, request, grantId, p, store)
    case Insert(request, req, cap, resolution, grantId) => InsertAt(w, request, req, cap, resolution, grantId)
    case Deny(request) => w.(db := DenyRequest(w.db, w.clock, request).0)
    case Expire => w.(db := ExpireStale(w.db, w.clock))
    case Create(secret, depositor) => CreateAt(w, secret, depositor)
    case Rotate(secretId, name, versionId, plaintext) => RotateAt(w, secretId, name, versionId, plaintext)
    case Vet(secretId, reviewed) => w.(db := MarkVetted(w.db, secretId, reviewed).0)
    case Delete(secretId, expected) => w.(db := DeleteSecret(w.db, w.clock, secretId, expected).0)
    case Restart => w.(process := w.process + 1, readers := map[])
  }

  /** A run from the empty broker. Stamps never go back. */
  ghost predicate Next(a: World, s: Step, b: World) {
    a.clock <= s.now && CanAct(a.(clock := s.now), s.action) && b == Act(a.(clock := s.now), s.action)
  }

  ghost predicate Run(ws: seq<World>, steps: seq<Step>) {
    && |ws| == |steps| + 1
    && ws[0] == Init(ws[0].window)
    && forall i :: 0 <= i < |steps| ==> Takes(ws, steps, i)
  }

  ghost predicate Takes(ws: seq<World>, steps: seq<Step>, i: int)
    requires 0 <= i < |steps| && |ws| == |steps| + 1
  {
    Next(ws[i], steps[i], ws[i + 1])
  }

  lemma StepTaken(ws: seq<World>, steps: seq<Step>, i: nat)
    requires Run(ws, steps) && i < |steps|
    ensures Next(ws[i], steps[i], ws[i + 1])
  {
    assert Takes(ws, steps, i);
  }
}
