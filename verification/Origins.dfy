/**
  Where rows come from, over whole runs: every grant carries the terms it was
  approved with, every version the bytes it was written with, every request what
  its client asked for, and a read resolves what was written last.
 */
module Origins {
  import opened Wrappers
  import opened Store
  import opened World
  import opened Frames
  import opened GrantSafety
  import Accounting
  import SecretAudit
  import UseLaws

  // ---------- grants carry their terms ----------

  /** The grant, the request and the terms that an action approves. */
  function Minting(a: Action): Option<(Id, Id, GrantParams)> {
    match a
    case Approve(request, grantId, p, _) => Some((grantId, request, p))
    case Insert(request, _, _, PolicyApproved(p), grantId) => Some((grantId, request, p))
    case _ => None
  }

  /** A grant row as it was approved, but for its uses, its revocation and the loss of its payload. */
  predicate Carries(g: Grant, request: Id, p: GrantParams) {
    && g.requestId == request && g.client == p.client && g.secretName == p.secretName
    && g.notAfter == p.notAfter && g.maxUses == p.maxUses
    && g.ephemeral == p.passthrough.Some? && (g.payload.None? || g.payload == p.passthrough)
  }

  predicate MintedBy(a: Action, g: Id, row: Grant) {
    Minting(a).Some? && Minting(a).value.0 == g && Carries(row, Minting(a).value.1, Minting(a).value.2)
  }

  ghost predicate GrantsFrom(w: World, n: World, a: Action) {
    forall g :: g in n.db.grants ==>
      (g in w.db.grants && Moves(w.db.grants[g], n.db.grants[g])) || MintedBy(a, g, n.db.grants[g])
  }

  lemma UseMoves(t: Tables, now: Time, g: Id, key: Option<string>, v: Option<Id>, kind: AttemptKind, window: nat)
    ensures var n := BeginGrantUse(t, now, g, key, v, kind, window).0.grants;
            n.Keys == t.grants.Keys && forall h :: h in n ==> Moves(t.grants[h], n[h])
  {
  }

  lemma AccountGrants(w: World, r: nat)
    requires r in w.readers && w.readers[r].Resolved?
    ensures GrantsFrom(w, Account(w, r), ReadAccount(r))
  {
    var Resolved(g, key, _, payloadId) := w.readers[r];
    AccountTables(w, r);
    UseMoves(w.db, w.clock, g, Some(key), Some(payloadId), ReleaseAttempt, w.window);
  }

  lemma ProxyGrants(w: World, g: Id, credential: Id)
    ensures GrantsFrom(w, Proxy(w, g, credential), ProxyUse(g, credential))
  {
    UseMoves(w.db, w.clock, g, None, Some(credential), ProxyAttempt, w.window);
  }

  lemma RevokeGrants(w: World, g: Id)
    ensures GrantsFrom(w, w.(db := RevokeGrant(w.db, g).0), RevokeOne(g))
  {
    RevokeMoves(w.db, g);
  }

  lemma SweepGrants(w: World)
    ensures GrantsFrom(w, w.(db := SweepPayloads(w.db, w.clock, w.window)), Sweep)
  {
  }

  lemma DeleteGrants(w: World, secretId: Id, expected: nat)
    ensures GrantsFrom(w, w.(db := DeleteSecret(w.db, w.clock, secretId, expected).0), Delete(secretId, expected))
  {
    DeleteMovesGrants(w.db, w.clock, secretId, expected);
  }

  lemma ApproveGrants(w: World, request: Id, grantId: Id, p: GrantParams, store: Option<NewSecret>)
    ensures GrantsFrom(w, ApproveAt(w, request, grantId, p, store), Approve(request, grantId, p, store))
  {
  }

  lemma InsertGrants(w: World, request: Id, req: NewRequest, cap: Option<nat>, resolution: Resolution, grantId: Id)
    ensures GrantsFrom(w, InsertAt(w, request, req, cap, resolution, grantId), Insert(request, req, cap, resolution, grantId))
  {
    InsertTables(w, request, req, cap, resolution, grantId);
    InsertShape(w.db, w.clock, request, req, cap, resolution, grantId);
  }

  lemma ActGrants(w: World, a: Action)
    requires CanAct(w, a)
    ensures GrantsFrom(w, Act(w, a), a)
  {
    match a
    case ReadAccount(r) => AccountGrants(w, r);
    case ProxyUse(g, credential) => ProxyGrants(w, g, credential);
    case RevokeOne(g) => RevokeGrants(w, g);
    case Sweep => SweepGrants(w);
    case Delete(secretId, expected) => DeleteGrants(w, secretId, expected);
    case Approve(request, grantId, p, store) => ApproveGrants(w, request, grantId, p, store);
    case Insert(request, req, cap, resolution, grantId) => InsertGrants(w, request, req, cap, resolution, grantId);
    case _ => KeepsGrants(w, a);
  }

  ghost predicate MintedAt(steps: seq<Step>, k: nat, g: Id, row: Grant) {
    k < |steps| && MintedBy(steps[k].action, g, row)
  }

  /** Every grant carries the terms of the approval that minted it. */
  lemma {:induction false} GrantsCarryTheirTerms(ws: seq<World>, steps: seq<Step>, i: nat, g: Id)
    requires Run(ws, steps) && i < |ws| && g in ws[i].db.grants
    ensures exists k: nat :: k < i && MintedAt(steps, k, g, ws[i].db.grants[g])
  {
    if i > 0 {
      StepTaken(ws, steps, i - 1);
      ActGrants(ws[i - 1].(clock := steps[i - 1].now), steps[i - 1].action);
      if MintedBy(steps[i - 1].action, g, ws[i].db.grants[g]) {
        assert MintedAt(steps, i - 1, g, ws[i].db.grants[g]);
      } else {
        GrantsCarryTheirTerms(ws, steps, i - 1, g);
        var k: nat :| k < i - 1 && MintedAt(steps, k, g, ws[i - 1].db.grants[g]);
        assert MintedAt(steps, k, g, ws[i].db.grants[g]);
      }
    }
  }

  /** The uses ever counted on a grant are within the number it was approved for. */
  lemma UsesStayWithinTheTerms(ws: seq<World>, steps: seq<Step>, i: nat, g: Id)
    requires Run(ws, steps) && i < |ws| && g in ws[i].db.grants
    ensures exists k: nat :: k < i && MintedAt(steps, k, g, ws[i].db.grants[g])
              && var terms := Minting(steps[k].action).value.2;
                 terms.maxUses.Some? ==>
                   |Accounting.KeysOf(ws[i].db.grantReads.Keys, g)|
                   + Accounting.CountAttempts(ws[i].db.attempts, g, ProxyAttempt, false) <= terms.maxUses.value
  {
    GrantsCarryTheirTerms(ws, steps, i, g);
    Accounting.UsesAreAccounted(ws, steps, i, g, "");
    var k: nat :| k < i && MintedAt(steps, k, g, ws[i].db.grants[g]);
  }

  /** An audited use of a grant comes before the deadline it was approved with. */
  lemma UsesComeBeforeTheDeadline(ws: seq<World>, steps: seq<Step>, j: nat, a: Attempt)
    requires Run(ws, steps) && j < |steps| && ws[j + 1].db.attempts == ws[j].db.attempts + [a]
    ensures a.grantId in ws[j].db.grants && !ws[j].db.grants[a.grantId].revoked
    ensures exists k: nat :: k < j && MintedAt(steps, k, a.grantId, ws[j].db.grants[a.grantId])
              && steps[j].now < Minting(steps[k].action).value.2.notAfter
  {
    StepTaken(ws, steps, j);
    RunIssuesOnce(ws, steps, j);
    var w := ws[j].(clock := steps[j].now);
    AttemptsAreOfLiveGrants(w, steps[j].action, a);
    GrantsCarryTheirTerms(ws, steps, j, a.grantId);
    var k: nat :| k < j && MintedAt(steps, k, a.grantId, ws[j].db.grants[a.grantId]);
  }

  lemma AttemptsAreOfLiveGrants(w: World, act: Action, a: Attempt)
    requires IssuedOk(w) && CanAct(w, act) && Act(w, act).db.attempts == w.db.attempts + [a]
    ensures a.grantId in w.db.grants && !w.db.grants[a.grantId].revoked && w.clock < w.db.grants[a.grantId].notAfter
  {
    if act.ReadAccount? {
      AccountAttempts(w, act.reader, a);
    } else if act.ProxyUse? {
      UseAttempts(w.db, w.clock, act.grantId, None, Some(act.credential), ProxyAttempt, w.window, a);
    } else {
      ActFrame(w, act);
    }
  }

  lemma UseAttempts(t: Tables, now: Time, g: Id, key: Option<string>, v: Option<Id>, kind: AttemptKind, window: nat, a: Attempt)
    requires BeginGrantUse(t, now, g, key, v, kind, window).0.attempts == t.attempts + [a]
    ensures a.grantId == g && g in t.grants && !t.grants[g].revoked && now < t.grants[g].notAfter
  {
    assert (t.attempts + [a])[|t.attempts|] == a;
  }

  lemma AccountAttempts(w: World, r: nat, a: Attempt)
    requires r in w.readers && w.readers[r].Resolved? && Account(w, r).db.attempts == w.db.attempts + [a]
    ensures a.grantId in w.db.grants && !w.db.grants[a.grantId].revoked && w.clock < w.db.grants[a.grantId].notAfter
  {
    var Resolved(g, key, _, payloadId) := w.readers[r];
    AccountTables(w, r);
    UseAttempts(w.db, w.clock, g, Some(key), Some(payloadId), ReleaseAttempt, w.window, a);
  }

  // ---------- versions carry the bytes they were written with ----------

  /** The version, the secret and the plaintext that an action writes. */
  function Writing(a: Action): Option<(Id, Id, bytes)> {
    match a
    case Create(s, _) => Some((s.versionId, s.secretId, s.plaintext))
    case Approve(_, _, _, Some(s)) => Some((s.versionId, s.secretId, s.plaintext))
    case Rotate(secretId, _, versionId, plaintext) => Some((versionId, secretId, plaintext))
    case _ => None
  }

  predicate WrittenBy(a: Action, v: Id, row: Version) {
    Writing(a) == Some((v, row.secretId, row.plaintext))
  }

  ghost predicate ArchiveFrom(w: World, n: World, a: Action) {
    && w.archive.Keys <= n.archive.Keys
    && forall v :: v in n.archive ==> (v in w.archive && n.archive[v] == w.archive[v]) || WrittenBy(a, v, n.archive[v])
  }

  lemma WriteArchive(w: World, a: Action)
    requires IssuedOk(w) && CanAct(w, a) && (a.Create? || a.Rotate?)
    ensures ArchiveFrom(w, Act(w, a), a)
  {
  }

  lemma ApproveArchive(w: World, request: Id, grantId: Id, p: GrantParams, store: Option<NewSecret>)
    requires IssuedOk(w) && MayApprove(w, grantId, p, store)
    ensures ArchiveFrom(w, ApproveAt(w, request, grantId, p, store), Approve(request, grantId, p, store))
  {
  }

  lemma ActArchive(w: World, a: Action)
    requires IssuedOk(w) && CanAct(w, a)
    ensures ArchiveFrom(w, Act(w, a), a)
  {
    if a.Approve? {
      ApproveArchive(w, a.request, a.grantId, a.params, a.store);
    } else if a.Create? || a.Rotate? {
      WriteArchive(w, a);
    } else if !a.Vet? && !a.Delete? {
      KeepsSecrets(w, a);
    }
  }

  ghost predicate WrittenAt(steps: seq<Step>, k: nat, v: Id, row: Version) {
    k < |steps| && WrittenBy(steps[k].action, v, row)
  }

  /** Every version row, stored or deleted since, has the bytes of the create, approval or rotation that wrote it. */
  lemma {:induction false} VersionsCarryTheirBytes(ws: seq<World>, steps: seq<Step>, i: nat, v: Id)
    requires Run(ws, steps) && i < |ws| && v in ws[i].archive
    ensures exists k: nat :: k < i && WrittenAt(steps, k, v, ws[i].archive[v])
  {
    if i > 0 {
      StepTaken(ws, steps, i - 1);
      RunIssuesOnce(ws, steps, i - 1);
      ActArchive(ws[i - 1].(clock := steps[i - 1].now), steps[i - 1].action);
      if WrittenBy(steps[i - 1].action, v, ws[i].archive[v]) {
        assert WrittenAt(steps, i - 1, v, ws[i].archive[v]);
      } else {
        VersionsCarryTheirBytes(ws, steps, i - 1, v);
        var k: nat :| k < i - 1 && WrittenAt(steps, k, v, ws[i - 1].archive[v]);
        assert WrittenAt(steps, k, v, ws[i].archive[v]);
      }
    }
  }

  lemma StoredVersionsCarryTheirBytes(ws: seq<World>, steps: seq<Step>, i: nat, v: Id)
    requires Run(ws, steps) && i < |ws| && v in ws[i].db.versions
    ensures exists k: nat :: k < i && WrittenAt(steps, k, v, ws[i].db.versions[v])
  {
    RunKeeps(ws, steps, i);
    VersionsCarryTheirBytes(ws, steps, i, v);
  }

  // ---------- a read resolves what was written last ----------

  /** The versions of a secret are numbered up to the current one, */
  ghost predicate NumberedUpTo(secrets: map<Id, Secret>, versions: map<Id, Version>) {
    forall v :: v in versions ==>
      versions[v].secretId in secrets && versions[v].number <= secrets[versions[v].secretId].currentVersion
  }

  /** each its own number. */
  ghost predicate NumberedApart(versions: map<Id, Version>) {
    forall u, v :: u in versions && v in versions && SameNumber(versions[u], versions[v]) ==> u == v
  }

  predicate SameNumber(a: Version, b: Version) {
    a.secretId == b.secretId && a.number == b.number
  }

  ghost predicate Numbered(secrets: map<Id, Secret>, versions: map<Id, Version>) {
    NumberedUpTo(secrets, versions) && NumberedApart(versions)
  }

  lemma InsertNumbered(db: Tables, s: NewSecret, origin: Provenance)
    requires Numbered(db.secrets, db.versions) && s.secretId !in db.secrets
    ensures var n := InsertSecret(db, s, origin); Numbered(n.secrets, n.versions)
  {
    NewNumber(db.versions, s.versionId, Version(s.secretId, 1, s.plaintext));
  }

  lemma NewNumber(versions: map<Id, Version>, v: Id, row: Version)
    requires NumberedApart(versions) && forall u :: u in versions ==> !SameNumber(versions[u], row)
    ensures NumberedApart(versions[v := row])
  {
  }

  lemma RotateNumbered(db: Tables, secretId: Id, name: string, versionId: Id, plaintext: bytes)
    requires Numbered(db.secrets, db.versions)
    ensures var n := RotateSecret(db, secretId, name, versionId, plaintext).0; Numbered(n.secrets, n.versions)
  {
    if secretId in db.secrets {
      NewNumber(db.versions, versionId, Version(secretId, db.secrets[secretId].currentVersion + 1, plaintext));
    }
  }

  lemma DeleteNumbered(db: Tables, now: Time, secretId: Id, expected: nat)
    requires Numbered(db.secrets, db.versions)
    ensures var n := DeleteSecret(db, now, secretId, expected).0; Numbered(n.secrets, n.versions)
  {
  }

  lemma ApproveNumbered(w: World, request: Id, grantId: Id, p: GrantParams, store: Option<NewSecret>)
    requires IssuedOk(w) && MayApprove(w, grantId, p, store) && Numbered(w.db.secrets, w.db.versions)
    ensures var n := ApproveAt(w, request, grantId, p, store).db; Numbered(n.secrets, n.versions)
  {
    SecretAudit.ApproveSecrets(w, request, grantId, p, store);
    if store.Some? {
      InsertNumbered(w.db, store.value, ByRequest(request));
    }
  }

  lemma CreateNumbered(w: World, s: NewSecret, depositor: Option<string>)
    requires IssuedOk(w) && FreshSecret(w, s) && Numbered(w.db.secrets, w.db.versions)
    ensures var n := CreateAt(w, s, depositor).db; Numbered(n.secrets, n.versions)
  {
    if !NameTaken(w.db, s.name) {
      InsertNumbered(w.db, s, Creator(depositor));
    }
  }

  lemma VetNumbered(w: World, secretId: Id, reviewed: nat)
    requires Numbered(w.db.secrets, w.db.versions)
    ensures var n := MarkVetted(w.db, secretId, reviewed).0; Numbered(n.secrets, n.versions)
  {
  }

  lemma ActNumbered(w: World, a: Action)
    requires IssuedOk(w) && CanAct(w, a) && Numbered(w.db.secrets, w.db.versions)
    ensures Numbered(Act(w, a).db.secrets, Act(w, a).db.versions)
  {
    match a
    case Approve(request, grantId, p, store) => ApproveNumbered(w, request, grantId, p, store);
    case Create(s, depositor) => CreateNumbered(w, s, depositor);
    case Rotate(secretId, name, versionId, plaintext) => RotateNumbered(w.db, secretId, name, versionId, plaintext);
    case Vet(secretId, reviewed) => VetNumbered(w, secretId, reviewed);
    case Delete(secretId, expected) => DeleteNumbered(w.db, w.clock, secretId, expected);
    case _ => KeepsSecrets(w, a);
  }

  lemma {:induction false} RunNumbered(ws: seq<World>, steps: seq<Step>, i: nat)
    requires Run(ws, steps) && i < |ws|
    ensures Numbered(ws[i].db.secrets, ws[i].db.versions)
  {
    if i > 0 {
      RunNumbered(ws, steps, i - 1);
      StepTaken(ws, steps, i - 1);
      RunIssuesOnce(ws, steps, i - 1);
      ActNumbered(ws[i - 1].(clock := steps[i - 1].now), steps[i - 1].action);
    }
  }

  /** `v` is the current version of secret `s`, with these bytes. */
  ghost predicate Current(db: Tables, s: Id, v: Id, plaintext: bytes) {
    s in db.secrets && v in db.versions && db.versions[v] == Version(s, db.secrets[s].currentVersion, plaintext)
  }

  predicate Writes(a: Action, s: Id) {
    Writing(a).Some? && Writing(a).value.1 == s
  }

  lemma CreateMakesCurrent(w: World, s: NewSecret, depositor: Option<string>)
    requires IssuedOk(w) && FreshSecret(w, s)
    ensures s.versionId in CreateAt(w, s, depositor).db.versions ==>
              Current(CreateAt(w, s, depositor).db, s.secretId, s.versionId, s.plaintext)
  {
  }

  lemma RotateMakesCurrent(w: World, s: Id, name: string, v: Id, plaintext: bytes)
    requires IssuedOk(w) && v !in w.issued
    ensures v in RotateAt(w, s, name, v, plaintext).db.versions ==> Current(RotateAt(w, s, name, v, plaintext).db, s, v, plaintext)
  {
  }

  lemma ApproveMakesCurrent(w: World, request: Id, grantId: Id, p: GrantParams, s: NewSecret)
    requires IssuedOk(w) && MayApprove(w, grantId, p, Some(s))
    ensures var n := ApproveAt(w, request, grantId, p, Some(s));
            s.versionId in n.db.versions ==> Current(n.db, s.secretId, s.versionId, s.plaintext)
  {
  }

  lemma WriterMakesCurrent(w: World, a: Action, v: Id, s: Id, plaintext: bytes)
    requires IssuedOk(w) && CanAct(w, a) && Writing(a) == Some((v, s, plaintext)) && v in Act(w, a).db.versions
    ensures Current(Act(w, a).db, s, v, plaintext)
  {
    match a
    case Create(c, depositor) => CreateMakesCurrent(w, c, depositor);
    case Approve(request, grantId, p, Some(c)) => ApproveMakesCurrent(w, request, grantId, p, c);
    case Rotate(_, name, _, _) => RotateMakesCurrent(w, s, name, v, plaintext);
  }

  /** A secret row and its current version stay as they are until the secret is written again or deleted. */
  ghost predicate KeepsCurrent(w: World, n: World, s: Id, v: Id, plaintext: bytes) {
    s in n.db.secrets ==> Current(n.db, s, v, plaintext)
  }

  lemma ApproveKeepsCurrent(w: World, request: Id, grantId: Id, p: GrantParams, store: Option<NewSecret>, s: Id, v: Id, plaintext: bytes)
    requires IssuedOk(w) && MayApprove(w, grantId, p, store) && Current(w.db, s, v, plaintext)
    requires store.Some? ==> store.value.secretId != s
    ensures KeepsCurrent(w, ApproveAt(w, request, grantId, p, store), s, v, plaintext)
  {
    SecretAudit.ApproveSecrets(w, request, grantId, p, store);
  }

  lemma SecretActKeepsCurrent(w: World, a: Action, s: Id, v: Id, plaintext: bytes)
    requires IssuedOk(w) && CanAct(w, a) && (a.Create? || a.Rotate?) && !Writes(a, s) && Current(w.db, s, v, plaintext)
    ensures KeepsCurrent(w, Act(w, a), s, v, plaintext)
  {
  }

  lemma VetAndDeleteKeepCurrent(w: World, a: Action, s: Id, v: Id, plaintext: bytes)
    requires CanAct(w, a) && (a.Vet? || a.Delete?) && Current(w.db, s, v, plaintext)
    ensures KeepsCurrent(w, Act(w, a), s, v, plaintext)
  {
  }

  lemma ActKeepsCurrent(w: World, a: Action, s: Id, v: Id, plaintext: bytes)
    requires IssuedOk(w) && CanAct(w, a) && !Writes(a, s) && Current(w.db, s, v, plaintext)
    ensures KeepsCurrent(w, Act(w, a), s, v, plaintext)
  {
    if a.Approve? {
      ApproveKeepsCurrent(w, a.request, a.grantId, a.params, a.store, s, v, plaintext);
    } else if a.Create? || a.Rotate? {
      SecretActKeepsCurrent(w, a, s, v, plaintext);
    } else if a.Vet? || a.Delete? {
      VetAndDeleteKeepCurrent(w, a, s, v, plaintext);
    } else {
      KeepsSecrets(w, a);
    }
  }

  /** A secret that is gone stays gone: its id was issued. */
  lemma GoneStaysGone(w: World, a: Action, s: Id)
    requires IssuedOk(w) && CanAct(w, a) && s in w.names && s !in w.db.secrets
    ensures s !in Act(w, a).db.secrets
  {
    if a.Approve? {
      SecretAudit.ApproveSecrets(w, a.request, a.grantId, a.params, a.store);
    } else if a.Create? || a.Rotate? || a.Vet? || a.Delete? {
    } else {
      KeepsSecrets(w, a);
    }
  }

  lemma NamesStay(w: World, a: Action)
    requires CanAct(w, a)
    ensures w.names.Keys <= Act(w, a).names.Keys
  {
    if a.Approve? {
      SecretAudit.ApproveSecrets(w, a.request, a.grantId, a.params, a.store);
    } else if a.Create? || a.Rotate? || a.Vet? || a.Delete? {
    } else {
      KeepsSecrets(w, a);
    }
  }

  lemma NextCurrent(a: World, t: Step, b: World, s: Id, v: Id, plaintext: bytes)
    requires Inv(a) && Next(a, t, b) && s in a.names && !Writes(t.action, s)
    requires s in a.db.secrets ==> Current(a.db, s, v, plaintext)
    ensures s in b.names && (s in b.db.secrets ==> Current(b.db, s, v, plaintext))
  {
    var w := a.(clock := t.now);
    NamesStay(w, t.action);
    if s in a.db.secrets {
      ActKeepsCurrent(w, t.action, s, v, plaintext);
    } else {
      GoneStaysGone(w, t.action, s);
    }
  }

  /** Step `k` wrote version `v` of secret `s`, and no step after it up to `i` wrote the secret again. */
  ghost predicate LastWrote(ws: seq<World>, steps: seq<Step>, k: nat, i: nat, s: Id, v: Id, plaintext: bytes) {
    && k < i && k < |steps| && k + 1 < |ws| && i <= |steps|
    && Writing(steps[k].action) == Some((v, s, plaintext)) && v in ws[k + 1].db.versions
    && forall m :: k < m < i ==> !Writes(steps[m].action, s)
  }

  lemma {:induction false} LastWriteIsCurrent(ws: seq<World>, steps: seq<Step>, k: nat, i: nat, s: Id, v: Id, plaintext: bytes)
    requires Run(ws, steps) && LastWrote(ws, steps, k, i, s, v, plaintext)
    ensures s in ws[i].names && (s in ws[i].db.secrets ==> Current(ws[i].db, s, v, plaintext))
    decreases i
  {
    StepTaken(ws, steps, i - 1);
    RunKeeps(ws, steps, i - 1);
    if k == i - 1 {
      WriterMakesCurrent(ws[k].(clock := steps[k].now), steps[k].action, v, s, plaintext);
      RunKeeps(ws, steps, i);
    } else {
      LastWriteIsCurrent(ws, steps, k, i - 1, s, v, plaintext);
      NextCurrent(ws[i - 1], steps[i - 1], ws[i], s, v, plaintext);
    }
  }

  /** A read of a stored secret, located and then resolved, takes the version and the bytes that were written last. */
  lemma ReadsResolveTheLastWrite(
    ws: seq<World>, steps: seq<Step>, k: nat, i: nat, r: nat, s: Id, v: Id, plaintext: bytes, resolved: Option<Id>)
    requires Run(ws, steps) && LastWrote(ws, steps, k, i, s, v, plaintext) && i + 1 < |steps|
    requires steps[i].action == ReadLocate(r, Some(s)) && steps[i + 1].action == ReadResolve(r, resolved)
    requires r in ws[i].readers && ws[i].readers[r].Started? && !ws[i].readers[r].hasPayload && !ws[i].readers[r].ephemeral
    ensures resolved == Some(v) && r in ws[i + 2].readers
    ensures var rd := ws[i].readers[r];
            exists number: nat :: ws[i + 2].readers[r] == Resolved(rd.grantId, rd.key, FromVersion(Version(s, number, plaintext)), v)
  {
    StepTaken(ws, steps, i);
    StepTaken(ws, steps, i + 1);
    LastWriteIsCurrent(ws, steps, k, i, s, v, plaintext);
    RunNumbered(ws, steps, i);
    LocatedResolves(ws[i].(clock := steps[i].now), ws[i + 1].(clock := steps[i + 1].now), r, s, v, plaintext, resolved);
    assert ws[i + 2].readers[r]
        == Resolved(ws[i].readers[r].grantId, ws[i].readers[r].key, FromVersion(ws[i].db.versions[v]), v);
    assert ws[i].db.versions[v] == Version(s, ws[i].db.secrets[s].currentVersion, plaintext);
  }

  lemma LocatedResolves(w: World, n: World, r: nat, s: Id, v: Id, plaintext: bytes, resolved: Option<Id>)
    requires Current(w.db, s, v, plaintext) && Numbered(w.db.secrets, w.db.versions)
    requires CanAct(w, ReadLocate(r, Some(s))) && !w.readers[r].hasPayload && !w.readers[r].ephemeral
    requires n == Locate(w, r, Some(s)).(clock := n.clock) && CanAct(n, ReadResolve(r, resolved))
    ensures resolved == Some(v)
    ensures r in Resolve(n, r, resolved).readers
    ensures Resolve(n, r, resolved).readers[r] == Resolved(w.readers[r].grantId, w.readers[r].key, FromVersion(w.db.versions[v]), v)
  {
    assert VersionMatches(n, n.readers[r].secret, v);
    if resolved.Some? {
      assert SameNumber(n.db.versions[resolved.value], n.db.versions[v]);
    }
  }

  // ---------- requests carry what was asked ----------

  /** The row `r` is what an insert under its id asked for, but for its state. */
  predicate Asks(a: Action, r: Id, row: Request) {
    && a.Insert? && a.request == r
    && row.client == a.req.client && row.secretName == a.req.secretName && row.expiresAt == a.req.expiresAt
    && row.idemKey == a.req.idemKey && row.mac == a.req.mac
  }

  ghost predicate AskedAt(steps: seq<Step>, k: nat, r: Id, row: Request) {
    k < |steps| && Asks(steps[k].action, r, row)
  }

  ghost predicate RequestsFrom(w: World, n: World, a: Action) {
    forall r :: r in n.db.requests ==>
      || Asks(a, r, n.db.requests[r])
      || (r in w.db.requests && n.db.requests[r] == w.db.requests[r].(state := n.db.requests[r].state))
  }

  lemma ResolvingRequests(w: World, a: Action)
    requires CanAct(w, a) && (a.Approve? || a.Deny? || a.Expire?)
    ensures RequestsFrom(w, Act(w, a), a)
  {
  }

  lemma InsertAsks(t: Tables, now: Time, id: Id, req: NewRequest, cap: Option<nat>, resolution: Resolution, g: Id)
    ensures var n := InsertRequest(t, now, id, req, cap, resolution, g).0.requests;
            n == t.requests || (id in n && n == t.requests[id := n[id]] && Asks(Insert(id, req, cap, resolution, g), id, n[id]))
  {
  }

  lemma InsertRequests(w: World, id: Id, req: NewRequest, cap: Option<nat>, resolution: Resolution, g: Id)
    ensures RequestsFrom(w, InsertAt(w, id, req, cap, resolution, g), Insert(id, req, cap, resolution, g))
  {
    InsertTables(w, id, req, cap, resolution, g);
    InsertAsks(w.db, w.clock, id, req, cap, resolution, g);
  }

  lemma ActRequests(w: World, a: Action)
    requires CanAct(w, a)
    ensures RequestsFrom(w, Act(w, a), a)
  {
    if a.Approve? || a.Deny? || a.Expire? {
      ResolvingRequests(w, a);
    } else if a.Insert? {
      InsertRequests(w, a.request, a.req, a.cap, a.resolution, a.grantId);
    } else {
      ActFrame(w, a);
    }
  }

  /** Every request row holds what its client asked for. */
  lemma {:induction false} RequestsCarryWhatWasAsked(ws: seq<World>, steps: seq<Step>, i: nat, r: Id)
    requires Run(ws, steps) && i < |ws| && r in ws[i].db.requests
    ensures exists k: nat :: k < i && AskedAt(steps, k, r, ws[i].db.requests[r])
  {
    if i > 0 {
      StepTaken(ws, steps, i - 1);
      ActRequests(ws[i - 1].(clock := steps[i - 1].now), steps[i - 1].action);
      if Asks(steps[i - 1].action, r, ws[i].db.requests[r]) {
        assert AskedAt(steps, i - 1, r, ws[i].db.requests[r]);
      } else {
        RequestsCarryWhatWasAsked(ws, steps, i - 1, r);
        var k: nat :| k < i - 1 && AskedAt(steps, k, r, ws[i - 1].db.requests[r]);
        assert AskedAt(steps, k, r, ws[i].db.requests[r]);
      }
    }
  }

  // ---------- payloads live as long as their process ----------

  /** No server process ended between step `i` and step `j`. */
  ghost predicate SameProcess(steps: seq<Step>, i: nat, j: nat)
    requires j <= |steps|
  {
    forall m :: i <= m < j ==> !steps[m].action.Restart?
  }

  lemma NextProcess(a: World, s: Step, b: World)
    requires Next(a, s, b)
    ensures b.process == a.process + if s.action.Restart? then 1 else 0
  {
    ActFrame(a.(clock := s.now), s.action);
  }

  lemma {:induction false} ProcessesEndByRestart(ws: seq<World>, steps: seq<Step>, i: nat, j: nat)
    requires Run(ws, steps) && i <= j < |ws|
    ensures ws[i].process <= ws[j].process && (ws[i].process == ws[j].process <==> SameProcess(steps, i, j))
    decreases j
  {
    if i < j {
      ProcessesEndByRestart(ws, steps, i, j - 1);
      StepTaken(ws, steps, j - 1);
      NextProcess(ws[j - 1], steps[j - 1], ws[j]);
    }
  }

  /** A mint is of a payload that the running process wrapped. */
  lemma MintsAreWrappedHere(ws: seq<World>, steps: seq<Step>, k: nat, g: Id, row: Grant)
    requires Run(ws, steps) && MintedAt(steps, k, g, row)
    ensures row.payload.Some? ==>
              Minting(steps[k].action).value.2.passthrough == row.payload && row.payload.value.process == ws[k].process
  {
    StepTaken(ws, steps, k);
  }

  /** The first use of a passthrough grant releases the payload it was approved with, as long as the server has not
      restarted since the approval; after that it releases nothing. */
  lemma PayloadsLastUntilRestart(ws: seq<World>, steps: seq<Step>, j: nat, r: nat, g: Id, key: string)
    requires Run(ws, steps) && UseLaws.Accounts(ws, steps, j, r, g, key)
    requires UseLaws.FirstUseAt(ws, j, g, key) && ws[j].db.grants[g].ephemeral
    ensures exists k: nat :: k < j && MintedAt(steps, k, g, ws[j].db.grants[g])
              && var passthrough := Minting(steps[k].action).value.2.passthrough;
                 && passthrough.Some?
                 && ws[j + 1].releases
                      == if SameProcess(steps, k, j) then ws[j].releases + [Release(g, key, g, passthrough.value.plaintext)]
                         else ws[j].releases
  {
    UseLaws.PassthroughFirstUseReleases(ws, steps, j, r, g, key);
    GrantsCarryTheirTerms(ws, steps, j, g);
    var k: nat :| k < j && MintedAt(steps, k, g, ws[j].db.grants[g]);
    MintsAreWrappedHere(ws, steps, k, g, ws[j].db.grants[g]);
    ProcessesEndByRestart(ws, steps, k, j);
    RunKeeps(ws, steps, j);
  }

  // ---------- what is released was written ----------

  ghost predicate EnteredBy(a: Action, g: Id, plaintext: bytes) {
    && Minting(a).Some? && Minting(a).value.0 == g && Minting(a).value.2.passthrough.Some?
    && Minting(a).value.2.passthrough.value.plaintext == plaintext
  }

  ghost predicate EnteredFrom(w: World, n: World, a: Action) {
    forall g :: g in n.entered ==> (g in w.entered && n.entered[g] == w.entered[g]) || EnteredBy(a, g, n.entered[g])
  }

  lemma ApproveEntered(w: World, request: Id, grantId: Id, p: GrantParams, store: Option<NewSecret>)
    ensures EnteredFrom(w, ApproveAt(w, request, grantId, p, store), Approve(request, grantId, p, store))
  {
  }

  lemma InsertEntered(w: World, request: Id, req: NewRequest, cap: Option<nat>, resolution: Resolution, grantId: Id)
    ensures EnteredFrom(w, InsertAt(w, request, req, cap, resolution, grantId), Insert(request, req, cap, resolution, grantId))
  {
  }

  lemma NextEntered(a: World, s: Step, b: World)
    requires Next(a, s, b)
    ensures EnteredFrom(a, b, s.action)
  {
    var w := a.(clock := s.now);
    if s.action.Approve? {
      ApproveEntered(w, s.action.request, s.action.grantId, s.action.params, s.action.store);
    } else if s.action.Insert? {
      InsertEntered(w, s.action.request, s.action.req, s.action.cap, s.action.resolution, s.action.grantId);
    } else {
      ActFrame(w, s.action);
    }
  }

  ghost predicate EnteredAt(steps: seq<Step>, k: nat, g: Id, plaintext: bytes) {
    k < |steps| && EnteredBy(steps[k].action, g, plaintext)
  }

  lemma {:induction false} PayloadsWereApproved(ws: seq<World>, steps: seq<Step>, i: nat, g: Id)
    requires Run(ws, steps) && i < |ws| && g in ws[i].entered
    ensures exists k: nat :: k < i && EnteredAt(steps, k, g, ws[i].entered[g])
  {
    if i > 0 {
      StepTaken(ws, steps, i - 1);
      NextEntered(ws[i - 1], steps[i - 1], ws[i]);
      if EnteredBy(steps[i - 1].action, g, ws[i].entered[g]) {
        assert EnteredAt(steps, i - 1, g, ws[i].entered[g]);
      } else {
        PayloadsWereApproved(ws, steps, i - 1, g);
        var k: nat :| k < i - 1 && EnteredAt(steps, k, g, ws[i - 1].entered[g]);
        assert EnteredAt(steps, k, g, ws[i].entered[g]);
      }
    }
  }

  /** Every plaintext released was put there by a step of the run: with the approval of that very grant, or as that
      very version of a stored secret. */
  lemma ReleasesWereWritten(ws: seq<World>, steps: seq<Step>, i: nat, a: Release)
    requires Run(ws, steps) && i < |ws| && a in ws[i].releases
    ensures if a.payloadId == a.grantId
            then exists k: nat :: k < i && EnteredAt(steps, k, a.grantId, a.plaintext)
            else a.payloadId in ws[i].archive && ws[i].archive[a.payloadId].plaintext == a.plaintext
                 && exists k: nat :: k < i && WrittenAt(steps, k, a.payloadId, ws[i].archive[a.payloadId])
  {
    RunKeeps(ws, steps, i);
    assert ReleaseOk(a, ws[i].pins, ws[i].archive, ws[i].entered);
    if a.payloadId == a.grantId {
      PayloadsWereApproved(ws, steps, i, a.grantId);
    } else {
      VersionsCarryTheirBytes(ws, steps, i, a.payloadId);
    }
  }
}
