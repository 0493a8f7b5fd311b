/**
  What every reachable world keeps, and what follows for the plaintexts released.
 */
module GrantSafety {
  import opened Wrappers
  import opened Store
  import opened World

  type Grants = map<Id, Grant>
  type Reads = map<(Id, string), ReadRow>
  type Pins = map<(Id, string), Id>
  type Archive = map<Id, Version>
  type Entered = map<Id, bytes>

  // ---------- the invariant ----------

  /** Ids are issued once. */
  ghost predicate IssuedOk(w: World) {
    && w.db.secrets.Keys <= w.issued && w.db.versions.Keys <= w.issued
    && w.db.requests.Keys <= w.issued && w.db.grants.Keys <= w.issued
    && w.archive.Keys <= w.issued && w.names.Keys <= w.issued && w.entered.Keys <= w.issued
    && w.archive.Keys !! w.db.grants.Keys
  }

  /** History remembers every version row and secret name, and a version row is there exactly
      as long as its secret is. */
  ghost predicate HistoryOk(secrets: map<Id, Secret>, versions: map<Id, Version>, archive: Archive, names: map<Id, string>) {
    && (forall v :: v in versions ==> v in archive && archive[v] == versions[v])
    && (forall s :: s in secrets ==> s in names && names[s] == secrets[s].name)
    && (forall v :: v in archive ==>
          archive[v].secretId in names && (archive[v].secretId in secrets <==> v in versions))
  }

  ghost predicate NamesUnique(secrets: map<Id, Secret>) {
    forall a, b :: a in secrets && b in secrets && secrets[a].name == secrets[b].name ==> a == b
  }

  /** A live grant without a payload of its own is backed by the very row its approval checked. */
  ghost predicate Backing(grant: Grant, secrets: map<Id, Secret>) {
    && grant.decidedOn.Some?
    && grant.decidedOn.value in secrets
    && secrets[grant.decidedOn.value].name == grant.secretName
  }

  ghost predicate BackingOk(grants: Grants, secrets: map<Id, Secret>, clock: Time) {
    forall g :: g in grants && !grants[g].ephemeral && Live(grants[g], clock) ==> Backing(grants[g], secrets)
  }

  ghost predicate LivePassthrough(grants: Grants, g: Id, clock: Time) {
    g in grants && grants[g].ephemeral && Live(grants[g], clock)
  }

  ghost predicate PayloadOk(grants: Grants, grantReads: Reads, entered: Entered, clock: Time, window: nat) {
    && (forall g :: g in grants && grants[g].ephemeral ==> g in entered)
    && (forall g :: g in grants && grants[g].payload.Some? ==>
          grants[g].ephemeral && grants[g].payload.value.plaintext == entered[g])
    && (forall g :: LivePassthrough(grants, g, clock) && UseRemains(grants[g]) ==> grants[g].payload.Some?)
    && (forall p :: p in grantReads && LivePassthrough(grants, p.0, clock) && InWindow(grantReads[p], clock, window) ==>
          grants[p.0].payload.Some?)
  }

  /** A replay row carries the pin of its first use, at least until its window closes. */
  ghost predicate ReadRowOk(p: (Id, string), r: ReadRow, pin: Id, grant: Grant, archive: Archive, clock: Time, window: nat) {
    && r.firstReadAt <= clock
    && (r.versionId.Some? ==> r.versionId.value == pin)
    && (InWindow(r, clock, window) ==> r.versionId.Some?)
    && r.passthrough == grant.ephemeral
    && (r.passthrough ==> pin == p.0)
    && (!r.passthrough ==> pin in archive && grant.decidedOn == Some(archive[pin].secretId))
  }

  ghost predicate ReadsOk(grants: Grants, grantReads: Reads, pins: Pins, archive: Archive, clock: Time, window: nat) {
    && pins.Keys == grantReads.Keys
    && forall p :: p in grantReads ==>
         p.0 in grants && p in pins && ReadRowOk(p, grantReads[p], pins[p], grants[p.0], archive, clock, window)
  }

  /** Looking a secret up by the name of a live grant finds the row that was approved. */
  ghost predicate FoundFor(grant: Grant, secretId: Id, clock: Time) {
    Live(grant, clock) ==> grant.decidedOn == Some(secretId)
  }

  ghost predicate ReaderOk(r: Reader, grants: Grants, pins: Pins, archive: Archive, entered: Entered, clock: Time) {
    && r.grantId in grants
    && var grant := grants[r.grantId];
       match r
       case Started(_, _, hasPayload, ephemeral, name) =>
         && ephemeral == grant.ephemeral && (hasPayload ==> ephemeral) && name == grant.secretName
         && (!hasPayload ==> grant.payload.None?)
       case Located(g, _, hasPayload, ephemeral, secret) =>
         && ephemeral == grant.ephemeral && (hasPayload ==> ephemeral)
         && (!hasPayload ==> grant.payload.None?)
         && (secret.Some? && !ephemeral ==> FoundFor(grant, secret.value.0, clock))
       case Resolved(g, _, source, payloadId) =>
         && source.FromVersion? == !grant.ephemeral
         && (source.PayloadGone? ==> grant.payload.None?)
         && (if source.FromVersion? then
               payloadId in archive && archive[payloadId] == source.row && FoundFor(grant, source.row.secretId, clock)
             else payloadId == g)
       case Replaying(g, key, snapshot, pinned, passthrough) =>
         && (g, key) in pins
         && passthrough == grant.ephemeral == snapshot.ephemeral
         && (passthrough ==> pins[(g, key)] == g)
         && (snapshot.payload.Some? ==> g in entered && snapshot.payload.value.plaintext == entered[g])
         && (!passthrough && pinned.Some? ==> pinned.value == pins[(g, key)] && pinned.value in archive)
  }

  ghost predicate ReadersOk(readers: map<nat, Reader>, grants: Grants, pins: Pins, archive: Archive, entered: Entered, clock: Time) {
    forall i :: i in readers ==> ReaderOk(readers[i], grants, pins, archive, entered, clock)
  }

  /** What a payload id of a grant stands for: the grant's own payload, or a version row. */
  ghost predicate PlaintextOf(grantId: Id, payloadId: Id, plaintext: bytes, archive: Archive, entered: Entered) {
    if payloadId == grantId then
      grantId in entered && plaintext == entered[grantId]
    else
      payloadId in archive && plaintext == archive[payloadId].plaintext
  }

  ghost predicate ReleaseOk(r: Release, pins: Pins, archive: Archive, entered: Entered) {
    && (r.grantId, r.key) in pins
    && r.payloadId == pins[(r.grantId, r.key)]
    && PlaintextOf(r.grantId, r.payloadId, r.plaintext, archive, entered)
  }

  ghost predicate ReleasesOk(releases: seq<Release>, grants: Grants, pins: Pins, archive: Archive, entered: Entered) {
    forall r :: r in releases ==> r.grantId in grants && ReleaseOk(r, pins, archive, entered)
  }

  ghost predicate TablesOk(w: World) {
    && IssuedOk(w)
    && HistoryOk(w.db.secrets, w.db.versions, w.archive, w.names)
    && NamesUnique(w.db.secrets)
    && BackingOk(w.db.grants, w.db.secrets, w.clock)
    && PayloadOk(w.db.grants, w.db.grantReads, w.entered, w.clock, w.window)
    && ReadsOk(w.db.grants, w.db.grantReads, w.pins, w.archive, w.clock, w.window)
  }

  ghost predicate Inv(w: World) {
    && TablesOk(w)
    && ReadersOk(w.readers, w.db.grants, w.pins, w.archive, w.entered, w.clock)
    && ReleasesOk(w.releases, w.db.grants, w.pins, w.archive, w.entered)
  }

  // ---------- frames ----------

  /** What a step may do to a grant row: count uses, revoke it, drop its payload. */
  ghost predicate Moves(a: Grant, b: Grant) {
    && b == a.(useCount := b.useCount, revoked := b.revoked, payload := b.payload)
    && (a.revoked ==> b.revoked)
    && a.useCount <= b.useCount
    && (b.payload.Some? ==> b.payload == a.payload)
  }

  ghost predicate GrantsMove(a: Grants, b: Grants) {
    a.Keys <= b.Keys && forall g :: g in a ==> Moves(a[g], b[g])
  }

  ghost predicate Grows<K, V>(a: map<K, V>, b: map<K, V>) {
    a.Keys <= b.Keys && forall k :: k in a ==> b[k] == a[k]
  }

  /** Reads in flight survive whatever moves grants, adds history and lets time pass. */
  lemma ReadersFrame(readers: map<nat, Reader>, a: World, b: World)
    requires ReadersOk(readers, a.db.grants, a.pins, a.archive, a.entered, a.clock)
    requires GrantsMove(a.db.grants, b.db.grants) && a.clock <= b.clock
    requires Grows(a.pins, b.pins) && Grows(a.archive, b.archive) && Grows(a.entered, b.entered)
    ensures ReadersOk(readers, b.db.grants, b.pins, b.archive, b.entered, b.clock)
  {
    forall i | i in readers ensures ReaderOk(readers[i], b.db.grants, b.pins, b.archive, b.entered, b.clock) {
      assert ReaderOk(readers[i], a.db.grants, a.pins, a.archive, a.entered, a.clock);
      assert Moves(a.db.grants[readers[i].grantId], b.db.grants[readers[i].grantId]);
    }
  }

  lemma ReleasesFrame(releases: seq<Release>, a: World, b: World)
    requires ReleasesOk(releases, a.db.grants, a.pins, a.archive, a.entered)
    requires a.db.grants.Keys <= b.db.grants.Keys
    requires Grows(a.pins, b.pins) && Grows(a.archive, b.archive) && Grows(a.entered, b.entered)
    ensures ReleasesOk(releases, b.db.grants, b.pins, b.archive, b.entered)
  {
    forall r | r in releases ensures r.grantId in b.db.grants && ReleaseOk(r, b.pins, b.archive, b.entered) {
      assert ReleaseOk(r, a.pins, a.archive, a.entered);
    }
  }

  lemma ReadsFrame(grantReads: Reads, a: World, b: World)
    requires ReadsOk(a.db.grants, grantReads, a.pins, a.archive, a.clock, a.window)
    requires GrantsMove(a.db.grants, b.db.grants) && a.clock <= b.clock && a.window == b.window
    requires a.pins == b.pins && Grows(a.archive, b.archive)
    ensures ReadsOk(b.db.grants, grantReads, b.pins, b.archive, b.clock, b.window)
  {
    forall p | p in grantReads
      ensures p.0 in b.db.grants
      ensures ReadRowOk(p, grantReads[p], b.pins[p], b.db.grants[p.0], b.archive, b.clock, b.window)
    {
      assert ReadRowOk(p, grantReads[p], a.pins[p], a.db.grants[p.0], a.archive, a.clock, a.window);
      assert Moves(a.db.grants[p.0], b.db.grants[p.0]);
    }
  }

  // ---------- every step keeps the invariant ----------

  lemma InitInv(window: nat)
    ensures Inv(Init(window))
  {
  }

  /** Time alone only closes windows and ends lives. */
  lemma ClockKeeps(w: World, now: Time)
    requires Inv(w) && w.clock <= now
    ensures Inv(w.(clock := now))
  {
    var n := w.(clock := now);
    ReadsFrame(w.db.grantReads, w, n);
    ReadersFrame(w.readers, w, n);
  }

  lemma ReadersKeep(w: World, readers: map<nat, Reader>)
    requires Inv(w)
    requires ReadersOk(readers, w.db.grants, w.pins, w.archive, w.entered, w.clock)
    ensures Inv(w.(readers := readers))
  {
  }

  lemma StartKeeps(w: World, r: nat, g: Id, key: string)
    requires Inv(w) && g in w.db.grants
    ensures Inv(Start(w, r, g, key))
  {
    ReadersKeep(w, Start(w, r, g, key).readers);
  }

  lemma LocateKeeps(w: World, r: nat, secret: Option<Id>)
    requires Inv(w) && CanAct(w, ReadLocate(r, secret))
    ensures Inv(Locate(w, r, secret))
  {
    assert ReaderOk(w.readers[r], w.db.grants, w.pins, w.archive, w.entered, w.clock);
    var grant := w.db.grants[w.readers[r].grantId];
    if secret.Some? && !grant.ephemeral && Live(grant, w.clock) {
      assert Backing(grant, w.db.secrets);
    }
    ReadersKeep(w, Locate(w, r, secret).readers);
  }

  lemma ResolveKeeps(w: World, r: nat, version: Option<Id>)
    requires Inv(w) && CanAct(w, ReadResolve(r, version))
    ensures Inv(Resolve(w, r, version))
  {
    assert ReaderOk(w.readers[r], w.db.grants, w.pins, w.archive, w.entered, w.clock);
    ReadersKeep(w, Resolve(w, r, version).readers);
  }

  /** A step that only moves grant rows, edits requests in place and writes audit rows
      has nothing to show but that payloads stay where they are owed. */
  lemma GrantsFrame(w: World, db: Tables)
    requires Inv(w)
    requires GrantsMove(w.db.grants, db.grants) && w.db.grants.Keys == db.grants.Keys
    requires db.requests.Keys <= w.issued
    requires db.secrets == w.db.secrets && db.versions == w.db.versions && db.grantReads == w.db.grantReads
    requires PayloadOk(db.grants, db.grantReads, w.entered, w.clock, w.window)
    ensures Inv(w.(db := db))
  {
    var n := w.(db := db);
    ReadsFrame(w.db.grantReads, w, n);
    ReadersFrame(w.readers, w, n);
    ReleasesFrame(w.releases, w, n);
    forall g | g in db.grants && !db.grants[g].ephemeral && Live(db.grants[g], w.clock) ensures Backing(db.grants[g], db.secrets) {
      assert Moves(w.db.grants[g], db.grants[g]);
      assert Backing(w.db.grants[g], w.db.secrets);
    }
  }

  /** Payloads stay where they are owed when a step takes them from dead grants only. */
  lemma PayloadFrame(a: Grants, b: Grants, grantReads: Reads, entered: Entered, clock: Time, window: nat)
    requires PayloadOk(a, grantReads, entered, clock, window)
    requires GrantsMove(a, b) && a.Keys == b.Keys
    requires forall g :: g in b && Live(b[g], clock) ==> b[g].payload == a[g].payload
    ensures PayloadOk(b, grantReads, entered, clock, window)
  {
    forall g | LivePassthrough(b, g, clock) ensures LivePassthrough(a, g, clock) && b[g].payload == a[g].payload {
      assert Moves(a[g], b[g]);
    }
    forall g | g in b && b[g].payload.Some? ensures b[g].ephemeral && b[g].payload.value.plaintext == entered[g] {
      assert Moves(a[g], b[g]);
    }
    forall g | LivePassthrough(b, g, clock) && UseRemains(b[g]) ensures b[g].payload.Some? {
      assert LivePassthrough(a, g, clock);
      assert Moves(a[g], b[g]);
    }
    forall g | g in b && b[g].ephemeral ensures g in entered {
      assert Moves(a[g], b[g]);
    }
  }

  lemma RevokeMoves(db: Tables, g: Id)
    ensures var n := RevokeGrant(db, g).0;
            && GrantsMove(db.grants, n.grants) && n.grants.Keys == db.grants.Keys
            && (forall h :: h in n.grants && !n.grants[h].revoked ==> n.grants[h].payload == db.grants[h].payload)
            && n == db.(grants := n.grants, notes := n.notes)
  {
  }

  lemma RevokeKeeps(w: World, g: Id)
    requires Inv(w)
    ensures Inv(w.(db := RevokeGrant(w.db, g).0))
  {
    var db := RevokeGrant(w.db, g).0;
    RevokeMoves(w.db, g);
    PayloadFrame(w.db.grants, db.grants, w.db.grantReads, w.entered, w.clock, w.window);
    GrantsFrame(w, db);
  }

  /** The sweep takes no payload that is still owed. */
  lemma SweepPayloadOk(db: Tables, entered: Entered, clock: Time, window: nat)
    requires PayloadOk(db.grants, db.grantReads, entered, clock, window)
    ensures PayloadOk(SweepPayloads(db, clock, window).grants, db.grantReads, entered, clock, window)
  {
    var grants := SweepPayloads(db, clock, window).grants;
    forall p | p in db.grantReads && LivePassthrough(grants, p.0, clock) && InWindow(db.grantReads[p], clock, window)
      ensures grants[p.0].payload.Some?
    {
      assert ReplayOpen(db.grantReads, p.0, clock, window);
      assert LivePassthrough(db.grants, p.0, clock);
    }
    forall g | LivePassthrough(grants, g, clock) && UseRemains(grants[g]) ensures grants[g].payload.Some? {
      assert LivePassthrough(db.grants, g, clock);
    }
  }

  lemma SweepKeeps(w: World)
    requires Inv(w)
    ensures Inv(w.(db := SweepPayloads(w.db, w.clock, w.window)))
  {
    SweepPayloadOk(w.db, w.entered, w.clock, w.window);
    GrantsFrame(w, SweepPayloads(w.db, w.clock, w.window));
  }

  /** Only pins whose window has closed are dropped. */
  lemma UnpinReadsOk(w: World, grantReads: Reads)
    requires ReadsOk(w.db.grants, w.db.grantReads, w.pins, w.archive, w.clock, w.window)
    requires grantReads.Keys == w.db.grantReads.Keys
    requires forall p :: p in grantReads ==>
               grantReads[p] == if w.db.grantReads[p].firstReadAt < w.clock - w.window
                                then w.db.grantReads[p].(versionId := None) else w.db.grantReads[p]
    ensures ReadsOk(w.db.grants, grantReads, w.pins, w.archive, w.clock, w.window)
  {
    forall p | p in grantReads
      ensures ReadRowOk(p, grantReads[p], w.pins[p], w.db.grants[p.0], w.archive, w.clock, w.window)
    {
      assert ReadRowOk(p, w.db.grantReads[p], w.pins[p], w.db.grants[p.0], w.archive, w.clock, w.window);
    }
  }

  /** A step that only edits replay rows in place. */
  lemma ReadRowsFrame(w: World, grantReads: Reads)
    requires Inv(w) && grantReads.Keys == w.db.grantReads.Keys
    requires forall p :: p in grantReads ==> grantReads[p].firstReadAt == w.db.grantReads[p].firstReadAt
    requires ReadsOk(w.db.grants, grantReads, w.pins, w.archive, w.clock, w.window)
    ensures Inv(w.(db := w.db.(grantReads := grantReads)))
  {
    forall p | p in grantReads && LivePassthrough(w.db.grants, p.0, w.clock) && InWindow(grantReads[p], w.clock, w.window)
      ensures w.db.grants[p.0].payload.Some?
    {
      assert InWindow(w.db.grantReads[p], w.clock, w.window);
    }
  }

  lemma UnpinKeeps(w: World)
    requires Inv(w)
    ensures Inv(w.(db := UnpinStaleReads(w.db, w.clock, w.window)))
  {
    var grantReads := UnpinStaleReads(w.db, w.clock, w.window).grantReads;
    UnpinReadsOk(w, grantReads);
    ReadRowsFrame(w, grantReads);
  }

  /** Counting one use of a live grant. */
  function Counted(db: Tables, g: Id, attempt: Attempt): Tables
    requires g in db.grants
  {
    db.(grants := db.grants[g := db.grants[g].(useCount := db.grants[g].useCount + 1)], attempts := db.attempts + [attempt])
  }

  lemma CountedKeeps(w: World, g: Id, attempt: Attempt)
    requires Inv(w) && g in w.db.grants
    ensures Inv(w.(db := Counted(w.db, g, attempt)))
  {
    var db := Counted(w.db, g, attempt);
    PayloadFrame(w.db.grants, db.grants, w.db.grantReads, w.entered, w.clock, w.window);
    GrantsFrame(w, db);
  }

  lemma ProxyKeeps(w: World, g: Id, credential: Id)
    requires Inv(w)
    ensures Inv(Proxy(w, g, credential))
  {
    var (db, outcome) := BeginGrantUse(w.db, w.clock, g, None, Some(credential), ProxyAttempt, w.window);
    if outcome.FirstUse? {
      CountedKeeps(w, g, Attempt(ProxyAttempt, g, Some(credential), false));
      assert db == Counted(w.db, g, Attempt(ProxyAttempt, g, Some(credential), false));
    } else {
      assert db == w.db;
    }
  }

  /** Pinning the first use of a key. */
  function Pinned(w: World, g: Id, key: string, payloadId: Id): World
    requires g in w.db.grants
  {
    var row := ReadRow(Some(payloadId), w.db.grants[g].payload.Some?, w.clock);
    w.(db := w.db.(grantReads := w.db.grantReads[(g, key) := row]), pins := w.pins[(g, key) := payloadId])
  }

  ghost predicate Pinnable(w: World, g: Id, key: string, payloadId: Id) {
    && g in w.db.grants && (g, key) !in w.db.grantReads
    && Live(w.db.grants[g], w.clock) && w.db.grants[g].ephemeral == w.db.grants[g].payload.Some?
    && (if w.db.grants[g].ephemeral then payloadId == g
        else payloadId in w.archive && w.db.grants[g].decidedOn == Some(w.archive[payloadId].secretId))
  }

  lemma PinKeepsReads(w: World, g: Id, key: string, payloadId: Id)
    requires ReadsOk(w.db.grants, w.db.grantReads, w.pins, w.archive, w.clock, w.window)
    requires Pinnable(w, g, key, payloadId)
    ensures var n := Pinned(w, g, key, payloadId);
            ReadsOk(n.db.grants, n.db.grantReads, n.pins, n.archive, n.clock, n.window)
  {
    var n := Pinned(w, g, key, payloadId);
    forall p | p in n.db.grantReads
      ensures p.0 in n.db.grants && p in n.pins
      ensures ReadRowOk(p, n.db.grantReads[p], n.pins[p], n.db.grants[p.0], n.archive, n.clock, n.window)
    {
      assert p != (g, key) ==> ReadRowOk(p, w.db.grantReads[p], w.pins[p], w.db.grants[p.0], w.archive, w.clock, w.window);
    }
  }

  lemma PinKeepsPayloads(w: World, g: Id, key: string, payloadId: Id)
    requires PayloadOk(w.db.grants, w.db.grantReads, w.entered, w.clock, w.window)
    requires Pinnable(w, g, key, payloadId)
    ensures var n := Pinned(w, g, key, payloadId);
            PayloadOk(n.db.grants, n.db.grantReads, n.entered, n.clock, n.window)
  {
  }

  lemma PinKeeps(w: World, g: Id, key: string, payloadId: Id)
    requires Inv(w) && Pinnable(w, g, key, payloadId)
    ensures Inv(Pinned(w, g, key, payloadId))
  {
    PinKeepsReads(w, g, key, payloadId);
    PinKeepsPayloads(w, g, key, payloadId);
    PinnedInFlight(w, Pinned(w, g, key, payloadId));
  }

  lemma PinnedInFlight(w: World, n: World)
    requires ReadersOk(w.readers, w.db.grants, w.pins, w.archive, w.entered, w.clock)
    requires ReleasesOk(w.releases, w.db.grants, w.pins, w.archive, w.entered)
    requires n.db.grants == w.db.grants && n.clock == w.clock && n.archive == w.archive && n.entered == w.entered
    requires Grows(w.pins, n.pins)
    ensures ReadersOk(w.readers, n.db.grants, n.pins, n.archive, n.entered, n.clock)
    ensures ReleasesOk(w.releases, n.db.grants, n.pins, n.archive, n.entered)
  {
    assert GrantsMove(w.db.grants, n.db.grants);
    ReadersFrame(w.readers, w, n);
    ReleasesFrame(w.releases, w, n);
  }

  /** The outcome of accounting a read. */
  function AccountedUse(w: World, rd: Reader): GrantUse
    requires rd.Resolved?
  {
    BeginGrantUse(w.db, w.clock, rd.grantId, Some(rd.key), Some(rd.payloadId), ReleaseAttempt, w.window).1
  }

  function FirstRelease(w: World, rd: Reader, grant: Grant): Option<Release>
    requires rd.Resolved?
  {
    var plaintext := OpenSource(w.process, rd.source, grant);
    if plaintext.Some? then Some(Release(rd.grantId, rd.key, rd.payloadId, plaintext.value)) else None
  }

  /** A read that ends, with what it released. */
  function Ended(w: World, r: nat, served: seq<Served>, release: Option<Release>): World {
    w.(readers := Without(w.readers, r), served := served,
       releases := if release.Some? then w.releases + [release.value] else w.releases)
  }

  lemma EndedKeeps(w: World, r: nat, served: seq<Served>, release: Option<Release>)
    requires Inv(w)
    requires release.Some? ==> release.value.grantId in w.db.grants && ReleaseOk(release.value, w.pins, w.archive, w.entered)
    ensures Inv(Ended(w, r, served, release))
  {
  }

  /** A first use counts, pins and releases. */
  function FirstUsed(w: World, r: nat): World
    requires r in w.readers && w.readers[r].Resolved? && w.readers[r].grantId in w.db.grants
  {
    var rd := w.readers[r];
    var m := w.(db := Counted(w.db, rd.grantId, Attempt(ReleaseAttempt, rd.grantId, Some(rd.payloadId), false)));
    Ended(Pinned(m, rd.grantId, rd.key, rd.payloadId), r, w.served + [Served(rd.grantId, rd.key, false)],
          FirstRelease(w, rd, m.db.grants[rd.grantId]))
  }

  lemma AccountFirstUse(w: World, r: nat)
    requires r in w.readers && w.readers[r].Resolved? && AccountedUse(w, w.readers[r]).FirstUse?
    ensures w.readers[r].grantId in w.db.grants && Account(w, r) == FirstUsed(w, r)
  {
  }

  lemma FirstUsePinnable(w: World, rd: Reader)
    requires Inv(w) && rd.Resolved? && AccountedUse(w, rd).FirstUse?
    requires ReaderOk(rd, w.db.grants, w.pins, w.archive, w.entered, w.clock)
    ensures Pinnable(w, rd.grantId, rd.key, rd.payloadId)
  {
    var g := rd.grantId;
    assert w.db.grants[g].ephemeral ==> LivePassthrough(w.db.grants, g, w.clock);
  }

  lemma FirstUseKeeps(w: World, r: nat)
    requires Inv(w) && r in w.readers && w.readers[r].Resolved? && AccountedUse(w, w.readers[r]).FirstUse?
    ensures w.readers[r].grantId in w.db.grants && Inv(FirstUsed(w, r))
  {
    var rd := w.readers[r];
    assert ReaderOk(rd, w.db.grants, w.pins, w.archive, w.entered, w.clock);
    FirstUsePinnable(w, rd);
    var attempt := Attempt(ReleaseAttempt, rd.grantId, Some(rd.payloadId), false);
    CountedKeeps(w, rd.grantId, attempt);
    FinishFirstUse(w, r, w.(db := Counted(w.db, rd.grantId, attempt)));
  }

  lemma FinishFirstUse(w: World, r: nat, m: World)
    requires Inv(w) && Inv(m) && r in w.readers && w.readers[r].Resolved?
    requires Pinnable(w, w.readers[r].grantId, w.readers[r].key, w.readers[r].payloadId)
    requires var rd := w.readers[r];
             m == w.(db := Counted(w.db, rd.grantId, Attempt(ReleaseAttempt, rd.grantId, Some(rd.payloadId), false)))
    ensures Inv(FirstUsed(w, r))
  {
    var rd := w.readers[r];
    assert ReaderOk(rd, w.db.grants, w.pins, w.archive, w.entered, w.clock);
    PinKeeps(m, rd.grantId, rd.key, rd.payloadId);
    var n := Pinned(m, rd.grantId, rd.key, rd.payloadId);
    var grant := m.db.grants[rd.grantId];
    if FirstRelease(w, rd, grant).Some? {
      FirstReleaseOk(w, n, rd, grant);
    }
    EndedKeeps(n, r, w.served + [Served(rd.grantId, rd.key, false)], FirstRelease(w, rd, grant));
  }

  lemma FirstReleaseOk(w: World, n: World, rd: Reader, grant: Grant)
    requires Inv(w) && rd.Resolved? && ReaderOk(rd, w.db.grants, w.pins, w.archive, w.entered, w.clock)
    requires Moves(w.db.grants[rd.grantId], grant) && OpenSource(w.process, rd.source, grant).Some?
    requires n.pins == w.pins[(rd.grantId, rd.key) := rd.payloadId] && n.archive == w.archive && n.entered == w.entered
    ensures ReleaseOk(Release(rd.grantId, rd.key, rd.payloadId, OpenSource(w.process, rd.source, grant).value),
                      n.pins, n.archive, n.entered)
  {
  }

  /** A replay writes its audit row and goes on to open the pin. */
  function Replayed(w: World, r: nat): World
    requires r in w.readers && w.readers[r].Resolved? && w.readers[r].grantId in w.db.grants
    requires (w.readers[r].grantId, w.readers[r].key) in w.db.grantReads
  {
    var rd := w.readers[r];
    var row := w.db.grantReads[(rd.grantId, rd.key)];
    w.(db := w.db.(attempts := w.db.attempts + [Attempt(ReleaseAttempt, rd.grantId, row.versionId, true)]),
       readers := w.readers[r := Replaying(rd.grantId, rd.key, w.db.grants[rd.grantId], row.versionId, row.passthrough)],
       served := w.served + [Served(rd.grantId, rd.key, true)])
  }

  lemma AccountReplay(w: World, r: nat)
    requires r in w.readers && w.readers[r].Resolved? && AccountedUse(w, w.readers[r]).Replay?
    ensures w.readers[r].grantId in w.db.grants && (w.readers[r].grantId, w.readers[r].key) in w.db.grantReads
    ensures Account(w, r) == Replayed(w, r)
  {
  }

  lemma ReplayKeeps(w: World, r: nat)
    requires Inv(w) && r in w.readers && w.readers[r].Resolved?
    requires (w.readers[r].grantId, w.readers[r].key) in w.db.grantReads
    ensures w.readers[r].grantId in w.db.grants && Inv(Replayed(w, r))
  {
    var rd := w.readers[r];
    var p := (rd.grantId, rd.key);
    var row := w.db.grantReads[p];
    assert ReadRowOk(p, row, w.pins[p], w.db.grants[p.0], w.archive, w.clock, w.window);
    var replaying := Replaying(p.0, p.1, w.db.grants[p.0], row.versionId, row.passthrough);
    assert ReaderOk(replaying, w.db.grants, w.pins, w.archive, w.entered, w.clock);
  }

  lemma AccountKeeps(w: World, r: nat)
    requires Inv(w) && r in w.readers && w.readers[r].Resolved?
    ensures Inv(Account(w, r))
  {
    var outcome := AccountedUse(w, w.readers[r]);
    if outcome.FirstUse? {
      AccountFirstUse(w, r);
      FirstUseKeeps(w, r);
    } else if outcome.Replay? {
      AccountReplay(w, r);
      ReplayKeeps(w, r);
    } else {
      ReadersKeep(w, Without(w.readers, r));
    }
  }

  lemma FinishKeeps(w: World, r: nat)
    requires Inv(w) && r in w.readers && w.readers[r].Replaying?
    ensures Inv(Finish(w, r))
  {
    var rd := w.readers[r];
    assert ReaderOk(rd, w.db.grants, w.pins, w.archive, w.entered, w.clock);
    var found := OpenReplay(w, rd.grant, rd.grantId, rd.pinned, rd.passthrough);
    var release := if found.Some? then Some(Release(rd.grantId, rd.key, found.value.0, found.value.1)) else None;
    EndedKeeps(w, r, w.served, release);
  }

  // ---------- steps that add or remove rows ----------

  /** A new grant: backed by the row it was decided on, or carrying its own payload. */
  ghost predicate GrantFits(w: World, grantId: Id, g: Grant) {
    && grantId !in w.issued && g.useCount == 0 && g.ephemeral == g.payload.Some?
    && (!g.ephemeral ==> Backing(g, w.db.secrets))
  }

  lemma GrantPayloadOk(w: World, grantId: Id, g: Grant, entered: Entered)
    requires PayloadOk(w.db.grants, w.db.grantReads, w.entered, w.clock, w.window) && GrantFits(w, grantId, g)
    requires Grows(w.entered, entered) && (g.payload.Some? ==> grantId in entered && entered[grantId] == g.payload.value.plaintext)
    requires ReadsOk(w.db.grants, w.db.grantReads, w.pins, w.archive, w.clock, w.window) && grantId !in w.db.grants
    ensures PayloadOk(w.db.grants[grantId := g], w.db.grantReads, entered, w.clock, w.window)
  {
    var grants := w.db.grants[grantId := g];
    forall h | LivePassthrough(grants, h, w.clock) && h != grantId ensures LivePassthrough(w.db.grants, h, w.clock) {
    }
  }

  lemma GrantAddedTables(w: World, db: Tables, grantId: Id, p: GrantParams, g: Grant, ids: set<Id>)
    requires TablesOk(w) && GrantFits(w, grantId, g) && grantId in ids && g.payload == p.passthrough
    requires db == w.db.(grants := w.db.grants[grantId := g], requests := db.requests, notes := db.notes)
    requires db.requests.Keys <= w.issued + ids
    ensures TablesOk(RecordGrant(w, grantId, p, ids).(db := db))
  {
    var n := RecordGrant(w, grantId, p, ids).(db := db);
    assert Grows(w.entered, n.entered) && GrantsMove(w.db.grants, n.db.grants);
    GrantPayloadOk(w, grantId, g, n.entered);
    ReadsFrame(w.db.grantReads, w, n);
  }

  /** A grant row added, whatever happens to requests and notes beside it. */
  lemma GrantAdded(w: World, db: Tables, grantId: Id, p: GrantParams, g: Grant, ids: set<Id>)
    requires Inv(w) && GrantFits(w, grantId, g) && grantId in ids && g.payload == p.passthrough
    requires db == w.db.(grants := w.db.grants[grantId := g], requests := db.requests, notes := db.notes)
    requires db.requests.Keys <= w.issued + ids
    ensures Inv(RecordGrant(w, grantId, p, ids).(db := db))
  {
    GrantAddedTables(w, db, grantId, p, g, ids);
    AddedInFlight(w, RecordGrant(w, grantId, p, ids).(db := db), grantId, g);
  }

  /** What is in flight and what was released do not mind a new grant. */
  lemma AddedInFlight(w: World, n: World, grantId: Id, g: Grant)
    requires ReadersOk(w.readers, w.db.grants, w.pins, w.archive, w.entered, w.clock)
    requires ReleasesOk(w.releases, w.db.grants, w.pins, w.archive, w.entered)
    requires grantId !in w.db.grants && n.db.grants == w.db.grants[grantId := g] && n.clock == w.clock
    requires n.pins == w.pins && n.archive == w.archive && Grows(w.entered, n.entered)
    ensures ReadersOk(w.readers, n.db.grants, n.pins, n.archive, n.entered, n.clock)
    ensures ReleasesOk(w.releases, n.db.grants, n.pins, n.archive, n.entered)
  {
    ReadersFrame(w.readers, w, n);
    ReleasesFrame(w.releases, w, n);
  }

  /** Live grants stay backed as long as the rows they were decided on keep their names. */
  lemma BackingFrame(grants: Grants, a: map<Id, Secret>, b: map<Id, Secret>, clock: Time)
    requires BackingOk(grants, a, clock)
    requires forall s :: s in a ==> s in b && b[s].name == a[s].name
    ensures BackingOk(grants, b, clock)
  {
    forall g | g in grants && !grants[g].ephemeral && Live(grants[g], clock) ensures Backing(grants[g], b) {
      assert Backing(grants[g], a);
    }
  }

  /** New version rows, with whatever secret rows go with them. */
  lemma VersionsAdded(w: World, n: World)
    requires Inv(w)
    requires n == w.(db := w.db.(secrets := n.db.secrets, versions := n.db.versions, events := n.db.events),
                     archive := n.archive, names := n.names, issued := n.issued)
    requires IssuedOk(n) && NamesUnique(n.db.secrets) && Grows(w.archive, n.archive)
    requires HistoryOk(n.db.secrets, n.db.versions, n.archive, n.names)
    requires forall s :: s in w.db.secrets ==> s in n.db.secrets && n.db.secrets[s].name == w.db.secrets[s].name
    ensures Inv(n)
  {
    assert GrantsMove(w.db.grants, n.db.grants);
    ReadsFrame(w.db.grantReads, w, n);
    ReadersFrame(w.readers, w, n);
    ReleasesFrame(w.releases, w, n);
    BackingFrame(w.db.grants, w.db.secrets, n.db.secrets, w.clock);
  }

  lemma SecretAdded(w: World, s: NewSecret, origin: Provenance)
    requires Inv(w) && FreshSecret(w, s) && !NameTaken(w.db, s.name)
    ensures Inv(RecordSecret(w, s).(db := InsertSecret(w.db, s, origin)))
  {
    var n := RecordSecret(w, s).(db := InsertSecret(w.db, s, origin));
    SecretHistory(w.db, s, origin, w.archive, w.names);
    SecretNames(w.db, s, origin);
    VersionsAdded(w, n);
  }

  lemma SecretNames(db: Tables, s: NewSecret, origin: Provenance)
    requires NamesUnique(db.secrets) && !NameTaken(db, s.name) && s.secretId !in db.secrets
    ensures var n := InsertSecret(db, s, origin);
            NamesUnique(n.secrets) && forall t :: t in db.secrets ==> t in n.secrets && n.secrets[t] == db.secrets[t]
  {
  }

  lemma SecretHistory(db: Tables, s: NewSecret, origin: Provenance, archive: Archive, names: map<Id, string>)
    requires HistoryOk(db.secrets, db.versions, archive, names)
    requires s.versionId !in archive && s.secretId !in names && s.secretId !in db.secrets
    ensures var n := InsertSecret(db, s, origin);
            HistoryOk(n.secrets, n.versions, archive[s.versionId := Version(s.secretId, 1, s.plaintext)], names[s.secretId := s.name])
  {
  }

  lemma CreateKeeps(w: World, s: NewSecret, depositor: Option<string>)
    requires Inv(w) && FreshSecret(w, s)
    ensures Inv(CreateAt(w, s, depositor))
  {
    if !NameTaken(w.db, s.name) {
      SecretAdded(w, s, Creator(depositor));
    }
  }

  lemma ApproveKeeps(w: World, request: Id, grantId: Id, p: GrantParams, store: Option<NewSecret>)
    requires Inv(w) && MayApprove(w, grantId, p, store)
    ensures Inv(ApproveAt(w, request, grantId, p, store))
  {
    var (db, outcome) := ApproveRequest(w.db, w.clock, request, grantId, p, store);
    if outcome.ApprovedAs? {
      if store.None? {
        GrantAdded(w, db, grantId, p, NewGrant(request, p, p.secretId), {grantId});
      } else {
        SecretAdded(w, store.value, ByRequest(request));
        var m := RecordSecret(w, store.value).(db := InsertSecret(w.db, store.value, ByRequest(request)));
        GrantAdded(m, db, grantId, p, NewGrant(request, p, Some(store.value.secretId)), {grantId});
      }
    }
  }

  lemma InsertKeeps(w: World, request: Id, req: NewRequest, cap: Option<nat>, resolution: Resolution, grantId: Id)
    requires Inv(w) && request !in w.issued && grantId !in w.issued
    ensures Inv(InsertAt(w, request, req, cap, resolution, grantId))
  {
    var (db, outcome) := InsertRequest(w.db, w.clock, request, req, cap, resolution, grantId);
    if outcome.Created? && resolution.PolicyApproved? {
      GrantAdded(w, db, grantId, resolution.params,
                 NewGrant(request, resolution.params, resolution.params.secretId), {request, grantId});
    } else {
      RequestsKeep(w, db, {request, grantId});
    }
  }

  lemma RequestsKeep(w: World, db: Tables, ids: set<Id>)
    requires Inv(w)
    requires db == w.db.(requests := db.requests, notes := db.notes) && db.requests.Keys <= w.issued + ids
    ensures Inv(w.(db := db, issued := w.issued + ids))
  {
  }

  lemma VetKeeps(w: World, secretId: Id, reviewed: nat)
    requires Inv(w)
    ensures Inv(w.(db := MarkVetted(w.db, secretId, reviewed).0))
  {
    var n := w.(db := MarkVetted(w.db, secretId, reviewed).0);
    VersionsAdded(w, n);
  }

  lemma RotateKeeps(w: World, secretId: Id, name: string, versionId: Id, plaintext: bytes)
    requires Inv(w) && versionId !in w.issued
    ensures Inv(RotateAt(w, secretId, name, versionId, plaintext))
  {
    if secretId in w.db.secrets {
      VersionsAdded(w, RotateAt(w, secretId, name, versionId, plaintext));
    }
  }

  /** Deletion takes the rows of one secret and revokes what they backed. */
  lemma DeleteBackingOk(db: Tables, clock: Time, secretId: Id, expected: nat)
    requires BackingOk(db.grants, db.secrets, clock)
    ensures var n := DeleteSecret(db, clock, secretId, expected).0; BackingOk(n.grants, n.secrets, clock)
  {
    var n := DeleteSecret(db, clock, secretId, expected).0;
    forall g | g in n.grants && !n.grants[g].ephemeral && Live(n.grants[g], clock) ensures Backing(n.grants[g], n.secrets) {
      assert Backing(db.grants[g], db.secrets);
    }
  }

  lemma DeleteKeeps(w: World, secretId: Id, expected: nat)
    requires Inv(w)
    ensures Inv(w.(db := DeleteSecret(w.db, w.clock, secretId, expected).0))
  {
    var db := DeleteSecret(w.db, w.clock, secretId, expected).0;
    var n := w.(db := db);
    DeleteMovesGrants(w.db, w.clock, secretId, expected);
    PayloadFrame(w.db.grants, db.grants, w.db.grantReads, w.entered, w.clock, w.window);
    ReadsFrame(w.db.grantReads, w, n);
    ReadersFrame(w.readers, w, n);
    ReleasesFrame(w.releases, w, n);
    DeleteBackingOk(w.db, w.clock, secretId, expected);
    DeleteHistoryOk(w.db, w.clock, secretId, expected, w.archive, w.names);
  }

  lemma DeleteHistoryOk(db: Tables, clock: Time, secretId: Id, expected: nat, archive: Archive, names: map<Id, string>)
    requires HistoryOk(db.secrets, db.versions, archive, names)
    ensures var n := DeleteSecret(db, clock, secretId, expected).0; HistoryOk(n.secrets, n.versions, archive, names)
  {
  }

  lemma DeleteMovesGrants(db: Tables, clock: Time, secretId: Id, expected: nat)
    ensures var n := DeleteSecret(db, clock, secretId, expected).0;
            && GrantsMove(db.grants, n.grants) && n.grants.Keys == db.grants.Keys
            && (forall g :: g in n.grants && Live(n.grants[g], clock) ==> n.grants[g].payload == db.grants[g].payload)
            && n.grantReads == db.grantReads && n.requests == db.requests
  {
  }

  lemma ReadActKeeps(w: World, a: Action)
    requires Inv(w) && CanAct(w, a)
    requires a.ReadStart? || a.ReadLocate? || a.ReadResolve? || a.ReadAccount? || a.ReadFinish? || a.ReadAbort?
    ensures Inv(Act(w, a))
  {
    match a
    case ReadStart(r, g, key) => StartKeeps(w, r, g, key);
    case ReadLocate(r, secret) => LocateKeeps(w, r, secret);
    case ReadResolve(r, version) => ResolveKeeps(w, r, version);
    case ReadAccount(r) => AccountKeeps(w, r);
    case ReadFinish(r) => FinishKeeps(w, r);
    case ReadAbort(r) => ReadersKeep(w, Without(w.readers, r));
  }

  lemma ActKeeps(w: World, a: Action)
    requires Inv(w) && CanAct(w, a)
    ensures Inv(Act(w, a))
  {
    match a
    case ProxyUse(g, credential) => ProxyKeeps(w, g, credential);
    case RevokeOne(g) => RevokeKeeps(w, g);
    case Sweep => SweepKeeps(w);
    case Unpin => UnpinKeeps(w);
    case Approve(request, grantId, p, store) => ApproveKeeps(w, request, grantId, p, store);
    case Insert(request, req, cap, resolution, grantId) => InsertKeeps(w, request, req, cap, resolution, grantId);
    case Deny(request) => DenyKeeps(w, request);
    case Expire => ExpireKeeps(w);
    case Create(secret, depositor) => CreateKeeps(w, secret, depositor);
    case Rotate(secretId, name, versionId, plaintext) => RotateKeeps(w, secretId, name, versionId, plaintext);
    case Vet(secretId, reviewed) => VetKeeps(w, secretId, reviewed);
    case Delete(secretId, expected) => DeleteKeeps(w, secretId, expected);
    case Restart => RestartKeeps(w);
    case _ => ReadActKeeps(w, a);
  }

  lemma DenyKeeps(w: World, request: Id)
    requires Inv(w)
    ensures Inv(w.(db := DenyRequest(w.db, w.clock, request).0))
  {
    RequestsKeep(w, DenyRequest(w.db, w.clock, request).0, {});
    assert w.issued + {} == w.issued;
  }

  lemma ExpireKeeps(w: World)
    requires Inv(w)
    ensures Inv(w.(db := ExpireStale(w.db, w.clock)))
  {
    RequestsKeep(w, ExpireStale(w.db, w.clock), {});
    assert w.issued + {} == w.issued;
  }

  lemma RestartKeeps(w: World)
    requires Inv(w)
    ensures Inv(w.(process := w.process + 1, readers := map[]))
  {
  }

  // ---------- runs ----------

  lemma {:induction false} RunKeeps(ws: seq<World>, steps: seq<Step>, i: nat)
    requires Run(ws, steps) && i < |ws|
    ensures Inv(ws[i])
  {
    if i == 0 {
      InitInv(ws[0].window);
    } else {
      RunKeeps(ws, steps, i - 1);
      StepTaken(ws, steps, i - 1);
      ClockKeeps(ws[i - 1], steps[i - 1].now);
      ActKeeps(ws[i - 1].(clock := steps[i - 1].now), steps[i - 1].action);
    }
  }

  lemma RunIssuesOnce(ws: seq<World>, steps: seq<Step>, i: nat)
    requires Run(ws, steps) && i < |ws|
    ensures IssuedOk(ws[i])
  {
    RunKeeps(ws, steps, i);
  }

  /** Whatever interleaves, every release of one (grant, key) is of the same payload id and the same
      bytes: those of the key's first use. */
  lemma ReleasesOfAKeyAgree(ws: seq<World>, steps: seq<Step>, i: nat, a: Release, b: Release)
    requires Run(ws, steps) && i < |ws| && a in ws[i].releases && b in ws[i].releases
    requires a.grantId == b.grantId && a.key == b.key
    ensures a.payloadId == b.payloadId && a.plaintext == b.plaintext
    ensures (a.grantId, a.key) in ws[i].pins && a.payloadId == ws[i].pins[(a.grantId, a.key)]
  {
    RunKeeps(ws, steps, i);
  }

  /** A same-key read of a live grant inside the window is a replay, and the replay finds the pinned
      version row, or the payload (which opens unless the process that wrapped it is gone). */
  lemma ReplayFindsThePin(ws: seq<World>, steps: seq<Step>, i: nat, now: Time, g: Id, key: string, resolved: Option<Id>)
    requires Run(ws, steps) && i < |ws| && ws[i].clock <= now
    requires g in ws[i].db.grants && Live(ws[i].db.grants[g], now)
    requires (g, key) in ws[i].db.grantReads && InWindow(ws[i].db.grantReads[(g, key)], now, ws[i].window)
    ensures (g, key) in ws[i].pins
    ensures BeginGrantUse(ws[i].db, now, g, Some(key), resolved, ReleaseAttempt, ws[i].window).1
              == Replay(ws[i].db.grants[g], Some(ws[i].pins[(g, key)]), ws[i].db.grants[g].ephemeral)
    ensures var grant, pin := ws[i].db.grants[g], ws[i].pins[(g, key)];
            if grant.ephemeral then
              grant.payload.Some? && g in ws[i].entered && grant.payload.value.plaintext == ws[i].entered[g]
            else
              pin in ws[i].db.versions && pin in ws[i].archive
              && OpenReplay(ws[i], grant, g, Some(pin), false) == Some((pin, ws[i].archive[pin].plaintext))
  {
    RunKeeps(ws, steps, i);
    ClockKeeps(ws[i], now);
    var w := ws[i].(clock := now);
    var p := (g, key);
    assert ReadRowOk(p, w.db.grantReads[p], w.pins[p], w.db.grants[g], w.archive, w.clock, w.window);
    if w.db.grants[g].ephemeral {
      assert LivePassthrough(w.db.grants, p.0, w.clock);
    } else {
      assert Backing(w.db.grants[g], w.db.secrets);
    }
  }

  /** Every live grant without a payload of its own is backed by the secret row its approval checked,
      still there under the name the grant carries. */
  lemma LiveGrantsAreBacked(ws: seq<World>, steps: seq<Step>, i: nat, g: Id)
    requires Run(ws, steps) && i < |ws| && g in ws[i].db.grants
    requires Live(ws[i].db.grants[g], ws[i].clock) && !ws[i].db.grants[g].ephemeral
    ensures Backing(ws[i].db.grants[g], ws[i].db.secrets)
  {
    RunKeeps(ws, steps, i);
  }

  /** A live passthrough grant keeps the payload it was approved with as long as a use remains or a
      read is inside the replay window. */
  lemma LivePassthroughKeepsItsPayload(ws: seq<World>, steps: seq<Step>, i: nat, g: Id)
    requires Run(ws, steps) && i < |ws| && LivePassthrough(ws[i].db.grants, g, ws[i].clock)
    requires UseRemains(ws[i].db.grants[g]) || ReplayOpen(ws[i].db.grantReads, g, ws[i].clock, ws[i].window)
    ensures g in ws[i].entered && ws[i].db.grants[g].payload.Some?
    ensures ws[i].db.grants[g].payload.value.plaintext == ws[i].entered[g]
  {
    RunKeeps(ws, steps, i);
    if !UseRemains(ws[i].db.grants[g]) {
      var p :| p in ws[i].db.grantReads && p.0 == g && InWindow(ws[i].db.grantReads[p], ws[i].clock, ws[i].window);
      assert LivePassthrough(ws[i].db.grants, p.0, ws[i].clock);
    }
  }
}
