/**
  The command line client against the broker: it retries the creation of its
  request and the read of its grant under fixed keys.

  Replies are lost, delayed, garbled or never sent, handlers run whether or not
  their client hears of it, and other clients and the operator act in between:
  any run of the broker, with replies that tell the truth about some moment of
  it. What is proved is that the retries are harmless.
 */
module CliRetry {
  import opened Wrappers
  import opened Store
  import opened World
  import opened Frames
  import opened GrantSafety
  import opened RequestLifecycle
  import Accounting

  // ---------- rows, grants and releases stay ----------

  /** Grants keep their request, and what was released stays released. */
  ghost predicate Persists(a: World, b: World) {
    GrantsPersist(a.db.grants, b.db.grants) && a.releases <= b.releases
  }

  ghost predicate GrantsPersist(a: Grants, b: Grants) {
    forall g :: g in a ==> g in b && b[g].requestId == a[g].requestId
  }

  lemma FinishPersists(w: World, r: nat)
    requires r in w.readers && w.readers[r].Replaying?
    ensures Persists(w, Finish(w, r))
  {
  }

  /** Accounting a use touches one grant's count. */
  lemma UseKeepsRequest(t: Tables, now: Time, g: Id, key: Option<string>, v: Option<Id>, kind: AttemptKind, window: nat)
    ensures var n := BeginGrantUse(t, now, g, key, v, kind, window).0;
            n.grants.Keys == t.grants.Keys && forall h :: h in t.grants ==> n.grants[h].requestId == t.grants[h].requestId
  {
  }

  lemma FirstUsedPersists(w: World, r: nat)
    requires r in w.readers && w.readers[r].Resolved? && w.readers[r].grantId in w.db.grants
    ensures Persists(w, FirstUsed(w, r))
  {
  }

  lemma ReplayedPersists(w: World, r: nat)
    requires r in w.readers && w.readers[r].Resolved? && w.readers[r].grantId in w.db.grants
    requires (w.readers[r].grantId, w.readers[r].key) in w.db.grantReads
    ensures Persists(w, Replayed(w, r))
  {
  }

  lemma AccountPersists(w: World, r: nat)
    requires r in w.readers && w.readers[r].Resolved?
    ensures Persists(w, Account(w, r))
  {
    var outcome := AccountedUse(w, w.readers[r]);
    if outcome.FirstUse? {
      AccountFirstUse(w, r);
      FirstUsedPersists(w, r);
    } else if outcome.Replay? {
      AccountReplay(w, r);
      ReplayedPersists(w, r);
    }
  }

  lemma ProxyPersists(w: World, g: Id, credential: Id)
    ensures Persists(w, Proxy(w, g, credential))
  {
    UseKeepsRequest(w.db, w.clock, g, None, Some(credential), ProxyAttempt, w.window);
  }

  lemma SweepPersists(w: World, a: Action)
    requires CanAct(w, a) && (a.RevokeOne? || a.Sweep?)
    ensures Persists(w, Act(w, a))
  {
  }

  lemma ApprovePersists(w: World, request: Id, grantId: Id, p: GrantParams, store: Option<NewSecret>)
    requires IssuedOk(w) && grantId !in w.issued
    ensures Persists(w, ApproveAt(w, request, grantId, p, store))
  {
    Accounting.ApproveIsQuiet(w, request, grantId, p, store);
  }

  lemma InsertPersists(w: World, request: Id, req: NewRequest, cap: Option<nat>, resolution: Resolution, grantId: Id)
    requires IssuedOk(w) && grantId !in w.issued
    ensures Persists(w, InsertAt(w, request, req, cap, resolution, grantId))
  {
    InsertTables(w, request, req, cap, resolution, grantId);
    InsertShape(w.db, w.clock, request, req, cap, resolution, grantId);
  }

  lemma DeletePersists(w: World, secretId: Id, expected: nat)
    ensures Persists(w, w.(db := DeleteSecret(w.db, w.clock, secretId, expected).0))
  {
    DeleteMovesGrants(w.db, w.clock, secretId, expected);
  }

  lemma ActPersists(w: World, a: Action)
    requires IssuedOk(w) && CanAct(w, a)
    ensures Persists(w, Act(w, a))
  {
    if a.ReadAccount? {
      AccountPersists(w, a.reader);
    } else if a.ReadFinish? {
      FinishPersists(w, a.reader);
    } else if a.ProxyUse? {
      ProxyPersists(w, a.grantId, a.credential);
    } else if a.RevokeOne? || a.Sweep? {
      SweepPersists(w, a);
    } else if a.Approve? {
      ApprovePersists(w, a.request, a.grantId, a.params, a.store);
    } else if a.Insert? {
      InsertPersists(w, a.request, a.req, a.cap, a.resolution, a.grantId);
    } else if a.Delete? {
      DeletePersists(w, a.secretId, a.expected);
    } else {
      ActFrame(w, a);
    }
  }

  lemma GrantsPersistOn(a: Grants, b: Grants, c: Grants)
    requires GrantsPersist(a, b) && GrantsPersist(b, c)
    ensures GrantsPersist(a, c)
  {
  }

  lemma RunStepPersists(ws: seq<World>, steps: seq<Step>, j: nat)
    requires Run(ws, steps) && j < |steps|
    ensures Persists(ws[j], ws[j + 1])
  {
    RunIssuesOnce(ws, steps, j);
    StepTaken(ws, steps, j);
    ActPersists(ws[j].(clock := steps[j].now), steps[j].action);
  }

  lemma {:induction false} RunPersists(ws: seq<World>, steps: seq<Step>, i: nat, j: nat)
    requires Run(ws, steps) && i <= j < |ws|
    ensures GrantsPersist(ws[i].db.grants, ws[j].db.grants) && ws[i].releases <= ws[j].releases
    decreases j - i
  {
    if i < j {
      RunPersists(ws, steps, i, j - 1);
      RunStepPersists(ws, steps, j - 1);
      GrantsPersistOn(ws[i].db.grants, ws[j - 1].db.grants, ws[j].db.grants);
    }
  }

  // ---------- what a truthful reply can say ----------

  /** One invocation's fixed keys: the request key `key`, and `cli-` before it for reads. */
  datatype Session = Session(client: string, key: string, mac: bytes)

  /** `read_idempotency_key`. */
  function ReadKey(s: Session): string {
    "cli-" + s.key
  }

  datatype Status = Status(request: Id, state: RequestState, grant: Option<Id>)

  predicate IsRowOf(w: World, s: Session, r: Id) {
    r in w.db.requests && HasIdem(w.db.requests[r], s.client, s.key) && w.db.requests[r].mac == s.mac
  }

  /** The create handler found the row of the key, and its MAC is this body's; otherwise it answers 409. */
  ghost predicate Found(ws: seq<World>, i: nat, s: Session, r: Id) {
    i < |ws| && FindByIdem(ws[i].db, s.client, s.key) == Some(r) && ws[i].db.requests[r].mac == s.mac
  }

  /** The create handler's insert made the row, or met one made in between whose MAC is this body's. */
  ghost predicate Inserted(ws: seq<World>, steps: seq<Step>, i: nat, s: Session, r: Id) {
    && i < |steps| && i + 1 < |ws| && steps[i].action.Insert?
    && var a := steps[i].action;
       && a.req.client == s.client && a.req.idemKey == s.key && a.req.mac == s.mac
       && match InsertRequest(ws[i].db, steps[i].now, a.request, a.req, a.cap, a.resolution, a.grantId).1
          case Created(id, _) => id == r
          case Existing(id) => id == r && id in ws[i].db.requests && ws[i].db.requests[id].mac == s.mac
          case _ => false
  }

  /** Then the row and its grant, if it has one, are read at some moment. */
  ghost predicate GrantRead(ws: seq<World>, j: nat, r: Id, grant: Option<Id>) {
    j < |ws| && (grant.Some? ==> GrantOf(ws[j].db.grants, grant.value, r))
  }

  ghost predicate CreateReplied(ws: seq<World>, steps: seq<Step>, s: Session, st: Status) {
    && (exists i :: Found(ws, i, s, st.request) || Inserted(ws, steps, i, s, st.request))
    && exists j :: GrantRead(ws, j, st.request, st.grant)
  }

  ghost predicate WaitReplied(ws: seq<World>, r: Id, st: Status) {
    st.request == r && exists j :: GrantRead(ws, j, r, st.grant)
  }

  ghost predicate ReleasedAt(ws: seq<World>, k: nat, g: Id, key: string, a: Release) {
    k < |ws| && a in ws[k].releases && a.grantId == g && a.key == key
  }

  ghost predicate ReadOut(ws: seq<World>, g: Id, key: string, plaintext: bytes) {
    exists k, a :: ReleasedAt(ws, k, g, key, a) && a.plaintext == plaintext
  }

  // ---------- one row, one grant, one use, one plaintext ----------

  /** Whichever way the handler got it, it answers with the row of the key. */
  lemma CreatedRow(ws: seq<World>, steps: seq<Step>, i: nat, s: Session, r: Id) returns (j: nat)
    requires Run(ws, steps) && (Found(ws, i, s, r) || Inserted(ws, steps, i, s, r))
    ensures j < |ws| && IsRowOf(ws[j], s, r)
  {
    if Found(ws, i, s, r) {
      j := i;
    } else {
      j := i + 1;
      StepTaken(ws, steps, i);
      InsertAnswers(ws[i].(clock := steps[i].now), steps[i].action, s, r);
      if r in ws[i].db.requests {
        ResolvedStaysResolved(ws, steps, i, j, r);
      }
    }
  }

  lemma InsertAnswers(w: World, a: Action, s: Session, r: Id)
    requires a.Insert? && a.req.client == s.client && a.req.idemKey == s.key && a.req.mac == s.mac
    requires var outcome := InsertRequest(w.db, w.clock, a.request, a.req, a.cap, a.resolution, a.grantId).1;
             (outcome.Created? || outcome.Existing?) && outcome.request == r
             && (outcome.Existing? ==> r in w.db.requests && w.db.requests[r].mac == s.mac)
    ensures IsRowOf(w, s, r) || IsRowOf(InsertAt(w, a.request, a.req, a.cap, a.resolution, a.grantId), s, r)
  {
  }

  /** The rows of one key, seen at whatever moments, are one row. */
  lemma OneRow(ws: seq<World>, steps: seq<Step>, i: nat, j: nat, client: string, key: string, r: Id, q: Id)
    requires Run(ws, steps) && i <= j < |ws|
    requires r in ws[i].db.requests && HasIdem(ws[i].db.requests[r], client, key)
    requires q in ws[j].db.requests && HasIdem(ws[j].db.requests[q], client, key)
    ensures r == q
  {
    ResolvedStaysResolved(ws, steps, i, j, r);
    RunKeepsLife(ws, steps, j);
  }

  /** The grants of one request, seen at whatever moments, are one grant. */
  lemma OneGrant(ws: seq<World>, steps: seq<Step>, i: nat, j: nat, r: Id, g: Id, h: Id)
    requires Run(ws, steps) && i <= j < |ws| && GrantOf(ws[i].db.grants, g, r) && GrantOf(ws[j].db.grants, h, r)
    ensures g == h
  {
    RunPersists(ws, steps, i, j);
    RunKeepsLife(ws, steps, j);
  }

  /** The releases of one grant and key, seen at whatever moments, are of one plaintext. */
  lemma OnePlaintext(ws: seq<World>, steps: seq<Step>, i: nat, j: nat, a: Release, b: Release)
    requires Run(ws, steps) && i <= j < |ws| && a in ws[i].releases && b in ws[j].releases
    requires a.grantId == b.grantId && a.key == b.key
    ensures a.plaintext == b.plaintext
  {
    RunPersists(ws, steps, i, j);
    ReleasesOfAKeyAgree(ws, steps, j, a, b);
  }

  /** All that the retries of a key, by however many invocations, ever did to the broker. */
  lemma SessionHappensOnce(ws: seq<World>, steps: seq<Step>, n: nat, s: Session, r: Id, q: Id, g: Id, h: Id)
    requires Run(ws, steps) && n < |ws|
    requires r in ws[n].db.requests && HasIdem(ws[n].db.requests[r], s.client, s.key)
    requires q in ws[n].db.requests && HasIdem(ws[n].db.requests[q], s.client, s.key)
    requires GrantOf(ws[n].db.grants, g, r) && GrantOf(ws[n].db.grants, h, q)
    ensures r == q && g == h
    ensures Accounting.CountFirstUses(ws[n].served, g, ReadKey(s)) <= 1
  {
    OneRow(ws, steps, n, n, s.client, s.key, r, q);
    OneGrant(ws, steps, n, n, r, g, h);
    Accounting.UsesAreAccounted(ws, steps, n, g, ReadKey(s));
  }

  /** What a session can come to print. */
  ghost predicate Received(ws: seq<World>, steps: seq<Step>, s: Session, plaintext: bytes) {
    exists r, g :: ReceivedVia(ws, steps, s, r, g, plaintext)
  }

  ghost predicate ReceivedVia(ws: seq<World>, steps: seq<Step>, s: Session, r: Id, g: Id, plaintext: bytes) {
    && (exists i :: Found(ws, i, s, r) || Inserted(ws, steps, i, s, r))
    && (exists j :: GrantRead(ws, j, r, Some(g)))
    && ReadOut(ws, g, ReadKey(s), plaintext)
  }

  lemma SameRow(ws: seq<World>, steps: seq<Step>, s: Session, i: nat, j: nat, r: Id, q: Id)
    requires Run(ws, steps)
    requires Found(ws, i, s, r) || Inserted(ws, steps, i, s, r)
    requires Found(ws, j, s, q) || Inserted(ws, steps, j, s, q)
    ensures r == q
  {
    var m := CreatedRow(ws, steps, i, s, r);
    var n := CreatedRow(ws, steps, j, s, q);
    if m <= n {
      OneRow(ws, steps, m, n, s.client, s.key, r, q);
    } else {
      OneRow(ws, steps, n, m, s.client, s.key, q, r);
    }
  }

  lemma SameGrant(ws: seq<World>, steps: seq<Step>, i: nat, j: nat, r: Id, g: Id, h: Id)
    requires Run(ws, steps) && GrantRead(ws, i, r, Some(g)) && GrantRead(ws, j, r, Some(h))
    ensures g == h
  {
    if i <= j {
      OneGrant(ws, steps, i, j, r, g, h);
    } else {
      OneGrant(ws, steps, j, i, r, h, g);
    }
  }

  lemma SamePlaintext(ws: seq<World>, steps: seq<Step>, g: Id, key: string, x: bytes, y: bytes)
    requires Run(ws, steps) && ReadOut(ws, g, key, x) && ReadOut(ws, g, key, y)
    ensures x == y
  {
    var i, a :| ReleasedAt(ws, i, g, key, a) && a.plaintext == x;
    var j, b :| ReleasedAt(ws, j, g, key, b) && b.plaintext == y;
    if i <= j {
      OnePlaintext(ws, steps, i, j, a, b);
    } else {
      OnePlaintext(ws, steps, j, i, b, a);
    }
  }

  /** However many times it is run and whatever is lost, a session only ever receives one plaintext. */
  lemma ReceivedAgree(ws: seq<World>, steps: seq<Step>, s: Session, x: bytes, y: bytes)
    requires Run(ws, steps) && Received(ws, steps, s, x) && Received(ws, steps, s, y)
    ensures x == y
  {
    var r, g :| ReceivedVia(ws, steps, s, r, g, x);
    var q, h :| ReceivedVia(ws, steps, s, q, h, y);
    var i :| Found(ws, i, s, r) || Inserted(ws, steps, i, s, r);
    var j :| Found(ws, j, s, q) || Inserted(ws, steps, j, s, q);
    SameRow(ws, steps, s, i, j, r, q);
    var m :| GrantRead(ws, m, r, Some(g));
    var n :| GrantRead(ws, n, q, Some(h));
    SameGrant(ws, steps, m, n, r, g, h);
    SamePlaintext(ws, steps, g, ReadKey(s), x, y);
  }
}
