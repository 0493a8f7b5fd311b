/**
  Requests resolve at most once, an approval mints exactly one grant, and the
  audit log says exactly what happened, in every reachable world.
 */
module RequestLifecycle {
  import opened Wrappers
  import opened Store
  import opened World
  import opened Frames
  import opened GrantSafety

  type Requests = map<Id, Request>

  function Flag(b: bool): nat {
    if b then 1 else 0
  }

  /** Grants and approved requests pair off: `request_id` is unique and never dangles. */
  ghost predicate GrantsMatch(requests: Requests, grants: Grants) {
    && (forall g :: g in grants ==> grants[g].requestId in requests && requests[grants[g].requestId].state == Approved)
    && (forall g, h :: g in grants && h in grants && grants[g].requestId == grants[h].requestId ==> g == h)
    && (forall r :: r in requests && requests[r].state == Approved ==> exists g :: g in grants && grants[g].requestId == r)
  }

  /** `UNIQUE (idem_client, idem_key)`. */
  ghost predicate IdemUnique(requests: Requests) {
    forall r, q :: r in requests && q in requests && HasIdem(requests[r], requests[q].client, requests[q].idemKey) ==> r == q
  }

  ghost predicate InState(requests: Requests, r: Id, state: RequestState) {
    r in requests && requests[r].state == state
  }

  ghost predicate GrantOf(grants: Grants, g: Id, r: Id) {
    g in grants && grants[g].requestId == r
  }

  /** One audit row for each thing that happened, and none for what did not. */
  ghost predicate RequestNotes(requests: Requests, notes: multiset<Note>) {
    && (forall r: Id :: notes[RequestCreated(r)] == Flag(r in requests))
    && (forall r: Id :: notes[RequestDenied(r)] == Flag(InState(requests, r, Denied)))
    && (forall r: Id :: notes[RequestExpired(r)] == Flag(InState(requests, r, Expired)))
  }

  ghost predicate GrantNotes(grants: Grants, notes: multiset<Note>) {
    && (forall g: Id, r: Id :: notes[RequestApproved(r, g)] == Flag(GrantOf(grants, g, r)))
    && (forall g: Id :: notes[GrantRevoked(g)] == Flag(g in grants && grants[g].revoked))
  }

  ghost predicate LifeOk(requests: Requests, grants: Grants, notes: multiset<Note>) {
    GrantsMatch(requests, grants) && IdemUnique(requests) && RequestNotes(requests, notes) && GrantNotes(grants, notes)
  }

  ghost predicate Life(w: World) {
    LifeOk(w.db.requests, w.db.grants, w.db.notes)
  }

  // ---------- steps ----------

  /** Grants keep their identity and revocations are noted. */
  lemma GrantsMoveKeepLife(a: World, b: World, revoked: set<Id>)
    requires Life(a) && b.db.requests == a.db.requests && b.db.grants.Keys == a.db.grants.Keys
    requires forall g :: g in a.db.grants ==> b.db.grants[g].requestId == a.db.grants[g].requestId
    requires forall g :: g in a.db.grants ==> b.db.grants[g].revoked == (a.db.grants[g].revoked || g in revoked)
    requires forall g :: g in revoked ==> g in a.db.grants && !a.db.grants[g].revoked
    requires b.db.notes == a.db.notes + multiset(set g | g in revoked :: GrantRevoked(g))
    ensures Life(b)
  {
    forall r | r in b.db.requests && b.db.requests[r].state == Approved
      ensures exists g :: g in b.db.grants && b.db.grants[g].requestId == r
    {
      var g :| g in a.db.grants && a.db.grants[g].requestId == r;
      assert b.db.grants[g].requestId == r;
    }
    forall g: Id, r: Id ensures GrantOf(b.db.grants, g, r) == GrantOf(a.db.grants, g, r) {
    }
  }

  lemma RevokeKeepsLife(w: World, g: Id)
    requires Life(w)
    ensures Life(w.(db := RevokeGrant(w.db, g).0))
  {
    if g in w.db.grants && !w.db.grants[g].revoked {
      assert (set h | h in {g} :: GrantRevoked(h)) == {GrantRevoked(g)};
      GrantsMoveKeepLife(w, w.(db := RevokeGrant(w.db, g).0), {g});
    }
  }

  lemma DeleteKeepsLife(w: World, secretId: Id, expected: nat)
    requires Life(w)
    ensures Life(w.(db := DeleteSecret(w.db, w.clock, secretId, expected).0))
  {
    if DeleteSecret(w.db, w.clock, secretId, expected).1.Deleted? {
      var backed := Backed(w.db.grants, w.db.secrets[secretId].name, w.clock);
      GrantsMoveKeepLife(w, w.(db := DeleteSecret(w.db, w.clock, secretId, expected).0), backed);
    }
  }

  /** Steps that leave requests, revocations and notes alone. */
  ghost predicate SameLife(a: World, b: World) {
    && b.db.requests == a.db.requests && b.db.notes == a.db.notes && b.db.grants.Keys == a.db.grants.Keys
    && forall g :: g in a.db.grants ==>
         b.db.grants[g].requestId == a.db.grants[g].requestId && b.db.grants[g].revoked == a.db.grants[g].revoked
  }

  lemma SameKeepsLife(a: World, b: World)
    requires Life(a) && SameLife(a, b)
    ensures Life(b)
  {
    var none: set<Id> := {};
    assert (set g | g in none :: GrantRevoked(g)) == {};
    assert multiset(set g | g in none :: GrantRevoked(g)) == multiset{};
    GrantsMoveKeepLife(a, b, none);
  }

  /** A pending request leaves `Pending`, with a grant when it is approved. */
  ghost predicate Resolves(a: World, b: World, r: Id, state: RequestState, note: Note, minted: Option<Id>) {
    && InState(a.db.requests, r, Pending) && state != Pending
    && b.db.requests == a.db.requests[r := a.db.requests[r].(state := state)]
    && b.db.notes == a.db.notes + multiset{note}
    && (match state
        case Approved =>
          && minted.Some? && note == RequestApproved(r, minted.value) && minted.value !in a.db.grants
          && b.db.grants.Keys == a.db.grants.Keys + {minted.value}
          && b.db.grants == a.db.grants[minted.value := b.db.grants[minted.value]]
          && b.db.grants[minted.value].requestId == r && !b.db.grants[minted.value].revoked
        case Denied => note == RequestDenied(r) && minted.None? && b.db.grants == a.db.grants
        case _ => note == RequestExpired(r) && minted.None? && b.db.grants == a.db.grants)
  }

  lemma ResolveKeepsMatch(a: World, b: World, r: Id, state: RequestState, note: Note, minted: Option<Id>)
    requires GrantsMatch(a.db.requests, a.db.grants) && Resolves(a, b, r, state, note, minted)
    ensures GrantsMatch(b.db.requests, b.db.grants)
  {
    forall q | q in b.db.requests && b.db.requests[q].state == Approved
      ensures exists g :: g in b.db.grants && b.db.grants[g].requestId == q
    {
      if q == r {
        assert b.db.grants[minted.value].requestId == q;
      } else {
        var g :| g in a.db.grants && a.db.grants[g].requestId == q;
        assert b.db.grants[g].requestId == q;
      }
    }
  }

  lemma ResolveKeepsNotes(a: World, b: World, r: Id, state: RequestState, note: Note, minted: Option<Id>)
    requires RequestNotes(a.db.requests, a.db.notes) && Resolves(a, b, r, state, note, minted)
    ensures RequestNotes(b.db.requests, b.db.notes)
  {
    forall q: Id, t: RequestState | t == Denied || t == Expired
      ensures InState(b.db.requests, q, t) == (InState(a.db.requests, q, t) || (q == r && t == state))
    {
    }
  }

  lemma ResolveKeepsGrantNotes(a: World, b: World, r: Id, state: RequestState, note: Note, minted: Option<Id>)
    requires GrantNotes(a.db.grants, a.db.notes) && Resolves(a, b, r, state, note, minted)
    ensures GrantNotes(b.db.grants, b.db.notes)
  {
    forall g: Id, q: Id ensures GrantOf(b.db.grants, g, q) == (GrantOf(a.db.grants, g, q) || (minted == Some(g) && q == r)) {
    }
  }

  lemma ResolveKeepsLife(a: World, b: World, r: Id, state: RequestState, note: Note, minted: Option<Id>)
    requires Life(a) && Resolves(a, b, r, state, note, minted)
    ensures Life(b)
  {
    ResolveKeepsMatch(a, b, r, state, note, minted);
    ResolveKeepsNotes(a, b, r, state, note, minted);
    ResolveKeepsGrantNotes(a, b, r, state, note, minted);
  }

  lemma DenyKeepsLife(w: World, r: Id)
    requires Life(w)
    ensures Life(w.(db := DenyRequest(w.db, w.clock, r).0))
  {
    if DenyRequest(w.db, w.clock, r).1 {
      ResolveKeepsLife(w, w.(db := DenyRequest(w.db, w.clock, r).0), r, Denied, RequestDenied(r), None);
    }
  }

  lemma ApproveKeepsLife(w: World, request: Id, grantId: Id, p: GrantParams, store: Option<NewSecret>)
    requires Life(w) && grantId !in w.db.grants
    ensures Life(ApproveAt(w, request, grantId, p, store))
  {
    if ApproveRequest(w.db, w.clock, request, grantId, p, store).1.ApprovedAs? {
      ResolveKeepsLife(w, ApproveAt(w, request, grantId, p, store), request, Approved, RequestApproved(request, grantId), Some(grantId));
    }
  }

  /** The insert alone, before any resolution. */
  ghost predicate Inserts(a: World, b: World, r: Id, row: Request) {
    && r !in a.db.requests && row.state == Pending
    && (forall q :: q in a.db.requests ==> !HasIdem(a.db.requests[q], row.client, row.idemKey))
    && b.db.requests == a.db.requests[r := row] && b.db.grants == a.db.grants
    && b.db.notes == a.db.notes + multiset{RequestCreated(r)}
  }

  lemma InsertedKeepsMatch(a: World, b: World, r: Id, row: Request)
    requires GrantsMatch(a.db.requests, a.db.grants) && IdemUnique(a.db.requests) && Inserts(a, b, r, row)
    ensures GrantsMatch(b.db.requests, b.db.grants) && IdemUnique(b.db.requests)
  {
  }

  lemma InsertedKeepsNotes(a: World, b: World, r: Id, row: Request)
    requires RequestNotes(a.db.requests, a.db.notes) && Inserts(a, b, r, row)
    ensures RequestNotes(b.db.requests, b.db.notes)
  {
    forall q: Id, t: RequestState | t != Pending ensures InState(b.db.requests, q, t) == InState(a.db.requests, q, t) {
    }
  }

  lemma InsertedKeepsLife(a: World, b: World, r: Id, row: Request)
    requires Life(a) && Inserts(a, b, r, row)
    ensures Life(b)
  {
    InsertedKeepsMatch(a, b, r, row);
    InsertedKeepsNotes(a, b, r, row);
  }

  /** An insert that resolves at once is an insert and then a resolution. */
  lemma InsertThenResolve(w: World, m: World, request: Id, req: NewRequest, cap: Option<nat>, resolution: Resolution, grantId: Id)
    requires request !in w.db.requests && grantId !in w.db.grants
    requires InsertRequest(w.db, w.clock, request, req, cap, resolution, grantId).1.Created?
    requires var row := Request(req.client, req.secretName, Pending, req.expiresAt, req.idemKey, req.mac);
             m == w.(db := w.db.(requests := w.db.requests[request := row], notes := w.db.notes + multiset{RequestCreated(request)}))
    ensures var n := w.(db := InsertRequest(w.db, w.clock, request, req, cap, resolution, grantId).0);
            match resolution
            case Undecided => n.db == m.db
            case PolicyDenied => Resolves(m, n, request, Denied, RequestDenied(request), None)
            case PolicyApproved(_) => Resolves(m, n, request, Approved, RequestApproved(request, grantId), Some(grantId))
  {
    var n := w.(db := InsertRequest(w.db, w.clock, request, req, cap, resolution, grantId).0);
    match resolution
    case Undecided =>
    case PolicyDenied => assert n.db.notes == m.db.notes + multiset{RequestDenied(request)};
    case PolicyApproved(_) => assert n.db.notes == m.db.notes + multiset{RequestApproved(request, grantId)};
  }

  lemma CreatedKeepsLife(w: World, request: Id, req: NewRequest, cap: Option<nat>, resolution: Resolution, grantId: Id)
    requires Life(w) && request !in w.db.requests && grantId !in w.db.grants
    requires InsertRequest(w.db, w.clock, request, req, cap, resolution, grantId).1.Created?
    ensures Life(w.(db := InsertRequest(w.db, w.clock, request, req, cap, resolution, grantId).0))
  {
    var row := Request(req.client, req.secretName, Pending, req.expiresAt, req.idemKey, req.mac);
    var m := w.(db := w.db.(requests := w.db.requests[request := row], notes := w.db.notes + multiset{RequestCreated(request)}));
    var n := w.(db := InsertRequest(w.db, w.clock, request, req, cap, resolution, grantId).0);
    FreshKey(w, request, req, cap, resolution, grantId);
    InsertedKeepsLife(w, m, request, row);
    InsertThenResolve(w, m, request, req, cap, resolution, grantId);
    match resolution
    case Undecided =>
    case PolicyDenied => ResolveKeepsLife(m, n, request, Denied, RequestDenied(request), None);
    case PolicyApproved(p) => ResolveKeepsLife(m, n, request, Approved, RequestApproved(request, grantId), Some(grantId));
  }

  /** A row is only created under a key that no row has. */
  lemma FreshKey(w: World, request: Id, req: NewRequest, cap: Option<nat>, resolution: Resolution, grantId: Id)
    requires InsertRequest(w.db, w.clock, request, req, cap, resolution, grantId).1.Created?
    ensures forall r :: r in w.db.requests ==> !HasIdem(w.db.requests[r], req.client, req.idemKey)
  {
    assert FindByIdem(w.db, req.client, req.idemKey).None?;
  }

  lemma InsertKeepsLife(w: World, request: Id, req: NewRequest, cap: Option<nat>, resolution: Resolution, grantId: Id)
    requires Life(w) && request !in w.db.requests && grantId !in w.db.grants
    ensures Life(InsertAt(w, request, req, cap, resolution, grantId))
  {
    InsertTables(w, request, req, cap, resolution, grantId);
    if InsertRequest(w.db, w.clock, request, req, cap, resolution, grantId).1.Created? {
      CreatedKeepsLife(w, request, req, cap, resolution, grantId);
    }
  }

  lemma ExpiredNotes(stale: set<Id>)
    ensures var added := multiset(set r | r in stale :: RequestExpired(r));
            && (forall r: Id :: added[RequestExpired(r)] == Flag(r in stale))
            && (forall n :: n in added ==> n.RequestExpired?)
  {
    var notes := set r | r in stale :: RequestExpired(r);
    forall r: Id ensures multiset(notes)[RequestExpired(r)] == Flag(r in stale) {
      assert RequestExpired(r) in notes <==> r in stale;
    }
  }

  lemma ExpireKeepsMatch(db: Tables, now: Time)
    requires GrantsMatch(db.requests, db.grants) && IdemUnique(db.requests)
    ensures GrantsMatch(ExpireStale(db, now).requests, db.grants) && IdemUnique(ExpireStale(db, now).requests)
  {
    var requests := ExpireStale(db, now).requests;
    forall r | r in requests && requests[r].state == Approved ensures exists g :: g in db.grants && db.grants[g].requestId == r {
      assert InState(db.requests, r, Approved);
    }
  }

  lemma ExpireKeepsNotes(db: Tables, now: Time)
    requires RequestNotes(db.requests, db.notes)
    ensures RequestNotes(ExpireStale(db, now).requests, ExpireStale(db, now).notes)
  {
    var n := ExpireStale(db, now);
    var stale := Stale(db.requests, now);
    ExpiredNotes(stale);
    forall r: Id ensures InState(n.requests, r, Expired) == (InState(db.requests, r, Expired) || r in stale)
                 ensures InState(n.requests, r, Denied) == InState(db.requests, r, Denied) {
    }
  }

  lemma ExpireKeepsLife(w: World)
    requires Life(w)
    ensures Life(w.(db := ExpireStale(w.db, w.clock)))
  {
    ExpireKeepsMatch(w.db, w.clock);
    ExpireKeepsNotes(w.db, w.clock);
    ExpiredNotes(Stale(w.db.requests, w.clock));
  }

  // ---------- runs ----------

  lemma UseIsSame(w: World, r: nat)
    requires r in w.readers && w.readers[r].Resolved?
    ensures SameLife(w, Account(w, r))
  {
    var outcome := AccountedUse(w, w.readers[r]);
    if outcome.FirstUse? {
      AccountFirstUse(w, r);
    } else if outcome.Replay? {
      AccountReplay(w, r);
    }
  }

  lemma ProxyIsSame(w: World, g: Id, credential: Id)
    ensures SameLife(w, Proxy(w, g, credential))
  {
  }

  lemma OtherActIsSame(w: World, a: Action)
    requires CanAct(w, a)
    requires !a.RevokeOne? && !a.Approve? && !a.Insert? && !a.Deny? && !a.Expire? && !a.Delete?
    ensures SameLife(w, Act(w, a))
  {
    if a.ReadAccount? {
      UseIsSame(w, a.reader);
    } else if a.ProxyUse? {
      ProxyIsSame(w, a.grantId, a.credential);
    } else {
      ActFrame(w, a);
    }
  }

  lemma ActKeepsLife(w: World, a: Action)
    requires IssuedOk(w) && Life(w) && CanAct(w, a)
    ensures Life(Act(w, a))
  {
    match a
    case RevokeOne(g) => RevokeKeepsLife(w, g);
    case Approve(request, grantId, p, store) => ApproveKeepsLife(w, request, grantId, p, store);
    case Insert(request, req, cap, resolution, grantId) => InsertKeepsLife(w, request, req, cap, resolution, grantId);
    case Deny(request) => DenyKeepsLife(w, request);
    case Expire => ExpireKeepsLife(w);
    case Delete(secretId, expected) => DeleteKeepsLife(w, secretId, expected);
    case _ =>
      OtherActIsSame(w, a);
      SameKeepsLife(w, Act(w, a));
  }

  lemma NextKeepsLife(a: World, s: Step, b: World)
    requires IssuedOk(a) && Life(a) && Next(a, s, b)
    ensures Life(b)
  {
    ActKeepsLife(a.(clock := s.now), s.action);
  }

  lemma {:induction false} RunKeepsLife(ws: seq<World>, steps: seq<Step>, i: nat)
    requires Run(ws, steps) && i < |ws|
    ensures Life(ws[i])
  {
    if i > 0 {
      RunKeepsLife(ws, steps, i - 1);
      RunIssuesOnce(ws, steps, i - 1);
      StepTaken(ws, steps, i - 1);
      NextKeepsLife(ws[i - 1], steps[i - 1], ws[i]);
    }
  }

  /** A request is approved exactly when exactly one grant carries its id, and the audit log holds one
      resolution row for a resolved request and none for a pending one. */
  lemma ApprovedExactlyOnce(ws: seq<World>, steps: seq<Step>, i: nat, r: Id)
    requires Run(ws, steps) && i < |ws| && r in ws[i].db.requests
    ensures ws[i].db.requests[r].state == Approved
            <==> exists g :: GrantOf(ws[i].db.grants, g, r) && forall h :: GrantOf(ws[i].db.grants, h, r) ==> h == g
    ensures ws[i].db.requests[r].state != Approved <==> forall g :: !GrantOf(ws[i].db.grants, g, r)
    ensures forall g: Id :: ws[i].db.notes[RequestApproved(r, g)] == Flag(GrantOf(ws[i].db.grants, g, r))
    ensures ws[i].db.notes[RequestDenied(r)] + ws[i].db.notes[RequestExpired(r)]
            == Flag(ws[i].db.requests[r].state == Denied || ws[i].db.requests[r].state == Expired)
  {
    RunKeepsLife(ws, steps, i);
    var w := ws[i];
    if w.db.requests[r].state == Approved {
      var g :| g in w.db.grants && w.db.grants[g].requestId == r;
      assert GrantOf(w.db.grants, g, r);
    }
  }

  /** Every revoked grant, one by one or with its secret, has exactly one revocation row. */
  lemma RevocationsAreAudited(ws: seq<World>, steps: seq<Step>, i: nat, g: Id)
    requires Run(ws, steps) && i < |ws|
    ensures ws[i].db.notes[GrantRevoked(g)] == Flag(g in ws[i].db.grants && ws[i].db.grants[g].revoked)
  {
    RunKeepsLife(ws, steps, i);
  }

  /** What one step may do to a request row: resolve it if it is pending, and nothing else. */
  ghost predicate Advances(a: Requests, b: Requests) {
    forall r :: r in a ==> r in b && (b[r] == a[r] || (a[r].state == Pending && b[r] == a[r].(state := b[r].state)))
  }

  lemma ResolvingActAdvances(w: World, a: Action)
    requires IssuedOk(w) && CanAct(w, a) && (a.Approve? || a.Deny? || a.Expire?)
    ensures Advances(w.db.requests, Act(w, a).db.requests)
  {
  }

  lemma InsertRequestsShape(t: Tables, now: Time, id: Id, req: NewRequest, cap: Option<nat>, resolution: Resolution, grantId: Id)
    ensures var n := InsertRequest(t, now, id, req, cap, resolution, grantId).0.requests;
            n == t.requests || (id in n && n == t.requests[id := n[id]])
  {
  }

  lemma InsertAdvances(w: World, request: Id, req: NewRequest, cap: Option<nat>, resolution: Resolution, grantId: Id)
    requires IssuedOk(w) && request !in w.issued
    ensures Advances(w.db.requests, InsertAt(w, request, req, cap, resolution, grantId).db.requests)
  {
    InsertRequestsShape(w.db, w.clock, request, req, cap, resolution, grantId);
  }

  lemma ActAdvances(w: World, a: Action)
    requires IssuedOk(w) && CanAct(w, a)
    ensures Advances(w.db.requests, Act(w, a).db.requests)
  {
    if a.Approve? || a.Deny? || a.Expire? {
      ResolvingActAdvances(w, a);
    } else if a.Insert? {
      InsertAdvances(w, a.request, a.req, a.cap, a.resolution, a.grantId);
    } else {
      ActFrame(w, a);
    }
  }

  lemma RunAdvances(ws: seq<World>, steps: seq<Step>, i: nat)
    requires Run(ws, steps) && i < |steps|
    ensures Advances(ws[i].db.requests, ws[i + 1].db.requests)
  {
    RunIssuesOnce(ws, steps, i);
    StepTaken(ws, steps, i);
    ActAdvances(ws[i].(clock := steps[i].now), steps[i].action);
  }

  /** Resolved in `a`, row `r` is the same in `b`; pending, it has changed its state at most. */
  ghost predicate Absorbed(a: Requests, b: Requests, r: Id)
    requires r in a
  {
    && r in b && b[r] == a[r].(state := b[r].state)
    && (a[r].state != Pending ==> b[r] == a[r])
  }

  lemma AbsorbedOn(a: Requests, b: Requests, c: Requests, r: Id)
    requires r in a && Absorbed(a, b, r) && Advances(b, c)
    ensures Absorbed(a, c, r)
  {
  }

  lemma {:induction false} AbsorbedAlong(tables: seq<Requests>, i: nat, j: nat, r: Id)
    requires i <= j < |tables| && r in tables[i]
    requires forall k :: 0 <= k < |tables| - 1 ==> Advances(tables[k], tables[k + 1])
    ensures Absorbed(tables[i], tables[j], r)
    decreases j - i
  {
    if i < j {
      AbsorbedAlong(tables, i, j - 1, r);
      assert Advances(tables[j - 1], tables[j - 1 + 1]);
      AbsorbedOn(tables[i], tables[j - 1], tables[j], r);
    }
  }

  /** Terminal states are absorbing: once resolved, a request row never changes again. */
  lemma ResolvedStaysResolved(ws: seq<World>, steps: seq<Step>, i: nat, j: nat, r: Id)
    requires Run(ws, steps) && i <= j < |ws| && r in ws[i].db.requests
    ensures Absorbed(ws[i].db.requests, ws[j].db.requests, r)
  {
    var tables := seq(|ws|, k requires 0 <= k < |ws| => ws[k].db.requests);
    forall k | 0 <= k < |tables| - 1 ensures Advances(tables[k], tables[k + 1]) {
      RunAdvances(ws, steps, k);
    }
    AbsorbedAlong(tables, i, j, r);
  }
}
