/**
  What each step of the broker leaves alone, table by table.
 */
module Frames {
  import opened Wrappers
  import opened Store
  import opened World

  predicate WritesSecrets(a: Action) {
    a.Approve? || a.Create? || a.Rotate? || a.Vet? || a.Delete?
  }

  predicate WritesRequests(a: Action) {
    a.Approve? || a.Insert? || a.Deny? || a.Expire?
  }

  predicate WritesGrants(a: Action) {
    a.ReadAccount? || a.ProxyUse? || a.RevokeOne? || a.Sweep? || a.Delete? || a.Approve? || a.Insert?
  }

  ghost predicate SameSecrets(a: World, b: World) {
    && b.db.secrets == a.db.secrets && b.db.versions == a.db.versions && b.db.events == a.db.events
    && b.archive == a.archive && b.names == a.names
  }

  ghost predicate TablesKept(w: World, n: World, a: Action) {
    && (!WritesSecrets(a) ==> SameSecrets(w, n))
    && (!WritesRequests(a) ==> n.db.requests == w.db.requests)
    && (!WritesRequests(a) && !a.RevokeOne? && !a.Delete? ==> n.db.notes == w.db.notes)
    && (!WritesGrants(a) ==> n.db.grants == w.db.grants)
    && (!a.ReadAccount? && !a.Unpin? ==> n.db.grantReads == w.db.grantReads)
    && (!a.ReadAccount? && !a.ProxyUse? ==> n.db.attempts == w.db.attempts)
  }

  ghost predicate RestKept(w: World, n: World, a: Action) {
    && n.clock == w.clock && n.window == w.window && n.process == w.process + (if a.Restart? then 1 else 0)
    && (!a.ReadAccount? ==> n.served == w.served && n.pins == w.pins)
    && (!a.ReadAccount? && !a.ReadFinish? ==> n.releases == w.releases)
    && (!a.Approve? && !a.Insert? ==> n.entered == w.entered)
  }

  ghost predicate Framed(w: World, n: World, a: Action) {
    TablesKept(w, n, a) && RestKept(w, n, a)
  }

  lemma UseShape(t: Tables, now: Time, g: Id, key: Option<string>, v: Option<Id>, kind: AttemptKind, window: nat)
    ensures var n := BeginGrantUse(t, now, g, key, v, kind, window).0;
            && n == t.(grants := n.grants, grantReads := n.grantReads, attempts := n.attempts)
            && (key.None? ==> n.grantReads == t.grantReads)
  {
  }

  lemma AccountTables(w: World, r: nat)
    requires r in w.readers && w.readers[r].Resolved?
    ensures var Resolved(g, key, _, payloadId) := w.readers[r];
            Account(w, r).db == BeginGrantUse(w.db, w.clock, g, Some(key), Some(payloadId), ReleaseAttempt, w.window).0
  {
  }

  lemma AccountRest(w: World, r: nat)
    requires r in w.readers && w.readers[r].Resolved?
    ensures RestKept(w, Account(w, r), ReadAccount(r))
    ensures Account(w, r).archive == w.archive && Account(w, r).names == w.names
  {
  }

  lemma AccountFrame(w: World, r: nat)
    requires r in w.readers && w.readers[r].Resolved?
    ensures Framed(w, Account(w, r), ReadAccount(r))
  {
    var Resolved(g, key, _, payloadId) := w.readers[r];
    AccountTables(w, r);
    AccountRest(w, r);
    UseShape(w.db, w.clock, g, Some(key), Some(payloadId), ReleaseAttempt, w.window);
  }

  lemma ProxyFrame(w: World, g: Id, credential: Id)
    ensures Framed(w, Proxy(w, g, credential), ProxyUse(g, credential))
  {
    UseShape(w.db, w.clock, g, None, Some(credential), ProxyAttempt, w.window);
  }

  lemma ReadFrame(w: World, a: Action)
    requires CanAct(w, a) && (a.ReadStart? || a.ReadLocate? || a.ReadResolve?)
    ensures Framed(w, Act(w, a), a)
  {
    assert Act(w, a).db == w.db;
  }

  lemma ReadEndFrame(w: World, a: Action)
    requires CanAct(w, a) && (a.ReadFinish? || a.ReadAbort? || a.Restart?)
    ensures Framed(w, Act(w, a), a)
  {
    assert Act(w, a).db == w.db;
  }

  lemma GrantActFrame(w: World, a: Action)
    requires CanAct(w, a) && (a.RevokeOne? || a.Sweep? || a.Unpin?)
    ensures Framed(w, Act(w, a), a)
  {
  }

  lemma DeleteFrame(w: World, s: Id, expected: nat)
    ensures Framed(w, w.(db := DeleteSecret(w.db, w.clock, s, expected).0), Delete(s, expected))
  {
  }

  lemma RequestActFrame(w: World, a: Action)
    requires CanAct(w, a) && (a.Deny? || a.Expire?)
    ensures Framed(w, Act(w, a), a)
  {
  }

  lemma CreateFrame(w: World, c: NewSecret, depositor: Option<string>)
    ensures Framed(w, CreateAt(w, c, depositor), Create(c, depositor))
  {
  }

  lemma SecretActFrame(w: World, a: Action)
    requires CanAct(w, a) && (a.Rotate? || a.Vet?)
    ensures Framed(w, Act(w, a), a)
  {
  }

  lemma ApproveFrame(w: World, r: Id, g: Id, p: GrantParams, store: Option<NewSecret>)
    ensures Framed(w, ApproveAt(w, r, g, p, store), Approve(r, g, p, store))
  {
  }

  /** An insert adds at most one request row and one grant row. */
  lemma InsertShape(t: Tables, now: Time, id: Id, req: NewRequest, cap: Option<nat>, resolution: Resolution, grantId: Id)
    ensures var n := InsertRequest(t, now, id, req, cap, resolution, grantId).0;
            && n == t.(requests := n.requests, grants := n.grants, notes := n.notes)
            && (n.grants == t.grants
                || (resolution.PolicyApproved? && n.grants == t.grants[grantId := NewGrant(id, resolution.params, resolution.params.secretId)]))
  {
  }

  lemma InsertTables(w: World, id: Id, req: NewRequest, cap: Option<nat>, resolution: Resolution, g: Id)
    ensures InsertAt(w, id, req, cap, resolution, g).db == InsertRequest(w.db, w.clock, id, req, cap, resolution, g).0
    ensures Framed(w, InsertAt(w, id, req, cap, resolution, g), Insert(id, req, cap, resolution, g))
  {
    InsertShape(w.db, w.clock, id, req, cap, resolution, g);
  }

  /** Every step writes only what its kind writes. */
  lemma ActFrame(w: World, a: Action)
    requires CanAct(w, a)
    ensures Framed(w, Act(w, a), a)
  {
    if a.ReadAccount? {
      AccountFrame(w, a.reader);
    } else if a.ProxyUse? {
      ProxyFrame(w, a.grantId, a.credential);
    } else if a.RevokeOne? || a.Sweep? || a.Unpin? {
      GrantActFrame(w, a);
    } else if a.Delete? {
      DeleteFrame(w, a.secretId, a.expected);
    } else if a.Deny? || a.Expire? {
      RequestActFrame(w, a);
    } else if a.Create? {
      CreateFrame(w, a.created, a.depositor);
    } else if a.Rotate? || a.Vet? {
      SecretActFrame(w, a);
    } else if a.Approve? {
      ApproveFrame(w, a.request, a.grantId, a.params, a.store);
    } else if a.Insert? {
      InsertTables(w, a.request, a.req, a.cap, a.resolution, a.grantId);
    } else if a.ReadStart? || a.ReadLocate? || a.ReadResolve? {
      ReadFrame(w, a);
    } else {
      ReadEndFrame(w, a);
    }
  }

  lemma KeepsSecrets(w: World, a: Action)
    requires CanAct(w, a) && !WritesSecrets(a)
    ensures SameSecrets(w, Act(w, a))
  {
    ActFrame(w, a);
  }

  lemma KeepsGrants(w: World, a: Action)
    requires CanAct(w, a) && !WritesGrants(a)
    ensures Act(w, a).db.grants == w.db.grants
  {
    ActFrame(w, a);
  }
}
