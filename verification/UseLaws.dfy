/**
  What a grant answers, over whole runs: which reads are served, when a replay
  is, what a served read releases and what it leaves in the audit log.
 */
module UseLaws {
  import opened Wrappers
  import opened Store
  import opened World
  import opened Frames
  import opened GrantSafety
  import Accounting

  // ---------- replay rows remember first uses ----------

  /** Step `i` served the first use of a key. */
  ghost predicate FirstUseAt(ws: seq<World>, i: nat, g: Id, key: string) {
    i + 1 < |ws| && ws[i + 1].served == ws[i].served + [Served(g, key, false)]
  }

  ghost predicate SameRow(a: Reads, b: Reads, p: (Id, string))
    requires p in b
  {
    p in a && b[p].firstReadAt == a[p].firstReadAt
  }

  /** Step `a` keeps the replay rows, or adds that of a first use it serves. */
  ghost predicate RowsFrom(w: World, n: World) {
    && n.window == w.window
    && w.db.grantReads.Keys <= n.db.grantReads.Keys
    && forall p :: p in n.db.grantReads ==>
         || SameRow(w.db.grantReads, n.db.grantReads, p)
         || (n.served == w.served + [Served(p.0, p.1, false)] && n.db.grantReads[p].firstReadAt == w.clock)
  }

  lemma AccountRows(w: World, r: nat)
    requires r in w.readers && w.readers[r].Resolved?
    ensures RowsFrom(w, Account(w, r))
  {
    var outcome := AccountedUse(w, w.readers[r]);
    if outcome.FirstUse? {
      AccountFirstUse(w, r);
    } else if outcome.Replay? {
      AccountReplay(w, r);
    }
  }

  lemma ActRows(w: World, a: Action)
    requires CanAct(w, a)
    ensures RowsFrom(w, Act(w, a))
  {
    if a.ReadAccount? {
      AccountRows(w, a.reader);
    } else {
      ActFrame(w, a);
    }
  }

  /** A key has a replay row exactly when some step served its first use, and the row is stamped by that step. */
  ghost predicate RowsRemember(ws: seq<World>, steps: seq<Step>, n: nat)
    requires n < |ws| && |steps| + 1 == |ws|
  {
    && ws[n].window == ws[0].window
    && forall p :: p in ws[n].db.grantReads ==>
         exists i :: 0 <= i < n && FirstUseAt(ws, i, p.0, p.1) && ws[n].db.grantReads[p].firstReadAt == steps[i].now
  }

  lemma RowsRememberOn(ws: seq<World>, steps: seq<Step>, n: nat)
    requires n + 1 < |ws| && |steps| + 1 == |ws| && RowsRemember(ws, steps, n)
    requires RowsFrom(ws[n].(clock := steps[n].now), ws[n + 1])
    ensures RowsRemember(ws, steps, n + 1)
  {
    forall p | p in ws[n + 1].db.grantReads
      ensures exists i :: 0 <= i < n + 1 && FirstUseAt(ws, i, p.0, p.1) && ws[n + 1].db.grantReads[p].firstReadAt == steps[i].now
    {
      if SameRow(ws[n].db.grantReads, ws[n + 1].db.grantReads, p) {
        var i :| 0 <= i < n && FirstUseAt(ws, i, p.0, p.1) && ws[n].db.grantReads[p].firstReadAt == steps[i].now;
        assert 0 <= i < n + 1;
      } else {
        assert FirstUseAt(ws, n, p.0, p.1);
      }
    }
  }

  lemma {:induction false} RunRemembers(ws: seq<World>, steps: seq<Step>, n: nat)
    requires Run(ws, steps) && n < |ws|
    ensures RowsRemember(ws, steps, n)
  {
    if n > 0 {
      RunRemembers(ws, steps, n - 1);
      StepTaken(ws, steps, n - 1);
      ActRows(ws[n - 1].(clock := steps[n - 1].now), steps[n - 1].action);
      RowsRememberOn(ws, steps, n - 1);
    }
  }

  lemma RowStays(ws: seq<World>, steps: seq<Step>, i: nat, n: nat, p: (Id, string))
    requires Run(ws, steps) && i <= n < |ws| && p in ws[i].db.grantReads
    ensures p in ws[n].db.grantReads
    decreases n - i
  {
    if i < n {
      RowStays(ws, steps, i, n - 1, p);
      StepTaken(ws, steps, n - 1);
      ActRows(ws[n - 1].(clock := steps[n - 1].now), steps[n - 1].action);
    }
  }

  lemma FirstUseHasRow(ws: seq<World>, steps: seq<Step>, i: nat, n: nat, g: Id, key: string)
    requires Run(ws, steps) && i < n < |ws| && FirstUseAt(ws, i, g, key)
    ensures (g, key) in ws[n].db.grantReads
  {
    Accounting.RunKeepsBooks(ws, steps, i + 1);
    Accounting.ServedAppend(ws[i].served, Served(g, key, false), g);
    assert Accounting.CountFirstUses(ws[i + 1].served, g, key) > 0;
    RowStays(ws, steps, i + 1, n, (g, key));
  }

  /** A first use is of a key without a replay row. */
  lemma FirstUseIsNew(ws: seq<World>, steps: seq<Step>, k: nat, g: Id, key: string)
    requires Run(ws, steps) && k < |steps| && FirstUseAt(ws, k, g, key)
    ensures (g, key) !in ws[k].db.grantReads
  {
    Accounting.RunKeepsBooks(ws, steps, k);
    Accounting.RunKeepsBooks(ws, steps, k + 1);
    Accounting.ServedAppend(ws[k].served, Served(g, key, false), g);
    assert Accounting.CountFirstUses(ws[k + 1].served, g, key) == Accounting.CountFirstUses(ws[k].served, g, key) + 1;
  }

  /** So a key is first used once. */
  lemma FirstUsedOnce(ws: seq<World>, steps: seq<Step>, i: nat, k: nat, g: Id, key: string)
    requires Run(ws, steps) && i <= k < |steps| && FirstUseAt(ws, i, g, key) && FirstUseAt(ws, k, g, key)
    ensures i == k
  {
    if i < k {
      FirstUseHasRow(ws, steps, i, k, g, key);
      FirstUseIsNew(ws, steps, k, g, key);
    }
  }

  /** The step that served the first use of a row, of which there is one. */
  lemma RowWitness(ws: seq<World>, steps: seq<Step>, n: nat, g: Id, key: string) returns (k: nat)
    requires Run(ws, steps) && n < |ws| && (g, key) in ws[n].db.grantReads
    ensures k < n && FirstUseAt(ws, k, g, key) && ws[n].db.grantReads[(g, key)].firstReadAt == steps[k].now
    ensures ws[n].window == ws[0].window
  {
    RunRemembers(ws, steps, n);
    var p := (g, key);
    k :| 0 <= k < n && FirstUseAt(ws, k, p.0, p.1) && ws[n].db.grantReads[p].firstReadAt == steps[k].now;
  }

  lemma RowOfFirstUse(ws: seq<World>, steps: seq<Step>, i: nat, n: nat, g: Id, key: string)
    requires Run(ws, steps) && i < n < |ws| && FirstUseAt(ws, i, g, key)
    ensures (g, key) in ws[n].db.grantReads && ws[n].db.grantReads[(g, key)].firstReadAt == steps[i].now
    ensures ws[n].window == ws[0].window
  {
    FirstUseHasRow(ws, steps, i, n, g, key);
    var k := RowWitness(ws, steps, n, g, key);
    if i <= k {
      FirstUsedOnce(ws, steps, i, k, g, key);
    } else {
      FirstUsedOnce(ws, steps, k, i, g, key);
    }
  }

  // ---------- which reads are served ----------

  /** Whatever `w` was, accounting a read leaves it as it was but for the reader. */
  ghost predicate Refused(w: World, n: World) {
    n.db == w.db && n.served == w.served && n.releases == w.releases && n.pins == w.pins
  }

  ghost predicate FirstServed(w: World, n: World, g: Id, key: string, payloadId: Id) {
    && n.served == w.served + [Served(g, key, false)]
    && n.pins == w.pins[(g, key) := payloadId]
    && n.db.attempts == w.db.attempts + [Attempt(ReleaseAttempt, g, Some(payloadId), false)]
    && g in n.db.grants && g in w.db.grants && n.db.grants[g].useCount == w.db.grants[g].useCount + 1
  }

  ghost predicate ReplayServed(w: World, n: World, g: Id, key: string) {
    && n.served == w.served + [Served(g, key, true)] && n.releases == w.releases
    && (g, key) in w.pins && n.pins == w.pins
    && n.db == w.db.(attempts := w.db.attempts + [Attempt(ReleaseAttempt, g, Some(w.pins[(g, key)]), true)])
  }

  lemma AccountDead(w: World, r: nat)
    requires r in w.readers && w.readers[r].Resolved? && w.readers[r].grantId in w.db.grants
    requires var grant := w.db.grants[w.readers[r].grantId]; grant.revoked || w.clock >= grant.notAfter
    ensures Refused(w, Account(w, r))
  {
  }

  lemma AccountBurned(w: World, r: nat)
    requires r in w.readers && w.readers[r].Resolved?
    requires var p := (w.readers[r].grantId, w.readers[r].key);
             p in w.db.grantReads && w.db.grantReads[p].firstReadAt <= w.clock - w.window
    ensures Refused(w, Account(w, r))
  {
  }

  lemma AccountInWindow(w: World, r: nat)
    requires r in w.readers && w.readers[r].Resolved? && w.readers[r].grantId in w.db.grants
    requires var grant := w.db.grants[w.readers[r].grantId]; !grant.revoked && w.clock < grant.notAfter
    requires var p := (w.readers[r].grantId, w.readers[r].key);
             p in w.db.grantReads && p in w.pins && w.clock - w.window < w.db.grantReads[p].firstReadAt
             && w.db.grantReads[p].versionId == Some(w.pins[p])
    ensures ReplayServed(w, Account(w, r), w.readers[r].grantId, w.readers[r].key)
    ensures var rd := w.readers[r];
            Account(w, r).readers == w.readers[r :=
              Replaying(rd.grantId, rd.key, w.db.grants[rd.grantId], Some(w.pins[(rd.grantId, rd.key)]),
                        w.db.grantReads[(rd.grantId, rd.key)].passthrough)]
  {
    AccountReplay(w, r);
  }

  lemma AccountNew(w: World, r: nat)
    requires r in w.readers && w.readers[r].Resolved? && w.readers[r].grantId in w.db.grants
    requires var grant := w.db.grants[w.readers[r].grantId]; !grant.revoked && w.clock < grant.notAfter
    requires (w.readers[r].grantId, w.readers[r].key) !in w.db.grantReads
    ensures var grant, n := w.db.grants[w.readers[r].grantId], Account(w, r);
            if (grant.maxUses.Some? && grant.useCount >= grant.maxUses.value) || grant.useCount == 0x7fff_ffff
            then Refused(w, n)
            else FirstServed(w, n, w.readers[r].grantId, w.readers[r].key, w.readers[r].payloadId)
  {
    if AccountedUse(w, w.readers[r]).FirstUse? {
      AccountFirstUse(w, r);
    }
  }

  ghost predicate Accounts(ws: seq<World>, steps: seq<Step>, j: nat, r: nat, g: Id, key: string) {
    && j < |steps| && j + 1 < |ws| && steps[j].action == ReadAccount(r) && r in ws[j].readers && ws[j].readers[r].Resolved?
    && ws[j].readers[r].grantId == g && ws[j].readers[r].key == key && g in ws[j].db.grants
  }

  lemma AccountsStep(ws: seq<World>, steps: seq<Step>, j: nat, r: nat)
    requires Run(ws, steps) && j < |steps| && steps[j].action == ReadAccount(r)
    ensures r in ws[j].readers && ws[j].readers[r].Resolved? && ws[j].readers[r].grantId in ws[j].db.grants
    ensures ws[j + 1] == Account(ws[j].(clock := steps[j].now), r)
    ensures Inv(ws[j].(clock := steps[j].now))
  {
    StepTaken(ws, steps, j);
    RunKeeps(ws, steps, j);
    ClockKeeps(ws[j], steps[j].now);
    assert ReaderOk(ws[j].readers[r], ws[j].db.grants, ws[j].pins, ws[j].archive, ws[j].entered, ws[j].clock);
  }

  /** A read of a revoked or expired grant is refused. */
  lemma DeadIsRefused(ws: seq<World>, steps: seq<Step>, j: nat, r: nat, g: Id, key: string)
    requires Run(ws, steps) && Accounts(ws, steps, j, r, g, key)
    requires ws[j].db.grants[g].revoked || steps[j].now >= ws[j].db.grants[g].notAfter
    ensures Refused(ws[j], ws[j + 1])
  {
    AccountsStep(ws, steps, j, r);
    AccountDead(ws[j].(clock := steps[j].now), r);
  }

  /** A burned key stays burned: once its first use is a window old, no read under it is served again. */
  lemma BurnedIsRefused(ws: seq<World>, steps: seq<Step>, j: nat, r: nat, g: Id, key: string, i: nat)
    requires Run(ws, steps) && Accounts(ws, steps, j, r, g, key)
    requires i < j && FirstUseAt(ws, i, g, key) && steps[i].now <= steps[j].now - ws[0].window
    ensures Refused(ws[j], ws[j + 1])
  {
    AccountsStep(ws, steps, j, r);
    RowOfFirstUse(ws, steps, i, j, g, key);
    AccountBurned(ws[j].(clock := steps[j].now), r);
  }

  /** A read of a live grant under a key first used inside the window is a replay, audited with the pinned id. */
  lemma ReplaysAreServed(ws: seq<World>, steps: seq<Step>, j: nat, r: nat, g: Id, key: string, i: nat)
    requires Run(ws, steps) && Accounts(ws, steps, j, r, g, key)
    requires !ws[j].db.grants[g].revoked && steps[j].now < ws[j].db.grants[g].notAfter
    requires i < j && FirstUseAt(ws, i, g, key) && steps[j].now - ws[0].window < steps[i].now
    ensures ReplayServed(ws[j], ws[j + 1], g, key)
    ensures r in ws[j + 1].readers
    ensures ws[j + 1].readers[r]
              == Replaying(g, key, ws[j].db.grants[g], Some(ws[j].pins[(g, key)]), ws[j].db.grants[g].ephemeral)
  {
    AccountsStep(ws, steps, j, r);
    RowOfFirstUse(ws, steps, i, j, g, key);
    var w := ws[j].(clock := steps[j].now);
    var p := (g, key);
    assert ReadRowOk(p, w.db.grantReads[p], w.pins[p], w.db.grants[p.0], w.archive, w.clock, w.window);
    AccountInWindow(w, r);
  }

  /** A read of a live grant under a key never used is a first use exactly while a use remains. */
  lemma NewKeysAreServed(ws: seq<World>, steps: seq<Step>, j: nat, r: nat, g: Id, key: string)
    requires Run(ws, steps) && Accounts(ws, steps, j, r, g, key)
    requires !ws[j].db.grants[g].revoked && steps[j].now < ws[j].db.grants[g].notAfter
    requires forall i: nat :: i < j ==> !FirstUseAt(ws, i, g, key)
    ensures var grant := ws[j].db.grants[g];
            if (grant.maxUses.Some? && grant.useCount >= grant.maxUses.value) || grant.useCount == 0x7fff_ffff
            then Refused(ws[j], ws[j + 1])
            else FirstServed(ws[j], ws[j + 1], g, key, ws[j].readers[r].payloadId)
  {
    AccountsStep(ws, steps, j, r);
    if (g, key) in ws[j].db.grantReads {
      var i := RowWitness(ws, steps, j, g, key);
    }
    AccountNew(ws[j].(clock := steps[j].now), r);
  }

  /** Every replay follows the first use of its key, less than a window after it. */
  lemma ReplaysStayInTheWindow(ws: seq<World>, steps: seq<Step>, j: nat, g: Id, key: string)
    requires Run(ws, steps) && j < |steps| && ws[j + 1].served == ws[j].served + [Served(g, key, true)]
    ensures exists i: nat :: i < j && FirstUseAt(ws, i, g, key) && steps[j].now - ws[0].window < steps[i].now
  {
    StepTaken(ws, steps, j);
    ActFrame(ws[j].(clock := steps[j].now), steps[j].action);
    var r := steps[j].action.reader;
    AccountsStep(ws, steps, j, r);
    AccountServesItsOwn(ws[j].(clock := steps[j].now), r, g, key);
    var i := RowWitness(ws, steps, j, g, key);
  }

  lemma AccountServesItsOwn(w: World, r: nat, g: Id, key: string)
    requires r in w.readers && w.readers[r].Resolved? && Account(w, r).served == w.served + [Served(g, key, true)]
    ensures w.readers[r].grantId == g && w.readers[r].key == key
    ensures (g, key) in w.db.grantReads && w.clock - w.window < w.db.grantReads[(g, key)].firstReadAt
  {
    var n := |w.served|;
    assert Account(w, r).served[n] == Served(g, key, true);
    var outcome := AccountedUse(w, w.readers[r]);
    if outcome.FirstUse? {
      AccountFirstUse(w, r);
    } else if outcome.Replay? {
      AccountReplay(w, r);
      assert Replayed(w, r).served[n] == Served(w.readers[r].grantId, w.readers[r].key, true);
    }
  }

  // ---------- what is released ----------

  /** A first use of a grant without a payload of its own releases the version it pins, as it was written. */
  lemma StoredFirstUseReleases(ws: seq<World>, steps: seq<Step>, j: nat, r: nat, g: Id, key: string)
    requires Run(ws, steps) && Accounts(ws, steps, j, r, g, key)
    requires FirstUseAt(ws, j, g, key) && !ws[j].db.grants[g].ephemeral
    ensures (g, key) in ws[j + 1].pins && ws[j + 1].pins[(g, key)] in ws[j].archive
    ensures var pin := ws[j + 1].pins[(g, key)];
            ws[j + 1].releases == ws[j].releases + [Release(g, key, pin, ws[j].archive[pin].plaintext)]
  {
    AccountsStep(ws, steps, j, r);
    var w := ws[j].(clock := steps[j].now);
    assert ReaderOk(w.readers[r], w.db.grants, w.pins, w.archive, w.entered, w.clock);
    AccountServesFirst(w, r, g, key);
    AccountFirstUse(w, r);
  }

  lemma AccountServesFirst(w: World, r: nat, g: Id, key: string)
    requires r in w.readers && w.readers[r].Resolved? && Account(w, r).served == w.served + [Served(g, key, false)]
    ensures AccountedUse(w, w.readers[r]).FirstUse?
  {
    var n := |w.served|;
    assert Account(w, r).served[n] == Served(g, key, false);
    if AccountedUse(w, w.readers[r]).Replay? {
      AccountReplay(w, r);
    }
  }

  /** A first use of a passthrough grant releases the payload exactly in the process that wrapped it. */
  lemma PassthroughFirstUseReleases(ws: seq<World>, steps: seq<Step>, j: nat, r: nat, g: Id, key: string)
    requires Run(ws, steps) && Accounts(ws, steps, j, r, g, key)
    requires FirstUseAt(ws, j, g, key) && ws[j].db.grants[g].ephemeral
    ensures ws[j].db.grants[g].payload.Some? && g in ws[j].entered
    ensures ws[j + 1].releases
              == if ws[j].db.grants[g].payload.value.process == ws[j].process
                 then ws[j].releases + [Release(g, key, g, ws[j].entered[g])] else ws[j].releases
  {
    AccountsStep(ws, steps, j, r);
    var w := ws[j].(clock := steps[j].now);
    assert ReaderOk(w.readers[r], w.db.grants, w.pins, w.archive, w.entered, w.clock);
    AccountServesFirst(w, r, g, key);
    FirstUsePinnable(w, w.readers[r]);
    AccountFirstUse(w, r);
  }

  ghost predicate Finishes(ws: seq<World>, steps: seq<Step>, j: nat, r: nat, g: Id, key: string, pinned: Option<Id>, passthrough: bool) {
    && j < |steps| && j + 1 < |ws| && steps[j].action == ReadFinish(r) && r in ws[j].readers && ws[j].readers[r].Replaying?
    && ws[j].readers[r].grantId == g && ws[j].readers[r].key == key
    && ws[j].readers[r].pinned == pinned && ws[j].readers[r].passthrough == passthrough
  }

  /** A replay of a stored secret releases the pinned version as long as its row is there. */
  lemma StoredReplayReleases(ws: seq<World>, steps: seq<Step>, j: nat, r: nat, g: Id, key: string, pin: Id)
    requires Run(ws, steps) && Finishes(ws, steps, j, r, g, key, Some(pin), false)
    ensures pin in ws[j].archive
    ensures ws[j + 1].releases
              == if pin in ws[j].db.versions
                 then ws[j].releases + [Release(g, key, pin, ws[j].archive[pin].plaintext)] else ws[j].releases
  {
    StepTaken(ws, steps, j);
    RunKeeps(ws, steps, j);
    assert ReaderOk(ws[j].readers[r], ws[j].db.grants, ws[j].pins, ws[j].archive, ws[j].entered, ws[j].clock);
  }

  /** A replay of a passthrough grant releases the payload it saw exactly in the process that wrapped it. */
  lemma PassthroughReplayReleases(ws: seq<World>, steps: seq<Step>, j: nat, r: nat, g: Id, key: string, pinned: Option<Id>)
    requires Run(ws, steps) && Finishes(ws, steps, j, r, g, key, pinned, true)
    ensures var seen := ws[j].readers[r].grant.payload;
            if seen.Some? && seen.value.process == ws[j].process
            then g in ws[j].entered && ws[j + 1].releases == ws[j].releases + [Release(g, key, g, ws[j].entered[g])]
            else ws[j + 1].releases == ws[j].releases
  {
    StepTaken(ws, steps, j);
    RunKeeps(ws, steps, j);
    assert ReaderOk(ws[j].readers[r], ws[j].db.grants, ws[j].pins, ws[j].archive, ws[j].entered, ws[j].clock);
  }

  // ---------- proxied uses ----------

  /** A proxied call of a grant is counted and audited, under the credential it uses, exactly while the grant
      is live and a use remains. */
  lemma ProxiedUses(ws: seq<World>, steps: seq<Step>, j: nat, g: Id, credential: Id)
    requires Run(ws, steps) && j < |steps| && steps[j].action == ProxyUse(g, credential) && g in ws[j].db.grants
    ensures var grant, w, n := ws[j].db.grants[g], ws[j], ws[j + 1];
            if grant.revoked || steps[j].now >= grant.notAfter
               || (grant.maxUses.Some? && grant.useCount >= grant.maxUses.value) || grant.useCount == 0x7fff_ffff
            then n.db == w.db
            else n.db == w.db.(grants := w.db.grants[g := grant.(useCount := grant.useCount + 1)],
                               attempts := w.db.attempts + [Attempt(ProxyAttempt, g, Some(credential), false)])
  {
    StepTaken(ws, steps, j);
  }

  // ---------- nothing is released that was not written ahead ----------

  /** Every pin has the audit row of the first use that set it. */
  ghost predicate PinsAudited(pins: Pins, attempts: seq<Attempt>) {
    forall p :: p in pins ==> Attempt(ReleaseAttempt, p.0, Some(pins[p]), false) in attempts
  }

  /** Attempts are only added, and a pin comes with its attempt. */
  ghost predicate AuditGrows(w: World, n: World) {
    && w.db.attempts <= n.db.attempts
    && forall p :: p in n.pins ==>
         (p in w.pins && n.pins[p] == w.pins[p]) || Attempt(ReleaseAttempt, p.0, Some(n.pins[p]), false) in n.db.attempts
  }

  lemma AccountAudits(w: World, r: nat)
    requires r in w.readers && w.readers[r].Resolved?
    ensures AuditGrows(w, Account(w, r))
  {
    var outcome := AccountedUse(w, w.readers[r]);
    if outcome.FirstUse? {
      AccountFirstUse(w, r);
      var n := Account(w, r);
      assert n.db.attempts[|w.db.attempts|] == Attempt(ReleaseAttempt, w.readers[r].grantId, Some(w.readers[r].payloadId), false);
    } else if outcome.Replay? {
      AccountReplay(w, r);
    }
  }

  lemma ProxyAudits(w: World, g: Id, credential: Id)
    ensures w.db.attempts <= Proxy(w, g, credential).db.attempts
  {
  }

  lemma ActAudits(w: World, a: Action)
    requires CanAct(w, a)
    ensures AuditGrows(w, Act(w, a))
  {
    if a.ReadAccount? {
      AccountAudits(w, a.reader);
    } else {
      ActFrame(w, a);
      if a.ProxyUse? {
        ProxyAudits(w, a.grantId, a.credential);
      }
    }
  }

  lemma {:induction false} RunAuditsPins(ws: seq<World>, steps: seq<Step>, i: nat)
    requires Run(ws, steps) && i < |ws|
    ensures PinsAudited(ws[i].pins, ws[i].db.attempts)
  {
    if i > 0 {
      RunAuditsPins(ws, steps, i - 1);
      StepTaken(ws, steps, i - 1);
      ActAudits(ws[i - 1].(clock := steps[i - 1].now), steps[i - 1].action);
      forall p | p in ws[i].pins ensures Attempt(ReleaseAttempt, p.0, Some(ws[i].pins[p]), false) in ws[i].db.attempts {
        assert forall a :: a in ws[i - 1].db.attempts ==> a in ws[i].db.attempts;
      }
    }
  }

  /** Every release was written ahead: the audit log names its grant and the very payload it released. */
  lemma ReleasesAreWrittenAhead(ws: seq<World>, steps: seq<Step>, i: nat, a: Release)
    requires Run(ws, steps) && i < |ws| && a in ws[i].releases
    ensures Attempt(ReleaseAttempt, a.grantId, Some(a.payloadId), false) in ws[i].db.attempts
  {
    RunKeeps(ws, steps, i);
    RunAuditsPins(ws, steps, i);
    assert ReleaseOk(a, ws[i].pins, ws[i].archive, ws[i].entered);
    assert (a.grantId, a.key) in ws[i].pins;
  }
}
