/**
  The statements of `SecretLocks` against the transactions of `Store`: whatever
  they were interleaved with, each commit does to the tables what the one-step
  transaction does at that moment, at the stamp it started with.
 */
module LockRefinement {
  import opened Wrappers
  import opened Store
  import opened SecretLocks

  // ---------- what a transaction has established ----------

  /** A creator past its writes is before its grant's deadline; a deletion that swept marked only grants of its
      name that are before theirs. */
  ghost predicate WritesOk(t: Tx, grants: map<Id, Minted>) {
    match t
    case Creator(now, _, decided, store, notAfter, _, phase) =>
      && (phase.Stored? || phase.Written? ==> now < notAfter)
      && (phase.Checked? || phase.Stored? || phase.Written? ==> store.Some? || decided.Some?)
    case Deleter(now, _, name, revokes, phase) =>
      phase.Swept? ==> forall g :: g in revokes ==> g in grants && grants[g].name == name && now < grants[g].notAfter
    case Depositor(_, _, _, _) => true
  }

  ghost predicate AllWritesOk(s: State) {
    forall x :: x in s.txs ==> WritesOk(s.txs[x], s.grants)
  }

  /** Grants are neither lost nor renamed. */
  lemma WritesFrame(t: Tx, a: map<Id, Minted>, b: map<Id, Minted>)
    requires WritesOk(t, a)
    requires forall g :: g in a ==> g in b && b[g].name == a[g].name && b[g].notAfter == a[g].notAfter
    ensures WritesOk(t, b)
  {
  }

  lemma CommitKeepsWrites(s: State, x: Id)
    requires Inv(s) && AllWritesOk(s) && Enabled(s, Commit(x))
    ensures AllWritesOk(Committed(s, x))
  {
    var n := Committed(s, x);
    forall y | y in n.txs ensures WritesOk(n.txs[y], n.grants) {
      WritesFrame(s.txs[y], s.grants, n.grants);
    }
  }

  lemma StepKeepsWrites(s: State, a: Step)
    requires Inv(s) && AllWritesOk(s) && Enabled(s, a)
    ensures AllWritesOk(Perform(s, a))
  {
    if a.Commit? {
      CommitKeepsWrites(s, a.x);
    } else if a.RevokeGrant? {
      var n := Perform(s, a);
      forall y | y in n.txs ensures WritesOk(n.txs[y], n.grants) {
        WritesFrame(s.txs[y], s.grants, n.grants);
      }
    }
  }

  lemma {:induction false} RunKeepsWrites(ss: seq<State>, steps: seq<Step>, i: nat)
    requires Run(ss, steps) && i < |ss|
    ensures AllWritesOk(ss[i])
  {
    if i > 0 {
      RunKeepsWrites(ss, steps, i - 1);
      RunKeeps(ss, steps, i - 1);
      StepKeepsWrites(ss[i - 1], steps[i - 1]);
    }
  }

  // ---------- the tables behind a state ----------

  ghost predicate SameSecrets(t: Tables, s: State) {
    t.secrets.Keys == s.secrets.Keys && forall i :: i in t.secrets ==> t.secrets[i].name == s.secrets[i]
  }

  ghost predicate SameGrants(t: Tables, s: State) {
    t.grants.Keys == s.grants.Keys && forall g :: g in t.grants ==> IsMinted(t.grants[g], s.grants[g])
  }

  predicate IsMinted(g: Grant, m: Minted) {
    && !g.ephemeral && g.payload.None? && g.secretName == m.name && g.decidedOn == Some(m.decidedOn)
    && g.notAfter == m.notAfter && g.revoked == m.revoked
  }

  /** Tables with these secret names and these grants, all without payloads of their own. */
  ghost predicate Behind(t: Tables, s: State) {
    SameSecrets(t, s) && SameGrants(t, s)
  }

  // ---------- commits are transactions of `Store` ----------

  lemma DeletedGrantsMatch(t: Tables, s: State, x: Id)
    requires Inv(s) && AllWritesOk(s) && DeletingAt(s, x, Swept) && Behind(t, s)
    requires s.txs[x].secretId in t.secrets && t.secrets[s.txs[x].secretId].name == s.txs[x].name
    ensures SameGrants(DeleteSecret(t, s.txs[x].now, s.txs[x].secretId, t.secrets[s.txs[x].secretId].currentVersion).0, Committed(s, x))
  {
    var tx := s.txs[x];
    var backed := Store.Backed(t.grants, tx.name, tx.now);
    assert TxOk(tx, s.secrets, s.grants, s.clock);
    assert WritesOk(tx, s.grants);
    forall g | g in t.grants && !t.grants[g].revoked ensures g in backed <==> g in tx.revokes {
      assert IsMinted(t.grants[g], s.grants[g]);
    }
    forall g | g in t.grants ensures IsMinted(RevokeAll(t.grants, backed)[g], Committed(s, x).grants[g]) {
      assert IsMinted(t.grants[g], s.grants[g]);
    }
  }

  /** A deletion that commits is `DeleteSecret` of the row at its current version: the same secret goes, and the
      same grants are revoked. */
  lemma DeletionIsStoreDelete(ss: seq<State>, steps: seq<Step>, i: nat, x: Id, t: Tables)
    requires Run(ss, steps) && i < |steps| && steps[i] == Commit(x) && ss[i].txs[x].Deleter? && Behind(t, ss[i])
    ensures var tx := ss[i].txs[x];
            && tx.secretId in t.secrets
            && var (n, out) := DeleteSecret(t, tx.now, tx.secretId, t.secrets[tx.secretId].currentVersion);
               out.Deleted? && Behind(n, ss[i + 1])
  {
    RunKeeps(ss, steps, i);
    RunKeepsWrites(ss, steps, i);
    assert TxOk(ss[i].txs[x], ss[i].secrets, ss[i].grants, ss[i].clock);
    DeletedGrantsMatch(t, ss[i], x);
  }

  /** What is approved, as the creator has it. */
  predicate Approves(tx: Tx, p: GrantParams, store: Option<NewSecret>) {
    && tx.Creator? && p.passthrough.None? && p.secretName == tx.name && p.secretId == tx.decided && p.notAfter == tx.notAfter
    && (if tx.store.Some? then store.Some? && store.value.secretId == tx.store.value && store.value.name == tx.name
        else store.None?)
  }

  lemma CreationSucceeds(s: State, x: Id, t: Tables, r: Id, p: GrantParams, store: Option<NewSecret>)
    requires Inv(s) && AllWritesOk(s) && At(s, x, Written) && Approves(s.txs[x], p, store) && SameSecrets(t, s)
    requires r in t.requests && Approvable(t.requests[r], s.txs[x].now)
    ensures ApproveRequest(t, s.txs[x].now, r, s.txs[x].grantId, p, store).1 == ApprovedAs(s.txs[x].grantId)
    ensures Decided(s.txs[x]).Some?
  {
    var tx := s.txs[x];
    assert TxOk(tx, s.secrets, s.grants, s.clock);
    assert WritesOk(tx, s.grants);
    assert Inserting(tx) == tx.store;
  }

  lemma CreationLeaves(s: State, x: Id, t: Tables, r: Id, p: GrantParams, store: Option<NewSecret>)
    requires At(s, x, Written) && Approves(s.txs[x], p, store) && Behind(t, s) && Decided(s.txs[x]).Some?
    requires ApproveRequest(t, s.txs[x].now, r, s.txs[x].grantId, p, store).1 == ApprovedAs(s.txs[x].grantId)
    ensures Behind(ApproveRequest(t, s.txs[x].now, r, s.txs[x].grantId, p, store).0, Committed(s, x))
  {
    var n := ApproveRequest(t, s.txs[x].now, r, s.txs[x].grantId, p, store).0;
    forall g | g in n.grants ensures g in Committed(s, x).grants && IsMinted(n.grants[g], Committed(s, x).grants[g]) {
      assert g in t.grants ==> IsMinted(t.grants[g], s.grants[g]);
    }
  }

  /** An approval that commits is `ApproveRequest` of a request that can still be approved: it succeeds, and mints
      the same grant on the same row. */
  lemma CreationIsStoreApprove(
    ss: seq<State>, steps: seq<Step>, i: nat, x: Id, t: Tables, r: Id, p: GrantParams, store: Option<NewSecret>)
    requires Run(ss, steps) && i < |steps| && steps[i] == Commit(x) && Approves(ss[i].txs[x], p, store) && Behind(t, ss[i])
    requires r in t.requests && Approvable(t.requests[r], ss[i].txs[x].now)
    ensures var tx := ss[i].txs[x];
            var (n, out) := ApproveRequest(t, tx.now, r, tx.grantId, p, store);
            out == ApprovedAs(tx.grantId) && Behind(n, ss[i + 1])
  {
    RunKeeps(ss, steps, i);
    RunKeepsWrites(ss, steps, i);
    CreationSucceeds(ss[i], x, t, r, p, store);
    CreationLeaves(ss[i], x, t, r, p, store);
  }

  /** A deposit or an operator's create that commits is `CreateSecret`: it succeeds, under the same name. */
  lemma DepositIsStoreCreate(
    ss: seq<State>, steps: seq<Step>, i: nat, x: Id, t: Tables, c: NewSecret, depositor: Option<string>)
    requires Run(ss, steps) && i < |steps| && steps[i] == Commit(x) && ss[i].txs[x].Depositor? && Behind(t, ss[i])
    requires c.secretId == ss[i].txs[x].secretId && c.name == ss[i].txs[x].name
    ensures CreateSecret(t, c, depositor).1 && Behind(CreateSecret(t, c, depositor).0, ss[i + 1])
  {
    RunKeeps(ss, steps, i);
    assert Inserting(ss[i].txs[x]).Some?;
  }
}
