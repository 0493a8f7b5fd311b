/**
  Deleting a stored secret against minting grants for it.

  `Store` takes approval and deletion as single steps. Here they are split into
  their statements: every transaction runs interleaved with every other, sees
  only what has committed (plus its own writes), and holds the per-name advisory
  lock from the moment it gets it to its end. Grant creators take the lock
  shared and check the secret row by id and name; deletion takes it exclusive.
  Deposits and admin creates take no secret lock: the unique index on the name
  is all that holds them back.
 */
module SecretLocks {
  import opened Wrappers
  import opened Store

  /** A grant with no payload of its own. `decidedOn` is the row its approval checked or created. */
  datatype Minted = Minted(name: string, decidedOn: Id, notAfter: Time, revoked: bool)

  datatype CreatorPhase = Waiting | Locked | Checked | Stored | Written

  datatype DeleterPhase = Begun | Named | Exclusive | Removed | Swept

  /** A transaction in flight. `now` is its start, which is its `now()` throughout.
      A creator mints grant `grantId`, for row `decided` or for the row it creates itself. */
  datatype Tx =
    | Creator(now: Time, name: string, decided: Option<Id>, store: Option<Id>, notAfter: Time, grantId: Id, creatorPhase: CreatorPhase)
    | Deleter(now: Time, secretId: Id, name: string, revokes: set<Id>, deleterPhase: DeleterPhase)
    | Depositor(now: Time, secretId: Id, name: string, inserted: bool)

  datatype State = State(secrets: map<Id, string>, grants: map<Id, Minted>, txs: map<Id, Tx>, issued: set<Id>, clock: Time)

  // ---------- locks and row visibility ----------

  predicate HoldsShared(t: Tx, name: string) {
    t.Creator? && t.name == name && !t.creatorPhase.Waiting?
  }

  predicate HoldsExclusive(t: Tx, name: string) {
    t.Deleter? && t.name == name && !t.deleterPhase.Begun? && !t.deleterPhase.Named?
  }

  /** The row a transaction has inserted and not committed. */
  function Inserting(t: Tx): Option<Id> {
    match t
    case Creator(_, _, _, store, _, _, phase) => if phase.Stored? || phase.Written? then store else None
    case Deleter(_, _, _, _, _) => None
    case Depositor(_, id, _, inserted) => if inserted then Some(id) else None
  }

  /** The row a transaction has deleted and not committed. */
  predicate Removing(t: Tx) {
    t.Deleter? && (t.deleterPhase.Removed? || t.deleterPhase.Swept?)
  }

  /** An insert of `name` waits for whoever has an uncommitted row or deletion under that name. */
  predicate NameBusy(s: State, name: string) {
    exists x :: x in s.txs && s.txs[x].name == name && (Inserting(s.txs[x]).Some? || Removing(s.txs[x]))
  }

  predicate NameStored(s: State, name: string) {
    exists i :: i in s.secrets && s.secrets[i] == name
  }

  predicate MintedLive(g: Minted, now: Time) {
    !g.revoked && now < g.notAfter
  }

  // ---------- steps ----------

  datatype Step =
    | BeginCreator(x: Id, name: string, decided: Option<Id>, store: Option<Id>, notAfter: Time, grantId: Id)
    | BeginDeleter(x: Id, secretId: Id)
    | BeginDepositor(x: Id, secretId: Id, name: string)
    | LockShared(x: Id)
    | CheckRow(x: Id)
    | StoreRow(x: Id)
    | WriteGrant(x: Id)
    | LookUpName(x: Id)
    | LockExclusive(x: Id)
    | RemoveRow(x: Id)
    | SweepGrants(x: Id)
    | DepositRow(x: Id)
    | Commit(x: Id)
    | Rollback(x: Id)
    | RevokeGrant(grantId: Id)
    | Tick(now: Time)

  ghost predicate At(s: State, x: Id, p: CreatorPhase) {
    x in s.txs && s.txs[x].Creator? && s.txs[x].creatorPhase == p
  }

  ghost predicate DeletingAt(s: State, x: Id, p: DeleterPhase) {
    x in s.txs && s.txs[x].Deleter? && s.txs[x].deleterPhase == p
  }

  /** When a statement can run. A check that fails has no step but `Rollback`. */
  ghost predicate Enabled(s: State, a: Step) {
    match a
    case BeginCreator(x, name, decided, store, notAfter, grantId) =>
      && x !in s.txs && grantId !in s.issued
      && (store.Some? ==> store.value !in s.issued && store.value != grantId)
    case BeginDeleter(x, _) => x !in s.txs
    case BeginDepositor(x, secretId, _) => x !in s.txs && secretId !in s.issued
    case LockShared(x) =>
      At(s, x, Waiting) && forall y :: y in s.txs ==> !HoldsExclusive(s.txs[y], s.txs[x].name)
    case CheckRow(x) =>
      && At(s, x, Locked)
      && var t := s.txs[x];
         t.store.Some? || (t.decided.Some? && t.decided.value in s.secrets && s.secrets[t.decided.value] == t.name)
    case StoreRow(x) =>
      && At(s, x, Checked)
      && s.txs[x].now < s.txs[x].notAfter
      && (s.txs[x].store.Some? ==> !NameBusy(s, s.txs[x].name) && !NameStored(s, s.txs[x].name))
    case WriteGrant(x) => At(s, x, Stored)
    case LookUpName(x) => DeletingAt(s, x, Begun) && s.txs[x].secretId in s.secrets
    case LockExclusive(x) =>
      && DeletingAt(s, x, Named)
      && forall y :: y in s.txs ==> !HoldsExclusive(s.txs[y], s.txs[x].name) && !HoldsShared(s.txs[y], s.txs[x].name)
    case RemoveRow(x) => DeletingAt(s, x, Exclusive) && s.txs[x].secretId in s.secrets
    case SweepGrants(x) => DeletingAt(s, x, Removed)
    case DepositRow(x) =>
      && x in s.txs && s.txs[x].Depositor? && !s.txs[x].inserted
      && !NameBusy(s, s.txs[x].name) && !NameStored(s, s.txs[x].name)
    case Commit(x) =>
      At(s, x, Written) || DeletingAt(s, x, Swept) || (x in s.txs && s.txs[x].Depositor? && s.txs[x].inserted)
    case Rollback(x) => x in s.txs
    case RevokeGrant(g) => g in s.grants
    case Tick(now) => s.clock <= now
  }

  function Drop(txs: map<Id, Tx>, x: Id): map<Id, Tx> {
    txs - {x}
  }

  /** The row a creator's grant stands on. */
  function Decided(t: Tx): Option<Id>
    requires t.Creator?
  {
    if t.store.Some? then t.store else t.decided
  }

  function Committed(s: State, x: Id): State
    requires x in s.txs
  {
    var t := s.txs[x];
    var rest := s.(txs := Drop(s.txs, x));
    match t
    case Creator(_, name, _, store, notAfter, grantId, _) =>
      if Decided(t).None? then rest
      else
        rest.(secrets := if store.Some? then s.secrets[store.value := name] else s.secrets,
              grants := s.grants[grantId := Minted(name, Decided(t).value, notAfter, false)])
    case Deleter(_, secretId, _, revokes, _) =>
      rest.(secrets := s.secrets - {secretId},
            grants := map g | g in s.grants ::
              if g in revokes then s.grants[g].(revoked := true) else s.grants[g])
    case Depositor(_, secretId, name, _) =>
      rest.(secrets := s.secrets[secretId := name])
  }

  ghost function Perform(s: State, a: Step): State
    requires Enabled(s, a)
  {
    match a
    case BeginCreator(x, name, decided, store, notAfter, grantId) =>
      s.(txs := s.txs[x := Creator(s.clock, name, decided, store, notAfter, grantId, Waiting)],
         issued := s.issued + {grantId} + if store.Some? then {store.value} else {})
    case BeginDeleter(x, secretId) => s.(txs := s.txs[x := Deleter(s.clock, secretId, "", {}, Begun)])
    case BeginDepositor(x, secretId, name) =>
      s.(txs := s.txs[x := Depositor(s.clock, secretId, name, false)], issued := s.issued + {secretId})
    case LockShared(x) => s.(txs := s.txs[x := s.txs[x].(creatorPhase := Locked)])
    case CheckRow(x) => s.(txs := s.txs[x := s.txs[x].(creatorPhase := Checked)])
    case StoreRow(x) => s.(txs := s.txs[x := s.txs[x].(creatorPhase := Stored)])
    case WriteGrant(x) => s.(txs := s.txs[x := s.txs[x].(creatorPhase := Written)])
    case LookUpName(x) => s.(txs := s.txs[x := s.txs[x].(name := s.secrets[s.txs[x].secretId], deleterPhase := Named)])
    case LockExclusive(x) => s.(txs := s.txs[x := s.txs[x].(deleterPhase := Exclusive)])
    case RemoveRow(x) => s.(txs := s.txs[x := s.txs[x].(deleterPhase := Removed)])
    case SweepGrants(x) =>
      var t := s.txs[x];
      var revokes := set g | g in s.grants && s.grants[g].name == t.name && MintedLive(s.grants[g], t.now);
      s.(txs := s.txs[x := t.(revokes := revokes, deleterPhase := Swept)])
    case DepositRow(x) => s.(txs := s.txs[x := s.txs[x].(inserted := true)])
    case Commit(x) => Committed(s, x)
    case Rollback(x) => s.(txs := Drop(s.txs, x))
    case RevokeGrant(g) => s.(grants := s.grants[g := s.grants[g].(revoked := true)])
    case Tick(now) => s.(clock := now)
  }

  const Init := State(map[], map[], map[], {}, 0)

  ghost predicate Run(ss: seq<State>, steps: seq<Step>) {
    && |ss| == |steps| + 1 && ss[0] == Init
    && forall i :: 0 <= i < |steps| ==> Enabled(ss[i], steps[i]) && ss[i + 1] == Perform(ss[i], steps[i])
  }

  // ---------- the invariant ----------

  /** The lock is exclusive: nobody holds a name beside its deleter. */
  ghost predicate LocksOk(txs: map<Id, Tx>) {
    forall x, y, n :: x in txs && y in txs && x != y && HoldsExclusive(txs[x], n) ==>
      !HoldsExclusive(txs[y], n) && !HoldsShared(txs[y], n)
  }

  /** Uncommitted inserts keep the name unique, and clear of names being deleted. */
  ghost predicate NamesOk(secrets: map<Id, string>, txs: map<Id, Tx>) {
    && (forall i, j :: i in secrets && j in secrets && secrets[i] == secrets[j] ==> i == j)
    && (forall x, i :: x in txs && Inserting(txs[x]).Some? && i in secrets ==> secrets[i] != txs[x].name)
    && (forall x, y :: x in txs && y in txs && Inserting(txs[x]).Some? && Inserting(txs[y]).Some? && txs[x].name == txs[y].name ==>
          x == y)
  }

  /** Row ids are issued once, to one transaction. */
  function NewRow(t: Tx): Option<Id> {
    match t
    case Creator(_, _, _, store, _, _, _) => store
    case Deleter(_, _, _, _, _) => None
    case Depositor(_, id, _, _) => Some(id)
  }

  /** The committed row a deletion has looked up. */
  function Knows(t: Tx): Option<Id> {
    if t.Deleter? && !t.deleterPhase.Begun? then Some(t.secretId) else None
  }

  ghost predicate RowsOk(secrets: map<Id, string>, txs: map<Id, Tx>, issued: set<Id>) {
    && secrets.Keys <= issued
    && (forall x :: x in txs && NewRow(txs[x]).Some? ==> NewRow(txs[x]).value in issued && NewRow(txs[x]).value !in secrets)
    && (forall x, y :: x in txs && y in txs && x != y && NewRow(txs[x]).Some? ==> NewRow(txs[y]) != NewRow(txs[x]))
    && (forall x :: x in txs && Knows(txs[x]).Some? ==> Knows(txs[x]).value in issued)
    && (forall x, y :: x in txs && y in txs && NewRow(txs[x]).Some? ==> Knows(txs[y]) != NewRow(txs[x]))
  }

  /** So are grant ids. */
  ghost predicate MintsOk(grants: map<Id, Minted>, txs: map<Id, Tx>, issued: set<Id>) {
    && grants.Keys <= issued
    && (forall x :: x in txs && txs[x].Creator? ==> txs[x].grantId in issued && txs[x].grantId !in grants)
    && (forall x, y :: x in txs && y in txs && x != y && txs[x].Creator? && txs[y].Creator? ==>
          txs[x].grantId != txs[y].grantId)
  }

  /** What each transaction knows at its phase. */
  ghost predicate TxOk(t: Tx, secrets: map<Id, string>, grants: map<Id, Minted>, clock: Time) {
    && t.now <= clock
    && match t
       case Creator(_, name, decided, store, _, _, phase) =>
         !phase.Waiting? && !phase.Locked? && store.None? ==>
           decided.Some? && decided.value in secrets && secrets[decided.value] == name
       case Deleter(now, secretId, name, revokes, phase) =>
         && (!phase.Begun? && secretId in secrets ==> secrets[secretId] == name)
         && (phase.Removed? || phase.Swept? ==> secretId in secrets)
         && (phase.Swept? ==> forall g :: g in grants && grants[g].name == name && MintedLive(grants[g], now) ==> g in revokes)
       case Depositor(_, _, _, _) => true
  }

  ghost predicate TxsOk(txs: map<Id, Tx>, secrets: map<Id, string>, grants: map<Id, Minted>, clock: Time) {
    forall x :: x in txs ==> TxOk(txs[x], secrets, grants, clock)
  }

  ghost predicate Backed(g: Minted, secrets: map<Id, string>) {
    g.decidedOn in secrets && secrets[g.decidedOn] == g.name
  }

  ghost predicate GrantsOk(grants: map<Id, Minted>, secrets: map<Id, string>, clock: Time) {
    forall g :: g in grants && MintedLive(grants[g], clock) ==> Backed(grants[g], secrets)
  }

  ghost predicate Inv(s: State) {
    && LocksOk(s.txs) && NamesOk(s.secrets, s.txs)
    && RowsOk(s.secrets, s.txs, s.issued) && MintsOk(s.grants, s.txs, s.issued)
    && TxsOk(s.txs, s.secrets, s.grants, s.clock) && GrantsOk(s.grants, s.secrets, s.clock)
  }

  // ---------- every step keeps it ----------

  /** A transaction may take a lock that nobody holds against it. */
  ghost predicate LocksFree(txs: map<Id, Tx>, x: Id, t: Tx) {
    forall y, n :: y in txs && y != x ==>
      && (HoldsExclusive(t, n) ==> !HoldsExclusive(txs[y], n) && !HoldsShared(txs[y], n))
      && (HoldsShared(t, n) ==> !HoldsExclusive(txs[y], n))
  }

  /** A transaction may insert a name that is neither stored nor being inserted. */
  ghost predicate NameFree(secrets: map<Id, string>, txs: map<Id, Tx>, x: Id, t: Tx) {
    Inserting(t).Some? ==>
      && (forall i :: i in secrets ==> secrets[i] != t.name)
      && (forall y :: y in txs && y != x && Inserting(txs[y]).Some? ==> txs[y].name != t.name)
  }

  lemma PutLocks(txs: map<Id, Tx>, x: Id, t: Tx)
    requires LocksOk(txs) && LocksFree(txs, x, t)
    ensures LocksOk(txs[x := t])
  {
  }

  lemma PutNames(secrets: map<Id, string>, txs: map<Id, Tx>, x: Id, t: Tx)
    requires NamesOk(secrets, txs) && NameFree(secrets, txs, x, t)
    ensures NamesOk(secrets, txs[x := t])
  {
  }

  /** Advancing one transaction touches neither the tables nor the others. */
  lemma AdvanceKeeps(s: State, x: Id, t: Tx)
    requires Inv(s) && x in s.txs
    requires NewRow(t) == NewRow(s.txs[x]) && (t.Creator? <==> s.txs[x].Creator?)
    requires t.Creator? ==> t.grantId == s.txs[x].grantId
    requires Knows(t).Some? ==> Knows(t) == Knows(s.txs[x]) || Knows(t).value in s.secrets
    requires TxOk(t, s.secrets, s.grants, s.clock) && LocksFree(s.txs, x, t) && NameFree(s.secrets, s.txs, x, t)
    ensures Inv(s.(txs := s.txs[x := t]))
  {
    PutLocks(s.txs, x, t);
    PutNames(s.secrets, s.txs, x, t);
    AdvanceRows(s.secrets, s.txs, s.issued, x, t);
    assert MintsOk(s.grants, s.txs[x := t], s.issued);
  }

  lemma AdvanceRows(secrets: map<Id, string>, txs: map<Id, Tx>, issued: set<Id>, x: Id, t: Tx)
    requires RowsOk(secrets, txs, issued) && x in txs && NewRow(t) == NewRow(txs[x])
    requires Knows(t).Some? ==> Knows(t) == Knows(txs[x]) || Knows(t).value in secrets
    ensures RowsOk(secrets, txs[x := t], issued)
  {
  }

  lemma CreatorPhaseKeeps(s: State, a: Step)
    requires Inv(s) && Enabled(s, a) && (a.LockShared? || a.CheckRow? || a.WriteGrant?)
    ensures Inv(Perform(s, a))
  {
    var t := Perform(s, a).txs[a.x];
    assert TxOk(s.txs[a.x], s.secrets, s.grants, s.clock);
    assert LocksFree(s.txs, a.x, t) by {
      assert !a.LockShared? ==> HoldsShared(s.txs[a.x], t.name);
    }
    AdvanceKeeps(s, a.x, t);
  }

  lemma DeleterLocks(s: State, a: Step)
    requires Inv(s) && Enabled(s, a) && (a.LookUpName? || a.LockExclusive?)
    ensures Inv(Perform(s, a))
  {
    assert TxOk(s.txs[a.x], s.secrets, s.grants, s.clock);
    AdvanceKeeps(s, a.x, Perform(s, a).txs[a.x]);
  }

  lemma DeleterWrites(s: State, a: Step)
    requires Inv(s) && Enabled(s, a) && (a.RemoveRow? || a.SweepGrants?)
    ensures Inv(Perform(s, a))
  {
    var t := Perform(s, a).txs[a.x];
    assert TxOk(s.txs[a.x], s.secrets, s.grants, s.clock);
    assert LocksFree(s.txs, a.x, t) by {
      assert HoldsExclusive(s.txs[a.x], t.name);
    }
    AdvanceKeeps(s, a.x, t);
  }

  lemma StoreKeeps(s: State, x: Id)
    requires Inv(s) && Enabled(s, StoreRow(x))
    ensures Inv(Perform(s, StoreRow(x)))
  {
    assert TxOk(s.txs[x], s.secrets, s.grants, s.clock);
    AdvanceKeeps(s, x, Perform(s, StoreRow(x)).txs[x]);
  }

  lemma DepositKeeps(s: State, x: Id)
    requires Inv(s) && Enabled(s, DepositRow(x))
    ensures Inv(Perform(s, DepositRow(x)))
  {
    assert TxOk(s.txs[x], s.secrets, s.grants, s.clock);
    AdvanceKeeps(s, x, Perform(s, DepositRow(x)).txs[x]);
  }

  lemma JoinRows(secrets: map<Id, string>, txs: map<Id, Tx>, issued: set<Id>, x: Id, t: Tx, ids: set<Id>)
    requires RowsOk(secrets, txs, issued) && x !in txs && ids !! issued && Knows(t).None?
    requires NewRow(t).Some? ==> NewRow(t).value in ids
    ensures RowsOk(secrets, txs[x := t], issued + ids)
  {
  }

  lemma JoinMints(grants: map<Id, Minted>, txs: map<Id, Tx>, issued: set<Id>, x: Id, t: Tx, ids: set<Id>)
    requires MintsOk(grants, txs, issued) && x !in txs && ids !! issued && (t.Creator? ==> t.grantId in ids)
    ensures MintsOk(grants, txs[x := t], issued + ids)
  {
  }

  /** A transaction begins with nothing read, held or written; its new ids are its own. */
  lemma JoinKeeps(s: State, x: Id, t: Tx, ids: set<Id>)
    requires Inv(s) && x !in s.txs && ids !! s.issued
    requires t.now == s.clock && Inserting(t).None? && Knows(t).None?
    requires (t.Creator? ==> t.creatorPhase.Waiting? && t.grantId in ids) && (t.Deleter? ==> t.deleterPhase.Begun?)
    requires NewRow(t).Some? ==> NewRow(t).value in ids
    ensures Inv(s.(txs := s.txs[x := t], issued := s.issued + ids))
  {
    PutLocks(s.txs, x, t);
    PutNames(s.secrets, s.txs, x, t);
    JoinRows(s.secrets, s.txs, s.issued, x, t, ids);
    JoinMints(s.grants, s.txs, s.issued, x, t, ids);
  }

  lemma BeginKeeps(s: State, a: Step)
    requires Inv(s) && Enabled(s, a) && (a.BeginCreator? || a.BeginDeleter? || a.BeginDepositor?)
    ensures Inv(Perform(s, a))
  {
    var t := Perform(s, a).txs[a.x];
    match a
    case BeginCreator(_, _, _, store, _, grantId) =>
      var ids := {grantId} + if store.Some? then {store.value} else {};
      JoinKeeps(s, a.x, t, ids);
      assert s.issued + ids == Perform(s, a).issued;
    case BeginDeleter(_, _) =>
      JoinKeeps(s, a.x, t, {});
      assert s.issued + {} == s.issued;
    case BeginDepositor(_, secretId, _) => JoinKeeps(s, a.x, t, {secretId});
  }

  /** A transaction that ends leaves the others as they were. */
  lemma DropKeeps(secrets: map<Id, string>, grants: map<Id, Minted>, txs: map<Id, Tx>, issued: set<Id>, x: Id)
    requires LocksOk(txs) && NamesOk(secrets, txs) && RowsOk(secrets, txs, issued) && MintsOk(grants, txs, issued)
    ensures LocksOk(Drop(txs, x)) && NamesOk(secrets, Drop(txs, x))
    ensures RowsOk(secrets, Drop(txs, x), issued) && MintsOk(grants, Drop(txs, x), issued)
  {
  }

  lemma RollbackKeeps(s: State, x: Id)
    requires Inv(s)
    ensures Inv(s.(txs := Drop(s.txs, x)))
  {
    DropKeeps(s.secrets, s.grants, s.txs, s.issued, x);
  }

  /** Revoking and waiting only make fewer grants live. */
  lemma FewerLive(s: State, grants: map<Id, Minted>, clock: Time)
    requires Inv(s) && s.clock <= clock && grants.Keys == s.grants.Keys
    requires forall g :: g in grants ==> grants[g] == s.grants[g] || grants[g] == s.grants[g].(revoked := true)
    ensures Inv(s.(grants := grants, clock := clock))
  {
    forall x | x in s.txs ensures TxOk(s.txs[x], s.secrets, grants, clock) {
      assert TxOk(s.txs[x], s.secrets, s.grants, s.clock);
    }
    forall g | g in grants && MintedLive(grants[g], clock) ensures Backed(grants[g], s.secrets) {
      assert Backed(s.grants[g], s.secrets);
    }
  }

  /** A committed insert: unique under its name, and known to no deletion. */
  lemma RowCommitted(s: State, x: Id, id: Id)
    requires Inv(s) && x in s.txs && Inserting(s.txs[x]) == Some(id) && NewRow(s.txs[x]) == Some(id)
    ensures NamesOk(s.secrets[id := s.txs[x].name], Drop(s.txs, x))
    ensures RowsOk(s.secrets[id := s.txs[x].name], Drop(s.txs, x), s.issued)
    ensures TxsOk(Drop(s.txs, x), s.secrets[id := s.txs[x].name], s.grants, s.clock)
    ensures GrantsOk(s.grants, s.secrets[id := s.txs[x].name], s.clock)
  {
    var secrets := s.secrets[id := s.txs[x].name];
    forall y | y in s.txs && y != x ensures TxOk(s.txs[y], secrets, s.grants, s.clock) {
      assert TxOk(s.txs[y], s.secrets, s.grants, s.clock);
    }
    forall g | g in s.grants && MintedLive(s.grants[g], s.clock) ensures Backed(s.grants[g], secrets) {
      assert Backed(s.grants[g], s.secrets);
    }
  }

  /** A committed grant: no deletion of its name has swept yet. */
  lemma GrantCommitted(s: State, secrets: map<Id, string>, x: Id, g: Minted)
    requires LocksOk(s.txs) && At(s, x, Written) && s.txs[x].name == g.name
    requires TxsOk(Drop(s.txs, x), secrets, s.grants, s.clock) && GrantsOk(s.grants, secrets, s.clock) && Backed(g, secrets)
    ensures TxsOk(Drop(s.txs, x), secrets, s.grants[s.txs[x].grantId := g], s.clock)
    ensures GrantsOk(s.grants[s.txs[x].grantId := g], secrets, s.clock)
  {
    assert HoldsShared(s.txs[x], g.name);
    var txs := Drop(s.txs, x);
    forall y | y in txs ensures TxOk(txs[y], secrets, s.grants[s.txs[x].grantId := g], s.clock) {
      assert TxOk(txs[y], secrets, s.grants, s.clock);
      assert HoldsExclusive(s.txs[y], s.txs[y].name) ==> s.txs[y].name != g.name;
    }
  }

  lemma CommitCreatorKeeps(s: State, x: Id)
    requires Inv(s) && At(s, x, Written)
    ensures Inv(Committed(s, x))
  {
    var t, n := s.txs[x], Committed(s, x);
    assert TxOk(t, s.secrets, s.grants, s.clock);
    DropKeeps(s.secrets, s.grants, s.txs, s.issued, x);
    if t.store.Some? {
      RowCommitted(s, x, t.store.value);
    }
    GrantCommitted(s, n.secrets, x, Minted(t.name, Decided(t).value, t.notAfter, false));
    MintCommitted(s.grants, s.txs, s.issued, x, Minted(t.name, Decided(t).value, t.notAfter, false));
  }

  lemma MintCommitted(grants: map<Id, Minted>, txs: map<Id, Tx>, issued: set<Id>, x: Id, g: Minted)
    requires MintsOk(grants, txs, issued) && x in txs && txs[x].Creator?
    ensures MintsOk(grants[txs[x].grantId := g], Drop(txs, x), issued)
  {
  }

  lemma CommitDepositorKeeps(s: State, x: Id)
    requires Inv(s) && x in s.txs && s.txs[x].Depositor? && s.txs[x].inserted
    ensures Inv(Committed(s, x))
  {
    RowCommitted(s, x, s.txs[x].secretId);
    DropKeeps(s.secrets, s.grants, s.txs, s.issued, x);
  }

  /** A committed deletion: no creator is past its check of the row, and every live grant of the name was swept. */
  lemma CommitDeleterKeeps(s: State, x: Id)
    requires Inv(s) && DeletingAt(s, x, Swept)
    ensures Inv(Committed(s, x))
  {
    DropKeeps(s.secrets, s.grants, s.txs, s.issued, x);
    DeletedTxs(s, x);
    DeletedGrants(s, x);
  }

  lemma DeletedTxs(s: State, x: Id)
    requires Inv(s) && DeletingAt(s, x, Swept)
    ensures TxsOk(Drop(s.txs, x), Committed(s, x).secrets, Committed(s, x).grants, s.clock)
  {
    var t, n := s.txs[x], Committed(s, x);
    assert TxOk(t, s.secrets, s.grants, s.clock);
    assert HoldsExclusive(t, t.name);
    forall y | y in n.txs ensures TxOk(n.txs[y], n.secrets, n.grants, n.clock) {
      assert TxOk(s.txs[y], s.secrets, s.grants, s.clock);
      assert HoldsShared(s.txs[y], s.txs[y].name) || HoldsExclusive(s.txs[y], s.txs[y].name) ==> s.txs[y].name != t.name;
    }
  }

  lemma DeletedGrants(s: State, x: Id)
    requires Inv(s) && DeletingAt(s, x, Swept)
    ensures GrantsOk(Committed(s, x).grants, Committed(s, x).secrets, s.clock)
  {
    var t, n := s.txs[x], Committed(s, x);
    assert TxOk(t, s.secrets, s.grants, s.clock);
    forall g | g in n.grants && MintedLive(n.grants[g], n.clock) ensures Backed(n.grants[g], n.secrets) {
      assert Backed(s.grants[g], s.secrets);
    }
  }

  lemma StepKeeps(s: State, a: Step)
    requires Inv(s) && Enabled(s, a)
    ensures Inv(Perform(s, a))
  {
    match a
    case BeginCreator(_, _, _, _, _, _) => BeginKeeps(s, a);
    case BeginDeleter(_, _) => BeginKeeps(s, a);
    case BeginDepositor(_, _, _) => BeginKeeps(s, a);
    case StoreRow(x) => StoreKeeps(s, x);
    case DepositRow(x) => DepositKeeps(s, x);
    case Rollback(x) => RollbackKeeps(s, x);
    case RevokeGrant(_) => FewerLive(s, Perform(s, a).grants, s.clock);
    case Tick(now) => FewerLive(s, s.grants, now);
    case Commit(x) =>
      if s.txs[x].Creator? {
        CommitCreatorKeeps(s, x);
      } else if s.txs[x].Deleter? {
        CommitDeleterKeeps(s, x);
      } else {
        CommitDepositorKeeps(s, x);
      }
    case LockShared(_) => CreatorPhaseKeeps(s, a);
    case CheckRow(_) => CreatorPhaseKeeps(s, a);
    case WriteGrant(_) => CreatorPhaseKeeps(s, a);
    case LookUpName(_) => DeleterLocks(s, a);
    case LockExclusive(_) => DeleterLocks(s, a);
    case RemoveRow(_) => DeleterWrites(s, a);
    case SweepGrants(_) => DeleterWrites(s, a);
  }

  lemma {:induction false} RunKeeps(ss: seq<State>, steps: seq<Step>, i: nat)
    requires Run(ss, steps) && i < |ss|
    ensures Inv(ss[i])
  {
    if i > 0 {
      RunKeeps(ss, steps, i - 1);
      StepKeeps(ss[i - 1], steps[i - 1]);
    }
  }

  /** However approvals, auto-approvals, deletions, re-creations and deposits interleave, a committed
      grant that is unrevoked and unexpired stands on the very row its approval checked, still stored
      under the name the grant carries. */
  lemma NoGrantOutlivesItsSecret(ss: seq<State>, steps: seq<Step>, i: nat, g: Id)
    requires Run(ss, steps) && i < |ss| && g in ss[i].grants && MintedLive(ss[i].grants[g], ss[i].clock)
    ensures ss[i].grants[g].decidedOn in ss[i].secrets
    ensures ss[i].secrets[ss[i].grants[g].decidedOn] == ss[i].grants[g].name
    ensures forall j :: j in ss[i].secrets && ss[i].secrets[j] == ss[i].grants[g].name ==> j == ss[i].grants[g].decidedOn
  {
    RunKeeps(ss, steps, i);
    assert Backed(ss[i].grants[g], ss[i].secrets);
  }
}
