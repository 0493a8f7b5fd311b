/**
  Client deposits under the hourly cap.

  A deposit's `now()` is its start, and starts are in no particular order with
  respect to the per-client lock: nothing below relates a transaction's stamp to
  any other. The count sees the audit rows that committed before the lock was
  taken, whatever their stamps.
 */
module Deposits {
  import opened Wrappers
  import Store

  type Id = Store.Id
  type Time = Store.Time

  /** A `secret-created` audit row; operator rows carry no client. */
  datatype Created = Created(client: Option<string>, at: Time)

  datatype Rate = Rate(cap: nat, window: nat)

  datatype Phase = Started | Holding | Allowed | Inserted(secretId: Id, versionId: Id, name: string, plaintext: bytes)

  datatype Tx = Tx(client: string, now: Time, phase: Phase)

  datatype State = State(
    secrets: map<Id, Store.Secret>, versions: map<Id, Store.Version>, log: seq<Created>, txs: map<nat, Tx>, issued: set<Id>)

  const Init := State(map[], map[], [], map[], {})

  datatype Step =
    | Begin(x: nat, client: string, now: Time)
    | Lock(x: nat)
    | Count(x: nat)
    | Insert(x: nat, secretId: Id, versionId: Id, name: string, plaintext: bytes)
    | Commit(x: nat)
    | Rollback(x: nat)
    | OperatorCreates(secretId: Id, name: string, now: Time)
    | OperatorDeletes(secretId: Id)

  predicate Holds(t: Tx, client: string) {
    t.client == client && !t.phase.Started?
  }

  /** `count(*) ... WHERE client_name = $1 AND at > now() - window`. */
  function Recent(log: seq<Created>, client: string, since: Time): nat {
    if log == [] then 0
    else
      var row := log[|log| - 1];
      Recent(log[..|log| - 1], client, since) + (if row.client == Some(client) && row.at > since then 1 else 0)
  }

  predicate NameFree(s: State, name: string) {
    && (forall i :: i in s.secrets ==> s.secrets[i].name != name)
    && (forall x :: x in s.txs && s.txs[x].phase.Inserted? ==> s.txs[x].phase.name != name)
  }

  /** A count at the cap, or a name that is taken, leaves nothing but `Rollback`. */
  ghost predicate Enabled(s: State, rate: Rate, a: Step) {
    match a
    case Begin(x, _, _) => x !in s.txs
    case Lock(x) => x in s.txs && s.txs[x].phase.Started? && forall y :: y in s.txs ==> !Holds(s.txs[y], s.txs[x].client)
    case Count(x) =>
      x in s.txs && s.txs[x].phase.Holding? && Recent(s.log, s.txs[x].client, s.txs[x].now - rate.window) < rate.cap
    case Insert(x, secretId, versionId, name, _) =>
      && x in s.txs && s.txs[x].phase.Allowed? && NameFree(s, name)
      && secretId !in s.issued && versionId !in s.issued && secretId != versionId
    case Commit(x) => x in s.txs && s.txs[x].phase.Inserted?
    case Rollback(x) => x in s.txs
    case OperatorCreates(secretId, name, _) => secretId !in s.issued && NameFree(s, name)
    case OperatorDeletes(secretId) => secretId in s.secrets
  }

  ghost function Perform(s: State, rate: Rate, a: Step): State
    requires Enabled(s, rate, a)
  {
    match a
    case Begin(x, client, now) => s.(txs := s.txs[x := Tx(client, now, Started)])
    case Lock(x) => s.(txs := s.txs[x := s.txs[x].(phase := Holding)])
    case Count(x) => s.(txs := s.txs[x := s.txs[x].(phase := Allowed)])
    case Insert(x, secretId, versionId, name, plaintext) =>
      s.(txs := s.txs[x := s.txs[x].(phase := Inserted(secretId, versionId, name, plaintext))],
         issued := s.issued + {secretId, versionId})
    case Commit(x) =>
      var t := s.txs[x];
      var Inserted(secretId, versionId, name, plaintext) := t.phase;
      s.(secrets := s.secrets[secretId := Store.Secret(name, 1, false)],
         versions := s.versions[versionId := Store.Version(secretId, 1, plaintext)],
         log := s.log + [Created(Some(t.client), t.now)], txs := s.txs - {x})
    case Rollback(x) => s.(txs := s.txs - {x})
    case OperatorCreates(secretId, name, now) =>
      s.(secrets := s.secrets[secretId := Store.Secret(name, 1, true)], log := s.log + [Created(None, now)], issued := s.issued + {secretId})
    case OperatorDeletes(secretId) =>
      s.(secrets := s.secrets - {secretId},
         versions := map v | v in s.versions && s.versions[v].secretId != secretId :: s.versions[v])
  }

  ghost predicate Run(ss: seq<State>, rate: Rate, steps: seq<Step>) {
    && |ss| == |steps| + 1 && ss[0] == Init
    && forall i :: 0 <= i < |steps| ==> Enabled(ss[i], rate, steps[i]) && ss[i + 1] == Perform(ss[i], rate, steps[i])
  }

  // ---------- the cap ----------

  /** Each committed deposit passed its check against the rows before it. */
  ghost predicate Checked(log: seq<Created>, rate: Rate) {
    forall i :: 0 <= i < |log| && log[i].client.Some? ==>
      Recent(log[..i], log[i].client.value, log[i].at - rate.window) < rate.cap
  }

  predicate Counted(p: Phase) {
    p.Allowed? || p.Inserted?
  }

  ghost predicate Inv(s: State, rate: Rate) {
    && Checked(s.log, rate)
    && (forall x, y, c :: x in s.txs && y in s.txs && Holds(s.txs[x], c) && Holds(s.txs[y], c) ==> x == y)
    && (forall x :: x in s.txs && Counted(s.txs[x].phase) ==>
          Recent(s.log, s.txs[x].client, s.txs[x].now - rate.window) < rate.cap)
  }

  lemma RecentAppend(log: seq<Created>, row: Created, client: string, since: Time)
    ensures Recent(log + [row], client, since)
         == Recent(log, client, since) + (if row.client == Some(client) && row.at > since then 1 else 0)
  {
    assert (log + [row])[..|log|] == log;
  }

  lemma CheckedAppend(log: seq<Created>, rate: Rate, row: Created)
    requires Checked(log, rate)
    requires row.client.Some? ==> Recent(log, row.client.value, row.at - rate.window) < rate.cap
    ensures Checked(log + [row], rate)
  {
    forall i | 0 <= i < |log| + 1 && (log + [row])[i].client.Some?
      ensures Recent((log + [row])[..i], (log + [row])[i].client.value, (log + [row])[i].at - rate.window) < rate.cap
    {
      assert (log + [row])[..i] == log[..i];
      assert log[..|log|] == log;
    }
  }

  lemma LoggedKeeps(s: State, rate: Rate, row: Created, txs: map<nat, Tx>)
    requires Inv(s, rate)
    requires row.client.Some? ==> Recent(s.log, row.client.value, row.at - rate.window) < rate.cap
    requires forall x :: x in txs ==> x in s.txs && txs[x] == s.txs[x]
    requires forall x :: x in txs && Counted(txs[x].phase) ==> row.client != Some(txs[x].client)
    ensures Inv(s.(log := s.log + [row], txs := txs), rate)
  {
    CheckedAppend(s.log, rate, row);
    forall x | x in txs && Counted(txs[x].phase)
      ensures Recent(s.log + [row], txs[x].client, txs[x].now - rate.window) < rate.cap
    {
      RecentAppend(s.log, row, txs[x].client, txs[x].now - rate.window);
    }
  }

  lemma CommitKeeps(s: State, rate: Rate, x: nat)
    requires Inv(s, rate) && Enabled(s, rate, Commit(x))
    ensures Inv(Perform(s, rate, Commit(x)), rate)
  {
    assert Holds(s.txs[x], s.txs[x].client);
    LoggedKeeps(s, rate, Created(Some(s.txs[x].client), s.txs[x].now), s.txs - {x});
  }

  lemma StepKeeps(s: State, rate: Rate, a: Step)
    requires Inv(s, rate) && Enabled(s, rate, a)
    ensures Inv(Perform(s, rate, a), rate)
  {
    if a.Commit? {
      CommitKeeps(s, rate, a.x);
    } else if a.OperatorCreates? {
      LoggedKeeps(s, rate, Created(None, a.now), s.txs);
    }
  }

  lemma {:induction false} RunKeeps(ss: seq<State>, rate: Rate, steps: seq<Step>, i: nat)
    requires Run(ss, rate, steps) && i < |ss|
    ensures Inv(ss[i], rate)
  {
    if i > 0 {
      RunKeeps(ss, rate, steps, i - 1);
      StepKeeps(ss[i - 1], rate, steps[i - 1]);
    }
  }

  /** The rows of a client's deposits with a stamp in `(since, until]`. */
  ghost function InWindow(log: seq<Created>, client: string, since: Time, until: Time): set<int> {
    set i | 0 <= i < |log| && log[i].client == Some(client) && since < log[i].at <= until
  }

  lemma WindowSnoc(log: seq<Created>, row: Created, client: string, since: Time, until: Time)
    ensures |InWindow(log + [row], client, since, until)|
         == |InWindow(log, client, since, until)| + if row.client == Some(client) && since < row.at <= until then 1 else 0
  {
    var more := if row.client == Some(client) && since < row.at <= until then {|log|} else {};
    assert InWindow(log + [row], client, since, until) == InWindow(log, client, since, until) + more;
  }

  /** The count is of the client's rows younger than the stamp, every one of them. */
  lemma {:induction false} RecentCounts(log: seq<Created>, client: string, since: Time)
    ensures Recent(log, client, since) == |set i | 0 <= i < |log| && log[i].client == Some(client) && log[i].at > since|
  {
    var younger := set i | 0 <= i < |log| && log[i].client == Some(client) && log[i].at > since;
    if log == [] {
      assert younger == {};
    } else {
      var (n, row) := (|log| - 1, log[|log| - 1]);
      RecentCounts(log[..n], client, since);
      var rest := set i | 0 <= i < n && log[..n][i].client == Some(client) && log[..n][i].at > since;
      assert younger == rest + if row.client == Some(client) && row.at > since then {n} else {};
    }
  }

  lemma {:induction false} WindowIsRecent(log: seq<Created>, client: string, since: Time, until: Time, earlier: Time)
    requires earlier <= since
    ensures |InWindow(log, client, since, until)| <= Recent(log, client, earlier)
  {
    if log == [] {
      assert InWindow(log, client, since, until) == {};
    } else {
      var (rest, last) := (log[..|log| - 1], log[|log| - 1]);
      WindowIsRecent(rest, client, since, until, earlier);
      WindowSnoc(rest, last, client, since, until);
      assert rest + [last] == log;
    }
  }

  lemma CheckedLast(log: seq<Created>, rate: Rate)
    requires log != [] && Checked(log, rate)
    ensures var (rest, last) := (log[..|log| - 1], log[|log| - 1]);
            && rest + [last] == log && Checked(rest, rate)
            && (last.client.Some? ==> Recent(rest, last.client.value, last.at - rate.window) < rate.cap)
  {
    var rest := log[..|log| - 1];
    forall i | 0 <= i < |rest| ensures rest[..i] == log[..i] {
    }
  }

  lemma CapStep(rest: seq<Created>, last: Created, rate: Rate, client: string, since: Time)
    requires |InWindow(rest, client, since, since + rate.window)| <= rate.cap
    requires last.client.Some? ==> Recent(rest, last.client.value, last.at - rate.window) < rate.cap
    ensures |InWindow(rest + [last], client, since, since + rate.window)| <= rate.cap
  {
    WindowSnoc(rest, last, client, since, since + rate.window);
    if last.client == Some(client) && since < last.at <= since + rate.window {
      WindowIsRecent(rest, client, since, since + rate.window, last.at - rate.window);
    }
  }

  lemma {:induction false} CheckedCaps(log: seq<Created>, rate: Rate, client: string, since: Time)
    requires Checked(log, rate)
    ensures |InWindow(log, client, since, since + rate.window)| <= rate.cap
  {
    if log == [] {
      assert InWindow(log, client, since, since + rate.window) == {};
    } else {
      var (rest, last) := (log[..|log| - 1], log[|log| - 1]);
      CheckedLast(log, rate);
      CheckedCaps(rest, rate, client, since);
      CapStep(rest, last, rate, client, since);
    }
  }

  /** In every window of the configured length, wherever it starts, one client's committed deposits stay
      within the cap, in whatever order its transactions started. */
  lemma DepositsStayWithinTheCap(ss: seq<State>, rate: Rate, steps: seq<Step>, i: nat, client: string, since: Time)
    requires Run(ss, rate, steps) && i < |ss|
    ensures |InWindow(ss[i].log, client, since, since + rate.window)| <= rate.cap
  {
    RunKeeps(ss, rate, steps, i);
    CheckedCaps(ss[i].log, rate, client, since);
  }

  // ---------- create-only ----------

  predicate Pending(t: Tx) {
    t.phase.Inserted?
  }

  ghost predicate IdsOk(s: State) {
    && s.secrets.Keys <= s.issued && s.versions.Keys <= s.issued
    && (forall x :: x in s.txs && Pending(s.txs[x]) ==>
          && s.txs[x].phase.secretId in s.issued && s.txs[x].phase.secretId !in s.secrets
          && s.txs[x].phase.versionId in s.issued && s.txs[x].phase.versionId !in s.versions)
    && (forall x, y :: x in s.txs && y in s.txs && x != y && Pending(s.txs[x]) && Pending(s.txs[y]) ==>
          s.txs[x].phase.secretId != s.txs[y].phase.secretId && s.txs[x].phase.versionId != s.txs[y].phase.versionId)
  }

  ghost predicate NamesOk(secrets: map<Id, Store.Secret>, txs: map<nat, Tx>) {
    && (forall x, i :: x in txs && Pending(txs[x]) && i in secrets ==> secrets[i].name != txs[x].phase.name)
    && (forall x, y :: x in txs && y in txs && x != y && Pending(txs[x]) && Pending(txs[y]) ==>
          txs[x].phase.name != txs[y].phase.name)
    && (forall i, j :: i in secrets && j in secrets && i != j ==> secrets[i].name != secrets[j].name)
  }

  lemma StepKeepsIds(s: State, rate: Rate, a: Step)
    requires IdsOk(s) && Enabled(s, rate, a)
    ensures IdsOk(Perform(s, rate, a))
  {
  }

  lemma StepKeepsNames(s: State, rate: Rate, a: Step)
    requires NamesOk(s.secrets, s.txs) && Enabled(s, rate, a)
    ensures NamesOk(Perform(s, rate, a).secrets, Perform(s, rate, a).txs)
  {
  }

  lemma {:induction false} RunKeepsRows(ss: seq<State>, rate: Rate, steps: seq<Step>, i: nat)
    requires Run(ss, rate, steps) && i < |ss|
    ensures IdsOk(ss[i]) && NamesOk(ss[i].secrets, ss[i].txs)
  {
    if i > 0 {
      RunKeepsRows(ss, rate, steps, i - 1);
      StepKeepsIds(ss[i - 1], rate, steps[i - 1]);
      StepKeepsNames(ss[i - 1], rate, steps[i - 1]);
    }
  }

  /** A deposit that commits adds one unvetted secret with one version under a name nobody has, and leaves
      every other secret and version as it was. */
  lemma DepositOnlyCreates(ss: seq<State>, rate: Rate, steps: seq<Step>, i: nat)
    requires Run(ss, rate, steps) && i < |steps| && steps[i].Commit?
    ensures var a, b := ss[i], ss[i + 1];
            && (forall j :: j in a.secrets ==> j in b.secrets && b.secrets[j] == a.secrets[j])
            && (forall v :: v in a.versions ==> v in b.versions && b.versions[v] == a.versions[v])
            && |b.secrets| == |a.secrets| + 1 && |b.versions| == |a.versions| + 1
            && (forall j :: j in b.secrets && j !in a.secrets ==>
                  !b.secrets[j].vetted && forall k :: k in a.secrets ==> a.secrets[k].name != b.secrets[j].name)
  {
    RunKeepsRows(ss, rate, steps, i);
  }

  /** Step `k` deposited these bytes as version `v`. */
  ghost predicate DepositedAt(steps: seq<Step>, k: nat, v: Id, row: Store.Version) {
    && k < |steps| && steps[k].Insert? && steps[k].versionId == v
    && row == Store.Version(steps[k].secretId, 1, steps[k].plaintext)
  }

  ghost predicate DepositedBefore(steps: seq<Step>, n: nat, v: Id, row: Store.Version) {
    exists k: nat :: k < n && DepositedAt(steps, k, v, row)
  }

  ghost predicate BytesOk(s: State, steps: seq<Step>, n: nat) {
    && (forall v :: v in s.versions ==> DepositedBefore(steps, n, v, s.versions[v]))
    && (forall x :: x in s.txs && Pending(s.txs[x]) ==>
          DepositedBefore(steps, n, s.txs[x].phase.versionId, Store.Version(s.txs[x].phase.secretId, 1, s.txs[x].phase.plaintext)))
  }

  lemma BytesFrame(s: State, steps: seq<Step>, n: nat)
    requires BytesOk(s, steps, n)
    ensures BytesOk(s, steps, n + 1)
  {
    forall v, row | DepositedBefore(steps, n, v, row) ensures DepositedBefore(steps, n + 1, v, row) {
      var k: nat :| k < n && DepositedAt(steps, k, v, row);
      assert k < n + 1;
    }
  }

  lemma StepBytes(s: State, rate: Rate, a: Step, steps: seq<Step>, n: nat)
    requires Enabled(s, rate, a) && BytesOk(s, steps, n)
    requires a.Insert? ==> DepositedBefore(steps, n, a.versionId, Store.Version(a.secretId, 1, a.plaintext))
    ensures BytesOk(Perform(s, rate, a), steps, n)
  {
  }

  /** Every version holds the bytes that its deposit brought. */
  lemma {:induction false} VersionsHoldWhatWasDeposited(ss: seq<State>, rate: Rate, steps: seq<Step>, i: nat)
    requires Run(ss, rate, steps) && i < |ss|
    ensures BytesOk(ss[i], steps, i)
  {
    if i > 0 {
      VersionsHoldWhatWasDeposited(ss, rate, steps, i - 1);
      BytesFrame(ss[i - 1], steps, i - 1);
      var a := steps[i - 1];
      assert a.Insert? ==> DepositedAt(steps, i - 1, a.versionId, Store.Version(a.secretId, 1, a.plaintext));
      StepBytes(ss[i - 1], rate, a, steps, i);
    }
  }

  /** The commit of a deposit is the create transaction of `Store` for that client: it succeeds, and leaves the
      same secrets and versions. */
  lemma CommitIsStoreCreate(ss: seq<State>, rate: Rate, steps: seq<Step>, i: nat, t: Store.Tables)
    requires Run(ss, rate, steps) && i < |steps| && steps[i].Commit?
    requires t.secrets == ss[i].secrets && t.versions == ss[i].versions
    ensures var tx := ss[i].txs[steps[i].x];
            var Inserted(secretId, versionId, name, plaintext) := tx.phase;
            var (after, done) :=
              Store.CreateSecret(t, Store.NewSecret(secretId, versionId, name, plaintext), Some(tx.client));
            done && after.secrets == ss[i + 1].secrets && after.versions == ss[i + 1].versions
  {
    RunKeepsRows(ss, rate, steps, i);
  }
}
