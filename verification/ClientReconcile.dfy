/**
  Client rows brought to the configuration at startup: stale and configured
  bindings are released first, then each configured client is upserted.

  What is proved is that the order of these statements always avoids the two
  unique indexes, however credentials moved between clients, and what the
  table holds afterwards.
 */
module ClientReconcile {
  import opened Wrappers
  import opened Chars

  datatype Settings = Settings(maxTier: int, mechanisms: seq<string>, mayStoreSecrets: bool)

  datatype Account = Account(audience: string, subject: string)

  datatype ClientConfig = ClientConfig(name: string, settings: Settings, token: Option<string>, account: Option<Account>)

  datatype Row = Row(
    id: nat, settings: Settings, authKind: string, token: Option<string>, audience: Option<string>,
    subject: Option<string>, enabled: bool)

  /** Client rows by their unique name. */
  type Table = map<string, Row>

  // ---------- the unique indexes ----------

  predicate Clash(a: Row, b: Row) {
    || (a.token.Some? && a.token == b.token)
    || (a.audience.Some? && a.subject.Some? && a.audience == b.audience && a.subject == b.subject)
  }

  ghost predicate CredentialsUnique(t: Table) {
    forall m, n :: m in t && n in t && m != n ==> !Clash(t[m], t[n])
  }

  /** No other row holds a credential of `c`. */
  ghost predicate Fits(t: Table, c: ClientConfig) {
    forall n :: n in t && n != c.name ==> !Clash(t[n], ConfiguredRow(0, c))
  }

  // ---------- the statements ----------

  function Release(r: Row): Row {
    r.(token := None, audience := None, subject := None)
  }

  function Retire(r: Row): Row {
    Release(r).(enabled := false, settings := r.settings.(mayStoreSecrets := false))
  }

  function Digest(token: string): string {
    Lowered(Trim(token))
  }

  function StoredToken(c: ClientConfig): Option<string> {
    if c.token.Some? then Some(Digest(c.token.value)) else None
  }

  function ConfiguredRow(id: nat, c: ClientConfig): Row {
    Row(id, c.settings, if c.token.Some? then "api-token" else "service-account", StoredToken(c),
        if c.account.Some? then Some(c.account.value.audience) else None,
        if c.account.Some? then Some(c.account.value.subject) else None, true)
  }

  ghost function Names(clients: seq<ClientConfig>): set<string> {
    set i | 0 <= i < |clients| :: clients[i].name
  }

  ghost predicate DistinctNames(clients: seq<ClientConfig>) {
    forall i, j :: 0 <= i < j < |clients| ==> clients[i].name != clients[j].name
  }

  /** No credential, as it will be stored, is configured for two clients. */
  ghost predicate DistinctBindings(clients: seq<ClientConfig>) {
    forall i, j :: 0 <= i < j < |clients| ==> !ConfigsClash(clients[i], clients[j])
  }

  ghost predicate NewBinding(clients: seq<ClientConfig>, k: nat)
    requires k < |clients|
  {
    forall i :: 0 <= i < k ==> !ConfigsClash(clients[i], clients[k])
  }

  lemma BindingsSnoc(clients: seq<ClientConfig>, k: nat)
    requires k < |clients|
    ensures DistinctBindings(clients[..k + 1]) <==> DistinctBindings(clients[..k]) && NewBinding(clients, k)
    ensures DistinctBindings(clients) ==> NewBinding(clients, k)
  {
    var (a, b) := (clients[..k], clients[..k + 1]);
    assert b == a + [clients[k]];
    if DistinctBindings(b) {
      forall i, j | 0 <= i < j < k ensures !ConfigsClash(a[i], a[j]) {
        assert a[i] == b[i] && a[j] == b[j];
      }
      forall i | 0 <= i < k ensures !ConfigsClash(clients[i], clients[k]) {
        assert b[i] == clients[i] && b[k] == clients[k];
      }
    }
  }

  predicate ConfigsClash(a: ClientConfig, b: ClientConfig) {
    || (a.token.Some? && b.token.Some? && Digest(a.token.value) == Digest(b.token.value))
    || (a.account.Some? && a.account == b.account)
  }

  /** The table after both clearing updates: no row holds a credential any more. */
  ghost function Cleared(r: Row, configured: bool): Row {
    if configured then Release(r) else Retire(r)
  }

  /** Where the upsert loop stands: the first `k` clients are in place, every other row is cleared. */
  ghost predicate Upserted(before: Table, t: Table, clients: seq<ClientConfig>, k: nat, firstId: nat)
    requires k <= |clients|
  {
    && t.Keys == before.Keys + Names(clients[..k])
    && (forall n :: n in before ==> t[n].id == before[n].id)
    && (forall n :: n in t && n !in before ==> t[n].id >= firstId)
    && (forall i :: 0 <= i < k ==> t[clients[i].name] == ConfiguredRow(t[clients[i].name].id, clients[i]))
    && (forall n :: n in before && n !in Names(clients[..k]) ==> t[n] == Cleared(before[n], n in Names(clients)))
  }

  /** What a successful run leaves: every configured client enabled and bound as configured, every other
      row disabled and holding nothing, and every row there before still under its id. */
  ghost predicate Reconciled(before: Table, after: Table, clients: seq<ClientConfig>, firstId: nat) {
    Upserted(before, after, clients, |clients|, firstId)
  }

  class Clients {
    var rows: Table
    var nextId: nat

    constructor ()
      ensures Valid() && rows == map[]
    {
      rows, nextId := map[], 0;
    }

    /** The unique indexes hold, and new ids are new. */
    ghost predicate Valid()
      reads this
    {
      CredentialsUnique(rows) && forall n :: n in rows ==> rows[n].id < nextId
    }

    /** `UPDATE ... WHERE name <> ALL(names)`. */
    method RetireOthers(names: set<string>)
      requires Valid()
      modifies this`rows
      ensures Valid()
      ensures rows == map n | n in old(rows) :: if n in names then old(rows)[n] else Retire(old(rows)[n])
    {
      rows := map n | n in rows :: if n in names then rows[n] else Retire(rows[n]);
    }

    /** `UPDATE ... WHERE name = ANY(names)`. */
    method ReleaseConfigured(names: set<string>)
      requires Valid()
      modifies this`rows
      ensures Valid()
      ensures rows == map n | n in old(rows) :: if n in names then Release(old(rows)[n]) else old(rows)[n]
    {
      rows := map n | n in rows :: if n in names then Release(rows[n]) else rows[n];
    }

    /** `INSERT ... ON CONFLICT (name) DO UPDATE`; a unique index stops it. */
    method Upsert(c: ClientConfig) returns (ok: bool)
      requires Valid()
      modifies this
      ensures Valid() && nextId >= old(nextId)
      ensures ok <==> Fits(old(rows), c)
      ensures ok ==>
                var id := if c.name in old(rows) then old(rows)[c.name].id else old(nextId);
                rows == old(rows)[c.name := ConfiguredRow(id, c)]
      ensures !ok ==> rows == old(rows)
    {
      var id := nextId;
      if c.name in rows {
        id := rows[c.name].id;
      } else {
        nextId := nextId + 1;
      }
      ok := forall n :: n in rows && n != c.name ==> !Clash(rows[n], ConfiguredRow(id, c));
      if ok {
        rows := rows[c.name := ConfiguredRow(id, c)];
      }
    }

    /** The loop, stopped by the first statement that fails. */
    method UpsertAll(clients: seq<ClientConfig>, ghost before: Table) returns (ok: bool)
      requires Valid() && DistinctNames(clients) && Upserted(before, rows, clients, 0, nextId)
      modifies this
      ensures Valid()
      ensures ok <==> DistinctBindings(clients)
      ensures ok ==> Reconciled(before, rows, clients, old(nextId))
    {
      for i := 0 to |clients|
        invariant Valid() && nextId >= old(nextId)
        invariant Upserted(before, rows, clients, i, old(nextId))
        invariant DistinctBindings(clients[..i])
      {
        ghost var t := rows;
        UpsertFits(before, rows, clients, i, old(nextId));
        BindingsSnoc(clients, i);
        ok := Upsert(clients[i]);
        if !ok {
          return;
        }
        UpsertKeeps(before, t, rows, clients, i, old(nextId));
      }
      assert clients[..|clients|] == clients;
      ok := true;
    }

    /** One transaction: it commits exactly when the configured bindings are distinct, whatever the rows
        held before. */
    method ReconcileClients(clients: seq<ClientConfig>) returns (ok: bool)
      requires Valid() && DistinctNames(clients)
      modifies this
      ensures ok <==> DistinctBindings(clients)
      ensures ok ==> Valid() && Reconciled(old(rows), rows, clients, old(nextId))
      ensures !ok ==> rows == old(rows)
    {
      var saved := rows;
      var names := set i | 0 <= i < |clients| :: clients[i].name;
      RetireOthers(names);
      ReleaseConfigured(names);
      NothingUpserted(saved, rows, clients, nextId);
      ok := UpsertAll(clients, saved);
      if !ok {
        rows := saved;
      }
    }
  }

  lemma NothingUpserted(before: Table, t: Table, clients: seq<ClientConfig>, firstId: nat)
    requires t == map n | n in before :: Cleared(before[n], n in Names(clients))
    ensures Upserted(before, t, clients, 0, firstId)
  {
    assert Names(clients[..0]) == {};
  }

  lemma NamesSnoc(clients: seq<ClientConfig>, k: nat)
    requires k < |clients|
    ensures Names(clients[..k + 1]) == Names(clients[..k]) + {clients[k].name}
  {
    var (a, b) := (clients[..k], clients[..k + 1]);
    assert forall i :: 0 <= i < k ==> a[i] == b[i];
    assert b[k] == clients[k];
  }

  /** An upsert meets an index exactly when its credential is configured for an earlier client: no other
      row holds one. */
  lemma UpsertFits(before: Table, t: Table, clients: seq<ClientConfig>, k: nat, firstId: nat)
    requires k < |clients| && DistinctNames(clients) && Upserted(before, t, clients, k, firstId)
    ensures Fits(t, clients[k]) <==> NewBinding(clients, k)
  {
    var row := ConfiguredRow(0, clients[k]);
    forall i | 0 <= i < k
      ensures clients[i].name in t && clients[i].name != clients[k].name
      ensures Clash(t[clients[i].name], row) <==> ConfigsClash(clients[i], clients[k])
    {
      assert clients[..k][i] == clients[i];
      assert clients[i].name in Names(clients[..k]);
    }
    forall n | n in t && n !in Names(clients[..k]) ensures !Clash(t[n], row) {
    }
    if NewBinding(clients, k) {
      forall n | n in t && n in Names(clients[..k]) ensures !Clash(t[n], row) {
        var i :| 0 <= i < k && clients[..k][i].name == n;
        assert !ConfigsClash(clients[i], clients[k]);
      }
    }
  }

  /** The rows of the clients before the `k`th are not the `k`th's. */
  lemma EarlierRowsStay(t: Table, u: Table, row: Row, clients: seq<ClientConfig>, k: nat)
    requires k < |clients| && DistinctNames(clients) && u == t[clients[k].name := row] && Names(clients[..k]) <= t.Keys
    ensures forall i :: 0 <= i < k ==> clients[i].name in t && u[clients[i].name] == t[clients[i].name]
  {
    forall i | 0 <= i < k ensures clients[i].name in t && u[clients[i].name] == t[clients[i].name] {
      assert clients[..k][i] == clients[i];
      assert clients[i].name in Names(clients[..k]);
    }
  }

  lemma UpsertKeeps(before: Table, t: Table, u: Table, clients: seq<ClientConfig>, k: nat, firstId: nat)
    requires k < |clients| && DistinctNames(clients) && Upserted(before, t, clients, k, firstId)
    requires clients[k].name in u && u == t[clients[k].name := ConfiguredRow(u[clients[k].name].id, clients[k])]
    requires if clients[k].name in t then u[clients[k].name].id == t[clients[k].name].id else u[clients[k].name].id >= firstId
    ensures Upserted(before, u, clients, k + 1, firstId)
  {
    NamesSnoc(clients, k);
    EarlierRowsStay(t, u, u[clients[k].name], clients, k);
  }

  // ---------- what follows ----------

  /** A digest as it is stored: without the white space around it, and its capitals lowered. */
  lemma DigestsAreNormal(before: string, core: string, after: string, k: nat, letter: nat)
    requires (forall i :: 0 <= i < |before| ==> before[i] in WHITE_SPACE) && (forall i :: 0 <= i < |after| ==> after[i] in WHITE_SPACE)
    requires k < |core| && core[0] !in WHITE_SPACE && core[|core| - 1] !in WHITE_SPACE && letter < 26
    ensures |Digest(before + core + after)| == |core|
    ensures core[k] == UPPER_LETTERS[letter] ==> Digest(before + core + after)[k] == LOWER_LETTERS[letter]
    ensures (forall i :: 0 <= i < 26 ==> core[k] != UPPER_LETTERS[i]) ==> Digest(before + core + after)[k] == core[k]
  {
    forall i | 0 <= i < |before| ensures IsSpace(before[i]) {
      SpacesExactly(before[i]);
    }
    forall i | 0 <= i < |after| ensures IsSpace(after[i]) {
      SpacesExactly(after[i]);
    }
    SpacesExactly(core[0]);
    SpacesExactly(core[|core| - 1]);
    TrimsEnds(before, core, after);
    LowersLetters(letter, core[k]);
  }

  /** No credential is on two rows. */
  ghost predicate Exclusive(t: Table) {
    && (forall m, n :: m in t && n in t && t[m].token.Some? && t[m].token == t[n].token ==> m == n)
    && (forall m, n :: m in t && n in t && m != n && t[m].audience.Some? && t[m].subject.Some? ==>
          t[m].audience != t[n].audience || t[m].subject != t[n].subject)
  }

  lemma CredentialsAreExclusive(t: Table)
    ensures CredentialsUnique(t) <==> Exclusive(t)
  {
    if Exclusive(t) {
      forall m, n | m in t && n in t && m != n ensures !Clash(t[m], t[n]) {
      }
    }
    if CredentialsUnique(t) {
      forall m, n | m in t && n in t && m != n
        ensures !(t[m].token.Some? && t[m].token == t[n].token)
        ensures !(t[m].audience.Some? && t[m].subject.Some? && t[m].audience == t[n].audience && t[m].subject == t[n].subject)
      {
        assert !Clash(t[m], t[n]);
      }
    }
  }

  /** Bindings are distinct exactly when no digest, as stored, and no account is configured twice. */
  lemma BindingsAreExclusive(clients: seq<ClientConfig>)
    ensures DistinctBindings(clients) <==> forall i, j :: 0 <= i < j < |clients| ==>
              && (clients[i].token.Some? && clients[j].token.Some? ==>
                    Digest(clients[i].token.value) != Digest(clients[j].token.value))
              && (clients[i].account.Some? && clients[j].account.Some? ==> clients[i].account.value != clients[j].account.value)
  {
    if DistinctBindings(clients) {
      forall i, j | 0 <= i < j < |clients|
        ensures !(clients[i].token.Some? && clients[j].token.Some? && Digest(clients[i].token.value) == Digest(clients[j].token.value))
        ensures !(clients[i].account.Some? && clients[i].account == clients[j].account)
      {
        assert !ConfigsClash(clients[i], clients[j]);
      }
    }
  }

  /** An enabled row with what is configured for it. */
  ghost predicate AsConfigured(r: Row, c: ClientConfig) {
    && r.enabled && r.settings == c.settings
    && r.authKind == (if c.token.Some? then "api-token" else "service-account")
    && (if c.token.Some? then r.token == Some(Digest(c.token.value)) else r.token.None?)
    && (if c.account.Some? then r.audience == Some(c.account.value.audience) && r.subject == Some(c.account.value.subject)
        else r.audience.None? && r.subject.None?)
  }

  /** A disabled row without a credential; it keeps its identity and may no longer store secrets. */
  ghost predicate Retired(r: Row, was: Row) {
    && !r.enabled && r.token.None? && r.audience.None? && r.subject.None? && !r.settings.mayStoreSecrets
    && r.id == was.id && r.authKind == was.authKind
    && r.settings.maxTier == was.settings.maxTier && r.settings.mechanisms == was.settings.mechanisms
  }

  /** The configured clients are enabled as configured; the others are disabled and hold nothing. */
  lemma ExactlyConfigured(before: Table, after: Table, clients: seq<ClientConfig>, firstId: nat, n: string)
    requires Reconciled(before, after, clients, firstId)
    ensures n in after <==> n in before || exists i :: 0 <= i < |clients| && clients[i].name == n
    ensures n in before ==> after[n].id == before[n].id
    ensures forall i :: 0 <= i < |clients| && clients[i].name == n ==> n in after && AsConfigured(after[n], clients[i])
    ensures n in before && (forall i :: 0 <= i < |clients| ==> clients[i].name != n) ==> Retired(after[n], before[n])
  {
    assert clients[..|clients|] == clients;
    forall i | 0 <= i < |clients| && clients[i].name == n ensures n in after && AsConfigured(after[n], clients[i]) {
      assert clients[i].name in Names(clients);
      assert after[clients[i].name] == ConfiguredRow(after[clients[i].name].id, clients[i]);
    }
    if n in before && n !in Names(clients) {
      assert after[n] == Retire(before[n]);
    }
  }

  /** A second run changes nothing. */
  lemma SecondRunIsQuiet(a: Table, b: Table, c: Table, clients: seq<ClientConfig>, firstId: nat, firstId2: nat)
    requires Reconciled(a, b, clients, firstId) && Reconciled(b, c, clients, firstId2)
    ensures c == b
  {
    assert clients[..|clients|] == clients;
    forall n | n in c ensures c[n] == b[n] {
      if n in Names(clients) {
        var i :| 0 <= i < |clients| && clients[i].name == n;
        assert b[clients[i].name].id == c[clients[i].name].id;
        assert b[n] == ConfiguredRow(b[n].id, clients[i]) && c[n] == ConfiguredRow(c[n].id, clients[i]);
      }
    }
  }

  // ---------- a configuration that was accepted reconciles ----------

  predicate HexChar(c: char) {
    '0' <= c <= '9' || 'a' <= c <= 'f' || 'A' <= c <= 'F'
  }

  ghost predicate Validated(clients: seq<ClientConfig>) {
    && DistinctNames(clients)
    && (forall c :: c in clients ==> c.token.Some? != c.account.Some?)
    && (forall c :: c in clients && c.token.Some? ==> |c.token.value| == 64 && forall i :: 0 <= i < 64 ==> HexChar(c.token.value[i]))
    && (forall i, j :: 0 <= i < j < |clients| && clients[i].token.Some? && clients[j].token.Some? ==>
          Lowered(clients[i].token.value) != Lowered(clients[j].token.value))
    && (forall i, j :: 0 <= i < j < |clients| && clients[i].account.Some? ==> clients[i].account != clients[j].account)
  }

  /** Validation compares digests lowered and reconciliation trims them too: on digests that passed
      the first, the second sees no more clashes. */
  lemma ValidatedReconciles(clients: seq<ClientConfig>)
    requires Validated(clients)
    ensures DistinctBindings(clients)
  {
    forall i, j | 0 <= i < j < |clients| ensures !ConfigsClash(clients[i], clients[j]) {
      assert clients[i] in clients && clients[j] in clients;
    }
  }
}
