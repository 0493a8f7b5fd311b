/**
  Provisioned policies: the rows that the configuration manages are brought to
  the configured rules, touching as few of them as possible.

  The table is a sequence of rows in the order a scan gives them, whatever that
  is. Instants are in nanoseconds; the column keeps whole microseconds.
 */
module PolicyReconcile {
  import opened Wrappers

  datatype Body = Body(
    client: Option<string>, secretName: Option<string>, secretTag: Option<string>, mechanism: string,
    outcome: string, priority: int, origins: string, methods: seq<string>, pathPrefixes: seq<string>,
    maxTtlSeconds: Option<int>, maxUses: Option<int>)

  datatype Policy = Policy(body: Body, notAfter: Option<int>, createdBy: string)

  datatype Row = Row(id: nat, policy: Policy, managed: bool)

  const CONFIG_ACTOR := "config"

  /** `policy_key`: everything but who created the row, at the precision of the column. */
  datatype Key = Key(body: Body, notAfterMicros: Option<int>)

  function Micros(t: Option<int>): Option<int> {
    if t.Some? then Some(t.value / 1000) else None
  }

  function PolicyKey(p: Policy): Key {
    Key(p.body, Micros(p.notAfter))
  }

  /** The row an insert leaves: precision lost, created by the configuration. */
  function Stored(id: nat, p: Policy): Row {
    var notAfter := if p.notAfter.Some? then Some(p.notAfter.value / 1000 * 1000) else None;
    Row(id, Policy(p.body, notAfter, CONFIG_ACTOR), true)
  }

  /** Truncating the deadline does not move a row's key. */
  lemma StoredKey(id: nat, p: Policy)
    ensures PolicyKey(Stored(id, p).policy) == PolicyKey(p)
  {
  }

  // ---------- rows and keys ----------

  function Where(rows: seq<Row>, managed: bool): seq<Row> {
    if rows == [] then []
    else (if rows[0].managed == managed then [rows[0]] else []) + Where(rows[1..], managed)
  }

  function Without(rows: seq<Row>, id: nat): seq<Row> {
    if rows == [] then []
    else (if rows[0].id == id then [] else [rows[0]]) + Without(rows[1..], id)
  }

  function Keys(policies: seq<Policy>): seq<Key> {
    seq(|policies|, i requires 0 <= i < |policies| => PolicyKey(policies[i]))
  }

  function RowKeys(rows: seq<Row>): seq<Key> {
    seq(|rows|, i requires 0 <= i < |rows| => PolicyKey(rows[i].policy))
  }

  ghost predicate DistinctIds(rows: seq<Row>) {
    forall i, j :: 0 <= i < j < |rows| ==> rows[i].id != rows[j].id
  }

  lemma {:induction false} WhereMembers(rows: seq<Row>, managed: bool)
    ensures forall r :: r in Where(rows, managed) <==> r in rows && r.managed == managed
  {
    if rows != [] {
      WhereMembers(rows[1..], managed);
      assert rows == [rows[0]] + rows[1..];
    }
  }

  lemma {:induction false} WhereDistinct(rows: seq<Row>, managed: bool)
    requires DistinctIds(rows)
    ensures DistinctIds(Where(rows, managed))
  {
    if rows != [] {
      WhereDistinct(rows[1..], managed);
      WhereMembers(rows[1..], managed);
      var rest := Where(rows[1..], managed);
      forall j | 0 <= j < |rest| ensures rest[j].id != rows[0].id {
        assert rest[j] in rows[1..];
      }
    }
  }

  lemma {:induction false} WhereAppend(a: seq<Row>, b: seq<Row>, managed: bool)
    ensures Where(a + b, managed) == Where(a, managed) + Where(b, managed)
  {
    if a == [] {
      assert a + b == b;
    } else {
      assert (a + b)[1..] == a[1..] + b;
      WhereAppend(a[1..], b, managed);
    }
  }

  lemma {:induction false} WhereWithout(rows: seq<Row>, id: nat, managed: bool)
    ensures Where(Without(rows, id), managed) == Without(Where(rows, managed), id)
  {
    if rows != [] {
      WhereWithout(rows[1..], id, managed);
      var head := if rows[0].id == id then [] else [rows[0]];
      WhereAppend(head, Without(rows[1..], id), managed);
      var first := if rows[0].managed == managed then [rows[0]] else [];
      WithoutAppend(first, Where(rows[1..], managed), id);
    }
  }

  lemma {:induction false} WithoutAppend(a: seq<Row>, b: seq<Row>, id: nat)
    ensures Without(a + b, id) == Without(a, id) + Without(b, id)
  {
    if a == [] {
      assert a + b == b;
    } else {
      assert (a + b)[1..] == a[1..] + b;
      WithoutAppend(a[1..], b, id);
    }
  }

  lemma {:induction false} WithoutMisses(rows: seq<Row>, id: nat)
    requires forall i :: 0 <= i < |rows| ==> rows[i].id != id
    ensures Without(rows, id) == rows
  {
    if rows != [] {
      WithoutMisses(rows[1..], id);
    }
  }

  lemma {:induction false} WithoutMembers(rows: seq<Row>, id: nat)
    requires DistinctIds(rows)
    ensures DistinctIds(Without(rows, id)) && forall r :: r in Without(rows, id) <==> r in rows && r.id != id
  {
    if rows != [] {
      WithoutMembers(rows[1..], id);
      assert rows == [rows[0]] + rows[1..];
      var rest := Without(rows[1..], id);
      forall j | 0 <= j < |rest| ensures rest[j].id != rows[0].id {
        assert rest[j] in rows[1..];
      }
    }
  }

  lemma WithoutOne(kept: seq<Row>, row: Row, rest: seq<Row>)
    requires DistinctIds(kept + [row] + rest)
    ensures Without(kept + [row] + rest, row.id) == kept + rest
  {
    var all := kept + [row] + rest;
    assert all[|kept|] == row;
    forall i | 0 <= i < |kept| ensures kept[i].id != row.id { assert all[i] == kept[i]; }
    forall i | 0 <= i < |rest| ensures rest[i].id != row.id { assert all[|kept| + 1 + i] == rest[i]; }
    WithoutAppend(kept + [row], rest, row.id);
    WithoutAppend(kept, [row], row.id);
    WithoutMisses(kept, row.id);
    WithoutMisses(rest, row.id);
  }

  /** Deleting a managed row by its id leaves the unmanaged ones. */
  lemma OthersStay(rows: seq<Row>, row: Row)
    requires DistinctIds(rows) && row in Where(rows, true)
    ensures Where(Without(rows, row.id), false) == Where(rows, false)
  {
    var others := Where(rows, false);
    WhereMembers(rows, false);
    WhereMembers(rows, true);
    forall i | 0 <= i < |others| ensures others[i].id != row.id {
      assert others[i] in rows && others[i] != row;
    }
    WithoutMisses(others, row.id);
    WhereWithout(rows, row.id, false);
  }

  /** Deleting one managed row by its id takes exactly that row. */
  lemma DeleteOne(rows: seq<Row>, kept: seq<Row>, row: Row, rest: seq<Row>)
    requires DistinctIds(rows) && Where(rows, true) == kept + [row] + rest
    ensures Where(Without(rows, row.id), true) == kept + rest
    ensures Where(Without(rows, row.id), false) == Where(rows, false)
  {
    WhereDistinct(rows, true);
    WithoutOne(kept, row, rest);
    WhereWithout(rows, row.id, true);
    assert (kept + [row] + rest)[|kept|] == row;
    OthersStay(rows, row);
  }

  // ---------- the reconciler ----------

  type Wanted = seq<(Key, Policy)>

  ghost predicate WantedOk(wanted: Wanted) {
    forall i :: 0 <= i < |wanted| ==> wanted[i].0 == PolicyKey(wanted[i].1)
  }

  function WantedKeys(wanted: Wanted): seq<Key> {
    seq(|wanted|, i requires 0 <= i < |wanted| => wanted[i].0)
  }

  /** `wanted.iter().position(|(k, _)| *k == key)`. */
  method Position(wanted: Wanted, key: Key) returns (found: Option<nat>)
    ensures found.Some? ==> found.value < |wanted| && wanted[found.value].0 == key
    ensures found.Some? <==> key in WantedKeys(wanted)
  {
    for i := 0 to |wanted|
      invariant forall j :: 0 <= j < i ==> wanted[j].0 != key
    {
      if wanted[i].0 == key {
        assert WantedKeys(wanted)[i] == key;
        return Some(i);
      }
    }
    return None;
  }

  /** `wanted.swap_remove(i)`: the last element takes the place of the one removed. */
  function SwapRemove(wanted: Wanted, i: nat): Wanted
    requires i < |wanted|
  {
    wanted[i := wanted[|wanted| - 1]][..|wanted| - 1]
  }

  lemma SwapRemoveTakesOne(wanted: Wanted, i: nat)
    requires i < |wanted| && WantedOk(wanted)
    ensures WantedOk(SwapRemove(wanted, i))
    ensures multiset(WantedKeys(SwapRemove(wanted, i))) == multiset(WantedKeys(wanted)) - multiset{wanted[i].0}
  {
    var n := |wanted| - 1;
    var (keys, after) := (WantedKeys(wanted), WantedKeys(SwapRemove(wanted, i)));
    assert keys == keys[..n] + [keys[n]];
    if i < n {
      assert after == keys[..n][i := keys[n]];
      assert keys[..n] == keys[..i] + [keys[i]] + keys[i + 1..n];
      assert after == keys[..i] + [keys[n]] + keys[i + 1..n];
    } else {
      assert after == keys[..n];
    }
  }

  /** Scanning one more row. */
  lemma MatchArithmetic(have: multiset<Key>, want: multiset<Key>, k: Key)
    ensures want - (have + multiset{k}) == (want - have) - multiset{k}
    ensures (have + multiset{k}) * want == if k in want - have then have * want + multiset{k} else have * want
    ensures (have + multiset{k}) - want == if k in want - have then have - want else (have - want) + multiset{k}
  {
  }

  lemma KeysSnoc(rows: seq<Row>, row: Row)
    ensures multiset(RowKeys(rows + [row])) == multiset(RowKeys(rows)) + multiset{PolicyKey(row.policy)}
  {
    assert RowKeys(rows + [row]) == RowKeys(rows) + [PolicyKey(row.policy)];
  }

  /** The rows scanned so far, sorted into the kept and the deleted, against what is wanted. */
  ghost predicate Split(seen: seq<Row>, want: multiset<Key>, kept: seq<Row>, wanted: Wanted, deleted: nat) {
    var have := multiset(RowKeys(seen));
    && WantedOk(wanted)
    && multiset(RowKeys(kept)) == have * want
    && multiset(WantedKeys(wanted)) == want - have
    && deleted == |have - want|
  }

  lemma KeepStep(seen: seq<Row>, want: multiset<Key>, kept: seq<Row>, wanted: Wanted, deleted: nat, row: Row, at: nat)
    requires Split(seen, want, kept, wanted, deleted) && at < |wanted| && wanted[at].0 == PolicyKey(row.policy)
    ensures Split(seen + [row], want, kept + [row], SwapRemove(wanted, at), deleted)
  {
    var key := PolicyKey(row.policy);
    assert key == WantedKeys(wanted)[at];
    assert key in multiset(WantedKeys(wanted));
    MatchArithmetic(multiset(RowKeys(seen)), want, key);
    KeysSnoc(seen, row);
    KeysSnoc(kept, row);
    SwapRemoveTakesOne(wanted, at);
  }

  lemma DropStep(seen: seq<Row>, want: multiset<Key>, kept: seq<Row>, wanted: Wanted, deleted: nat, row: Row)
    requires Split(seen, want, kept, wanted, deleted) && PolicyKey(row.policy) !in WantedKeys(wanted)
    ensures Split(seen + [row], want, kept, wanted, deleted + 1)
  {
    var key := PolicyKey(row.policy);
    assert key !in multiset(WantedKeys(wanted));
    MatchArithmetic(multiset(RowKeys(seen)), want, key);
    KeysSnoc(seen, row);
    assert want - (multiset(RowKeys(seen)) + multiset{key}) == want - multiset(RowKeys(seen));
  }

  lemma Advance(kept: seq<Row>, existing: seq<Row>, i: nat)
    requires i <= |existing|
    ensures i < |existing| ==> existing[..i + 1] == existing[..i] + [existing[i]]
    ensures i < |existing| ==> kept + existing[i..] == kept + [existing[i]] + existing[i + 1..]
    ensures i == |existing| ==> existing[..i] == existing && kept + existing[i..] == kept
  {
  }

  /** No row is changed, and no unmanaged row is lost. */
  ghost predicate KeptRows(before: seq<Row>, after: seq<Row>) {
    Where(after, false) == Where(before, false) && forall r :: r in after ==> r in before
  }

  class Policies {
    var rows: seq<Row>
    var nextId: nat

    constructor ()
      ensures Valid() && rows == []
    {
      rows, nextId := [], 0;
    }

    /** Ids are unique, and new ones are new. */
    ghost predicate Valid()
      reads this
    {
      DistinctIds(rows) && forall i :: 0 <= i < |rows| ==> rows[i].id < nextId
    }

    method Insert(p: Policy)
      requires Valid()
      modifies this
      ensures Valid() && nextId == old(nextId) + 1
      ensures rows == old(rows) + [Stored(old(nextId), p)]
    {
      rows := rows + [Stored(nextId, p)];
      nextId := nextId + 1;
    }

    method Delete(id: nat)
      requires Valid()
      modifies this`rows
      ensures Valid() && rows == Without(old(rows), id)
    {
      WithoutMembers(rows, id);
      rows := Without(rows, id);
      forall i | 0 <= i < |rows| ensures rows[i].id < nextId {
        assert rows[i] in old(rows);
      }
    }

    /** The scan: rows whose key is wanted stay and are no longer wanted, the others go. */
    method Scan(desired: seq<Policy>) returns (wanted: Wanted, deleted: nat)
      requires Valid()
      modifies this`rows
      ensures Valid() && WantedOk(wanted)
      ensures KeptRows(old(rows), rows)
      ensures var have, want := Bag(old(rows)), multiset(Keys(desired));
              && multiset(RowKeys(Where(rows, true))) == have * want
              && multiset(WantedKeys(wanted)) == want - have
              && deleted == |have - want|
      ensures deleted == 0 ==> rows == old(rows)
    {
      var existing := Where(rows, true);
      wanted := seq(|desired|, i requires 0 <= i < |desired| => (PolicyKey(desired[i]), desired[i]));
      deleted := 0;
      assert WantedKeys(wanted) == Keys(desired);
      ghost var want := multiset(Keys(desired));
      ghost var kept: seq<Row> := [];
      for i := 0 to |existing|
        invariant Valid() && KeptRows(old(rows), rows)
        invariant Where(rows, true) == kept + existing[i..]
        invariant Split(existing[..i], want, kept, wanted, deleted)
        invariant deleted == 0 ==> rows == old(rows)
      {
        var row := existing[i];
        Advance(kept, existing, i);
        var at := Position(wanted, PolicyKey(row.policy));
        if at.Some? {
          KeepStep(existing[..i], want, kept, wanted, deleted, row, at.value);
          wanted := SwapRemove(wanted, at.value);
          kept := kept + [row];
        } else {
          DropStep(existing[..i], want, kept, wanted, deleted, row);
          DeleteOne(rows, kept, row, existing[i + 1..]);
          WithoutMembers(rows, row.id);
          Delete(row.id);
          deleted := deleted + 1;
        }
      }
      Advance(kept, existing, |existing|);
    }

    /** The inserts: one row for each rule still wanted. */
    method InsertAll(wanted: Wanted) returns (created: nat)
      requires Valid() && WantedOk(wanted)
      modifies this
      ensures Valid() && created == |wanted| && |rows| == |old(rows)| + created
      ensures rows[..|old(rows)|] == old(rows)
      ensures Inserted(rows[|old(rows)|..], wanted, old(nextId))
    {
      created := 0;
      ghost var n := |rows|;
      for i := 0 to |wanted|
        invariant Valid() && created == i && |rows| == n + i && nextId == old(nextId) + i
        invariant rows[..n] == old(rows)
        invariant Inserted(rows[n..], wanted[..i], old(nextId))
      {
        ghost var before := rows;
        Insert(wanted[i].1);
        assert rows[n..] == before[n..] + [rows[n + i]] && rows[..n] == before[..n];
        assert wanted[..i + 1][..i] == wanted[..i];
        created := created + 1;
      }
      assert wanted[..|wanted|] == wanted;
    }

    method ReconcilePolicies(desired: seq<Policy>) returns (created: nat, deleted: nat)
      requires Valid()
      modifies this
      ensures Valid() && Reconciled(old(rows), rows, desired, created, deleted, old(nextId))
      ensures InForce(rows, desired) && OthersLeft(old(rows), rows, old(nextId))
    {
      var wanted;
      wanted, deleted := Scan(desired);
      ghost var (kept, firstId) := (rows, nextId);
      created := InsertAll(wanted);
      ghost var added := rows[|kept|..];
      assert rows == kept + added;
      BothHalves(old(rows), kept, added, desired, wanted, deleted, firstId);
      ReconciledInForce(old(rows), rows, desired, created, deleted, firstId);
    }
  }

  /** One new row for each wanted rule, in turn. */
  ghost predicate Inserted(added: seq<Row>, wanted: Wanted, nextId: nat) {
    |added| == |wanted| && forall i :: 0 <= i < |added| ==> added[i] == Stored(nextId + i, wanted[i].1)
  }

  /**
    What a run of the reconciler does to the table. The rows that survive come first, unchanged, and
    among the managed ones each key survives as often as it was there and is wanted; the rows created
    are new, managed and hold exactly the keys that were missing.
   */
  ghost predicate Reconciled(
    before: seq<Row>, after: seq<Row>, desired: seq<Policy>, created: nat, deleted: nat, nextId: nat)
  {
    var have, want := Bag(before), multiset(Keys(desired));
    && created == |want - have| && deleted == |have - want| && created <= |after|
    && var kept, added := after[..|after| - created], after[|after| - created..];
       && KeptRows(before, kept) && (deleted == 0 ==> kept == before)
       && Bag(kept) == have * want
       && multiset(RowKeys(added)) == want - have
       && (forall i :: 0 <= i < |added| ==> added[i].managed && added[i].id >= nextId && added[i].policy.createdBy == CONFIG_ACTOR)
       && Bag(after) == want
  }

  lemma {:induction false} AllManaged(rows: seq<Row>)
    requires forall i :: 0 <= i < |rows| ==> rows[i].managed
    ensures Where(rows, true) == rows
  {
    if rows != [] {
      AllManaged(rows[1..]);
    }
  }

  /** The keys of the managed rows, with repetitions. */
  ghost function Bag(rows: seq<Row>): multiset<Key> {
    multiset(RowKeys(Where(rows, true)))
  }

  lemma BagAppend(a: seq<Row>, b: seq<Row>)
    ensures Bag(a + b) == Bag(a) + Bag(b)
  {
    WhereAppend(a, b, true);
    assert RowKeys(Where(a, true) + Where(b, true)) == RowKeys(Where(a, true)) + RowKeys(Where(b, true));
  }

  /** The rows inserted hold the keys that were wanted. */
  lemma InsertedKeys(added: seq<Row>, wanted: Wanted, nextId: nat)
    requires WantedOk(wanted) && Inserted(added, wanted, nextId)
    ensures RowKeys(added) == WantedKeys(wanted)
    ensures Bag(added) == multiset(WantedKeys(wanted)) && |wanted| == |Bag(added)|
    ensures forall i :: 0 <= i < |added| ==> added[i].managed && added[i].id >= nextId && added[i].policy.createdBy == CONFIG_ACTOR
  {
    AllManaged(added);
    forall i | 0 <= i < |added| ensures PolicyKey(added[i].policy) == wanted[i].0 {
      StoredKey(nextId + i, wanted[i].1);
    }
    assert RowKeys(added) == WantedKeys(wanted);
    assert |multiset(WantedKeys(wanted))| == |WantedKeys(wanted)|;
  }

  /** The scan and the inserts together. */
  lemma BothHalves(
    before: seq<Row>, kept: seq<Row>, added: seq<Row>, desired: seq<Policy>, wanted: Wanted, deleted: nat, nextId: nat)
    requires KeptRows(before, kept) && (deleted == 0 ==> kept == before)
    requires var have, want := Bag(before), multiset(Keys(desired));
             Bag(kept) == have * want && multiset(WantedKeys(wanted)) == want - have && deleted == |have - want|
    requires WantedOk(wanted) && Inserted(added, wanted, nextId)
    ensures Reconciled(before, kept + added, desired, |wanted|, deleted, nextId)
  {
    var after := kept + added;
    InsertedKeys(added, wanted, nextId);
    assert after[..|after| - |wanted|] == kept && after[|after| - |wanted|..] == added;
    BagAppend(kept, added);
    Partition(Bag(before), multiset(Keys(desired)));
  }

  lemma Partition(have: multiset<Key>, want: multiset<Key>)
    ensures have * want + (want - have) == want
  {
  }

  lemma TakeOut(b: seq<Row>, j: nat)
    requires j < |b|
    ensures multiset(b) == multiset(b[..j] + b[j + 1..]) + multiset{b[j]}
    ensures Bag(b) == Bag(b[..j] + b[j + 1..]) + Bag([b[j]])
  {
    var (x, y) := (b[..j], b[j + 1..]);
    assert b == x + ([b[j]] + y);
    BagAppend(x, [b[j]] + y);
    BagAppend([b[j]], y);
    BagAppend(x, y);
  }

  /** The keys of the managed rows do not depend on the order of the scan. */
  lemma {:induction false} ScanOrder(a: seq<Row>, b: seq<Row>)
    requires multiset(a) == multiset(b)
    ensures Bag(a) == Bag(b)
  {
    if a == [] {
      assert |multiset(b)| == 0;
    } else {
      var j := IndexIn(a, b);
      TakeOut(a, 0);
      TakeOut(b, j);
      var (x, y) := (a[..0] + a[1..], b[..j] + b[j + 1..]);
      assert multiset(x) == multiset(a) - multiset{a[0]};
      assert multiset(y) == multiset(b) - multiset{a[0]};
      ScanOrder(x, y);
    }
  }

  lemma IndexIn(a: seq<Row>, b: seq<Row>) returns (j: nat)
    requires a != [] && multiset(a) == multiset(b)
    ensures j < |b| && b[j] == a[0]
  {
    assert a[0] in multiset(b);
    j :| 0 <= j < |b| && b[j] == a[0];
  }

  /** A second run, over the same rows in whatever order they are scanned, changes nothing. */
  lemma SecondRunIsQuiet(
    a: seq<Row>, b: seq<Row>, scanned: seq<Row>, c: seq<Row>, desired: seq<Policy>,
    created: nat, deleted: nat, created2: nat, deleted2: nat, nextId: nat, nextId2: nat)
    requires Reconciled(a, b, desired, created, deleted, nextId)
    requires multiset(scanned) == multiset(b)
    requires Reconciled(scanned, c, desired, created2, deleted2, nextId2)
    ensures c == scanned && created2 == 0 && deleted2 == 0
  {
    ScanOrder(scanned, b);
    assert c[..|c| - 0] == c;
  }

  // ---------- what a key tells apart ----------

  /** `p` is a rule with this body and a deadline inside this microsecond. */
  predicate Means(p: Policy, body: Body, micros: Option<int>) {
    && p.body == body && p.notAfter.Some? == micros.Some?
    && (micros.Some? ==> micros.value * 1000 <= p.notAfter.value < (micros.value + 1) * 1000)
  }

  lemma KeyMeans(p: Policy, body: Body, micros: Option<int>)
    ensures PolicyKey(p) == Key(body, micros) <==> Means(p, body, micros)
  {
  }

  /** Two rules have one key exactly when they are alike in everything but who created them, up to the
      part of a microsecond that the column drops. */
  lemma KeysTellRulesApart(p: Policy, q: Policy)
    ensures PolicyKey(p) == PolicyKey(q) <==> exists micros :: Means(p, q.body, micros) && Means(q, q.body, micros)
  {
    KeyMeans(p, q.body, Micros(q.notAfter));
    KeyMeans(q, q.body, Micros(q.notAfter));
    forall micros | Means(p, q.body, micros) && Means(q, q.body, micros) ensures PolicyKey(p) == PolicyKey(q) {
      KeyMeans(p, q.body, micros);
      KeyMeans(q, q.body, micros);
    }
  }

  /** The managed rows that are such a rule, and the configured rules that are. */
  ghost function Managed(rows: seq<Row>, body: Body, micros: Option<int>): set<int> {
    set i | 0 <= i < |rows| && rows[i].managed && Means(rows[i].policy, body, micros)
  }

  ghost function Configured(desired: seq<Policy>, body: Body, micros: Option<int>): set<int> {
    set i | 0 <= i < |desired| && Means(desired[i], body, micros)
  }

  lemma BagOfOne(row: Row, body: Body, micros: Option<int>)
    ensures Bag([row])[Key(body, micros)] == if row.managed && Means(row.policy, body, micros) then 1 else 0
  {
    KeyMeans(row.policy, body, micros);
    if row.managed {
      assert RowKeys(Where([row], true)) == [PolicyKey(row.policy)];
      assert Bag([row]) == multiset{PolicyKey(row.policy)};
    } else {
      assert RowKeys(Where([row], true)) == [];
    }
  }

  lemma ManagedSnoc(rows: seq<Row>, row: Row, body: Body, micros: Option<int>)
    ensures |Managed(rows + [row], body, micros)|
         == |Managed(rows, body, micros)| + if row.managed && Means(row.policy, body, micros) then 1 else 0
  {
    var more := if row.managed && Means(row.policy, body, micros) then {|rows|} else {};
    assert Managed(rows + [row], body, micros) == Managed(rows, body, micros) + more;
  }

  lemma {:induction false} ManagedCount(rows: seq<Row>, body: Body, micros: Option<int>)
    ensures |Managed(rows, body, micros)| == Bag(rows)[Key(body, micros)]
  {
    if rows == [] {
      assert Managed(rows, body, micros) == {};
    } else {
      var (init, last) := (rows[..|rows| - 1], rows[|rows| - 1]);
      assert rows == init + [last];
      ManagedCount(init, body, micros);
      ManagedSnoc(init, last, body, micros);
      BagAppend(init, [last]);
      BagOfOne(last, body, micros);
    }
  }

  lemma ConfiguredSnoc(desired: seq<Policy>, p: Policy, body: Body, micros: Option<int>)
    ensures |Configured(desired + [p], body, micros)|
         == |Configured(desired, body, micros)| + if Means(p, body, micros) then 1 else 0
  {
    var more := if Means(p, body, micros) then {|desired|} else {};
    assert Configured(desired + [p], body, micros) == Configured(desired, body, micros) + more;
  }

  lemma {:induction false} ConfiguredCount(desired: seq<Policy>, body: Body, micros: Option<int>)
    ensures |Configured(desired, body, micros)| == multiset(Keys(desired))[Key(body, micros)]
  {
    if desired == [] {
      assert Configured(desired, body, micros) == {};
    } else {
      var (init, last) := (desired[..|desired| - 1], desired[|desired| - 1]);
      assert desired == init + [last];
      ConfiguredCount(init, body, micros);
      ConfiguredSnoc(init, last, body, micros);
      KeyMeans(last, body, micros);
      assert Keys(desired) == Keys(init) + [PolicyKey(last)];
    }
  }

  /** Every rule is in force as often as it is configured. */
  ghost predicate InForce(rows: seq<Row>, desired: seq<Policy>) {
    forall body, micros :: |Managed(rows, body, micros)| == |Configured(desired, body, micros)|
  }

  /** Of the rows that are such a rule as many survive as are still configured, */
  ghost predicate FewestTouched(before: seq<Row>, kept: seq<Row>, desired: seq<Policy>) {
    forall body, micros ::
      var (have, want) := (|Managed(before, body, micros)|, |Configured(desired, body, micros)|);
      |Managed(kept, body, micros)| == if have < want then have else want
  }

  /** and the rest of the table is left alone: rows that are not managed stay, and only managed rows are new. */
  ghost predicate OthersLeft(before: seq<Row>, after: seq<Row>, nextId: nat) {
    && (forall r :: r in before && !r.managed ==> r in after)
    && (forall r :: r in after ==> r in before || (r.managed && r.id >= nextId && r.policy.createdBy == CONFIG_ACTOR))
  }

  lemma ReconciledInForce(
    before: seq<Row>, after: seq<Row>, desired: seq<Policy>, created: nat, deleted: nat, nextId: nat)
    requires Reconciled(before, after, desired, created, deleted, nextId)
    ensures InForce(after, desired) && FewestTouched(before, after[..|after| - created], desired)
    ensures OthersLeft(before, after, nextId)
  {
    var (kept, added) := (after[..|after| - created], after[|after| - created..]);
    forall body, micros ensures |Managed(after, body, micros)| == |Configured(desired, body, micros)| {
      ManagedCount(after, body, micros);
      ConfiguredCount(desired, body, micros);
    }
    forall body, micros
      ensures var (have, want) := (|Managed(before, body, micros)|, |Configured(desired, body, micros)|);
              |Managed(kept, body, micros)| == if have < want then have else want
    {
      ManagedCount(before, body, micros);
      ManagedCount(kept, body, micros);
      ConfiguredCount(desired, body, micros);
    }
    WhereMembers(before, false);
    WhereMembers(kept, false);
    assert after == kept + added;
  }
}
