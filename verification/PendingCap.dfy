/**
  The cap on a client's pending requests, with inserts in flight.

  Creation takes the per-client lock, inserts its row, and counts what it sees:
  committed rows and its own, unexpired as of its own start. The cap is on what
  is pending and unexpired as of now, which is later.
 */
module PendingCap {
  import opened Wrappers
  import Store

  type Id = Store.Id
  type Time = Store.Time
  type Requests = map<Id, Store.Request>

  datatype Phase = Started | Holding | Counted

  /** A creation in flight that policy leaves to the operator; `now` is its start. */
  datatype Tx = Tx(now: Time, id: Id, req: Store.NewRequest, phase: Phase)

  datatype State = State(requests: Requests, txs: map<nat, Tx>, issued: set<Id>, clock: Time)

  const Init := State(map[], map[], {}, 0)

  /** Requests that policy resolves at once are never pending and take no per-client lock. */
  datatype Step =
    | Begin(x: nat, id: Id, req: Store.NewRequest)
    | Lock(x: nat)
    | InsertAndCount(x: nat)
    | Commit(x: nat)
    | Rollback(x: nat)
    | InsertResolved(id: Id, row: Store.Request)
    | Resolve(id: Id, state: Store.RequestState)
    | Tick(now: Time)

  predicate Holds(t: Tx, client: string) {
    t.req.client == client && !t.phase.Started?
  }

  /** The row a creation inserts. */
  function Row(req: Store.NewRequest): Store.Request {
    Store.Request(req.client, req.secretName, Store.Pending, req.expiresAt, req.idemKey, req.mac)
  }

  /** What the count of transaction `t` sees. */
  function Seen(requests: Requests, t: Tx): set<Id> {
    Store.PendingOf(requests[t.id := Row(t.req)], t.req.client, t.now)
  }

  ghost predicate KeyFree(requests: Requests, req: Store.NewRequest) {
    forall r :: r in requests ==> !Store.HasIdem(requests[r], req.client, req.idemKey)
  }

  /** A count over the cap, or a key that already has a row, leaves nothing but `Rollback`. */
  ghost predicate Enabled(s: State, cap: nat, a: Step) {
    match a
    case Begin(x, id, _) => x !in s.txs && id !in s.issued
    case Lock(x) =>
      x in s.txs && s.txs[x].phase.Started? && forall y :: y in s.txs ==> !Holds(s.txs[y], s.txs[x].req.client)
    case InsertAndCount(x) =>
      && x in s.txs && s.txs[x].phase.Holding? && KeyFree(s.requests, s.txs[x].req)
      && |Seen(s.requests, s.txs[x])| <= cap
    case Commit(x) => x in s.txs && s.txs[x].phase.Counted?
    case Rollback(x) => x in s.txs
    case InsertResolved(id, row) => id !in s.issued && row.state != Store.Pending
    case Resolve(id, state) => id in s.requests && state != Store.Pending
    case Tick(now) => s.clock <= now
  }

  ghost function Perform(s: State, cap: nat, a: Step): State
    requires Enabled(s, cap, a)
  {
    match a
    case Begin(x, id, req) => s.(txs := s.txs[x := Tx(s.clock, id, req, Started)], issued := s.issued + {id})
    case Lock(x) => s.(txs := s.txs[x := s.txs[x].(phase := Holding)])
    case InsertAndCount(x) => s.(txs := s.txs[x := s.txs[x].(phase := Counted)])
    case Commit(x) => s.(requests := s.requests[s.txs[x].id := Row(s.txs[x].req)], txs := s.txs - {x})
    case Rollback(x) => s.(txs := s.txs - {x})
    case InsertResolved(id, row) => s.(requests := s.requests[id := row], issued := s.issued + {id})
    case Resolve(id, state) => s.(requests := s.requests[id := s.requests[id].(state := state)])
    case Tick(now) => s.(clock := now)
  }

  ghost predicate Run(ss: seq<State>, cap: nat, steps: seq<Step>) {
    && |ss| == |steps| + 1 && ss[0] == Init
    && forall i :: 0 <= i < |steps| ==> Enabled(ss[i], cap, steps[i]) && ss[i + 1] == Perform(ss[i], cap, steps[i])
  }

  ghost predicate CapOk(requests: Requests, clock: Time, cap: nat) {
    forall c :: |Store.PendingOf(requests, c, clock)| <= cap
  }

  /** A transaction that has counted may still commit. */
  ghost predicate TxOk(requests: Requests, clock: Time, cap: nat, issued: set<Id>, t: Tx) {
    && t.now <= clock && t.id in issued && t.id !in requests
    && (t.phase.Counted? ==> |Seen(requests, t)| <= cap)
  }

  ghost predicate Inv(s: State, cap: nat) {
    && CapOk(s.requests, s.clock, cap)
    && s.requests.Keys <= s.issued
    && (forall x :: x in s.txs ==> TxOk(s.requests, s.clock, cap, s.issued, s.txs[x]))
    && (forall x, y :: x in s.txs && y in s.txs && x != y ==> s.txs[x].id != s.txs[y].id)
    && (forall x, y, c :: x in s.txs && y in s.txs && Holds(s.txs[x], c) && Holds(s.txs[y], c) ==> x == y)
  }

  lemma SubsetSmaller(a: set<Id>, b: set<Id>)
    requires a <= b
    ensures |a| <= |b|
  {
    assert b == a + (b - a);
  }

  /** Resolving rows and letting time pass only shrink what any count would see. */
  lemma ShrinkKeeps(s: State, requests: Requests, clock: Time, cap: nat)
    requires Inv(s, cap) && s.clock <= clock && requests.Keys == s.requests.Keys
    requires forall r :: r in requests ==> requests[r] == s.requests[r] || (requests[r].state != Store.Pending && requests[r] == s.requests[r].(state := requests[r].state))
    ensures Inv(s.(requests := requests, clock := clock), cap)
  {
    forall c ensures |Store.PendingOf(requests, c, clock)| <= cap {
      SubsetSmaller(Store.PendingOf(requests, c, clock), Store.PendingOf(s.requests, c, s.clock));
    }
    forall x | x in s.txs ensures TxOk(requests, clock, cap, s.issued, s.txs[x]) {
      assert TxOk(s.requests, s.clock, cap, s.issued, s.txs[x]);
      SubsetSmaller(Seen(requests, s.txs[x]), Seen(s.requests, s.txs[x]));
    }
  }

  lemma CommitKeeps(s: State, cap: nat, x: nat)
    requires Inv(s, cap) && Enabled(s, cap, Commit(x))
    ensures Inv(Perform(s, cap, Commit(x)), cap)
  {
    var n, t := Perform(s, cap, Commit(x)), s.txs[x];
    assert TxOk(s.requests, s.clock, cap, s.issued, t);
    forall c ensures |Store.PendingOf(n.requests, c, n.clock)| <= cap {
      SubsetSmaller(Store.PendingOf(n.requests, c, n.clock), if c == t.req.client then Seen(s.requests, t) else Store.PendingOf(s.requests, c, s.clock));
    }
    forall y | y in n.txs ensures TxOk(n.requests, n.clock, cap, n.issued, n.txs[y]) {
      assert TxOk(s.requests, s.clock, cap, s.issued, s.txs[y]);
      assert Holds(t, t.req.client);
      if n.txs[y].phase.Counted? {
        assert Seen(n.requests, n.txs[y]) == Seen(s.requests, n.txs[y]);
      }
    }
  }

  /** A row that is never pending is in nobody's count. */
  lemma ResolvedKeeps(s: State, cap: nat, id: Id, row: Store.Request)
    requires Inv(s, cap) && Enabled(s, cap, InsertResolved(id, row))
    ensures Inv(Perform(s, cap, InsertResolved(id, row)), cap)
  {
    var n := Perform(s, cap, InsertResolved(id, row));
    forall c ensures |Store.PendingOf(n.requests, c, n.clock)| <= cap {
      assert Store.PendingOf(n.requests, c, n.clock) == Store.PendingOf(s.requests, c, s.clock);
    }
    forall x | x in n.txs ensures TxOk(n.requests, n.clock, cap, n.issued, n.txs[x]) {
      assert TxOk(s.requests, s.clock, cap, s.issued, s.txs[x]);
      assert Seen(n.requests, n.txs[x]) == Seen(s.requests, s.txs[x]);
    }
  }

  lemma AdvanceKeeps(s: State, cap: nat, a: Step)
    requires Inv(s, cap) && Enabled(s, cap, a)
    requires a.Begin? || a.Lock? || a.InsertAndCount? || a.Rollback?
    ensures Inv(Perform(s, cap, a), cap)
  {
    var n := Perform(s, cap, a);
    forall x | x in n.txs ensures TxOk(n.requests, n.clock, cap, n.issued, n.txs[x]) {
      assert x in s.txs ==> TxOk(s.requests, s.clock, cap, s.issued, s.txs[x]);
    }
  }

  lemma {:induction false} RunKeeps(ss: seq<State>, cap: nat, steps: seq<Step>, i: nat)
    requires Run(ss, cap, steps) && i < |ss|
    ensures Inv(ss[i], cap)
  {
    if i == 0 {
      forall c ensures |Store.PendingOf(ss[0].requests, c, ss[0].clock)| <= cap {
        assert Store.PendingOf(ss[0].requests, c, ss[0].clock) == {};
      }
    } else {
      RunKeeps(ss, cap, steps, i - 1);
      var s, a := ss[i - 1], steps[i - 1];
      match a
      case Commit(x) => CommitKeeps(s, cap, x);
      case InsertResolved(id, row) => ResolvedKeeps(s, cap, id, row);
      case Resolve(_, _) => ShrinkKeeps(s, Perform(s, cap, a).requests, s.clock, cap);
      case Tick(now) => ShrinkKeeps(s, s.requests, now, cap);
      case _ => AdvanceKeeps(s, cap, a);
    }
  }

  /** At every moment, a client's pending unexpired requests are within the cap. */
  lemma PendingStaysWithinTheCap(ss: seq<State>, cap: nat, steps: seq<Step>, i: nat, client: string)
    requires Run(ss, cap, steps) && i < |ss|
    ensures |Store.PendingOf(ss[i].requests, client, ss[i].clock)| <= cap
  {
    RunKeeps(ss, cap, steps, i);
  }

  /** Counting and committing here is the insert of `Store` under the same cap: it creates the row exactly when
      the count passes, and leaves the same requests. */
  lemma CommitIsStoreInsert(s: State, cap: nat, x: nat, t: Store.Tables, grantId: Id)
    requires Inv(s, cap) && x in s.txs && s.txs[x].phase.Holding? && t.requests == s.requests
    ensures var tx := s.txs[x];
            var (after, outcome) :=
              Store.InsertRequest(t, tx.now, tx.id, tx.req, Some(cap), Store.Undecided, grantId);
            && (outcome.Created? <==> Enabled(s, cap, InsertAndCount(x)))
            && (outcome.Created? ==>
                  after.requests == Perform(Perform(s, cap, InsertAndCount(x)), cap, Commit(x)).requests)
  {
    var tx := s.txs[x];
    assert KeyFree(s.requests, tx.req) <==> Store.FindByIdem(t, tx.req.client, tx.req.idemKey).None?;
    assert t.requests[tx.id := Row(tx.req)] == s.requests[tx.id := Row(tx.req)];
  }
}
