/**
  Use counts against the rows that account for them, in every reachable world.
 */
module Accounting {
  import opened Wrappers
  import opened Store
  import opened World
  import opened Frames
  import opened GrantSafety

  function CountAttempts(attempts: seq<Attempt>, g: Id, kind: AttemptKind, replay: bool): nat {
    if attempts == [] then 0
    else
      var a := attempts[|attempts| - 1];
      CountAttempts(attempts[..|attempts| - 1], g, kind, replay)
      + (if a.grantId == g && a.kind == kind && a.replay == replay then 1 else 0)
  }

  function CountReplays(served: seq<Served>, g: Id): nat {
    if served == [] then 0
    else
      var s := served[|served| - 1];
      CountReplays(served[..|served| - 1], g) + (if s.grantId == g && s.replay then 1 else 0)
  }

  function CountFirstUses(served: seq<Served>, g: Id, key: string): nat {
    if served == [] then 0
    else
      CountFirstUses(served[..|served| - 1], g, key) + (if served[|served| - 1] == Served(g, key, false) then 1 else 0)
  }

  function KeysOf(used: set<(Id, string)>, g: Id): set<(Id, string)> {
    set p | p in used && p.0 == g
  }

  /** One grant's books. */
  ghost predicate Balanced(g: Id, grant: Grant, used: set<(Id, string)>, attempts: seq<Attempt>, served: seq<Served>) {
    && grant.useCount == |KeysOf(used, g)| + CountAttempts(attempts, g, ProxyAttempt, false)
    && (grant.maxUses.Some? ==> grant.useCount <= grant.maxUses.value)
    && CountAttempts(attempts, g, ReleaseAttempt, false) == |KeysOf(used, g)|
    && CountAttempts(attempts, g, ReleaseAttempt, true) == CountReplays(served, g)
    && CountAttempts(attempts, g, ProxyAttempt, true) == 0
  }

  ghost predicate BooksOk(grants: Grants, used: set<(Id, string)>, attempts: seq<Attempt>, served: seq<Served>) {
    && (forall p :: p in used ==> p.0 in grants)
    && (forall a :: a in attempts ==> a.grantId in grants)
    && (forall s :: s in served ==> s.grantId in grants)
    && (forall g :: g in grants ==> Balanced(g, grants[g], used, attempts, served))
    && (forall g: Id, k :: CountFirstUses(served, g, k) == if (g, k) in used then 1 else 0)
  }

  ghost predicate Books(w: World) {
    BooksOk(w.db.grants, w.db.grantReads.Keys, w.db.attempts, w.served)
  }

  // ---------- counting ----------

  lemma CountAppend(attempts: seq<Attempt>, a: Attempt, g: Id, kind: AttemptKind, replay: bool)
    ensures CountAttempts(attempts + [a], g, kind, replay)
         == CountAttempts(attempts, g, kind, replay) + (if a.grantId == g && a.kind == kind && a.replay == replay then 1 else 0)
  {
    assert (attempts + [a])[..|attempts|] == attempts;
  }

  lemma ServedAppend(served: seq<Served>, s: Served, g: Id)
    ensures CountReplays(served + [s], g) == CountReplays(served, g) + (if s.grantId == g && s.replay then 1 else 0)
    ensures forall k :: CountFirstUses(served + [s], g, k)
                     == CountFirstUses(served, g, k) + (if s == Served(g, k, false) then 1 else 0)
  {
    assert (served + [s])[..|served|] == served;
  }

  lemma {:induction false} NoneCounted(attempts: seq<Attempt>, served: seq<Served>, g: Id)
    requires forall a :: a in attempts ==> a.grantId != g
    requires forall s :: s in served ==> s.grantId != g
    ensures forall kind, replay :: CountAttempts(attempts, g, kind, replay) == 0
    ensures CountReplays(served, g) == 0
    decreases |attempts| + |served|
  {
    if attempts != [] {
      NoneCounted(attempts[..|attempts| - 1], [], g);
    }
    if served != [] {
      NoneCounted([], served[..|served| - 1], g);
    }
  }

  // ---------- every step keeps the books ----------

  /** Steps that touch no count: grants keep their uses, or start at none. */
  ghost predicate Quiet(a: World, b: World) {
    && a.db.grants.Keys <= b.db.grants.Keys
    && (forall g :: g in a.db.grants ==>
          b.db.grants[g].useCount == a.db.grants[g].useCount && b.db.grants[g].maxUses == a.db.grants[g].maxUses)
    && (forall g :: g in b.db.grants && g !in a.db.grants ==> b.db.grants[g].useCount == 0)
    && b.db.grantReads.Keys == a.db.grantReads.Keys && b.db.attempts == a.db.attempts && b.served == a.served
  }

  lemma BooksFrame(a: World, b: World)
    requires Books(a) && Quiet(a, b)
    ensures Books(b)
  {
    var used := a.db.grantReads.Keys;
    forall g | g in b.db.grants ensures Balanced(g, b.db.grants[g], used, b.db.attempts, b.served) {
      if g in a.db.grants {
        assert Balanced(g, a.db.grants[g], used, a.db.attempts, a.served);
      } else {
        NoneCounted(b.db.attempts, b.served, g);
        assert KeysOf(used, g) == {};
      }
    }
  }

  lemma DeleteIsQuiet(w: World, secretId: Id, expected: nat)
    ensures Quiet(w, w.(db := DeleteSecret(w.db, w.clock, secretId, expected).0))
  {
    DeleteMovesGrants(w.db, w.clock, secretId, expected);
  }

  lemma ApproveIsQuiet(w: World, request: Id, grantId: Id, p: GrantParams, store: Option<NewSecret>)
    requires IssuedOk(w) && grantId !in w.issued
    ensures Quiet(w, ApproveAt(w, request, grantId, p, store))
  {
  }

  lemma InsertIsQuiet(w: World, request: Id, req: NewRequest, cap: Option<nat>, resolution: Resolution, grantId: Id)
    requires IssuedOk(w) && grantId !in w.issued
    ensures Quiet(w, InsertAt(w, request, req, cap, resolution, grantId))
  {
    InsertTables(w, request, req, cap, resolution, grantId);
    InsertShape(w.db, w.clock, request, req, cap, resolution, grantId);
  }

  lemma RevokeIsQuiet(w: World, g: Id)
    ensures Quiet(w, w.(db := RevokeGrant(w.db, g).0))
  {
  }

  lemma SweepIsQuiet(w: World)
    ensures Quiet(w, w.(db := SweepPayloads(w.db, w.clock, w.window)))
  {
  }

  lemma OtherActIsQuiet(w: World, a: Action)
    requires IssuedOk(w) && CanAct(w, a) && !a.ReadAccount? && !a.ProxyUse?
    ensures Quiet(w, Act(w, a))
  {
    if a.Approve? {
      ApproveIsQuiet(w, a.request, a.grantId, a.params, a.store);
    } else if a.Insert? {
      InsertIsQuiet(w, a.request, a.req, a.cap, a.resolution, a.grantId);
    } else if a.Delete? {
      DeleteIsQuiet(w, a.secretId, a.expected);
    } else if a.RevokeOne? {
      RevokeIsQuiet(w, a.grantId);
    } else if a.Sweep? {
      SweepIsQuiet(w);
    } else {
      ActFrame(w, a);
    }
  }

  lemma AttemptedBalances(
    g: Id, a: Grant, b: Grant, used: set<(Id, string)>, used2: set<(Id, string)>,
    attempts: seq<Attempt>, attempt: Attempt, served: seq<Served>, served2: seq<Served>)
    requires Balanced(g, a, used, attempts, served) && b.maxUses == a.maxUses
    requires attempt.grantId != g ==> b == a && KeysOf(used2, g) == KeysOf(used, g) && CountReplays(served2, g) == CountReplays(served, g)
    requires attempt.grantId == g && attempt.replay ==>
               b == a && used2 == used && attempt.kind == ReleaseAttempt && CountReplays(served2, g) == CountReplays(served, g) + 1
    requires attempt.grantId == g && !attempt.replay ==>
               && UseRemains(a) && b.useCount == a.useCount + 1
               && |KeysOf(used2, g)| == |KeysOf(used, g)| + (if attempt.kind == ReleaseAttempt then 1 else 0)
               && CountReplays(served2, g) == CountReplays(served, g)
    ensures Balanced(g, b, used2, attempts + [attempt], served2)
  {
    CountAppend(attempts, attempt, g, ProxyAttempt, false);
    CountAppend(attempts, attempt, g, ProxyAttempt, true);
    CountAppend(attempts, attempt, g, ReleaseAttempt, false);
    CountAppend(attempts, attempt, g, ReleaseAttempt, true);
  }

  /** One more attempt row of grant `h`, against whatever else the step did. */
  lemma AttemptKeepsBooks(a: World, b: World, h: Id, attempt: Attempt)
    requires Books(a) && h in a.db.grants && attempt.grantId == h
    requires b.db.attempts == a.db.attempts + [attempt] && h in b.db.grants
    requires b.db.grants == a.db.grants[h := a.db.grants[h].(useCount := b.db.grants[h].useCount)]
    requires forall g: Id :: g != h ==> CountReplays(b.served, g) == CountReplays(a.served, g)
    requires forall g :: g in a.db.grants && g != h ==>
               KeysOf(b.db.grantReads.Keys, g) == KeysOf(a.db.grantReads.Keys, g)
    requires forall p :: p in b.db.grantReads ==> p.0 in a.db.grants
    requires forall s :: s in b.served ==> s.grantId in a.db.grants
    requires forall g: Id, k :: CountFirstUses(b.served, g, k) == if (g, k) in b.db.grantReads.Keys then 1 else 0
    requires if attempt.replay then
               && attempt.kind == ReleaseAttempt && b.db.grants == a.db.grants && b.db.grantReads == a.db.grantReads
               && CountReplays(b.served, h) == CountReplays(a.served, h) + 1
             else
               && UseRemains(a.db.grants[h]) && b.db.grants[h].useCount == a.db.grants[h].useCount + 1
               && |KeysOf(b.db.grantReads.Keys, h)| == |KeysOf(a.db.grantReads.Keys, h)| + (if attempt.kind == ReleaseAttempt then 1 else 0)
               && CountReplays(b.served, h) == CountReplays(a.served, h)
    ensures Books(b)
  {
    forall g | g in b.db.grants ensures Balanced(g, b.db.grants[g], b.db.grantReads.Keys, b.db.attempts, b.served) {
      AttemptedBalances(g, a.db.grants[g], b.db.grants[g], a.db.grantReads.Keys, b.db.grantReads.Keys,
                        a.db.attempts, attempt, a.served, b.served);
    }
  }

  lemma ProxyKeepsBooks(w: World, g: Id, credential: Id)
    requires Books(w)
    ensures Books(Proxy(w, g, credential))
  {
    if BeginGrantUse(w.db, w.clock, g, None, Some(credential), ProxyAttempt, w.window).1.FirstUse? {
      AttemptKeepsBooks(w, Proxy(w, g, credential), g, Attempt(ProxyAttempt, g, Some(credential), false));
    }
  }

  lemma KeysGrow(used: set<(Id, string)>, used2: set<(Id, string)>, p: (Id, string))
    requires p !in used && used2 == used + {p}
    ensures forall g :: g != p.0 ==> KeysOf(used2, g) == KeysOf(used, g)
    ensures |KeysOf(used2, p.0)| == |KeysOf(used, p.0)| + 1
  {
    assert KeysOf(used2, p.0) == KeysOf(used, p.0) + {p};
    forall g | g != p.0 ensures KeysOf(used2, g) == KeysOf(used, g) {
    }
  }

  lemma ServedFirst(served: seq<Served>, served2: seq<Served>, used: set<(Id, string)>, used2: set<(Id, string)>, p: (Id, string))
    requires forall g: Id, k :: CountFirstUses(served, g, k) == if (g, k) in used then 1 else 0
    requires p !in used && used2 == used + {p} && served2 == served + [Served(p.0, p.1, false)]
    ensures forall g: Id :: CountReplays(served2, g) == CountReplays(served, g)
    ensures forall g: Id, k :: CountFirstUses(served2, g, k) == if (g, k) in used2 then 1 else 0
  {
    forall g: Id ensures CountReplays(served2, g) == CountReplays(served, g)
             ensures forall k :: CountFirstUses(served2, g, k) == if (g, k) in used2 then 1 else 0 {
      ServedAppend(served, Served(p.0, p.1, false), g);
    }
  }

  lemma FirstUseKeepsBooks(w: World, r: nat)
    requires Books(w) && r in w.readers && w.readers[r].Resolved? && AccountedUse(w, w.readers[r]).FirstUse?
    ensures w.readers[r].grantId in w.db.grants && Books(FirstUsed(w, r))
  {
    var rd, n := w.readers[r], FirstUsed(w, r);
    var p := (rd.grantId, rd.key);
    var used, used2 := w.db.grantReads.Keys, n.db.grantReads.Keys;
    KeysGrow(used, used2, p);
    ServedFirst(w.served, n.served, used, used2, p);
    AttemptKeepsBooks(w, n, p.0, Attempt(ReleaseAttempt, p.0, Some(rd.payloadId), false));
  }

  lemma ReplayKeepsBooks(w: World, r: nat)
    requires Books(w) && r in w.readers && w.readers[r].Resolved?
    requires (w.readers[r].grantId, w.readers[r].key) in w.db.grantReads
    ensures w.readers[r].grantId in w.db.grants && Books(Replayed(w, r))
  {
    var rd := w.readers[r];
    var p := (rd.grantId, rd.key);
    var n := Replayed(w, r);
    forall g: Id ensures CountReplays(n.served, g) == CountReplays(w.served, g) + (if g == p.0 then 1 else 0)
             ensures forall k :: CountFirstUses(n.served, g, k) == CountFirstUses(w.served, g, k) {
      ServedAppend(w.served, Served(p.0, p.1, true), g);
    }
    AttemptKeepsBooks(w, n, p.0, Attempt(ReleaseAttempt, p.0, w.db.grantReads[p].versionId, true));
  }

  lemma AccountKeepsBooks(w: World, r: nat)
    requires Books(w) && r in w.readers && w.readers[r].Resolved?
    ensures Books(Account(w, r))
  {
    var outcome := AccountedUse(w, w.readers[r]);
    if outcome.FirstUse? {
      AccountFirstUse(w, r);
      FirstUseKeepsBooks(w, r);
    } else if outcome.Replay? {
      AccountReplay(w, r);
      ReplayKeepsBooks(w, r);
    }
  }

  lemma ActKeepsBooks(w: World, a: Action)
    requires IssuedOk(w) && Books(w) && CanAct(w, a)
    ensures Books(Act(w, a))
  {
    if a.ReadAccount? {
      AccountKeepsBooks(w, a.reader);
    } else if a.ProxyUse? {
      ProxyKeepsBooks(w, a.grantId, a.credential);
    } else {
      OtherActIsQuiet(w, a);
      BooksFrame(w, Act(w, a));
    }
  }

  lemma NextKeepsBooks(a: World, s: Step, b: World)
    requires IssuedOk(a) && Books(a) && Next(a, s, b)
    ensures Books(b)
  {
    ActKeepsBooks(a.(clock := s.now), s.action);
  }

  lemma {:induction false} RunKeepsBooks(ws: seq<World>, steps: seq<Step>, i: nat)
    requires Run(ws, steps) && i < |ws|
    ensures Books(ws[i])
  {
    if i > 0 {
      RunKeepsBooks(ws, steps, i - 1);
      RunIssuesOnce(ws, steps, i - 1);
      StepTaken(ws, steps, i - 1);
      NextKeepsBooks(ws[i - 1], steps[i - 1], ws[i]);
    }
  }

  /** In every reachable world a grant's `use_count` is its replay rows plus its proxy attempts and never
      above `max_uses`; its release attempts are its first uses plus its replays; and a key that was
      seen has had exactly one first use. */
  lemma UsesAreAccounted(ws: seq<World>, steps: seq<Step>, i: nat, g: Id, key: string)
    requires Run(ws, steps) && i < |ws| && g in ws[i].db.grants
    ensures var w := ws[i];
            var grant, rows := w.db.grants[g], |KeysOf(w.db.grantReads.Keys, g)|;
            && grant.useCount == rows + CountAttempts(w.db.attempts, g, ProxyAttempt, false)
            && (grant.maxUses.Some? ==> grant.useCount <= grant.maxUses.value)
            && CountAttempts(w.db.attempts, g, ReleaseAttempt, false) + CountAttempts(w.db.attempts, g, ReleaseAttempt, true)
               == rows + CountReplays(w.served, g)
            && CountFirstUses(w.served, g, key) == (if (g, key) in w.db.grantReads then 1 else 0)
  {
    RunKeepsBooks(ws, steps, i);
    assert Balanced(g, ws[i].db.grants[g], ws[i].db.grantReads.Keys, ws[i].db.attempts, ws[i].served);
  }
}
