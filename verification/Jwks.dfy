/**
  The cache of signing keys: a refresh floor, a maximum age, and a ceiling on
  serving stale keys while the issuer cannot be reached.

  A lookup holds the cache's lock from its first clock read to its end, so
  lookups follow one another. Its clock reads and the outcome of its fetch are
  inputs. What is proved is that the cache answers as its fetch history
  demands, and what that history looks like.
 */
module Jwks {
  import opened Wrappers

  /** Nanoseconds of a monotonic clock. */
  type Instant = int

  const SECOND: int := 1_000_000_000
  const MIN_REFRESH: int := 10 * SECOND
  const MAX_AGE: int := 600 * SECOND
  const STALE_IF_ERROR_MAX: int := 3600 * SECOND

  datatype Jwk = Jwk(material: bytes)

  type KeySet = map<string, Jwk>

  datatype CachedJwks = CachedJwks(keys: KeySet, fetchedAt: Instant, lastAttempt: Instant)

  type Cache = map<string, CachedJwks>

  datatype CacheAction = Serve | Refresh | RateLimited

  /** `cache_action` on (kid is present, age of the document, time since the last attempt). */
  function Action(cached: Option<(bool, int, int)>): CacheAction {
    if cached.None? then Refresh
    else if cached.value.0 && cached.value.1 < MAX_AGE then Serve
    else if cached.value.2 < MIN_REFRESH then RateLimited
    else Refresh
  }

  /** A fetch that is under way when its lookup is dropped leaves no trace. */
  datatype Fetch = Fetched(keys: KeySet) | Failed | Abandoned

  /** The three clock reads before the decision, and the one after a fetch. */
  datatype Lookup = Lookup(
    url: string, kid: string, graceRead: Instant, ageRead: Instant, attemptRead: Instant,
    fetch: Fetch, fetchEnd: Instant)

  datatype Answer = Key(jwk: Jwk) | Unauthorized | Dropped

  function Pick(keys: KeySet, kid: string): Option<Jwk> {
    if kid in keys then Some(keys[kid]) else None
  }

  function ToAnswer(jwk: Option<Jwk>): Answer {
    if jwk.Some? then Key(jwk.value) else Unauthorized
  }

  class JwksCache {
    var inner: Cache

    constructor ()
      ensures inner == map[]
    {
      inner := map[];
    }

    /** `jwk_for_kid`. */
    method JwkForKid(l: Lookup) returns (answer: Answer)
      modifies this
      ensures (inner, answer) == Perform(old(inner), l)
    {
      var staleHit: Option<Jwk> := None;
      var withinStaleGrace := false;
      var seen: Option<(bool, int, int)> := None;
      if l.url in inner {
        var c := inner[l.url];
        staleHit := Pick(c.keys, l.kid);
        withinStaleGrace := l.graceRead - c.fetchedAt < STALE_IF_ERROR_MAX;
        seen := Some((staleHit.Some?, l.ageRead - c.fetchedAt, l.attemptRead - c.lastAttempt));
      }
      var action := Action(seen);
      if action.Serve? {
        return ToAnswer(staleHit);
      }
      if action.RateLimited? {
        return if withinStaleGrace then ToAnswer(staleHit) else Unauthorized;
      }
      match l.fetch
      case Fetched(keys) =>
        inner := inner[l.url := CachedJwks(keys, l.fetchEnd, l.fetchEnd)];
        answer := ToAnswer(Pick(keys, l.kid));
      case Failed =>
        if l.url !in inner {
          inner := inner[l.url := CachedJwks(map[], l.fetchEnd, l.fetchEnd)];
        }
        inner := inner[l.url := inner[l.url].(lastAttempt := l.fetchEnd)];
        assert inner == Perform(old(inner), l).0;
        answer := if withinStaleGrace then ToAnswer(staleHit) else Unauthorized;
      case Abandoned =>
        answer := Dropped;
    }
  }

  // ---------- one lookup, as a function ----------

  function ActionOn(cache: Cache, l: Lookup): CacheAction {
    if l.url !in cache then Refresh
    else
      var c := cache[l.url];
      Action(Some((l.kid in c.keys, l.ageRead - c.fetchedAt, l.attemptRead - c.lastAttempt)))
  }

  function StaleAnswer(cache: Cache, l: Lookup): Answer {
    if l.url in cache && l.graceRead - cache[l.url].fetchedAt < STALE_IF_ERROR_MAX
    then ToAnswer(Pick(cache[l.url].keys, l.kid))
    else Unauthorized
  }

  function Perform(cache: Cache, l: Lookup): (Cache, Answer) {
    match ActionOn(cache, l)
    case Serve => (cache, if l.url in cache then ToAnswer(Pick(cache[l.url].keys, l.kid)) else Unauthorized)
    case RateLimited => (cache, StaleAnswer(cache, l))
    case Refresh =>
      match l.fetch
      case Fetched(keys) => (cache[l.url := CachedJwks(keys, l.fetchEnd, l.fetchEnd)], ToAnswer(Pick(keys, l.kid)))
      case Failed =>
        var entry := if l.url in cache then cache[l.url] else CachedJwks(map[], l.fetchEnd, l.fetchEnd);
        (cache[l.url := entry.(lastAttempt := l.fetchEnd)], StaleAnswer(cache, l))
      case Abandoned => (cache, Dropped)
  }

  function After(ls: seq<Lookup>): Cache {
    if ls == [] then map[] else Perform(After(ls[..|ls| - 1]), ls[|ls| - 1]).0
  }

  /** The answer to the `i`th lookup of a run. */
  function AnswerTo(ls: seq<Lookup>, i: nat): Answer
    requires i < |ls|
  {
    Perform(After(ls[..i]), ls[i]).1
  }

  /** Lookups follow one another on a clock that does not go back. */
  ghost predicate Ordered(ls: seq<Lookup>) {
    && (forall i :: 0 <= i < |ls| ==> ls[i].graceRead <= ls[i].ageRead <= ls[i].attemptRead <= ls[i].fetchEnd)
    && (forall i, j :: 0 <= i < j < |ls| ==> ls[i].fetchEnd <= ls[j].graceRead)
  }

  // ---------- the history of one URL ----------

  /** The document of the last fetch that succeeded, and the end of the last fetch that was not dropped. */
  datatype History = History(document: Option<(KeySet, Instant)>, attempt: Option<Instant>)

  predicate Held(h: History, kid: string) {
    h.document.Some? && kid in h.document.value.0
  }

  /** A key in hand is good for ten minutes; otherwise ask again, but not within ten seconds of asking. */
  predicate MustFetch(h: History, l: Lookup) {
    || h.attempt.None?
    || (!(Held(h, l.kid) && l.ageRead - h.document.value.1 < MAX_AGE)
        && l.attemptRead - h.attempt.value >= MIN_REFRESH)
  }

  function HistoryOf(url: string, ls: seq<Lookup>): History {
    if ls == [] then History(None, None)
    else
      var (h, l) := (HistoryOf(url, ls[..|ls| - 1]), ls[|ls| - 1]);
      if l.url != url || !MustFetch(h, l) then h
      else
        match l.fetch
        case Fetched(keys) => History(Some((keys, l.fetchEnd)), Some(l.fetchEnd))
        case Failed => h.(attempt := Some(l.fetchEnd))
        case Abandoned => h
  }

  /** Does the `i`th lookup fetch? */
  predicate Fetches(ls: seq<Lookup>, i: nat)
    requires i < |ls|
  {
    MustFetch(HistoryOf(ls[i].url, ls[..i]), ls[i])
  }

  predicate Succeeds(ls: seq<Lookup>, i: nat)
    requires i < |ls|
  {
    Fetches(ls, i) && ls[i].fetch.Fetched?
  }

  /** What the history demands: the fetched document if there is one, else the last one under an hour old. */
  function Demanded(h: History, l: Lookup): Answer {
    if MustFetch(h, l) && l.fetch.Fetched? then ToAnswer(Pick(l.fetch.keys, l.kid))
    else if MustFetch(h, l) && l.fetch.Abandoned? then Dropped
    else if Held(h, l.kid) && l.graceRead - h.document.value.1 < STALE_IF_ERROR_MAX then Key(h.document.value.0[l.kid])
    else Unauthorized
  }

  /** The entry of a URL tells its history: an entry made by a failed first fetch holds no key. */
  ghost predicate Tells(cache: Cache, url: string, h: History) {
    && (url in cache <==> h.attempt.Some?)
    && (h.document.Some? ==> url in cache && cache[url].keys == h.document.value.0 && cache[url].fetchedAt == h.document.value.1)
    && (url in cache ==> h.attempt == Some(cache[url].lastAttempt) && (h.document.None? ==> cache[url].keys == map[]))
  }

  lemma {:induction false} CacheTells(ls: seq<Lookup>, url: string)
    ensures Tells(After(ls), url, HistoryOf(url, ls))
  {
    if ls != [] {
      CacheTells(ls[..|ls| - 1], url);
    }
  }

  /** Every lookup of every run fetches exactly when its history demands it, and answers what it demands. */
  lemma AnswersFromHistory(ls: seq<Lookup>, i: nat)
    requires Ordered(ls) && i < |ls|
    ensures ActionOn(After(ls[..i]), ls[i]).Refresh? <==> Fetches(ls, i)
    ensures AnswerTo(ls, i) == Demanded(HistoryOf(ls[i].url, ls[..i]), ls[i])
  {
    CacheTells(ls[..i], ls[i].url);
  }

  // ---------- what the history looks like ----------

  /** The document is that of the last fetch that succeeded. */
  lemma {:induction false} DocumentIsTheLast(url: string, ls: seq<Lookup>) returns (j: nat)
    requires HistoryOf(url, ls).document.Some?
    ensures j < |ls| && ls[j].url == url && Succeeds(ls, j)
    ensures HistoryOf(url, ls).document == Some((ls[j].fetch.keys, ls[j].fetchEnd))
    ensures forall k :: j < k < |ls| && ls[k].url == url ==> !Succeeds(ls, k)
  {
    var n := |ls| - 1;
    if ls[n].url == url && Succeeds(ls, n) {
      j := n;
    } else {
      j := DocumentIsTheLast(url, ls[..n]);
      assert forall k :: 0 <= k <= n ==> ls[..n][..k] == ls[..k];
      forall k | j < k < |ls| && ls[k].url == url ensures !Succeeds(ls, k) {
        if k < n {
          assert ls[..n][k] == ls[k];
        }
      }
    }
  }

  /** The `j`th lookup made the last successful fetch of its URL up to the `i`th, and the `i`th answers a key
      of that document, which it fetched itself or which was under an hour old when it began. */
  ghost predicate AnswersFrom(ls: seq<Lookup>, i: nat, j: nat)
    requires i < |ls|
  {
    && j <= i && ls[j].url == ls[i].url && Succeeds(ls, j)
    && (forall k :: j < k <= i && ls[k].url == ls[i].url ==> !Succeeds(ls, k))
    && ls[i].kid in ls[j].fetch.keys && AnswerTo(ls, i) == Key(ls[j].fetch.keys[ls[i].kid])
    && (j == i || ls[i].graceRead - ls[j].fetchEnd < 3_600_000_000_000)
  }

  /** Every key that is returned is such a key. */
  lemma ReturnedKeyIsRecent(ls: seq<Lookup>, i: nat)
    requires Ordered(ls) && i < |ls| && AnswerTo(ls, i).Key?
    ensures exists j :: AnswersFrom(ls, i, j)
  {
    AnswersFromHistory(ls, i);
    if Succeeds(ls, i) {
      assert AnswersFrom(ls, i, i);
    } else {
      var j := DocumentIsTheLast(ls[i].url, ls[..i]);
      assert forall k :: 0 <= k <= i ==> ls[..i][..k] == ls[..k];
      forall k | j < k <= i && ls[k].url == ls[i].url ensures !Succeeds(ls, k) {
        if k < i {
          assert ls[..i][k] == ls[k];
        }
      }
      assert AnswersFrom(ls, i, j);
    }
  }

  lemma {:induction false} AttemptIsRemembered(ls: seq<Lookup>, i: nat, n: nat)
    requires Ordered(ls) && i < n <= |ls| && Fetches(ls, i) && !ls[i].fetch.Abandoned?
    ensures var h := HistoryOf(ls[i].url, ls[..n]); h.attempt.Some? && h.attempt.value >= ls[i].fetchEnd
  {
    assert ls[..n][..n - 1] == ls[..n - 1];
    if n > i + 1 {
      AttemptIsRemembered(ls, i, n - 1);
    }
  }

  /** No fetch starts within ten seconds of the end of an earlier fetch of the same URL, however that one
      ended, unless it was dropped. */
  lemma FetchesAreSpaced(ls: seq<Lookup>, i: nat, j: nat)
    requires Ordered(ls) && i < j < |ls| && ls[i].url == ls[j].url && Fetches(ls, i) && Fetches(ls, j)
    requires !ls[i].fetch.Abandoned?
    ensures ls[j].attemptRead - ls[i].fetchEnd >= 10_000_000_000
  {
    AttemptIsRemembered(ls, i, j);
  }

  /** After any run that ends in the fetch of the `i`th lookup, whatever its cache held, no next lookup of the
      URL fetches within ten seconds. */
  ghost predicate HoldsUp(ls: seq<Lookup>, i: nat)
    requires i < |ls|
  {
    forall l: Lookup :: NextFetch(ls[..i + 1], l) && l.url == ls[i].url ==> l.attemptRead - ls[i].fetchEnd >= 10_000_000_000
  }

  /** `l` can come next, and fetches. */
  ghost predicate NextFetch(ls: seq<Lookup>, l: Lookup) {
    Ordered(ls + [l]) && Fetches(ls + [l], |ls|)
  }

  /** A fetch holds up the next one exactly when it was not dropped, from every reachable cache. */
  lemma HoldsUpExactly(ls: seq<Lookup>, i: nat)
    requires Ordered(ls) && i < |ls| && Fetches(ls, i)
    ensures HoldsUp(ls, i) <==> !ls[i].fetch.Abandoned?
  {
    var run := ls[..i + 1];
    assert run[..i] == ls[..i] && run[i] == ls[i];
    if ls[i].fetch.Abandoned? {
      DroppedLetsNextFetch(run, i);
      var l := AtOnce(ls[i]);
      assert NextFetch(run, l) && l.url == ls[i].url;
    } else {
      forall l: Lookup | NextFetch(run, l) && l.url == ls[i].url ensures l.attemptRead - ls[i].fetchEnd >= 10_000_000_000 {
        var next := run + [l];
        assert next[..i] == ls[..i] && next[i] == ls[i] && next[i + 1] == l;
        FetchesAreSpaced(next, i, i + 1);
      }
    }
  }

  /** The same lookup again, at the moment the first one ended. */
  function AtOnce(l: Lookup): Lookup {
    Lookup(l.url, l.kid, l.fetchEnd, l.fetchEnd, l.fetchEnd, Abandoned, l.fetchEnd)
  }

  lemma DroppedLetsNextFetch(run: seq<Lookup>, i: nat)
    requires Ordered(run) && |run| == i + 1 && Fetches(run, i) && run[i].fetch.Abandoned?
    ensures NextFetch(run, AtOnce(run[i]))
  {
    var next := run + [AtOnce(run[i])];
    assert next[..i + 1] == run && run[..|run| - 1] == run[..i];
    assert HistoryOf(run[i].url, run) == HistoryOf(run[i].url, run[..i]);
  }

  ghost predicate FetchesTwiceAtOnce(ls: seq<Lookup>) {
    && Ordered(ls) && |ls| == 2 && ls[0].url == ls[1].url && Fetches(ls, 0) && Fetches(ls, 1)
    && ls[1].attemptRead - ls[0].fetchEnd < 10_000_000_000
  }

  /** The dropped case as a run: two lookups at once from an empty cache, both of which fetch. */
  lemma DroppedFetchesAreNotSpaced()
    ensures exists ls :: FetchesTwiceAtOnce(ls)
  {
    var l := Lookup("jwks", "kid", 0, 0, 0, Abandoned, 0);
    var ls := [l, l];
    assert ls[..1] == [l] && [l][..0] == [] && ls[..0] == [];
    assert HistoryOf("jwks", ls[..1]) == History(None, None);
    assert FetchesTwiceAtOnce(ls);
  }

  /** A document reaching its maximum age is replaced by the next lookup that is not rate limited, even for
      a key it holds: what that lookup returns is in the new document. */
  lemma AgedDocumentIsRefetched(ls: seq<Lookup>, i: nat)
    requires Ordered(ls) && i < |ls|
    requires var h := HistoryOf(ls[i].url, ls[..i]);
             h.document.Some? && h.attempt.Some?
             && ls[i].ageRead - h.document.value.1 >= 600_000_000_000 && ls[i].attemptRead - h.attempt.value >= 10_000_000_000
    ensures Fetches(ls, i)
    ensures ls[i].fetch.Fetched? ==> AnswerTo(ls, i) == ToAnswer(Pick(ls[i].fetch.keys, ls[i].kid))
  {
    AnswersFromHistory(ls, i);
  }

  // ---------- what a lookup may count on ----------

  /** The `j`th lookup made the last successful fetch of its URL before the `i`th. */
  ghost predicate LastSuccess(ls: seq<Lookup>, i: nat, j: nat)
    requires i < |ls|
  {
    && j < i && ls[j].url == ls[i].url && Succeeds(ls, j)
    && forall k :: j < k < i && ls[k].url == ls[i].url ==> !Succeeds(ls, k)
  }

  /** The history of a run up to the `i`th lookup, by its last successful fetch. */
  lemma DocumentOf(ls: seq<Lookup>, i: nat, j: nat)
    requires i < |ls| && LastSuccess(ls, i, j)
    ensures HistoryOf(ls[i].url, ls[..i]).document == Some((ls[j].fetch.keys, ls[j].fetchEnd))
    ensures HistoryOf(ls[i].url, ls[..i]).attempt.Some?
    decreases i - j
  {
    DocumentSince(ls, ls[i].url, j, i);
  }

  lemma {:induction false} DocumentSince(ls: seq<Lookup>, url: string, j: nat, n: nat)
    requires j < n <= |ls| && ls[j].url == url && Succeeds(ls, j)
    requires forall k :: j < k < n && ls[k].url == url ==> !Succeeds(ls, k)
    ensures HistoryOf(url, ls[..n]).document == Some((ls[j].fetch.keys, ls[j].fetchEnd))
    ensures HistoryOf(url, ls[..n]).attempt.Some?
    decreases n
  {
    assert ls[..n][..n - 1] == ls[..n - 1] && ls[..n][n - 1] == ls[n - 1];
    if n > j + 1 {
      DocumentSince(ls, url, j, n - 1);
    }
  }

  /** A key of a document under ten minutes old is served from it, and nothing is fetched. */
  lemma FreshKeyIsServed(ls: seq<Lookup>, i: nat, j: nat)
    requires Ordered(ls) && i < |ls| && LastSuccess(ls, i, j)
    requires ls[i].kid in ls[j].fetch.keys && ls[i].ageRead - ls[j].fetchEnd < 600_000_000_000
    ensures !Fetches(ls, i) && AnswerTo(ls, i) == Key(ls[j].fetch.keys[ls[i].kid])
  {
    DocumentOf(ls, i, j);
    AnswersFromHistory(ls, i);
  }

  /** A key of a document under an hour old is still served while its issuer cannot be asked: the fetch failed,
      or it was too early for one. */
  lemma StaleKeyOutlivesFailures(ls: seq<Lookup>, i: nat, j: nat)
    requires Ordered(ls) && i < |ls| && LastSuccess(ls, i, j)
    requires Fetches(ls, i) ==> ls[i].fetch.Failed?
    ensures AnswerTo(ls, i)
              == if ls[i].kid in ls[j].fetch.keys && ls[i].graceRead - ls[j].fetchEnd < 3_600_000_000_000
                 then Key(ls[j].fetch.keys[ls[i].kid]) else Unauthorized
  {
    DocumentOf(ls, i, j);
    AnswersFromHistory(ls, i);
  }

  lemma {:induction false} AttemptIsOfALookup(url: string, ls: seq<Lookup>)
    ensures var h := HistoryOf(url, ls);
            h.attempt.Some? ==> exists k :: 0 <= k < |ls| && ls[k].url == url && ls[k].fetchEnd == h.attempt.value
  {
    if ls != [] {
      var n := |ls| - 1;
      AttemptIsOfALookup(url, ls[..n]);
      var h := HistoryOf(url, ls);
      if h.attempt.Some? && h.attempt == HistoryOf(url, ls[..n]).attempt {
        var k :| 0 <= k < n && ls[..n][k].url == url && ls[..n][k].fetchEnd == h.attempt.value;
        assert ls[k].url == url && ls[k].fetchEnd == h.attempt.value;
      } else if h.attempt.Some? {
        assert ls[n].url == url && ls[n].fetchEnd == h.attempt.value;
      }
    }
  }

  /** A lookup of a key that is not in hand fetches, once ten seconds have passed since the last lookup of its
      URL: a rotated key is found, and answered from the document fetched. */
  lemma UnknownKeyIsFetched(ls: seq<Lookup>, i: nat)
    requires Ordered(ls) && i < |ls|
    requires forall k :: 0 <= k < i && ls[k].url == ls[i].url ==> ls[i].attemptRead - ls[k].fetchEnd >= 10_000_000_000
    requires forall j: nat :: LastSuccess(ls, i, j) ==> ls[i].kid !in ls[j].fetch.keys
    ensures Fetches(ls, i)
    ensures ls[i].fetch.Fetched? ==>
              AnswerTo(ls, i) == if ls[i].kid in ls[i].fetch.keys then Key(ls[i].fetch.keys[ls[i].kid]) else Unauthorized
  {
    var (past, h) := (ls[..i], HistoryOf(ls[i].url, ls[..i]));
    AnswersFromHistory(ls, i);
    AttemptIsOfALookup(ls[i].url, past);
    if h.attempt.Some? {
      var k :| 0 <= k < |past| && past[k].url == ls[i].url && past[k].fetchEnd == h.attempt.value;
      assert ls[k].url == ls[i].url;
    }
    if h.document.Some? {
      var j := DocumentIsTheLast(ls[i].url, past);
      assert forall k :: 0 <= k < i ==> past[..k] == ls[..k] && past[k] == ls[k];
      assert LastSuccess(ls, i, j);
    }
  }
}
