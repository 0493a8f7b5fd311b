/**
  The `request` command: create, wait, read, each a loop that retries what a
  retry can mend.

  The network is a function of what is asked and how often it was asked before.
  Timeouts are the network's; the deadline is given by what each poll finds
  left of it.
 */
module CliSession {
  import opened Wrappers
  import opened Store
  import opened World
  import CliRetry

  const EXIT_OTHER: nat := 1
  const EXIT_CONFIG: nat := 2
  const EXIT_DENIED: nat := 3
  const EXIT_TIMEOUT: nat := 4
  const EXIT_PAYLOAD_LOST: nat := 5

  const READ_ATTEMPTS: nat := 3
  const CREATE_ATTEMPTS: nat := 3
  const MAX_WAIT_NETWORK_ERRORS: nat := 5

  /** One attempt: no bearer token, a reply that was never read whole, or a reply with what its body
      parses to. `errorCode` is that of an error body. */
  datatype Reply<T> =
    | NoBearer(exit: nat)
    | Lost
    | Response(status: nat, body: Option<T>, errorCode: string)

  datatype Verdict<T> = Got(value: T) | Fail(exit: nat) | Retry

  function ClientErrorExit(status: nat): nat {
    if status == 401 then EXIT_CONFIG else if status == 403 then EXIT_DENIED else EXIT_OTHER
  }

  predicate ClientError(status: nat) {
    400 <= status < 500
  }

  predicate Success(status: nat) {
    200 <= status < 300
  }

  function JudgeCreate<T>(r: Reply<T>): Verdict<T> {
    match r
    case NoBearer(exit) => Fail(exit)
    case Lost => Retry
    case Response(status, body, _) =>
      if ClientError(status) then Fail(ClientErrorExit(status))
      else if !Success(status) || body.None? then Retry
      else Got(body.value)
  }

  /** `classify_gone`. */
  function GoneExit(errorCode: string): nat {
    if errorCode == "payload-lost" then EXIT_PAYLOAD_LOST
    else if errorCode == "grant-expired" then EXIT_TIMEOUT
    else EXIT_OTHER
  }

  function JudgeRead<T>(r: Reply<T>): Verdict<T> {
    if r.Response? && r.status == 410 then Fail(GoneExit(r.errorCode)) else JudgeCreate(r)
  }

  /** While waiting, 5xx and 429 are passing troubles as well. */
  function JudgeWait<T>(r: Reply<T>): Verdict<T> {
    if r.Response? && r.status == 429 then Retry
    else if r.Response? && !Success(r.status) && !(500 <= r.status < 600) then Fail(ClientErrorExit(r.status))
    else JudgeCreate(r)
  }

  /** The first attempt from `k` on that is not to be retried. */
  function Settled<T>(verdicts: nat -> Verdict<T>, k: nat, last: nat): Result<T, nat>
    decreases last + 1 - k
  {
    if k > last then Err(EXIT_OTHER)
    else
      match verdicts(k)
      case Got(v) => Ok(v)
      case Fail(exit) => Err(exit)
      case Retry => Settled(verdicts, k + 1, last)
  }

  /** Attempt `n` gets `v`, and every one before it from `k` on was to be retried. */
  ghost predicate FirstGot<T>(verdicts: nat -> Verdict<T>, k: nat, n: nat, v: T) {
    k <= n && verdicts(n) == Got(v) && forall m: nat :: k <= m < n ==> verdicts(m) == Retry
  }

  lemma FirstGotStep<T>(verdicts: nat -> Verdict<T>, k: nat, n: nat, v: T)
    requires verdicts(k) == Retry
    ensures FirstGot(verdicts, k, n, v) <==> FirstGot(verdicts, k + 1, n, v)
  {
    if FirstGot(verdicts, k + 1, n, v) {
      forall m: nat | k <= m < n ensures verdicts(m) == Retry {
        assert m == k || k + 1 <= m;
      }
    }
  }

  /** A result is the reply of one attempt, after retries only; and no attempt that succeeds, met after
      retries only, is passed over. */
  lemma {:induction false} SettledIs<T>(verdicts: nat -> Verdict<T>, k: nat, last: nat, v: T)
    ensures Settled(verdicts, k, last) == Ok(v) <==> exists n: nat :: n <= last && FirstGot(verdicts, k, n, v)
    decreases last + 1 - k
  {
    if k <= last {
      if verdicts(k) == Retry {
        SettledIs(verdicts, k + 1, last, v);
        if Settled(verdicts, k + 1, last) == Ok(v) {
          var n: nat :| n <= last && FirstGot(verdicts, k + 1, n, v);
          FirstGotStep(verdicts, k, n, v);
        }
        forall n: nat | n <= last && FirstGot(verdicts, k, n, v) ensures FirstGot(verdicts, k + 1, n, v) {
          FirstGotStep(verdicts, k, n, v);
        }
      } else {
        forall n: nat | FirstGot(verdicts, k, n, v) ensures n == k {
        }
        assert verdicts(k) == Got(v) ==> FirstGot(verdicts, k, k, v);
      }
    }
  }

  /** `remaining` is what is left of the deadline when the poll is about to be sent. */
  datatype Poll = Poll(remaining: nat, reply: Reply<CliRetry.Status>)

  function WaitOutcome(polls: nat -> Poll, k: nat, errors: nat, last: nat): Result<CliRetry.Status, nat>
    decreases last - k
  {
    if k >= last || polls(k).remaining == 0 then Err(EXIT_TIMEOUT)
    else
      match JudgeWait(polls(k).reply)
      case Fail(exit) => Err(exit)
      case Retry =>
        if errors + 1 >= MAX_WAIT_NETWORK_ERRORS then Err(EXIT_OTHER) else WaitOutcome(polls, k + 1, errors + 1, last)
      case Got(st) => if st.state != Pending then Ok(st) else WaitOutcome(polls, k + 1, 0, last)
  }

  /** Waiting ends well only with a reply that says the request is resolved. */
  lemma {:induction false} WaitedFor(polls: nat -> Poll, k: nat, errors: nat, last: nat)
    ensures var out := WaitOutcome(polls, k, errors, last);
            out.Ok? ==> out.value.state != Pending && exists n :: k <= n < last && JudgeWait(polls(n).reply) == Got(out.value)
    decreases last - k
  {
    if k < last && polls(k).remaining > 0 {
      match JudgeWait(polls(k).reply)
      case Fail(_) =>
      case Retry => WaitedFor(polls, k + 1, errors + 1, last);
      case Got(_) => WaitedFor(polls, k + 1, 0, last);
    }
  }

  /** What the network answers to the session: to its creates, to its polls for a request, and to its
      reads of a grant. */
  datatype Network = Network(
    create: nat -> Reply<CliRetry.Status>, wait: (Id, nat) -> Poll, read: (Id, nat) -> Reply<bytes>)

  /** Replies that are read whole say what the broker said at some moment of its run. */
  ghost predicate Truthful(net: Network, ws: seq<World>, steps: seq<Step>, s: CliRetry.Session) {
    && (forall k :: TruthfulCreate(net.create(k), ws, steps, s))
    && (forall r, k :: TruthfulWait(net.wait(r, k).reply, ws, r))
    && (forall g, k :: TruthfulRead(net.read(g, k), ws, g, CliRetry.ReadKey(s)))
  }

  ghost predicate Delivers<T>(reply: Reply<T>) {
    reply.Response? && Success(reply.status) && reply.body.Some?
  }

  ghost predicate TruthfulCreate(reply: Reply<CliRetry.Status>, ws: seq<World>, steps: seq<Step>, s: CliRetry.Session) {
    Delivers(reply) ==> CliRetry.CreateReplied(ws, steps, s, reply.body.value)
  }

  ghost predicate TruthfulWait(reply: Reply<CliRetry.Status>, ws: seq<World>, r: Id) {
    Delivers(reply) ==> CliRetry.WaitReplied(ws, r, reply.body.value)
  }

  ghost predicate TruthfulRead(reply: Reply<bytes>, ws: seq<World>, g: Id, key: string) {
    Delivers(reply) ==> CliRetry.ReadOut(ws, g, key, reply.body.value)
  }

  // ---------- what replies lead to ----------

  /** An attempt worth repeating: nothing came back whole, or what came back is neither a refusal nor readable. */
  predicate Passing<T>(reply: Reply<T>) {
    match reply
    case NoBearer(_) => false
    case Lost => true
    case Response(status, body, _) => !(400 <= status < 500) && !(200 <= status < 300 && body.Some?)
  }

  /** The first attempts, numbered from 1, were all worth repeating. */
  ghost predicate PassingBefore<T>(replies: nat -> Reply<T>, n: nat) {
    forall m: nat :: 1 <= m < n ==> Passing(replies(m))
  }

  /** The exit codes of a refusal: configuration for 401, denied for 403. */
  predicate Refuses(status: nat, exit: nat) {
    (status == 401 ==> exit == 2) && (status == 403 ==> exit == 3) && (status != 401 && status != 403 ==> exit == 1)
  }

  /** A whole reply is final: its value, its refusal, or the missing credential. */
  predicate Concludes<T(==)>(out: Result<T, nat>, reply: Reply<T>) {
    match reply
    case NoBearer(exit) => out == Err(exit)
    case Lost => false
    case Response(status, body, _) =>
      if 200 <= status < 300 then body.Some? && out == Ok(body.value)
      else 400 <= status < 500 && out.Err? && Refuses(status, out.error)
  }

  /** A grant that is gone has exit codes of its own. */
  predicate ConcludesRead(out: Result<bytes, nat>, reply: Reply<bytes>) {
    if reply.Response? && reply.status == 410 then
      && out.Err?
      && (reply.errorCode == "payload-lost" ==> out.error == 5)
      && (reply.errorCode == "grant-expired" ==> out.error == 4)
      && (reply.errorCode != "payload-lost" && reply.errorCode != "grant-expired" ==> out.error == 1)
    else
      Concludes(out, reply)
  }

  lemma {:induction false} SettledReaches<T>(verdicts: nat -> Verdict<T>, k: nat, n: nat, last: nat)
    requires k <= n && (forall m: nat :: k <= m < n ==> verdicts(m) == Retry) && n <= last + 1
    ensures Settled(verdicts, k, last) == Settled(verdicts, n, last)
    decreases n - k
  {
    if k < n {
      SettledReaches(verdicts, k + 1, n, last);
    }
  }

  /** What the create loop answers: the first whole reply, or the failure of three attempts. */
  ghost predicate CreateEnds(net: Network, out: Result<CliRetry.Status, nat>) {
    && (forall n: nat :: 1 <= n <= 3 && PassingBefore(net.create, n) && !Passing(net.create(n)) ==> Concludes(out, net.create(n)))
    && (PassingBefore(net.create, 4) ==> out == Err(1))
  }

  lemma CreateConcludes(net: Network)
    ensures CreateEnds(net, Settled((k: nat) => JudgeCreate(net.create(k)), 1, CREATE_ATTEMPTS))
  {
    forall n: nat | 1 <= n <= 4 && PassingBefore(net.create, n)
      ensures var verdicts := (k: nat) => JudgeCreate(net.create(k));
              Settled(verdicts, 1, CREATE_ATTEMPTS) == Settled(verdicts, n, CREATE_ATTEMPTS)
    {
      SettledReaches((k: nat) => JudgeCreate(net.create(k)), 1, n, CREATE_ATTEMPTS);
    }
  }

  function ReadsOf(net: Network, g: Id): nat -> Reply<bytes> {
    (k: nat) => net.read(g, k)
  }

  /** And the read loop. */
  ghost predicate ReadEnds(net: Network, g: Id, out: Result<bytes, nat>) {
    && (forall n: nat :: 1 <= n <= 3 && PassingBefore(ReadsOf(net, g), n) && !Passing(net.read(g, n)) ==> ConcludesRead(out, net.read(g, n)))
    && (PassingBefore(ReadsOf(net, g), 4) ==> out == Err(1))
  }

  lemma ReadConcludes(net: Network, g: Id)
    ensures ReadEnds(net, g, Settled((k: nat) => JudgeRead(net.read(g, k)), 1, READ_ATTEMPTS))
  {
    forall n: nat | 1 <= n <= 4 && PassingBefore(ReadsOf(net, g), n)
      ensures var verdicts := (k: nat) => JudgeRead(net.read(g, k));
              Settled(verdicts, 1, READ_ATTEMPTS) == Settled(verdicts, n, READ_ATTEMPTS)
    {
      forall m: nat | 1 <= m < n ensures JudgeRead(net.read(g, m)) == Retry {
        assert Passing(ReadsOf(net, g)(m));
      }
      SettledReaches((k: nat) => JudgeRead(net.read(g, k)), 1, n, READ_ATTEMPTS);
    }
  }

  /** A poll worth repeating: as before, or too many polls at once. */
  predicate Troubled(reply: Reply<CliRetry.Status>) {
    match reply
    case NoBearer(_) => false
    case Lost => true
    case Response(status, body, _) => 500 <= status < 600 || status == 429 || (200 <= status < 300 && body.None?)
  }

  predicate SaysPending(reply: Reply<CliRetry.Status>) {
    reply.Response? && 200 <= reply.status < 300 && reply.body.Some? && reply.body.value.state == Pending
  }

  /** How many polls before the `n`-th were troubled in a row. */
  function Streak(polls: nat -> Poll, n: nat): (s: nat)
    ensures s <= n
  {
    if n == 0 || !Troubled(polls(n - 1).reply) then 0 else Streak(polls, n - 1) + 1
  }

  /** Polling goes on up to the `n`-th: time is left, every poll was troubled or said pending, and never five in a
      row were troubled. */
  ghost predicate Waits(polls: nat -> Poll, n: nat) {
    forall k: nat :: k < n ==>
      polls(k).remaining > 0 && (Troubled(polls(k).reply) || SaysPending(polls(k).reply)) && Streak(polls, k + 1) < 5
  }

  /** What the poll after those leads to. */
  ghost predicate ConcludesWait(out: Result<CliRetry.Status, nat>, polls: nat -> Poll, n: nat) {
    var (poll, reply) := (polls(n), polls(n).reply);
    && (poll.remaining == 0 ==> out == Err(4))
    && (poll.remaining > 0 && Troubled(reply) && Streak(polls, n) == 4 ==> out == Err(1))
    && (poll.remaining > 0 && !Troubled(reply) && !SaysPending(reply) ==>
          match reply
          case NoBearer(exit) => out == Err(exit)
          case Lost => false
          case Response(status, body, _) =>
            if 200 <= status < 300 then out == Ok(body.value) else out.Err? && Refuses(status, out.error))
  }

  lemma {:induction false} WaitReaches(polls: nat -> Poll, n: nat, last: nat)
    requires Waits(polls, n) && n <= last
    ensures WaitOutcome(polls, 0, 0, last) == WaitOutcome(polls, n, Streak(polls, n), last)
  {
    if n > 0 {
      WaitReaches(polls, n - 1, last);
      assert polls(n - 1).remaining > 0 && Streak(polls, n - 1 + 1) < 5;
    }
  }

  function PollsOf(net: Network, r: Id): nat -> Poll {
    (k: nat) => net.wait(r, k)
  }

  /** What the poll loop answers. */
  ghost predicate WaitEnds(net: Network, r: Id, last: nat, out: Result<CliRetry.Status, nat>) {
    forall n: nat :: n <= last && Waits(PollsOf(net, r), n) ==> ConcludesWait(out, PollsOf(net, r), n)
  }

  lemma WaitConcludes(net: Network, r: Id, last: nat)
    requires net.wait(r, last).remaining == 0
    ensures WaitEnds(net, r, last, WaitOutcome(PollsOf(net, r), 0, 0, last))
  {
    forall n: nat | n <= last && Waits(PollsOf(net, r), n)
      ensures ConcludesWait(WaitOutcome(PollsOf(net, r), 0, 0, last), PollsOf(net, r), n)
    {
      WaitReaches(PollsOf(net, r), n, last);
    }
  }

  /** What the command answers once the request stands at `st`. */
  ghost predicate StatusEnds(net: Network, st: CliRetry.Status, out: Result<bytes, nat>) {
    match st.state
    case Denied => out == Err(3)
    case Expired => out == Err(4)
    case Pending => out == Err(4)
    case Approved => if st.grant.None? then out == Err(1) else ReadEnds(net, st.grant.value, out)
  }

  ghost predicate WaitedEnds(net: Network, r: Id, last: nat, waited: Result<CliRetry.Status, nat>, out: Result<bytes, nat>) {
    && WaitEnds(net, r, last, waited)
    && if waited.Err? then out == Err(waited.error) else StatusEnds(net, waited.value, out)
  }

  ghost predicate CreatedEnds(net: Network, last: nat, created: Result<CliRetry.Status, nat>, out: Result<bytes, nat>) {
    && CreateEnds(net, created)
    && if created.Err? then out == Err(created.error)
       else if created.value.state != Pending then StatusEnds(net, created.value, out)
       else exists waited :: WaitedEnds(net, created.value.request, last, waited, out)
  }

  /** What the command answers to what the network replies: each loop ends as its replies say. */
  ghost predicate CommandEnds(net: Network, last: nat, out: Result<bytes, nat>) {
    exists created :: CreatedEnds(net, last, created, out)
  }

  // ---------- the loops ----------

  /** `create_access_request`. */
  method CreateAccessRequest(net: Network) returns (out: Result<CliRetry.Status, nat>)
    ensures out == Settled((k: nat) => JudgeCreate(net.create(k)), 1, CREATE_ATTEMPTS)
    ensures CreateEnds(net, out)
  {
    CreateConcludes(net);
    ghost var verdicts := (k: nat) => JudgeCreate(net.create(k));
    for attempt := 1 to CREATE_ATTEMPTS + 1
      invariant Settled(verdicts, 1, CREATE_ATTEMPTS) == Settled(verdicts, attempt, CREATE_ATTEMPTS)
    {
      match JudgeCreate(net.create(attempt))
      case Got(st) => return Ok(st);
      case Fail(exit) => return Err(exit);
      case Retry =>
    }
    out := Err(EXIT_OTHER);
  }

  /** `read_grant`. */
  method ReadGrant(net: Network, grant: Id) returns (out: Result<bytes, nat>)
    ensures out == Settled((k: nat) => JudgeRead(net.read(grant, k)), 1, READ_ATTEMPTS)
    ensures ReadEnds(net, grant, out)
  {
    ReadConcludes(net, grant);
    ghost var verdicts := (k: nat) => JudgeRead(net.read(grant, k));
    for attempt := 1 to READ_ATTEMPTS + 1
      invariant Settled(verdicts, 1, READ_ATTEMPTS) == Settled(verdicts, attempt, READ_ATTEMPTS)
    {
      match JudgeRead(net.read(grant, attempt))
      case Got(plaintext) => return Ok(plaintext);
      case Fail(exit) => return Err(exit);
      case Retry =>
    }
    out := Err(EXIT_OTHER);
  }

  /** `wait_for_resolution`; the deadline passes within `last` polls. */
  method WaitForResolution(net: Network, request: Id, last: nat) returns (out: Result<CliRetry.Status, nat>)
    requires net.wait(request, last).remaining == 0
    ensures out == WaitOutcome(PollsOf(net, request), 0, 0, last)
    ensures WaitEnds(net, request, last, out)
  {
    WaitConcludes(net, request, last);
    ghost var polls := PollsOf(net, request);
    var k, errors := 0, 0;
    while net.wait(request, k).remaining > 0
      invariant 0 <= k <= last && errors < MAX_WAIT_NETWORK_ERRORS
      invariant WaitOutcome(polls, 0, 0, last) == WaitOutcome(polls, k, errors, last)
      decreases last - k
    {
      match JudgeWait(net.wait(request, k).reply) {
        case Fail(exit) =>
          return Err(exit);
        case Retry =>
          errors := errors + 1;
          if errors >= MAX_WAIT_NETWORK_ERRORS {
            return Err(EXIT_OTHER);
          }
        case Got(st) =>
          errors := 0;
          if st.state != Pending {
            return Ok(st);
          }
      }
      k := k + 1;
    }
    out := Err(EXIT_TIMEOUT);
  }

  /** The `request` command, against any run of the broker that its replies are true of. */
  method RequestCommand(net: Network, last: nat, ghost ws: seq<World>, ghost steps: seq<Step>, ghost s: CliRetry.Session)
    returns (out: Result<bytes, nat>)
    requires forall r :: net.wait(r, last).remaining == 0
    requires Truthful(net, ws, steps, s)
    ensures out.Ok? ==> CliRetry.Received(ws, steps, s, out.value)
    ensures CommandEnds(net, last, out)
  {
    var created := CreateAccessRequest(net);
    if created.Err? {
      out := Err(created.error);
      assert CreatedEnds(net, last, created, out);
      return;
    }
    var st := created.value;
    ghost var r := st.request;
    ghost var waits: Result<CliRetry.Status, nat> := created;
    CreateIsTrue(net, ws, steps, s, st);
    if st.state == Pending {
      var waited := WaitForResolution(net, st.request, last);
      if waited.Err? {
        out := Err(waited.error);
        assert WaitedEnds(net, r, last, waited, out);
        assert CreatedEnds(net, last, created, out);
        return;
      }
      WaitIsTrue(net, ws, st.request, last, waited.value);
      waits := waited;
      st := waited.value;
    }
    out := Released(net, st);
    if out.Ok? {
      ReadIsTrue(net, ws, steps, s, st.grant.value, out.value);
      assert CliRetry.ReceivedVia(ws, steps, s, r, st.grant.value, out.value);
    }
    if created.value.state == Pending {
      assert WaitedEnds(net, r, last, waits, out);
    }
    assert CreatedEnds(net, last, created, out);
  }

  /** The end of the command: what a resolved request leads to. */
  method Released(net: Network, st: CliRetry.Status) returns (out: Result<bytes, nat>)
    ensures StatusEnds(net, st, out)
    ensures out.Ok? ==> st.state == Approved && st.grant.Some?
                        && out == Settled((k: nat) => JudgeRead(net.read(st.grant.value, k)), 1, READ_ATTEMPTS)
  {
    match st.state {
      case Approved =>
      case Denied => return Err(EXIT_DENIED);
      case Expired => return Err(EXIT_TIMEOUT);
      case Pending => return Err(EXIT_TIMEOUT);
    }
    if st.grant.None? {
      return Err(EXIT_OTHER);
    }
    out := ReadGrant(net, st.grant.value);
  }

  lemma CreateIsTrue(net: Network, ws: seq<World>, steps: seq<Step>, s: CliRetry.Session, st: CliRetry.Status)
    requires Truthful(net, ws, steps, s)
    requires Settled((k: nat) => JudgeCreate(net.create(k)), 1, CREATE_ATTEMPTS) == Ok(st)
    ensures CliRetry.CreateReplied(ws, steps, s, st)
  {
    var verdicts := (k: nat) => JudgeCreate(net.create(k));
    SettledIs(verdicts, 1, CREATE_ATTEMPTS, st);
    var n: nat :| n <= CREATE_ATTEMPTS && FirstGot(verdicts, 1, n, st);
    assert TruthfulCreate(net.create(n), ws, steps, s);
  }

  lemma WaitIsTrue(net: Network, ws: seq<World>, r: Id, last: nat, st: CliRetry.Status)
    requires forall q, k :: TruthfulWait(net.wait(q, k).reply, ws, q)
    requires WaitOutcome(PollsOf(net, r), 0, 0, last) == Ok(st)
    ensures CliRetry.WaitReplied(ws, r, st)
  {
    var polls := PollsOf(net, r);
    WaitedFor(polls, 0, 0, last);
    var n: nat :| n < last && JudgeWait(polls(n).reply) == Got(st);
    assert TruthfulWait(net.wait(r, n).reply, ws, r);
  }

  lemma ReadIsTrue(net: Network, ws: seq<World>, steps: seq<Step>, s: CliRetry.Session, g: Id, plaintext: bytes)
    requires Truthful(net, ws, steps, s)
    requires Settled((k: nat) => JudgeRead(net.read(g, k)), 1, READ_ATTEMPTS) == Ok(plaintext)
    ensures CliRetry.ReadOut(ws, g, CliRetry.ReadKey(s), plaintext)
  {
    var verdicts := (k: nat) => JudgeRead(net.read(g, k));
    SettledIs(verdicts, 1, READ_ATTEMPTS, plaintext);
    var n: nat :| n <= READ_ATTEMPTS && FirstGot(verdicts, 1, n, plaintext);
    assert TruthfulRead(net.read(g, n), ws, g, CliRetry.ReadKey(s));
  }

  /** Two invocations under one idempotency key and one body, each over its own network and whatever that
      lost: if both print, they print the same bytes. */
  method RunTwice(
    net: Network, net2: Network, last: nat, ghost ws: seq<World>, ghost steps: seq<Step>, ghost s: CliRetry.Session)
    returns (a: Result<bytes, nat>, b: Result<bytes, nat>)
    requires Run(ws, steps) && Truthful(net, ws, steps, s) && Truthful(net2, ws, steps, s)
    requires forall r :: net.wait(r, last).remaining == 0 && net2.wait(r, last).remaining == 0
    ensures a.Ok? && b.Ok? ==> a.value == b.value
  {
    a := RequestCommand(net, last, ws, steps, s);
    b := RequestCommand(net2, last, ws, steps, s);
    if a.Ok? && b.Ok? {
      CliRetry.ReceivedAgree(ws, steps, s, a.value, b.value);
    }
  }
}
