/**
  Retiring a key-encryption key against writers that seal under it.

  Every transaction that writes a wrapped key holds the advisory lock shared
  from before it seals until it ends; the zero-reference check holds it
  exclusive. A check counts only what has committed. The operator may retire a
  key for which the check came back true, as long as the key has not been the
  active one since, and may load a key again under a retired id, the same or
  another. Every writer works from the one keyset.
 */
module KekRetirement {
  import opened Wrappers
  import opened Envelope

  type TxId = nat

  /** A stored version or request context: what it was sealed from, and what is stored.
      Rows are identified by their context: (secret, version) and request id are unique. */
  datatype Row = Row(original: bytes, sealed: Sealed)

  datatype Writer =
    | Locked
    | Inserting(c: AadContext, row: Row)
    | Rewrapping(c: AadContext, sealed: Sealed)

  /** `cleared` holds the keys that may be retired. Row identities are used once: `spent` for any seal,
      `stored` for those that committed. */
  datatype State = State(
    ks: Keyset, rows: map<AadContext, Row>, writers: map<TxId, Writer>,
    checking: Option<string>, cleared: set<string>, stored: set<AadContext>, spent: set<AadContext>)

  datatype Step =
    | TakeShared(x: TxId)
    | SealRow(x: TxId, c: AadContext, plaintext: bytes, draw: Draw)
    | RewrapRow(x: TxId, c: AadContext, wrapNonce: bytes)
    | Commit(x: TxId)
    | Rollback(x: TxId)
    | TakeExclusive(kekId: string)
    | FinishCheck
    | AddKey(kekId: string, key: Key)
    | Activate(kekId: string)
    | Retire(kekId: string)
    | DeleteRow(c: AadContext)

  predicate Unreferenced(rows: map<AadContext, Row>, kekId: string) {
    forall c :: c in rows ==> rows[c].sealed.kekId != kekId
  }

  ghost predicate Enabled(s: State, a: Step) {
    match a
    case TakeShared(x) => x !in s.writers && s.checking.None?
    case SealRow(x, c, _, draw) => x in s.writers && s.writers[x].Locked? && c !in s.spent && ValidDraw(draw)
    case RewrapRow(x, c, wrapNonce) =>
      x in s.writers && s.writers[x].Locked? && c in s.rows && |wrapNonce| == NONCE_LEN
    case Commit(x) => x in s.writers && !s.writers[x].Locked?
    case Rollback(x) => x in s.writers
    case TakeExclusive(_) => s.checking.None? && s.writers == map[]
    case FinishCheck => s.checking.Some?
    case AddKey(kekId, _) => kekId !in s.ks.keys
    case Activate(kekId) => kekId in s.ks.keys
    case Retire(kekId) => kekId in s.cleared
    case DeleteRow(c) => c in s.rows
  }

  /** A rewrap that commits changes the wrapping of the row and nothing else. */
  function Apply(rows: map<AadContext, Row>, w: Writer): map<AadContext, Row> {
    match w
    case Locked => rows
    case Inserting(c, row) => rows[c := row]
    case Rewrapping(c, sealed) =>
      if c !in rows then rows
      else rows[c := rows[c].(sealed := rows[c].sealed.(wrappedDek := sealed.wrappedDek, kekId := sealed.kekId))]
  }

  ghost function Perform(s: State, a: Step): State
    requires Enabled(s, a)
  {
    match a
    case TakeShared(x) => s.(writers := s.writers[x := Locked])
    case SealRow(x, c, plaintext, draw) =>
      (match Seal(s.ks, plaintext, c, draw)
       case Ok(sealed) => s.(writers := s.writers[x := Inserting(c, Row(plaintext, sealed))], spent := s.spent + {c})
       case Err(_) => s.(writers := s.writers - {x}))
    case RewrapRow(x, c, wrapNonce) =>
      (match Rewrap(s.ks, s.rows[c].sealed, wrapNonce)
       case Ok(sealed) => s.(writers := s.writers[x := Rewrapping(c, sealed)])
       case Err(_) => s.(writers := s.writers - {x}))
    case Commit(x) =>
      s.(rows := Apply(s.rows, s.writers[x]), writers := s.writers - {x},
         stored := if s.writers[x].Inserting? then s.stored + {s.writers[x].c} else s.stored)
    case Rollback(x) => s.(writers := s.writers - {x})
    case TakeExclusive(kekId) => s.(checking := Some(kekId))
    case FinishCheck =>
      var k := s.checking.value;
      s.(checking := None,
         cleared := if Unreferenced(s.rows, k) && k != s.ks.active then s.cleared + {k} else s.cleared)
    case AddKey(kekId, key) => s.(ks := s.ks.(keys := s.ks.keys[kekId := key]))
    case Activate(kekId) => s.(ks := s.ks.(active := kekId), cleared := s.cleared - {kekId})
    case Retire(kekId) => s.(ks := s.ks.(keys := s.ks.keys - {kekId}), cleared := s.cleared - {kekId})
    case DeleteRow(c) => s.(rows := s.rows - {c})
  }

  function Init(kekId: string, key: Key): State {
    State(Keyset(kekId, map[kekId := key]), map[], map[], None, {}, {}, {})
  }

  ghost predicate Run(ss: seq<State>, steps: seq<Step>) {
    && |ss| == |steps| + 1
    && (exists kekId, key :: ss[0] == Init(kekId, key))
    && forall i :: 0 <= i < |steps| ==> Enabled(ss[i], steps[i]) && ss[i + 1] == Perform(ss[i], steps[i])
  }

  // ---------- the invariant ----------

  ghost predicate RowOk(ks: Keyset, c: AadContext, row: Row) {
    row.sealed.kekId in ks.keys && OpensOnlyAs(ks, row.sealed, c, row.original)
  }

  ghost predicate RowsOk(ks: Keyset, rows: map<AadContext, Row>) {
    forall c :: c in rows ==> RowOk(ks, c, rows[c])
  }

  /** What a writer will leave when it commits: a row that opens, or a wrapping under which the row of its
      context still opens. */
  ghost predicate WriterOk(ks: Keyset, rows: map<AadContext, Row>, stored: set<AadContext>, spent: set<AadContext>, w: Writer) {
    match w
    case Locked => true
    case Inserting(c, row) => RowOk(ks, c, row) && c !in stored && c in spent
    case Rewrapping(c, sealed) =>
      && c in stored
      && (c in rows ==>
            && sealed.ciphertext == rows[c].sealed.ciphertext && sealed.nonce == rows[c].sealed.nonce
            && RowOk(ks, c, Row(rows[c].original, sealed)))
  }

  ghost predicate WritersOk(ks: Keyset, rows: map<AadContext, Row>, writers: map<TxId, Writer>, stored: set<AadContext>, spent: set<AadContext>) {
    && (forall x :: x in writers ==> WriterOk(ks, rows, stored, spent, writers[x]))
    && rows.Keys <= stored <= spent
  }

  /** No two writers insert the same row. */
  ghost predicate InsertsApart(writers: map<TxId, Writer>) {
    forall x, y :: x in writers && y in writers && x != y && writers[x].Inserting? && writers[y].Inserting? ==>
      writers[x].c != writers[y].c
  }

  /** The key a writer has sealed under. */
  function SealedUnder(w: Writer): Option<string> {
    match w
    case Locked => None
    case Inserting(_, row) => Some(row.sealed.kekId)
    case Rewrapping(_, sealed) => Some(sealed.kekId)
  }

  /** A cleared key is neither active nor referenced, by a row or by a writer. */
  ghost predicate ClearedOk(active: string, rows: map<AadContext, Row>, writers: map<TxId, Writer>, cleared: set<string>) {
    forall k :: k in cleared ==>
      k != active && Unreferenced(rows, k) && forall x :: x in writers ==> SealedUnder(writers[x]) != Some(k)
  }

  ghost predicate Inv(s: State) {
    && s.ks.active in s.ks.keys
    && (s.checking.Some? ==> s.writers == map[])
    && RowsOk(s.ks, s.rows) && WritersOk(s.ks, s.rows, s.writers, s.stored, s.spent) && InsertsApart(s.writers)
    && ClearedOk(s.ks.active, s.rows, s.writers, s.cleared)
  }

  // ---------- every step keeps it ----------

  /** A writer that has sealed or rewrapped, under the active key. */
  lemma PutKeeps(s: State, x: TxId, w: Writer, spent: set<AadContext>)
    requires Inv(s) && x in s.writers && s.spent <= spent && s.checking.None?
    requires WriterOk(s.ks, s.rows, s.stored, spent, w) && SealedUnder(w) == Some(s.ks.active)
    requires w.Inserting? ==> w.c !in s.spent
    ensures Inv(s.(writers := s.writers[x := w], spent := spent))
  {
    forall y | y in s.writers ensures WriterOk(s.ks, s.rows, s.stored, spent, s.writers[y]) && (s.writers[y].Inserting? ==> s.writers[y].c in s.spent) {
      assert WriterOk(s.ks, s.rows, s.stored, s.spent, s.writers[y]);
    }
  }

  lemma DropKeeps(s: State, x: TxId)
    requires Inv(s)
    ensures Inv(s.(writers := s.writers - {x}))
  {
  }

  lemma SealKeeps(s: State, a: Step)
    requires Inv(s) && Enabled(s, a) && a.SealRow?
    ensures Inv(Perform(s, a))
  {
    SealedOpens(s.ks, a.plaintext, a.c, a.draw);
    var sealed := Seal(s.ks, a.plaintext, a.c, a.draw).value;
    PutKeeps(s, a.x, Inserting(a.c, Row(a.plaintext, sealed)), s.spent + {a.c});
  }

  lemma RewrapKeeps(s: State, a: Step)
    requires Inv(s) && Enabled(s, a) && a.RewrapRow?
    ensures Inv(Perform(s, a))
  {
    assert RowOk(s.ks, a.c, s.rows[a.c]);
    RewrappedOpens(s.ks, s.rows[a.c].sealed, a.c, s.rows[a.c].original, a.wrapNonce);
    PutKeeps(s, a.x, Rewrapping(a.c, Rewrap(s.ks, s.rows[a.c].sealed, a.wrapNonce).value), s.spent);
  }

  /** Rows that keep their ciphertext and gain no context a writer is inserting keep every writer sound. */
  lemma WritersFrame(s: State, rows: map<AadContext, Row>, stored: set<AadContext>, y: TxId)
    requires y in s.writers && WriterOk(s.ks, s.rows, s.stored, s.spent, s.writers[y]) && s.stored <= stored
    requires s.writers[y].Inserting? ==> s.writers[y].c !in stored
    requires forall c :: c in rows && c in s.stored ==>
               && c in s.rows && rows[c].original == s.rows[c].original
               && rows[c].sealed.ciphertext == s.rows[c].sealed.ciphertext && rows[c].sealed.nonce == s.rows[c].sealed.nonce
    ensures WriterOk(s.ks, rows, stored, s.spent, s.writers[y])
  {
  }

  /** A row, new or rewrapped, as its writer vouched for it. */
  ghost predicate Commits(s: State, x: TxId, c: AadContext, row: Row, stored: set<AadContext>) {
    && x in s.writers && SealedUnder(s.writers[x]) == Some(row.sealed.kekId)
    && RowOk(s.ks, c, row) && s.stored <= stored <= s.spent && c in stored
    && (forall y :: y in s.writers && y != x && s.writers[y].Inserting? ==> s.writers[y].c !in stored)
    && (c in s.stored ==>
          && c in s.rows && row.original == s.rows[c].original
          && row.sealed.ciphertext == s.rows[c].sealed.ciphertext && row.sealed.nonce == s.rows[c].sealed.nonce)
  }

  lemma OthersKeepOnCommit(s: State, x: TxId, c: AadContext, row: Row, stored: set<AadContext>)
    requires WritersOk(s.ks, s.rows, s.writers, s.stored, s.spent) && Commits(s, x, c, row, stored)
    ensures WritersOk(s.ks, s.rows[c := row], s.writers - {x}, stored, s.spent)
  {
    var rows := s.rows[c := row];
    var writers := s.writers - {x};
    forall y | y in writers ensures WriterOk(s.ks, rows, stored, s.spent, writers[y]) {
      WritersFrame(s, rows, stored, y);
    }
  }

  lemma RowCommitted(s: State, x: TxId, c: AadContext, row: Row, stored: set<AadContext>)
    requires Inv(s) && Commits(s, x, c, row, stored)
    ensures Inv(s.(rows := s.rows[c := row], writers := s.writers - {x}, stored := stored))
  {
    OthersKeepOnCommit(s, x, c, row, stored);
    ClearedKeeps(s, x, c, row);
  }

  lemma ClearedKeeps(s: State, x: TxId, c: AadContext, row: Row)
    requires ClearedOk(s.ks.active, s.rows, s.writers, s.cleared)
    requires x in s.writers && SealedUnder(s.writers[x]) == Some(row.sealed.kekId)
    ensures ClearedOk(s.ks.active, s.rows[c := row], s.writers - {x}, s.cleared)
  {
  }

  lemma RewrapCommits(s: State, x: TxId, c: AadContext, sealed: Sealed)
    requires WritersOk(s.ks, s.rows, s.writers, s.stored, s.spent)
    requires x in s.writers && s.writers[x] == Rewrapping(c, sealed) && c in s.rows
    ensures Commits(s, x, c, Row(s.rows[c].original, sealed), s.stored)
  {
    assert WriterOk(s.ks, s.rows, s.stored, s.spent, s.writers[x]);
    forall y | y in s.writers && s.writers[y].Inserting? ensures s.writers[y].c !in s.stored {
      assert WriterOk(s.ks, s.rows, s.stored, s.spent, s.writers[y]);
    }
  }

  /** A rewrap replaces nothing but the wrapping. */
  lemma RewrapApplied(s: State, c: AadContext, sealed: Sealed)
    requires WriterOk(s.ks, s.rows, s.stored, s.spent, Rewrapping(c, sealed)) && c in s.rows
    ensures Apply(s.rows, Rewrapping(c, sealed)) == s.rows[c := Row(s.rows[c].original, sealed)]
  {
  }

  lemma CommitKeeps(s: State, x: TxId)
    requires Inv(s) && Enabled(s, Commit(x))
    ensures Inv(Perform(s, Commit(x)))
  {
    var w := s.writers[x];
    assert WriterOk(s.ks, s.rows, s.stored, s.spent, w);
    match w
    case Inserting(c, row) => RowCommitted(s, x, c, row, s.stored + {c});
    case Rewrapping(c, sealed) =>
      if c in s.rows {
        RewrapApplied(s, c, sealed);
        RewrapCommits(s, x, c, sealed);
        RowCommitted(s, x, c, Row(s.rows[c].original, sealed), s.stored);
      } else {
        DropKeeps(s, x);
      }
  }

  /** A keyset that keeps every key in use leaves every row opening as it did. */
  lemma KeysetKeeps(s: State, ks: Keyset)
    requires Inv(s)
    requires forall k :: k in s.ks.keys && k in ks.keys ==> ks.keys[k] == s.ks.keys[k]
    requires forall c :: c in s.rows ==> s.rows[c].sealed.kekId in ks.keys
    requires forall x :: x in s.writers && SealedUnder(s.writers[x]).Some? && !(s.writers[x].Rewrapping? && s.writers[x].c !in s.rows) ==>
               SealedUnder(s.writers[x]).value in ks.keys
    ensures RowsOk(ks, s.rows) && WritersOk(ks, s.rows, s.writers, s.stored, s.spent)
  {
    forall c | c in s.rows ensures RowOk(ks, c, s.rows[c]) {
      assert RowOk(s.ks, c, s.rows[c]);
      KeysetChange(s.ks, ks, s.rows[c].sealed, c, s.rows[c].original);
    }
    forall x | x in s.writers ensures WriterOk(ks, s.rows, s.stored, s.spent, s.writers[x]) {
      assert WriterOk(s.ks, s.rows, s.stored, s.spent, s.writers[x]);
      match s.writers[x]
      case Locked =>
      case Inserting(c, row) => KeysetChange(s.ks, ks, row.sealed, c, row.original);
      case Rewrapping(c, sealed) =>
        if c in s.rows {
          KeysetChange(s.ks, ks, sealed, c, s.rows[c].original);
        }
    }
  }

  /** Every key in use is in the keyset. */
  lemma UsedKeysHeld(s: State)
    requires Inv(s)
    ensures forall c :: c in s.rows ==> s.rows[c].sealed.kekId in s.ks.keys
    ensures forall x :: x in s.writers && SealedUnder(s.writers[x]).Some? && !(s.writers[x].Rewrapping? && s.writers[x].c !in s.rows) ==>
              SealedUnder(s.writers[x]).value in s.ks.keys
  {
    forall c | c in s.rows ensures s.rows[c].sealed.kekId in s.ks.keys {
      assert RowOk(s.ks, c, s.rows[c]);
    }
    forall x | x in s.writers && SealedUnder(s.writers[x]).Some? && !(s.writers[x].Rewrapping? && s.writers[x].c !in s.rows)
      ensures SealedUnder(s.writers[x]).value in s.ks.keys
    {
      assert WriterOk(s.ks, s.rows, s.stored, s.spent, s.writers[x]);
    }
  }

  lemma KeyStepKeeps(s: State, a: Step)
    requires Inv(s) && Enabled(s, a) && (a.AddKey? || a.Activate? || a.Retire?)
    ensures Inv(Perform(s, a))
  {
    UsedKeysHeld(s);
    KeysetKeeps(s, Perform(s, a).ks);
  }

  lemma LockStepKeeps(s: State, a: Step)
    requires Inv(s) && Enabled(s, a) && (a.TakeShared? || a.TakeExclusive? || a.FinishCheck?)
    ensures Inv(Perform(s, a))
  {
  }

  lemma DeleteKeeps(s: State, c: AadContext)
    requires Inv(s) && c in s.rows
    ensures Inv(Perform(s, DeleteRow(c)))
  {
    var n := Perform(s, DeleteRow(c));
    forall y | y in n.writers ensures WriterOk(n.ks, n.rows, n.stored, n.spent, n.writers[y]) {
      WritersFrame(s, n.rows, n.stored, y);
    }
  }

  lemma StepKeeps(s: State, a: Step)
    requires Inv(s) && Enabled(s, a)
    ensures Inv(Perform(s, a))
  {
    match a
    case SealRow(_, _, _, _) => SealKeeps(s, a);
    case RewrapRow(_, _, _) => RewrapKeeps(s, a);
    case Commit(x) => CommitKeeps(s, x);
    case Rollback(x) => DropKeeps(s, x);
    case AddKey(_, _) => KeyStepKeeps(s, a);
    case Activate(_) => KeyStepKeeps(s, a);
    case Retire(_) => KeyStepKeeps(s, a);
    case DeleteRow(c) => DeleteKeeps(s, c);
    case _ => LockStepKeeps(s, a);
  }

  lemma {:induction false} RunKeeps(ss: seq<State>, steps: seq<Step>, i: nat)
    requires Run(ss, steps) && i < |ss|
    ensures Inv(ss[i])
  {
    if i > 0 {
      RunKeeps(ss, steps, i - 1);
      StepKeeps(ss[i - 1], steps[i - 1]);
    }
  }

  /** However writers, rewraps, key changes and retirements interleave, every stored row opens to its
      original plaintext under its own context and fails to decrypt under any other. */
  lemma StoredRowsAlwaysOpen(ss: seq<State>, steps: seq<Step>, i: nat, c: AadContext)
    requires Run(ss, steps) && i < |ss| && c in ss[i].rows
    ensures Open(ss[i].ks, ss[i].rows[c].sealed, c) == Ok(ss[i].rows[c].original)
    ensures forall d :: d != c ==> Open(ss[i].ks, ss[i].rows[c].sealed, d) == Err(DecryptFailed)
  {
    RunKeeps(ss, steps, i);
    assert RowOk(ss[i].ks, c, ss[i].rows[c]);
  }

  ghost predicate SameOriginal(a: map<AadContext, Row>, b: map<AadContext, Row>, c: AadContext) {
    c in b ==> c in a && b[c].original == a[c].original && b[c].sealed.ciphertext == a[c].sealed.ciphertext
  }

  lemma CommitKeepsOriginal(s: State, w: Writer, c: AadContext)
    requires WriterOk(s.ks, s.rows, s.stored, s.spent, w) && c in s.stored
    ensures SameOriginal(s.rows, Apply(s.rows, w), c)
  {
  }

  /** One step leaves a committed row's plaintext and ciphertext alone, and never brings a row back. */
  lemma StepKeepsOriginal(s: State, a: Step, c: AadContext)
    requires Inv(s) && Enabled(s, a) && c in s.stored
    ensures c in Perform(s, a).stored && SameOriginal(s.rows, Perform(s, a).rows, c)
  {
    if a.Commit? {
      CommitKeepsOriginal(s, s.writers[a.x], c);
    }
  }

  /** What a row was sealed from never changes, through any number of rewraps. */
  lemma {:induction false} OriginalsAreFixed(ss: seq<State>, steps: seq<Step>, i: nat, j: nat, c: AadContext)
    requires Run(ss, steps) && i <= j < |ss| && c in ss[i].rows
    ensures c in ss[j].stored
    ensures c in ss[j].rows ==>
              ss[j].rows[c].original == ss[i].rows[c].original && ss[j].rows[c].sealed.ciphertext == ss[i].rows[c].sealed.ciphertext
    decreases j - i
  {
    if i < j {
      OriginalsAreFixed(ss, steps, i, j - 1, c);
      RunKeeps(ss, steps, j - 1);
      StepKeepsOriginal(ss[j - 1], steps[j - 1], c);
    } else {
      RunKeeps(ss, steps, i);
    }
  }

  // ---------- what rows hold ----------

  /** Step `k` sealed `plaintext` for the row of context `c`. */
  ghost predicate SealedAt(steps: seq<Step>, k: nat, c: AadContext, plaintext: bytes) {
    k < |steps| && steps[k].SealRow? && steps[k].c == c && steps[k].plaintext == plaintext
  }

  ghost predicate SealedBefore(steps: seq<Step>, n: nat, c: AadContext, plaintext: bytes) {
    exists k: nat :: k < n && SealedAt(steps, k, c, plaintext)
  }

  /** Every row, stored or about to be, is of what some step sealed for it. */
  ghost predicate OriginsOk(s: State, steps: seq<Step>, n: nat) {
    && (forall c :: c in s.rows ==> SealedBefore(steps, n, c, s.rows[c].original))
    && (forall x :: x in s.writers && s.writers[x].Inserting? ==>
          SealedBefore(steps, n, s.writers[x].c, s.writers[x].row.original))
  }

  lemma OriginsFrame(s: State, steps: seq<Step>, n: nat)
    requires OriginsOk(s, steps, n)
    ensures OriginsOk(s, steps, n + 1)
  {
    forall c, plaintext | SealedBefore(steps, n, c, plaintext) ensures SealedBefore(steps, n + 1, c, plaintext) {
      var k: nat :| k < n && SealedAt(steps, k, c, plaintext);
      assert k < n + 1;
    }
  }

  lemma SealOrigins(s: State, a: Step, steps: seq<Step>, n: nat)
    requires Enabled(s, a) && a.SealRow? && OriginsOk(s, steps, n) && SealedBefore(steps, n, a.c, a.plaintext)
    ensures OriginsOk(Perform(s, a), steps, n)
  {
  }

  lemma OtherOrigins(s: State, a: Step, steps: seq<Step>, n: nat)
    requires Enabled(s, a) && !a.SealRow? && OriginsOk(s, steps, n)
    ensures OriginsOk(Perform(s, a), steps, n)
  {
  }

  lemma OriginsKeep(ss: seq<State>, steps: seq<Step>, n: nat)
    requires Run(ss, steps) && n < |steps| && OriginsOk(ss[n], steps, n)
    ensures OriginsOk(ss[n + 1], steps, n + 1)
  {
    var (s, a) := (ss[n], steps[n]);
    assert Enabled(s, a) && ss[n + 1] == Perform(s, a);
    OriginsFrame(s, steps, n);
    if a.SealRow? {
      assert SealedAt(steps, n, a.c, a.plaintext);
      SealOrigins(s, a, steps, n + 1);
    } else {
      OtherOrigins(s, a, steps, n + 1);
    }
  }

  lemma {:induction false} RunKeepsOrigins(ss: seq<State>, steps: seq<Step>, i: nat)
    requires Run(ss, steps) && i < |ss|
    ensures OriginsOk(ss[i], steps, i)
  {
    if i > 0 {
      RunKeepsOrigins(ss, steps, i - 1);
      OriginsKeep(ss, steps, i - 1);
    }
  }

  /** So what a stored row opens to is what was sealed for it. */
  lemma RowsOpenToWhatWasSealed(ss: seq<State>, steps: seq<Step>, i: nat, c: AadContext)
    requires Run(ss, steps) && i < |ss| && c in ss[i].rows
    ensures exists k: nat :: k < i && SealedAt(steps, k, c, ss[i].rows[c].original)
              && Open(ss[i].ks, ss[i].rows[c].sealed, c) == Ok(steps[k].plaintext)
  {
    StoredRowsAlwaysOpen(ss, steps, i, c);
    RunKeepsOrigins(ss, steps, i);
    assert SealedBefore(steps, i, c, ss[i].rows[c].original);
    var k: nat :| k < i && SealedAt(steps, k, c, ss[i].rows[c].original);
  }

  /** A rewrap wraps under the key that is active, and its commit puts the row there. */
  lemma RewrapsMoveRows(ss: seq<State>, steps: seq<Step>, i: nat, x: TxId, c: AadContext, wrapNonce: bytes)
    requires Run(ss, steps) && i + 1 < |steps| && steps[i] == RewrapRow(x, c, wrapNonce) && steps[i + 1] == Commit(x)
    ensures c in ss[i + 2].rows && ss[i + 2].rows[c].sealed.kekId == ss[i].ks.active
  {
    RunKeeps(ss, steps, i);
    assert RowOk(ss[i].ks, c, ss[i].rows[c]);
    RewrappedOpens(ss[i].ks, ss[i].rows[c].sealed, c, ss[i].rows[c].original, wrapNonce);
    assert Enabled(ss[i], steps[i]) && ss[i + 1] == Perform(ss[i], steps[i]);
    assert Enabled(ss[i + 1], steps[i + 1]) && ss[i + 2] == Perform(ss[i + 1], steps[i + 1]);
  }

  /** A key stops being loaded only when it is retired, which takes a check that found no row under it and that it
      was not the active one. */
  lemma KeysLeaveByRetirement(ss: seq<State>, steps: seq<Step>, i: nat, kekId: string)
    requires Run(ss, steps) && i < |steps| && kekId in ss[i].ks.keys && kekId !in ss[i + 1].ks.keys
    ensures steps[i] == Retire(kekId) && kekId != ss[i].ks.active
    ensures forall c :: c in ss[i].rows ==> ss[i].rows[c].sealed.kekId != kekId
  {
    RunKeeps(ss, steps, i);
    assert Enabled(ss[i], steps[i]) && ss[i + 1] == Perform(ss[i], steps[i]);
  }

  // ---------- why the key must have stayed inactive ----------

  /** Retirement on the check's word alone, with no regard to which key is active. */
  function RetireUnguarded(s: State, kekId: string): State {
    s.(ks := s.ks.(keys := s.ks.keys - {kekId}))
  }

  /** From any state that satisfies the invariant, as every reachable one does (`RunKeeps`), a key that passed
      the zero-reference check can be retired without losing what a writer goes on to store exactly when it
      is not the active one: a writer seals under the active key, and its row opens afterwards if and only if
      that key was kept. */
  lemma ActiveKeyMustBeKept(s: State, kekId: string, x: TxId, c: AadContext, plaintext: bytes, draw: Draw)
    requires Inv(s) && s.checking.None? && x !in s.writers && c !in s.spent && ValidDraw(draw)
    requires Unreferenced(s.rows, kekId)
    ensures var locked := Perform(s, TakeShared(x));
            && Enabled(locked, SealRow(x, c, plaintext, draw))
            && var sealed := Perform(locked, SealRow(x, c, plaintext, draw));
               && Enabled(sealed, Commit(x))
               && var committed := Perform(sealed, Commit(x));
                  && c in committed.rows
                  && (Open(RetireUnguarded(committed, kekId).ks, committed.rows[c].sealed, c) == Ok(plaintext)
                      <==> kekId != s.ks.active)
  {
    SealedOpens(s.ks, plaintext, c, draw);
    if kekId != s.ks.active {
      var ks := Keyset(s.ks.active, s.ks.keys - {kekId});
      KeysetChange(s.ks, ks, Seal(s.ks, plaintext, c, draw).value, c, plaintext);
    }
  }
}
