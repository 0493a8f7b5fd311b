# Verification of the keychute broker

keychute releases secrets under operator-approved grants. This project models
its core as Dafny programs and proves what the broker promises about them:

- **Grants.** The tables, their transactions, and runs in which reads, replays,
  rotations, sweeps, revocations, deletions and restarts interleave. A read is
  several steps, so anything can commit between looking a version up and
  accounting the use.
- **Lock protocols.** Deleting a stored secret against minting grants for it, and
  retiring a key-encryption key against writers that seal under it, statement by
  statement and with uncommitted writes hidden.
- **Limits.** One resolution and one grant for each request, the cap on pending
  requests, the hourly cap on client deposits.
- **Encodings.** Path canonicalization and its two re-encoders, prefix matching,
  the canonical JSON under the idempotency MAC, the bytes hashed into a call-bound
  key, the associated data of each ciphertext, the headers of a SigV4 signature.
- **Reconcilers and a cache.** Provisioned policies, client credentials, signing keys.
- **The client.** The command line's retries of create and read under fixed keys,
  over any run of the broker and whatever replies are lost.

## Layout

| file | what it holds |
|---|---|
| `Wrappers.dfy`, `Sorting.dfy`, `Chars.dfy` | options and bytes, stable sorting by name, ASCII lowering and white space |
| `Store.dfy` | the tables and each transaction as a function on them |
| `Database.dfy` | the same transactions statement by statement, proved equal to `Store` |
| `World.dfy` | runs of the broker: tables, clock, reads in flight, what was released |
| `Frames.dfy` | what each kind of step leaves alone |
| `GrantSafety.dfy`, `Accounting.dfy`, `RequestLifecycle.dfy`, `SecretAudit.dfy` | invariants of every run and what follows from them |
| `UseLaws.dfy` | which reads of a run are served, replayed or refused, and what they release |
| `Origins.dfy` | where the rows and the releases of a run come from |
| `Effects.dfy` | what each step changes, what alone changes it, and what its caller is told |
| `CliRetry.dfy`, `CliSession.dfy` | the retrying client |
| `SecretLocks.dfy`, `LockRefinement.dfy` | deletion against minting under the name lock, and its commits as transactions of `Store` |
| `KekRetirement.dfy`, `Envelope.dfy` | retiring keys under the key lock, and envelope encryption |
| `Deposits.dfy`, `PendingCap.dfy` | the two limits, with transactions in flight |
| `CanonicalPath.dfy`, `PathDecoding.dfy`, `PathScope.dfy` | path canonicalization, what it accepts said without the decoder, prefixes |
| `CanonicalJson.dfy`, `JsonText.dfy` | the canonical text, and the grammar it is in |
| `CallBinding.dfy`, `SigV4.dfy`, `Spellings.dfy` | call-bound keys, signed headers, and readers of what they spell |
| `PolicyReconcile.dfy`, `ClientReconcile.dfy`, `Jwks.dfy` | the reconcilers and the cache |

## Reading the statements

- Time is an integer. In `World` every transaction is one step whose stamp is not
  below the stamps before it; `Deposits` gives transactions arbitrary stamps, and
  `SecretLocks` and `PendingCap` give them the clock at their start.
- Ids are numbers that are never issued twice, as random uuids are taken to be.
  Advisory locks are taken per name, not per hash of a name.
- Every writer seals and rewraps with one keyset, as one server process does. A key may
  be loaded again under an id that was retired before.
- An operator retires a key for which the zero-reference check came back true while
  it was not active, and which has not been made active since.
- The AEAD is symbolic: a box opens with the key, nonce and associated data it was
  closed with and with no others. Random draws, hashes, MACs and the outcome of
  policy evaluation are inputs.
- A process restart loses the key that passthrough payloads are wrapped under, so
  a payload of an earlier process does not open any more. What was read as lost
  never comes back as something else.
- Audit rows are split in three: the write-ahead rows of grant use and the rows about
  stored secrets as sequences, those about requests and grants as a multiset. They
  carry what identifies the event; the operator's name, free text and the row for
  edited settings are left out. A grant's `decidedOn`, and the fields of `World` called
  history, are not columns; they name what was once true.
- Characters are Unicode code points; their order is the byte order of UTF-8. A
  JSON number is the text it prints as.
- A secret that is stored together with its approval has the name the grant carries.
- `ReadAbort` stands for every way a read handler can end early: revalidation of
  the client, its tier or its mechanism, a database error, a client that went away.

## Where the code and its claims differ

- `canonicalize` is not idempotent: it gives back a canonical path exactly when that
  has no `%` (`CanonicalPath.ReencodingRoundTrips`). `policy_inputs` canonicalizes
  stored prefixes a second time (server/src/api/requests.rs:231), which can turn one
  prefix into another (`CanonicalPath.RecanonicalizingMoves`).
- The comment on control characters names the C0 range and DEL (types/src/paths.rs:60);
  the check also refuses U+0080 to U+009F (`CanonicalPath.C1ControlsRefused`).
- JWKS fetches of one URL are said to be ten seconds apart. From every reachable cache
  a fetch holds up the next one exactly when its lookup was not dropped while it was
  fetching (`Jwks.HoldsUpExactly`): a dropped lookup records nothing, and two of them
  can fetch at once (`Jwks.DroppedFetchesAreNotSpaced`). Every fetch that came to an
  end, well or badly, is spaced from all later ones (`Jwks.FetchesAreSpaced`).
- That no row references a key is enough to retire it exactly when it is not the
  active key (`KekRetirement.ActiveKeyMustBeKept`).

## Model

| member | source | states |
|---|---|---|
| Database.Database.BeginGrantUse | server/src/db/grants.rs:71-190 | The locked, branching transaction computes the atomic use function: dead, replayed, burned, exhausted, overflowing or first use, with the row, the pin and the audit row of each. |
| Database.Database.RevokeGrant | server/src/db/grants.rs:226-256 | A live or expired grant is revoked once, loses its payload and is audited; a revoked or missing one is left alone. |
| Database.Database.SweepPayloads | server/src/db/grants.rs:281-300 | The update takes the payload exactly of the grants that are revoked, expired, or used up with no replay still open. |
| Database.Database.UnpinStaleReads | server/src/db/ui_ext.rs:694-707 | Exactly the pins whose replay window has closed are dropped, the rows stay. |
| Database.Database.SameIncarnation | server/src/db/mod.rs:81-101 | The re-check is of the row by id and name, and fails without an id. |
| Database.Database.RequestByIdem | server/src/db/api_ext.rs:319-335 | The lookup finds the one row of a client and key, or none. |
| Database.Database.ApproveRequest | server/src/db/ui_ext.rs:60-234 | Approval, the optional stored secret and the grant commit together or not at all, each refusal leaving the tables untouched. |
| Database.Database.ApplyResolution | server/src/db/api_ext.rs:193-306 | A decision taken before the insert resolves the new row inside the same transaction, with its grant and audit row, unless the grant would be expired already. |
| Database.Database.CapExceeded | server/src/db/api_ext.rs:163-180 | The cap counts the client's pending unexpired rows, the one just inserted included. |
| Database.Database.InsertRequest | server/src/db/api_ext.rs:73-317 | The idempotent insert with its identity re-check, cap and resolution: it creates, finds the existing row, or rolls back, and nothing in between. |
| Database.Database.DenyRequest | server/src/db/requests.rs:339-374 | Only a pending, unexpired request is denied, once. |
| Database.Database.ExpireStale | server/src/db/requests.rs:390-415 | Exactly the pending requests past their deadline expire, one audit row for each. |
| Database.Database.AuditEach | server/src/db/requests.rs:400-412 | The loop adds one audit row for each row it was given. |
| Database.Database.CreateSecret | server/src/db/ui_ext.rs:244-297 | A secret and its first version are created under a free name and audited, or nothing is. |
| Database.Database.RotateSecret | server/src/db/ui_ext.rs:308-360 | The next version is inserted and becomes current; earlier versions stay; the new row is audited. |
| Database.Database.MarkVetted | server/src/db/secrets.rs:298-335 | A secret is vetted only while it is unvetted and at the version that was reviewed, and the row audits that version. |
| Database.Database.RemoveSecret | server/src/db/ui_ext.rs:539-551 | The row goes with its versions, counted before they go. |
| Database.Database.RevokeBacked | server/src/db/ui_ext.rs:556-569 | Exactly the live grants of the name without a payload of their own are revoked, and returned. |
| Database.Database.DeleteSecret | server/src/db/ui_ext.rs:513-607 | The secret goes with its versions if it is at the expected version, every live grant it backs is revoked and audited one by one, and the deletion is audited with both counts. |
| GrantSafety.RunKeeps | server/src/db/grants.rs:71-300 | Every step of every run keeps the invariant on ids, history, names, backing, payloads, pins, reads in flight and releases. |
| GrantSafety.ReleasesOfAKeyAgree | server/src/api/grants.rs:185-254 | All releases of one grant and key are of the payload id pinned at first use and of the same bytes, through rotation, sweeping, revocation, deletion and re-creation. |
| GrantSafety.ReplayFindsThePin | server/src/db/grants.rs:99-147 | A same-key read of a live grant inside the window is a replay, and the pinned version or payload is still there for it. |
| GrantSafety.LiveGrantsAreBacked | server/src/db/ui_ext.rs:538-563 | A live grant without a payload of its own is backed by the secret row its approval checked. |
| GrantSafety.LivePassthroughKeepsItsPayload | server/src/db/grants.rs:281-300 | A live passthrough grant keeps the payload it was approved with while a use remains or a read is in its replay window. |
| GrantSafety.SweepPayloadOk | server/src/db/grants.rs:270-300 | The sweep takes no payload that a live grant still owes. |
| Accounting.UsesAreAccounted | server/src/db/grants.rs:99-189 | `use_count` is the replay rows plus the proxy attempts and within `max_uses`; release attempts are first uses plus replays; a seen key has had exactly one first use. |
| Accounting.RunKeepsBooks | server/src/db/grants.rs:148-189 | Every step of every run keeps every grant's books balanced. |
| RequestLifecycle.ApprovedExactlyOnce | server/src/db/ui_ext.rs:113-200 | A request is approved exactly when exactly one grant carries its id, and its audit rows say what happened to it once. |
| RequestLifecycle.RevocationsAreAudited | server/src/db/ui_ext.rs:556-588 | Every revoked grant has exactly one revocation row, whether it fell alone or with its secret. |
| RequestLifecycle.ResolvedStaysResolved | server/src/db/requests.rs:346-359 | Terminal states are absorbing: a resolved request never changes again, a pending one changes only its state. |
| RequestLifecycle.RunKeepsLife | server/src/db/api_ext.rs:129-306 | Every run keeps requests and grants paired, idempotency keys unique and the audit log exact. |
| SecretAudit.RunIsBooked | server/src/db/ui_ext.rs:128-183 | Every step of every run keeps the secrets and the audit rows about them in balance. |
| SecretAudit.SecretsAreAudited | server/src/db/ui_ext.rs:586-602 | A name has one creation row more than deletion rows exactly while it is stored; each version past the first has one rotation row; a deletion row counts as many versions as the secret's version says. |
| UseLaws.ReplaysStayInTheWindow | server/src/db/grants.rs:99-147 | In every run a replay follows the first use of its grant and key, less than a window after it. |
| UseLaws.BurnedIsRefused | server/src/db/grants.rs:138-147 | A key whose first use is a window old is refused for good: nothing is served, released, pinned or written. |
| UseLaws.DeadIsRefused | server/src/db/grants.rs:90-98 | A read of a revoked or expired grant leaves everything as it was. |
| UseLaws.ReplaysAreServed | server/src/db/grants.rs:116-137 | A read of a live grant under a key first used inside the window is served as a replay, audited with the pinned id, and counts no use. |
| UseLaws.NewKeysAreServed | server/src/db/grants.rs:148-189 | A read of a live grant under an unseen key is served, counted, pinned and audited exactly while a use remains and the count does not overflow. |
| UseLaws.FirstUsedOnce | server/src/db/grants.rs:99-171 | A key of a grant is first used in one step of a run at most. |
| UseLaws.RowOfFirstUse | server/src/db/grants.rs:160-171 | From a first use on, its row is there with the stamp of that use. |
| UseLaws.StoredFirstUseReleases | server/src/api/grants.rs:229-236 | The first use of a stored grant releases the version it pins, as that was written. |
| UseLaws.PassthroughFirstUseReleases | server/src/api/grants.rs:99-119 | The first use of a passthrough grant releases its payload exactly in the process that wrapped it. |
| UseLaws.StoredReplayReleases | server/src/api/grants.rs:246-251 | A replay of a stored grant releases the pinned version as long as its row is there. |
| UseLaws.PassthroughReplayReleases | server/src/api/grants.rs:242-244 | A replay of a passthrough grant releases the payload exactly in the process that wrapped it. |
| UseLaws.ProxiedUses | server/src/db/grants.rs:148-189 | A proxied call is counted and audited exactly while its grant is live and a use remains, and changes nothing else. |
| UseLaws.ReleasesAreWrittenAhead | server/src/db/grants.rs:172-187 | Every release has an audit row of its grant and of the very payload it released. |
| Origins.GrantsCarryTheirTerms | server/src/db/ui_ext.rs:185-212 | Every grant of every run carries the client, secret, deadline, number of uses and payload of the approval that minted it. |
| Origins.UsesStayWithinTheTerms | server/src/db/ui_ext.rs:185-207 | The reads and proxied calls counted on a grant are within the number of uses it was approved for. |
| Origins.UsesComeBeforeTheDeadline | server/src/db/grants.rs:90-98 | Every audited use is of an unrevoked grant, before the deadline it was approved with. |
| Origins.VersionsCarryTheirBytes | server/src/db/ui_ext.rs:333-348 | Every version ever stored holds the bytes of the create, approval or rotation that wrote it. |
| Origins.StoredVersionsCarryTheirBytes | server/src/db/ui_ext.rs:146-160 | So does every version that is stored now. |
| Origins.LastWriteIsCurrent | server/src/db/ui_ext.rs:333-356 | After the last write of a secret its current version holds what was written, until it is deleted. |
| Origins.ReadsResolveTheLastWrite | server/src/api/grants.rs:202-209 | A read of a stored secret resolves the id and the bytes of the last create, approval or rotation that wrote it. |
| Origins.RequestsCarryWhatWasAsked | server/src/db/api_ext.rs:137-161 | Every request row holds the client, secret, deadline, key and MAC that were asked for. |
| Origins.PayloadsLastUntilRestart | server/src/api/grants.rs:86-119 | A passthrough grant releases what was approved until the server restarts, and nothing after that. |
| Origins.ReleasesWereWritten | server/src/api/grants.rs:222-254 | Every plaintext released was put there by a step of the run: with that grant's approval, or as that version. |
| Effects.RequestsResolveExactly | server/src/db/ui_ext.rs:113-127 | A pending request is approved, denied or expired by exactly the steps that meet the conditions for it. |
| Effects.ApprovalsAreWhole | server/src/db/ui_ext.rs:60-234 | An approval leaves the grant with its payload and the secret stored with it, or nothing at all. |
| Effects.RequestsAreCreatedExactly | server/src/db/api_ext.rs:73-306 | A request is created, in the state its decision gives it, exactly when its key is unused, the cap has room and the decision still stands; otherwise nothing changes. |
| Effects.GrantsFallExactly | server/src/db/grants.rs:226-256 | A grant is revoked by its own revocation or by the deletion of the secret it stands on, and by nothing else. |
| Effects.RevocationIsFinal | server/src/db/grants.rs:226-256 | After a grant's revocation no use of it is ever audited again. |
| Effects.PayloadsAreLostExactly | server/src/db/grants.rs:270-300 | A payload is dropped by a revocation, or by a sweep exactly when nothing is owed from it. |
| Effects.PinsAreDroppedExactly | server/src/db/ui_ext.rs:694-707 | A replay row loses its pin exactly when the sweep finds it older than the window, and is otherwise left as it is. |
| Effects.SecretsChangeExactly | server/src/db/ui_ext.rs:308-360 | A secret moves on by a rotation, is vetted by a rotation or by a review of the version it has, and leaves by a deletion at that version; nothing else touches it. |
| Effects.SecretsAreCreatedExactly | server/src/db/ui_ext.rs:244-297 | A create adds one secret and one version under a free name, unvetted exactly for a client's deposit, or nothing. |
| Effects.VersionsStayWithTheirSecret | server/src/db/ui_ext.rs:539-551 | A version never changes, and goes exactly with its secret. |
| Effects.SecretEventsSayWhatHappened | server/src/db/ui_ext.rs:586-602 | Each step adds exactly the audit rows about secrets that say who created, what was written or reviewed, and how much a deletion took. |
| Effects.UseAnswers | server/src/db/grants.rs:80-160 | A use is answered by the first refusal that applies, in the order of the transaction. |
| Effects.ApproveAnswers | server/src/db/ui_ext.rs:60-150 | An approval is answered by the first refusal that applies. |
| Effects.InsertAnswers | server/src/db/api_ext.rs:73-317 | An insert is answered by the first refusal that applies, and an existing row is the one of the key. |
| Effects.OtherAnswers | server/src/db/ui_ext.rs:513-607 | The other callers are told exactly whether there was something to do, a deletion how many grants fell. |
| CliRetry.CreatedRow | server/src/api/requests.rs:343-351 | Whether the create handler finds the row, makes it or loses the race for it, it answers with the row of that key and MAC. |
| CliRetry.OneRow | server/src/db/api_ext.rs:137-161 | The rows of one client and key, seen at whatever moments, are one row. |
| CliRetry.OneGrant | server/src/db/api_ext.rs:338-348 | The grants of one request, seen at whatever moments, are one grant. |
| CliRetry.OnePlaintext | server/src/api/grants.rs:185-254 | The releases of one grant and key, seen at whatever moments, are of one plaintext. |
| CliRetry.SessionHappensOnce | server/src/db/grants.rs:148-171 | However often a session's creates and reads are retried, there is one request row, one grant and at most one counted first use of its read key. |
| CliRetry.ReceivedAgree | cli/src/main.rs:350-352 | Whatever replies are lost, every plaintext a session ever receives is the same. |
| CliRetry.RunPersists | server/src/db/grants.rs:71-300 | No step of any run removes a grant, moves it to another request, or takes back a release. |
| CliSession.CreateAccessRequest | cli/src/main.rs:642-709 | The first reply that is whole decides: its value or its refusal, 4xx being final; what was lost, garbled or 5xx is tried again, three times in all. |
| CliSession.WaitForResolution | cli/src/main.rs:713-816 | Polling goes on through pending answers and up to four troubles in a row, and ends at a resolution, a definitive refusal, the fifth trouble or the deadline. |
| CliSession.ReadGrant | cli/src/main.rs:826-903 | The read loop likewise, a gone grant being final with an exit code of its own for lost and for expired. |
| CliSession.SettledIs | cli/src/main.rs:648-705 | A retry loop succeeds with a value exactly when some attempt in its budget got it and every one before was to be retried. |
| CliSession.WaitedFor | cli/src/main.rs:713-816 | Waiting succeeds only with a reply that says the request is resolved. |
| CliSession.RequestCommand | cli/src/main.rs:544-628 | The command ends as its replies say, loop by loop, with the exit code of what stopped it; and over replies that are true of a run, what it prints is a plaintext the run released to this session. |
| CliSession.Released | cli/src/main.rs:599-627 | A denied, expired or pending request and a missing grant each end with their exit code; an approved one is read. |
| CliSession.RunTwice | cli/src/main.rs:630-641 | Two invocations under one key and body that both print, print the same bytes. |
| SecretLocks.RunKeeps | server/src/db/mod.rs:58-101 | Every interleaving of the statements of approvals, deletions, deposits and creates keeps the lock, name, row and backing invariants. |
| SecretLocks.NoGrantOutlivesItsSecret | server/src/db/ui_ext.rs:75-96 | A committed, unrevoked, unexpired grant stands on the very row its approval checked, the only one stored under the grant's name. |
| LockRefinement.DeletionIsStoreDelete | server/src/db/ui_ext.rs:513-607 | Whatever it was interleaved with, a committed deletion does to the tables at that moment what the one-step transaction does, at the stamp it started with. |
| LockRefinement.CreationIsStoreApprove | server/src/db/ui_ext.rs:60-234 | So does a committed approval of a request that can be approved: the one-step transaction succeeds and mints the same grant on the same row. |
| LockRefinement.DepositIsStoreCreate | server/src/db/ui_ext.rs:244-297 | So does a committed deposit or create, whose name is free. |
| Envelope.DeriveInjective | server/src/crypto/mod.rs:59-71 | No two contexts share associated data, and none is mistaken for a wrapped key. |
| Envelope.SealedOpens | server/src/crypto/mod.rs:112-203 | What is sealed opens to its plaintext under its own context and under no other. |
| Envelope.NothingElseOpens | server/src/crypto/mod.rs:159-203 | What is sealed opens under no other key and with no cut nonce, and a key that is not loaded is named as unknown. |
| Envelope.RewrappedOpens | server/src/crypto/mod.rs:305-330 | Rewrapping moves a row to the active key and changes neither its ciphertext nor what it opens to, under any context. |
| Envelope.ChainOpens | server/src/crypto/mod.rs:286-330 | Any chain of rewraps through overlapping keysets ends in a row that opens as the first did. |
| KekRetirement.RunKeeps | server/src/db/mod.rs:118-132 | Every interleaving of sealing, rewrapping, committing, checking and changing keys keeps each row and each uncommitted write openable. |
| KekRetirement.StoredRowsAlwaysOpen | server/src/db/mod.rs:118-132 | Every stored row opens to its original plaintext under its own context and under no other, whatever keys were retired. |
| KekRetirement.OriginalsAreFixed | server/src/crypto/mod.rs:305-330 | What a row was sealed from, and its ciphertext, never change while it is stored. |
| KekRetirement.RowsOpenToWhatWasSealed | server/src/crypto/mod.rs:286-304 | What a stored row opens to is the plaintext of the step that sealed it for that context. |
| KekRetirement.RewrapsMoveRows | server/src/crypto/mod.rs:305-330 | A rewrap that commits leaves its row under the key that was active. |
| KekRetirement.KeysLeaveByRetirement | server/src/db/mod.rs:103-132 | A key leaves the keyset only by a retirement, when it is not active and no row is under it. |
| KekRetirement.ActiveKeyMustBeKept | server/src/db/mod.rs:103-132 | A key that no row references can be retired without losing the next write exactly when it is not the active one. |
| Deposits.DepositsStayWithinTheCap | server/src/db/secrets.rs:142-200 | In every window of the configured length one client's committed deposits stay within the cap, whatever order its transactions started in. |
| Deposits.CheckedCaps | server/src/db/secrets.rs:165-185 | A log each of whose rows passed its own check against the rows before it is within the cap in every window. |
| Deposits.DepositOnlyCreates | server/src/db/secrets.rs:186-229 | A deposit adds one unvetted secret and one version under a free name and changes no other row. |
| Deposits.RecentCounts | server/src/db/secrets.rs:165-185 | The count is of all the client's creation rows younger than the stamp, and of no others. |
| Deposits.VersionsHoldWhatWasDeposited | server/src/db/secrets.rs:186-229 | Every stored or uncommitted version holds the bytes its deposit brought. |
| Deposits.CommitIsStoreCreate | server/src/db/secrets.rs:176-229 | The commit of a deposit is the create transaction of `Store` for that client, and succeeds. |
| PendingCap.PendingStaysWithinTheCap | server/src/db/api_ext.rs:129-180 | At every moment a client's pending unexpired requests are within the cap, with inserts in flight. |
| PendingCap.CommitIsStoreInsert | server/src/db/api_ext.rs:137-180 | Counting and committing there is the insert of `Store` under the same cap: created exactly when the count passes, with the same requests after. |
| CanonicalPath.CanonicalizePath | types/src/paths.rs:22-85 | The decoding loop computes one percent-decoding and the checks on it, with the same refusals. |
| CanonicalPath.C1ControlsRefused | types/src/paths.rs:60-63 | Every control from U+0080 to U+009F is refused, beyond the range the comment names. |
| CanonicalPath.UriEncode | server/src/sigv4.rs:100-110 | The loop escapes every byte that is not kept. |
| CanonicalPath.DecodeEncoded | server/src/sigv4.rs:100-121 | Either re-encoder's output, or any encoding that escapes `%` and keeps `/`, decodes to what it encoded. |
| CanonicalPath.OutboundIsOneEncoding | server/src/proxy.rs:359-373 | Escaping `%` and then setting the URL path is one encoding: no escape is escaped twice. |
| CanonicalPath.AcceptedIsCanonical | types/src/paths.rs:54-85 | An accepted path is rooted, has no backslash and passes every check itself. |
| CanonicalPath.ReencodingRoundTrips | types/src/paths.rs:22-85 | Both forms sent upstream are read back as the approved path; the canonical path itself is exactly when it has no `%`. |
| CanonicalPath.RecanonicalizingMoves | server/src/api/requests.rs:231-235 | A prefix canonicalized twice can become another prefix. |
| PathDecoding.DecodesExactly | types/src/paths.rs:28-52 | A path decodes to given bytes exactly when it writes each of them plainly or as an escape, its digits in either case, no separator or backslash escaped. |
| PathDecoding.InvalidEscapes | types/src/paths.rs:34-48 | An escape is invalid exactly when it has its three bytes and one of the last two is no hexadecimal digit. |
| PathDecoding.RefusedExactly | types/src/paths.rs:32-47 | Decoding is refused exactly where such a spelling stops, for the escape or backslash that stops it. |
| PathDecoding.AcceptedExactly | types/src/paths.rs:22-85 | A path is accepted exactly when it is rooted and spells the UTF-8 of characters that are no controls, with no dot segment and no empty segment inside. |
| PathDecoding.RefusalsExactly | types/src/paths.rs:54-85 | The checks refuse text that is not UTF-8, then controls, then dot segments, each found without the checker. |
| PathDecoding.SplitsAtSlashes | types/src/paths.rs:65-70 | Splitting at slashes gives back the path when joined, and no segment holds a slash. |
| PathDecoding.EscapesAreUpperCase | server/src/sigv4.rs:98-110 | An escape is written as a percent sign and two upper-case digits. |
| PathDecoding.UnreservedExactly | server/src/sigv4.rs:94-96 | The bytes kept are the letters, the digits, and `-._~`. |
| PathDecoding.UrlPathSetExactly | server/src/proxy.rs:324-369 | The bytes a URL path escapes are those outside ASCII, the controls, space and nine more, and not the percent sign. |
| PathScope.CanonicalPathsHaveNoDots | types/src/paths.rs:65-76 | The dot-segment removal of section 5.2.4 of RFC 3986 leaves a canonical path alone, also after path parameters are cut off. |
| PathScope.NoDotsUnchanged | types/src/paths.rs:65-76 | A path without dot segments passes through that removal unchanged. |
| PathScope.PrefixIsSegmentPrefix | types/src/paths.rs:100-111 | On canonical paths a prefix matches exactly when its segments are a prefix of the path's. |
| PathScope.PrefixTransitive | types/src/paths.rs:100-111 | A prefix of a prefix covers what that covers. |
| CanonicalJson.WriteCanonical | server/src/api/canonical.rs:26-62 | The recursive writer appends the canonical text to the shared string and nothing else. |
| CanonicalJson.PrintSplit | server/src/api/canonical.rs:26-62 | Printed text is uniquely decodable, whatever delimiter follows it. |
| CanonicalJson.NormDecides | server/src/api/canonical.rs:45-47 | Sorting keys at every level makes two values the same exactly when they are equal as finite maps and lists. |
| CanonicalJson.CanonDecides | server/src/api/canonical.rs:26-62 | Two values print alike exactly when they are equal as finite maps and lists. |
| JsonText.CanonIsText | server/src/api/canonical.rs:26-62 | The canonical text is, by the grammar of RFC 8259 and without white space, the text of the value with its keys in rising order. |
| JsonText.EscapesAreShortest | server/src/api/canonical.rs:31-34 | Each character is written in the shortest way the grammar has. |
| CanonicalJson.CanonicalRequestPayload | server/src/api/canonical.rs:67-78 | The payload is the canonical text of the request with the key and the captured context removed. |
| CanonicalJson.PayloadDecides | server/src/api/canonical.rs:64-78 | Two payloads are equal exactly when the requests agree on every field but `idempotency_key` and `context.structured`. |
| JsonText.PayloadSays | server/src/api/canonical.rs:64-78 | The payload is the text of an object that says each stated field under its wire name, and neither the key nor the captured context. |
| CallBinding.PreimageInjective | cli/src/curl.rs:939-994 | Two calls that feed the hasher the same bytes are the same call. |
| CallBinding.DisplayInjective | types/src/lib.rs:214-219 | Two valid origins that display alike are the same origin. |
| CallBinding.CallBoundIdempotencyKey | cli/src/curl.rs:939-1011 | The hasher is fed that spelling, and the derived key fits 124 bytes exactly when the caller's key is within its budget. |
| Spellings.CallReadsBack | cli/src/curl.rs:948-991 | A reader of length-prefixed fields reads every call back from what the hasher is fed. |
| Spellings.OriginSpelled | types/src/lib.rs:214-219 | The origin it is fed is `https://`, the host, and the port if there is one. |
| Spellings.BoundKeySpelled | cli/src/curl.rs:992-993 | The key is the caller's, a dash, and the first sixteen bytes of the digest in lower-case hex. |
| Spellings.LabelsSpelled | server/src/crypto/mod.rs:55-71 | The associated data is the label of its kind with the row's id and version. |
| Spellings.UuidTextAt | server/src/crypto/mod.rs:56-58 | An id is written in lower-case hex, in groups of 8, 4, 4, 4 and 12. |
| Spellings.IntTextIsNumeral | server/src/crypto/mod.rs:62-64 | A number is written as its decimal numeral without leading zeros, after a minus sign if it is negative. |
| SigV4.Fold | server/src/sigv4.rs:174-184 | Folding a sorted list gives strictly increasing names, the names given, and for each its values comma-joined in order. |
| SigV4.FoldsUnique | server/src/sigv4.rs:174-184 | That determines the folded list. |
| SigV4.CanonicalHeaders | server/src/sigv4.rs:165-184 | The same of the whole pipeline, against the list before sorting: nothing is lost and no order of values changes. |
| SigV4.SignedNames | server/src/sigv4.rs:165-190 | The names covered are those given, lowered, and host, date and content hash. |
| SigV4.CollapsingKeepsWords | server/src/sigv4.rs:151-153 | Collapsing white space keeps the words of a value in order, and doing it again changes nothing. |
| Spellings.CollapsedSpelled | server/src/sigv4.rs:151-153 | Collapsing any value, however its words are spaced, leaves the words with single blanks between them. |
| Spellings.LinesSigned | server/src/sigv4.rs:165-184 | A signed line holds the collapsed values given under its lowered name, in order, then the signer's own, comma-separated. |
| Spellings.LeqExactly | server/src/sigv4.rs:173 | Names are ordered by the first character in which they differ, a shorter start first. |
| Chars.LowersLetters | server/src/sigv4.rs:165-169 | Each ASCII capital becomes the small letter in its place, and nothing else changes. |
| Chars.SpacesExactly | server/src/sigv4.rs:151-153 | The separators are the characters with the property White_Space. |
| Sorting.SortIsStable | server/src/sigv4.rs:173 | Sorting keeps the values of each name in their order. |
| PolicyReconcile.Position | server/src/db/provision.rs:334 | The search finds a wanted rule of the key exactly when there is one. |
| PolicyReconcile.SwapRemoveTakesOne | server/src/db/provision.rs:335 | Swapping the last element in takes exactly one occurrence of the key. |
| PolicyReconcile.Policies.Scan | server/src/db/provision.rs:317-362 | Rows stay as often as their key is wanted, the others go, unmanaged rows are untouched, and what is still wanted is the multiset difference. |
| PolicyReconcile.Policies.ReconcilePolicies | server/src/db/provision.rs:305-400 | Afterwards every rule is in force exactly as often as it is configured; matched rows keep their ids; rows created and deleted are exactly the two differences. |
| PolicyReconcile.KeysTellRulesApart | server/src/db/provision.rs:277-293 | Two rules have one key exactly when they differ in nothing but their creator and the part of a microsecond that the column drops. |
| PolicyReconcile.ReconciledInForce | server/src/db/provision.rs:305-400 | Every rule is in force as often as it is configured, as many of its rows survive as can, and no row that is not managed is lost or added. |
| PolicyReconcile.SecondRunIsQuiet | server/src/db/provision.rs:274-276 | A second run over the same rows, in any scan order, changes nothing. |
| ClientReconcile.Clients.RetireOthers | server/src/db/clients.rs:33-42 | Rows not configured are disabled and lose their credentials, and the unique indexes hold at that statement. |
| ClientReconcile.Clients.ReleaseConfigured | server/src/db/clients.rs:43-56 | Configured rows lose their credentials, and the unique indexes hold at that statement. |
| ClientReconcile.Clients.Upsert | server/src/db/clients.rs:57-100 | One upsert keeps the row's id and the indexes, and is stopped exactly by another row that holds the credential. |
| ClientReconcile.Clients.ReconcileClients | server/src/db/clients.rs:24-103 | The transaction commits exactly when the configured bindings are distinct, whatever rows held before, and then every client is enabled and bound as configured and every row keeps its id. |
| ClientReconcile.UpsertFits | server/src/db/clients.rs:43-56 | An upsert meets an index exactly when its credential is configured for an earlier client. |
| ClientReconcile.CredentialsAreExclusive | server/src/db/clients.rs:25-42 | The unique indexes say that no digest and no account is on two rows. |
| ClientReconcile.BindingsAreExclusive | server/src/config.rs:682-700 | Bindings are distinct exactly when no digest, as stored, and no account is configured twice. |
| ClientReconcile.DigestsAreNormal | server/src/db/clients.rs:88-95 | A digest is stored without the white space around it and with its capitals lowered. |
| ClientReconcile.ExactlyConfigured | server/src/db/clients.rs:22-103 | Every configured client is enabled with the settings, digest and account configured, every other row is disabled and holds nothing, and every row keeps its id. |
| ClientReconcile.SecondRunIsQuiet | server/src/db/clients.rs:22-103 | A second run changes nothing. |
| ClientReconcile.ValidatedReconciles | server/src/config.rs:655-700 | A configuration that was accepted has distinct bindings in the form they are stored. |
| Jwks.JwksCache.JwkForKid | server/src/authn/human.rs:189-270 | The lookup, with its stale answers and what each outcome of a fetch leaves in the cache. |
| Jwks.AnswersFromHistory | server/src/authn/human.rs:149-270 | In every run a lookup fetches exactly when the history of its URL demands it, and answers what the history demands. |
| Jwks.ReturnedKeyIsRecent | server/src/authn/human.rs:122-129 | A returned key is in the last successfully fetched document, which this lookup fetched or which was under an hour old when it began. |
| Jwks.FetchesAreSpaced | server/src/authn/human.rs:105-112 | A fetch starts at least ten seconds after every earlier one of its URL that came to an end. |
| Jwks.HoldsUpExactly | server/src/authn/human.rs:189-270 | After any run that ends in a fetch, whatever the cache holds, no next lookup of the URL fetches within ten seconds if and only if that fetch was not dropped. |
| Jwks.DroppedFetchesAreNotSpaced | server/src/authn/human.rs:189-235 | The dropped case as a run: two lookups at once, both fetching. |
| Jwks.AgedDocumentIsRefetched | server/src/authn/human.rs:114-121 | A document at its maximum age is replaced by the next lookup that is not rate limited, even for a key it holds. |
| Jwks.FreshKeyIsServed | server/src/authn/human.rs:149-162 | A key of a document under ten minutes old is served from it and nothing is fetched. |
| Jwks.StaleKeyOutlivesFailures | server/src/authn/human.rs:122-129 | While its issuer cannot be asked, a key of a document under an hour old is still served, and nothing else is. |
| Jwks.UnknownKeyIsFetched | server/src/authn/human.rs:189-270 | Ten seconds after the last lookup of its URL, a key that is not in hand is fetched and answered from the new document. |

## Left out

- Postgres, HTTP, TLS, TokenReview and JWT verification, Pushover delivery, signals, the file system, command line parsing and HTML: only tables, committed steps, the advisory locks, unique constraints and clocks are kept.
- Real cryptography, zeroization and constant-time comparison: the AEAD is symbolic, hashes and MACs are parameters.
- The policy engine's `evaluate` and the approval pages: the decision is an input to `InsertRequest` and `ApproveRequest`.
- `purge_passthrough` (server/src/db/grants.rs:260) nulls a payload unconditionally and has no caller; it is not a step.
- `insert_access_request`, `insert_secret_version` and `resolve_approve` are older paths that only tests call.
- Response and request header filtering, `proxy_suffix`, response streaming and credential injection in server/src/proxy.rs: list filters whose statements would repeat their bodies.
- `strip_like_curl`, `read_body_with` and output handling in cli/src/curl.rs: buffer handling of the same kind.
- `reconcile_secrets`: it compares decrypted values and calls the create and rotate transactions modelled here.
- Push deduplication, configuration ranges, error-to-status tables, slot counters and the stored UI policies.
- The `url` crate: setting a path is modelled as percent-encoding a fixed set of bytes that omits `%`.
- The driver's rounding of instants before the year 2000 to whole microseconds: the column is modelled as keeping the floor, as the key does.
- Database.Database.RequestByIdem: requires the unique index on client and idempotency key to hold before the call, which `RequestLifecycle.RunKeepsLife` proves of every reachable state.
- Database.Database.InsertRequest: requires the unique index on client and idempotency key to hold before the call, which `RequestLifecycle.RunKeepsLife` proves of every reachable state.
- ClientReconcile.Clients.ReconcileClients: assumes distinct client names, which loading a configuration checks; with a repeated name the last entry would win.
- CallBinding.PreimageInjective: assumes fields shorter than 2^64 bytes, the width of their length prefix.
- Envelope.ChainOpens: rewrapping is offered by the keyset but not called by the server at this commit; the chain is over any keysets that share the key each row is wrapped under.
- CliSession.RequestCommand: timeouts, backoff and what is printed besides the plaintext are not modelled; the deadline is what each poll finds left of it.
