/**
  Envelope encryption over a symbolic AEAD: a box opens with the key, nonce and
  associated data it was closed with, and with no others. What is proved is that
  the associated data of two different contexts is never the same text, so a
  ciphertext moved to another row does not open there, and that rewrapping a key
  leaves what the row opens to unchanged.
 */
module Envelope {
  import opened Wrappers

  // ---------- associated data ----------

  type Uuid = b: bytes | |b| == 16 witness seq(16, _ => 0)

  datatype AadContext =
    | SecretVersion(secretId: Uuid, version: int)
    | GrantPassthrough(grantId: Uuid)
    | RequestContext(requestId: Uuid)

  const HEX: string := "0123456789abcdef"
  const DIGITS: string := "0123456789"
  const DEK_WRAP_AAD: string := "keychute/v1/dek-wrap"
  const VERSION_AAD: string := "keychute/v1/secret-version/"
  const PASSTHROUGH_AAD: string := "keychute/v1/grant-passthrough/"
  const CONTEXT_AAD: string := "keychute/v1/request-context/"

  function HexText(b: bytes): (s: string)
    ensures |s| == 2 * |b|
  {
    if b == [] then "" else [HEX[b[0] as int / 16], HEX[b[0] as int % 16]] + HexText(b[1..])
  }

  /** The hyphenated lowercase form, 8-4-4-4-12. */
  function UuidText(id: Uuid): (s: string)
    ensures |s| == 36
  {
    Hyphenate(HexText(id))
  }

  function NatText(n: nat): (s: string)
    ensures |s| > 0 && s[0] != '-'
  {
    if n < 10 then [DIGITS[n]] else NatText(n / 10) + [DIGITS[n % 10]]
  }

  function IntText(n: int): string {
    if n < 0 then "-" + NatText(-n) else NatText(n)
  }

  function Derive(c: AadContext): string {
    match c
    case SecretVersion(id, version) => VERSION_AAD + (UuidText(id) + ("/" + IntText(version)))
    case GrantPassthrough(id) => PASSTHROUGH_AAD + UuidText(id)
    case RequestContext(id) => CONTEXT_AAD + UuidText(id)
  }

  lemma HexDigitsDiffer(i: nat, j: nat)
    requires i < 16 && j < 16 && HEX[i] == HEX[j]
    ensures i == j
  {
  }

  lemma {:induction false} HexInjective(a: bytes, b: bytes)
    requires HexText(a) == HexText(b)
    ensures a == b
  {
    if a != [] && b != [] {
      var s, t := HexText(a), HexText(b);
      assert s[0] == t[0] && s[1] == t[1] && s[2..] == t[2..];
      HexDigitsDiffer(a[0] as int / 16, b[0] as int / 16);
      HexDigitsDiffer(a[0] as int % 16, b[0] as int % 16);
      HexInjective(a[1..], b[1..]);
      assert a == [a[0]] + a[1..] && b == [b[0]] + b[1..];
    } else {
      assert |HexText(a)| == 2 * |a| && |HexText(b)| == 2 * |b|;
    }
  }

  function Join(a: string, rest: string): string {
    a + ("-" + rest)
  }

  lemma JoinInjective(a: string, s: string, b: string, t: string)
    requires |a| == |b| && Join(a, s) == Join(b, t)
    ensures a == b && s == t
  {
    SplitEqual(a, "-" + s, b, "-" + t);
    SplitEqual("-", s, "-", t);
  }

  function Hyphenate(h: string): (s: string)
    requires |h| == 32
    ensures |s| == 36
  {
    Join(h[..8], Join(h[8..12], Join(h[12..16], Join(h[16..20], h[20..]))))
  }

  lemma HyphenateInjective(h: string, k: string)
    requires |h| == |k| == 32 && Hyphenate(h) == Hyphenate(k)
    ensures h == k
  {
    JoinInjective(h[..8], Join(h[8..12], Join(h[12..16], Join(h[16..20], h[20..]))),
                  k[..8], Join(k[8..12], Join(k[12..16], Join(k[16..20], k[20..]))));
    JoinInjective(h[8..12], Join(h[12..16], Join(h[16..20], h[20..])), k[8..12], Join(k[12..16], Join(k[16..20], k[20..])));
    JoinInjective(h[12..16], Join(h[16..20], h[20..]), k[12..16], Join(k[16..20], k[20..]));
    JoinInjective(h[16..20], h[20..], k[16..20], k[20..]);
    assert h == h[..8] + h[8..12] + h[12..16] + h[16..20] + h[20..];
    assert k == k[..8] + k[8..12] + k[12..16] + k[16..20] + k[20..];
  }

  lemma UuidInjective(a: Uuid, b: Uuid)
    requires UuidText(a) == UuidText(b)
    ensures a == b
  {
    HyphenateInjective(HexText(a), HexText(b));
    HexInjective(a, b);
  }

  lemma {:induction false} NatInjective(m: nat, n: nat)
    requires NatText(m) == NatText(n)
    ensures m == n
  {
    var s, t := NatText(m), NatText(n);
    if m >= 10 && n >= 10 {
      assert s[..|s| - 1] == NatText(m / 10) && t[..|t| - 1] == NatText(n / 10);
      NatInjective(m / 10, n / 10);
      assert s[|s| - 1] == DIGITS[m % 10] && t[|t| - 1] == DIGITS[n % 10];
    }
  }

  lemma IntInjective(m: int, n: int)
    requires IntText(m) == IntText(n)
    ensures m == n
  {
    if m < 0 && n < 0 {
      assert IntText(m)[1..] == NatText(-m) && IntText(n)[1..] == NatText(-n);
      NatInjective(-m, -n);
    } else if m >= 0 && n >= 0 {
      NatInjective(m, n);
    }
  }

  function Prefix(c: AadContext): string {
    match c
    case SecretVersion(_, _) => VERSION_AAD
    case GrantPassthrough(_) => PASSTHROUGH_AAD
    case RequestContext(_) => CONTEXT_AAD
  }

  /** The kinds part at the character after the common label. */
  lemma KindsDiffer(a: AadContext)
    ensures |Derive(a)| > 12 && Derive(a)[12] == if a.SecretVersion? then 's' else if a.GrantPassthrough? then 'g' else 'r'
    ensures Derive(a) != DEK_WRAP_AAD
  {
    assert VERSION_AAD[12] == 's' && PASSTHROUGH_AAD[12] == 'g' && CONTEXT_AAD[12] == 'r' && DEK_WRAP_AAD[12] == 'd';
    assert Derive(a)[12] == Prefix(a)[12];
  }

  /** No two contexts share associated data, and none is mistaken for a wrapped key. */
  lemma DeriveInjective(a: AadContext, b: AadContext)
    ensures Derive(a) == Derive(b) ==> a == b
    ensures Derive(a) != DEK_WRAP_AAD
  {
    KindsDiffer(a);
    KindsDiffer(b);
    if Derive(a) == Derive(b) {
      match a
      case SecretVersion(id, version) =>
        SplitEqual(VERSION_AAD, UuidText(id) + ("/" + IntText(version)),
                   VERSION_AAD, UuidText(b.secretId) + ("/" + IntText(b.version)));
        SplitEqual(UuidText(id), "/" + IntText(version), UuidText(b.secretId), "/" + IntText(b.version));
        SplitEqual("/", IntText(version), "/", IntText(b.version));
        UuidInjective(id, b.secretId);
        IntInjective(version, b.version);
      case GrantPassthrough(id) =>
        SplitEqual(PASSTHROUGH_AAD, UuidText(id), PASSTHROUGH_AAD, UuidText(b.grantId));
        UuidInjective(id, b.grantId);
      case RequestContext(id) =>
        SplitEqual(CONTEXT_AAD, UuidText(id), CONTEXT_AAD, UuidText(b.requestId));
        UuidInjective(id, b.requestId);
    }
  }

  // ---------- the symbolic AEAD ----------

  /** A 32-byte key, by name. */
  type Key = nat

  datatype Message = Payload(plaintext: bytes) | KeyMaterial(key: Key)

  datatype Box = Box(key: Key, nonce: bytes, aad: string, message: Message)

  const NONCE_LEN: nat := 24

  function Decrypt(key: Key, nonce: bytes, aad: string, box: Box): Option<Message> {
    if box.key == key && box.nonce == nonce && box.aad == aad then Some(box.message) else None
  }

  /** `wrap_nonce || wrap_ct`. */
  datatype Wrapped = Wrapped(nonce: bytes, ct: Box)

  datatype Sealed = Sealed(ciphertext: Box, nonce: bytes, wrappedDek: Wrapped, kekId: string)

  datatype CryptoError = DecryptFailed | UnknownKek(kekId: string)

  type Outcome<T> = Result<T, CryptoError>

  /** What sealing draws from the random source. */
  datatype Draw = Draw(dek: Key, payloadNonce: bytes, wrapNonce: bytes)

  predicate ValidDraw(d: Draw) {
    |d.payloadNonce| == NONCE_LEN && |d.wrapNonce| == NONCE_LEN
  }

  function SealWithKek(kek: Key, kekId: string, plaintext: bytes, c: AadContext, d: Draw): Sealed {
    Sealed(Box(d.dek, d.payloadNonce, Derive(c), Payload(plaintext)), d.payloadNonce,
           Wrapped(d.wrapNonce, Box(kek, d.wrapNonce, DEK_WRAP_AAD, KeyMaterial(d.dek))), kekId)
  }

  function UnwrapDek(kek: Key, w: Wrapped): Outcome<Key> {
    if |w.nonce| != NONCE_LEN then Err(DecryptFailed)
    else
      match Decrypt(kek, w.nonce, DEK_WRAP_AAD, w.ct)
      case Some(KeyMaterial(dek)) => Ok(dek)
      case _ => Err(DecryptFailed)
  }

  function OpenWithKek(kek: Key, s: Sealed, c: AadContext): Outcome<bytes> {
    if |s.nonce| != NONCE_LEN then Err(DecryptFailed)
    else
      match UnwrapDek(kek, s.wrappedDek)
      case Err(e) => Err(e)
      case Ok(dek) =>
        match Decrypt(dek, s.nonce, Derive(c), s.ciphertext)
        case Some(Payload(plaintext)) => Ok(plaintext)
        case _ => Err(DecryptFailed)
  }

  // ---------- keysets ----------

  datatype Keyset = Keyset(active: string, keys: map<string, Key>)

  function Seal(ks: Keyset, plaintext: bytes, c: AadContext, d: Draw): Outcome<Sealed> {
    if ks.active !in ks.keys then Err(UnknownKek(ks.active))
    else Ok(SealWithKek(ks.keys[ks.active], ks.active, plaintext, c, d))
  }

  function Open(ks: Keyset, s: Sealed, c: AadContext): Outcome<bytes> {
    if s.kekId !in ks.keys then Err(UnknownKek(s.kekId))
    else OpenWithKek(ks.keys[s.kekId], s, c)
  }

  /** Unwraps under the old key and wraps again under the active one; the payload is not touched. */
  function Rewrap(ks: Keyset, s: Sealed, wrapNonce: bytes): Outcome<Sealed> {
    if s.kekId !in ks.keys then Err(UnknownKek(s.kekId))
    else if ks.active !in ks.keys then Err(UnknownKek(ks.active))
    else
      match UnwrapDek(ks.keys[s.kekId], s.wrappedDek)
      case Err(e) => Err(e)
      case Ok(dek) =>
        Ok(s.(wrappedDek := Wrapped(wrapNonce, Box(ks.keys[ks.active], wrapNonce, DEK_WRAP_AAD, KeyMaterial(dek))),
              kekId := ks.active))
  }

  /** The row opens to its plaintext under its own context and under no other. */
  ghost predicate OpensOnlyAs(ks: Keyset, s: Sealed, c: AadContext, plaintext: bytes) {
    && Open(ks, s, c) == Ok(plaintext)
    && forall d :: d != c ==> Open(ks, s, d) == Err(DecryptFailed)
  }

  /** Which holds whenever a keyset still has the key that the row names. */
  lemma SealedOpens(ks: Keyset, plaintext: bytes, c: AadContext, d: Draw)
    requires ValidDraw(d) && ks.active in ks.keys
    ensures Seal(ks, plaintext, c, d).Ok? && OpensOnlyAs(ks, Seal(ks, plaintext, c, d).value, c, plaintext)
  {
    var s := Seal(ks, plaintext, c, d).value;
    forall e | e != c ensures Open(ks, s, e) == Err(DecryptFailed) {
      DeriveInjective(c, e);
    }
  }

  /** No other key opens it, nor the right one after its nonces were cut; a key that is not loaded is named. */
  lemma NothingElseOpens(ks: Keyset, plaintext: bytes, c: AadContext, d: Draw, other: Keyset, e: AadContext, cut: Sealed)
    requires ValidDraw(d) && ks.active in ks.keys
    requires var s := Seal(ks, plaintext, c, d).value;
             cut.kekId == s.kekId && (|cut.nonce| != 24 || |cut.wrappedDek.nonce| != 24)
    ensures var s := Seal(ks, plaintext, c, d).value;
            && s.kekId == ks.active
            && (s.kekId in other.keys && other.keys[s.kekId] != ks.keys[ks.active] ==> Open(other, s, e) == Err(DecryptFailed))
            && (s.kekId !in other.keys ==> Open(other, s, e) == Err(UnknownKek(ks.active)))
            && Open(ks, cut, e) == Err(DecryptFailed)
    ensures ks.active !in other.keys ==> Seal(Keyset(ks.active, other.keys), plaintext, c, d) == Err(UnknownKek(ks.active))
  {
  }

  lemma RewrappedOpens(ks: Keyset, s: Sealed, c: AadContext, plaintext: bytes, wrapNonce: bytes)
    requires OpensOnlyAs(ks, s, c, plaintext) && ks.active in ks.keys && |wrapNonce| == NONCE_LEN
    ensures Rewrap(ks, s, wrapNonce).Ok? && OpensOnlyAs(ks, Rewrap(ks, s, wrapNonce).value, c, plaintext)
    ensures Rewrap(ks, s, wrapNonce).value.kekId == ks.active
    ensures Rewrap(ks, s, wrapNonce).value.ciphertext == s.ciphertext && Rewrap(ks, s, wrapNonce).value.nonce == s.nonce
  {
    var t := Rewrap(ks, s, wrapNonce).value;
    forall d ensures Open(ks, t, d) == Open(ks, s, d) {
      SameDek(ks.keys[s.kekId], s, ks.keys[ks.active], t, d);
    }
  }

  /** What a row opens to is decided by its data key, however that key is wrapped. */
  lemma SameDek(kek: Key, s: Sealed, kek2: Key, t: Sealed, c: AadContext)
    requires t.ciphertext == s.ciphertext && t.nonce == s.nonce
    requires UnwrapDek(kek, s.wrappedDek) == UnwrapDek(kek2, t.wrappedDek)
    ensures OpenWithKek(kek2, t, c) == OpenWithKek(kek, s, c)
  {
  }

  lemma KeysetChange(a: Keyset, b: Keyset, s: Sealed, c: AadContext, plaintext: bytes)
    requires OpensOnlyAs(a, s, c, plaintext)
    requires s.kekId in a.keys && s.kekId in b.keys && a.keys[s.kekId] == b.keys[s.kekId]
    ensures OpensOnlyAs(b, s, c, plaintext)
  {
    forall d ensures Open(b, s, d) == Open(a, s, d) {
    }
  }

  /** One rewrap of a chain: the keyset of the day and the nonce it drew. */
  datatype Turn = Turn(ks: Keyset, wrapNonce: bytes)

  /** Each keyset of a chain has its active key, and the key the one before it wrapped under. */
  ghost predicate Chain(ks: Keyset, turns: seq<Turn>)
    decreases |turns|
  {
    turns != [] ==>
      && turns[0].ks.active in turns[0].ks.keys && |turns[0].wrapNonce| == NONCE_LEN
      && Chain(turns[0].ks, turns[1..])
  }

  ghost predicate Shares(a: Keyset, b: Keyset, kekId: string) {
    kekId in a.keys && kekId in b.keys && a.keys[kekId] == b.keys[kekId]
  }

  function RewrapAll(s: Sealed, turns: seq<Turn>): Outcome<Sealed>
    decreases |turns|
  {
    if turns == [] then Ok(s)
    else
      match Rewrap(turns[0].ks, s, turns[0].wrapNonce)
      case Err(e) => Err(e)
      case Ok(t) => RewrapAll(t, turns[1..])
  }

  /** Any chain of rewraps through keysets that overlap in the key each row is wrapped under ends in a
      row that opens as the first did. */
  lemma {:induction false} ChainOpens(ks: Keyset, s: Sealed, turns: seq<Turn>, c: AadContext, plaintext: bytes)
    requires OpensOnlyAs(ks, s, c, plaintext) && Chain(ks, turns)
    requires turns != [] ==> Shares(ks, turns[0].ks, s.kekId)
    requires forall i :: 0 < i < |turns| ==> Shares(turns[i - 1].ks, turns[i].ks, turns[i - 1].ks.active)
    ensures RewrapAll(s, turns).Ok?
    ensures OpensOnlyAs(if turns == [] then ks else turns[|turns| - 1].ks, RewrapAll(s, turns).value, c, plaintext)
    decreases |turns|
  {
    if turns != [] {
      var t := turns[0];
      KeysetChange(ks, t.ks, s, c, plaintext);
      RewrappedOpens(t.ks, s, c, plaintext, t.wrapNonce);
      var rest := turns[1..];
      forall i | 0 < i < |rest| ensures Shares(rest[i - 1].ks, rest[i].ks, rest[i - 1].ks.active) {
        assert rest[i] == turns[i + 1] && rest[i - 1] == turns[i];
        assert Shares(turns[i + 1 - 1].ks, turns[i + 1].ks, turns[i + 1 - 1].ks.active);
      }
      if rest != [] {
        assert Shares(turns[1 - 1].ks, turns[1].ks, turns[1 - 1].ks.active);
      }
      ChainOpens(t.ks, Rewrap(t.ks, s, t.wrapNonce).value, rest, c, plaintext);
      assert rest != [] ==> rest[|rest| - 1] == turns[|turns| - 1];
    }
  }
}
