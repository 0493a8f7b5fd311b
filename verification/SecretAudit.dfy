/**
  The audit log against the stored secrets, in every reachable world.
 */
module SecretAudit {
  import opened Wrappers
  import opened Store
  import opened World
  import opened Frames
  import opened GrantSafety

  function CountCreated(events: seq<SecretEvent>, name: string): nat {
    if events == [] then 0
    else
      var e := events[|events| - 1];
      CountCreated(events[..|events| - 1], name) + (if e.SecretCreated? && e.name == name then 1 else 0)
  }

  function CountDeleted(events: seq<SecretEvent>, name: string): nat {
    if events == [] then 0
    else
      var e := events[|events| - 1];
      CountDeleted(events[..|events| - 1], name) + (if e.SecretDeleted? && e.name == name then 1 else 0)
  }

  function CountRotated(events: seq<SecretEvent>, v: Id): nat {
    if events == [] then 0
    else
      var e := events[|events| - 1];
      CountRotated(events[..|events| - 1], v) + (if e.SecretRotated? && e.versionId == v then 1 else 0)
  }

  /** A name was created once more than it was deleted exactly while it is stored. */
  ghost predicate NamesBooked(t: Tables) {
    forall n: string :: CountCreated(t.events, n) == CountDeleted(t.events, n) + (if NameTaken(t, n) then 1 else 0)
  }

  /** Every version row but the first of a secret has exactly one rotation row, under the secret's name. */
  ghost predicate RotationsBooked(archive: Archive, names: map<Id, string>, events: seq<SecretEvent>) {
    && (forall v: Id :: CountRotated(events, v) == if v in archive && archive[v].number > 1 then 1 else 0)
    && (forall e :: e in events && e.SecretRotated? ==>
          e.versionId in archive && archive[e.versionId].secretId in names && names[archive[e.versionId].secretId] == e.name)
  }

  /** A secret has as many version rows as its current version says, and a deletion took as many. */
  ghost predicate VersionsCounted(secrets: map<Id, Secret>, versions: map<Id, Version>, events: seq<SecretEvent>) {
    && (forall s :: s in secrets ==> secrets[s].currentVersion > 0 && |VersionsOf(versions, s)| == secrets[s].currentVersion)
    && (forall e :: e in events && e.SecretDeleted? ==> e.versionsDeleted == e.version)
  }

  ghost predicate Booked(w: World) {
    && NamesBooked(w.db)
    && RotationsBooked(w.archive, w.names, w.db.events)
    && VersionsCounted(w.db.secrets, w.db.versions, w.db.events)
  }

  // ---------- steps ----------

  lemma CountsAppend(events: seq<SecretEvent>, e: SecretEvent)
    ensures forall n :: CountCreated(events + [e], n) == CountCreated(events, n) + (if e.SecretCreated? && e.name == n then 1 else 0)
    ensures forall n :: CountDeleted(events + [e], n) == CountDeleted(events, n) + (if e.SecretDeleted? && e.name == n then 1 else 0)
    ensures forall v :: CountRotated(events + [e], v) == CountRotated(events, v) + (if e.SecretRotated? && e.versionId == v then 1 else 0)
  {
    assert (events + [e])[..|events|] == events;
  }

  /** The first version row of a secret is its only one. */
  lemma InsertVersions(secrets: map<Id, Secret>, versions: map<Id, Version>, archive: Archive, names: map<Id, string>, s: NewSecret)
    requires HistoryOk(secrets, versions, archive, names) && s.versionId !in archive && s.secretId !in names
    ensures var after := versions[s.versionId := Version(s.secretId, 1, s.plaintext)];
            && VersionsOf(after, s.secretId) == {s.versionId}
            && forall t :: t != s.secretId ==> VersionsOf(after, t) == VersionsOf(versions, t)
  {
    var after := versions[s.versionId := Version(s.secretId, 1, s.plaintext)];
    forall t | t != s.secretId ensures VersionsOf(after, t) == VersionsOf(versions, t) {
    }
  }

  lemma InsertNames(db: Tables, s: NewSecret, origin: Provenance)
    requires NamesBooked(db) && s.secretId !in db.secrets && !NameTaken(db, s.name)
    ensures var n := InsertSecret(db, s, origin); NamesBooked(n)
  {
    var n := InsertSecret(db, s, origin);
    CountsAppend(db.events, SecretCreated(s.name, origin));
    assert !NameTaken(db, s.name);
    forall name: string ensures NameTaken(n, name) <==> NameTaken(db, name) || name == s.name {
      TakenAfterInsert(db, s.secretId, Secret(s.name, 1, !origin.ByClient?), name);
    }
  }

  lemma InsertRotations(archive: Archive, names: map<Id, string>, events: seq<SecretEvent>, s: NewSecret, origin: Provenance)
    requires RotationsBooked(archive, names, events) && s.versionId !in archive && s.secretId !in names
    ensures RotationsBooked(archive[s.versionId := Version(s.secretId, 1, s.plaintext)], names[s.secretId := s.name],
                            events + [SecretCreated(s.name, origin)])
  {
    CountsAppend(events, SecretCreated(s.name, origin));
  }

  lemma InsertCounted(db: Tables, archive: Archive, names: map<Id, string>, s: NewSecret, origin: Provenance)
    requires HistoryOk(db.secrets, db.versions, archive, names) && s.versionId !in archive && s.secretId !in names
    requires VersionsCounted(db.secrets, db.versions, db.events)
    ensures var n := InsertSecret(db, s, origin); VersionsCounted(n.secrets, n.versions, n.events)
  {
    InsertVersions(db.secrets, db.versions, archive, names, s);
    assert |{s.versionId}| == 1;
  }

  lemma InsertIsBooked(w: World, s: NewSecret, origin: Provenance)
    requires IssuedOk(w) && HistoryOk(w.db.secrets, w.db.versions, w.archive, w.names)
    requires Booked(w) && FreshSecret(w, s) && !NameTaken(w.db, s.name)
    ensures Booked(RecordSecret(w, s).(db := InsertSecret(w.db, s, origin)))
  {
    InsertNames(w.db, s, origin);
    InsertRotations(w.archive, w.names, w.db.events, s, origin);
    InsertCounted(w.db, w.archive, w.names, s, origin);
  }

  lemma TakenAfterInsert(t: Tables, id: Id, row: Secret, name: string)
    requires id !in t.secrets
    ensures NameTaken(t.(secrets := t.secrets[id := row]), name) <==> NameTaken(t, name) || name == row.name
  {
    var after := t.secrets[id := row];
    assert after[id] == row;
    if NameTaken(t, name) {
      var s :| s in t.secrets && t.secrets[s].name == name;
      assert after[s].name == name;
    }
  }

  /** Secret rows that keep their names keep them taken. */
  lemma SameNames(a: Tables, b: Tables, name: string)
    requires a.secrets.Keys == b.secrets.Keys && forall s :: s in a.secrets ==> b.secrets[s].name == a.secrets[s].name
    ensures NameTaken(b, name) <==> NameTaken(a, name)
  {
    if NameTaken(a, name) {
      var s :| s in a.secrets && a.secrets[s].name == name;
      assert b.secrets[s].name == name;
    }
  }

  lemma RotateNames(db: Tables, secretId: Id, name: string, versionId: Id, plaintext: bytes)
    requires NamesBooked(db) && secretId in db.secrets
    ensures var n := RotateSecret(db, secretId, name, versionId, plaintext).0; NamesBooked(n)
  {
    var n := RotateSecret(db, secretId, name, versionId, plaintext).0;
    CountsAppend(db.events, SecretRotated(name, versionId));
    forall m: string ensures NameTaken(n, m) <==> NameTaken(db, m) {
      SameNames(db, n, m);
    }
  }

  lemma RotateRotations(
    archive: Archive, names: map<Id, string>, events: seq<SecretEvent>, name: string, versionId: Id, row: Version)
    requires RotationsBooked(archive, names, events) && versionId !in archive
    requires row.number > 1 && row.secretId in names && names[row.secretId] == name
    ensures RotationsBooked(archive[versionId := row], names, events + [SecretRotated(name, versionId)])
  {
    CountsAppend(events, SecretRotated(name, versionId));
  }

  lemma RotateCounted(db: Tables, secretId: Id, name: string, versionId: Id, plaintext: bytes)
    requires VersionsCounted(db.secrets, db.versions, db.events) && secretId in db.secrets && versionId !in db.versions
    ensures var n := RotateSecret(db, secretId, name, versionId, plaintext).0;
            VersionsCounted(n.secrets, n.versions, n.events)
  {
    var n := RotateSecret(db, secretId, name, versionId, plaintext).0;
    assert VersionsOf(n.versions, secretId) == VersionsOf(db.versions, secretId) + {versionId};
    forall t | t != secretId ensures VersionsOf(n.versions, t) == VersionsOf(db.versions, t) {
    }
  }

  lemma RotateIsBooked(w: World, secretId: Id, name: string, versionId: Id, plaintext: bytes)
    requires IssuedOk(w) && Booked(w) && CanAct(w, Rotate(secretId, name, versionId, plaintext))
    ensures Booked(RotateAt(w, secretId, name, versionId, plaintext))
  {
    if secretId in w.db.secrets {
      var row := Version(secretId, w.db.secrets[secretId].currentVersion + 1, plaintext);
      RotateNames(w.db, secretId, name, versionId, plaintext);
      RotateRotations(w.archive, w.names, w.db.events, name, versionId, row);
      RotateCounted(w.db, secretId, name, versionId, plaintext);
    }
  }

  lemma VetIsBooked(w: World, secretId: Id, reviewed: nat)
    requires Booked(w)
    ensures Booked(w.(db := MarkVetted(w.db, secretId, reviewed).0))
  {
    var db := MarkVetted(w.db, secretId, reviewed).0;
    if MarkVetted(w.db, secretId, reviewed).1 {
      CountsAppend(w.db.events, SecretVetted(w.db.secrets[secretId].name, reviewed));
      forall m: string ensures NameTaken(db, m) <==> NameTaken(w.db, m) {
        SameNames(w.db, db, m);
      }
    }
  }

  lemma DeleteIsBooked(w: World, secretId: Id, expected: nat)
    requires NamesUnique(w.db.secrets) && Booked(w)
    ensures Booked(w.(db := DeleteSecret(w.db, w.clock, secretId, expected).0))
  {
    var (db, outcome) := DeleteSecret(w.db, w.clock, secretId, expected);
    if outcome.Deleted? {
      var name := w.db.secrets[secretId].name;
      CountsAppend(w.db.events, db.events[|db.events| - 1]);
      forall m: string ensures NameTaken(db, m) <==> NameTaken(w.db, m) && m != name {
        TakenAfterDelete(w.db, secretId, m);
      }
      assert NameTaken(w.db, name);
      forall t | t in db.secrets ensures VersionsOf(db.versions, t) == VersionsOf(w.db.versions, t) {
      }
    }
  }

  lemma TakenAfterDelete(t: Tables, id: Id, name: string)
    requires NamesUnique(t.secrets) && id in t.secrets
    ensures NameTaken(t.(secrets := t.secrets - {id}), name) <==> NameTaken(t, name) && name != t.secrets[id].name
  {
    if NameTaken(t, name) && name != t.secrets[id].name {
      var s :| s in t.secrets && t.secrets[s].name == name;
      assert (t.secrets - {id})[s].name == name;
    }
  }

  lemma SameIsBooked(a: World, b: World)
    requires Booked(a) && SameSecrets(a, b)
    ensures Booked(b)
  {
  }

  /** An approval touches the secrets by the one it stores. */
  function WithStored(w: World, request: Id, store: Option<NewSecret>): World {
    if store.None? then w
    else RecordSecret(w, store.value).(db := InsertSecret(w.db, store.value, ByRequest(request)))
  }

  lemma ApproveSecrets(w: World, request: Id, grantId: Id, p: GrantParams, store: Option<NewSecret>)
    ensures var n := ApproveAt(w, request, grantId, p, store);
            n == w || SameSecrets(WithStored(w, request, store), n)
    ensures ApproveAt(w, request, grantId, p, store) != w && store.Some? ==> !NameTaken(w.db, store.value.name)
  {
  }

  lemma ApproveIsBooked(w: World, request: Id, grantId: Id, p: GrantParams, store: Option<NewSecret>)
    requires IssuedOk(w) && HistoryOk(w.db.secrets, w.db.versions, w.archive, w.names)
    requires Booked(w) && MayApprove(w, grantId, p, store)
    ensures Booked(ApproveAt(w, request, grantId, p, store))
  {
    var n := ApproveAt(w, request, grantId, p, store);
    ApproveSecrets(w, request, grantId, p, store);
    if n != w {
      if store.Some? {
        InsertIsBooked(w, store.value, ByRequest(request));
      }
      SameIsBooked(WithStored(w, request, store), n);
    }
  }

  lemma SecretActIsBooked(w: World, a: Action)
    requires IssuedOk(w) && HistoryOk(w.db.secrets, w.db.versions, w.archive, w.names) && NamesUnique(w.db.secrets)
    requires Booked(w) && CanAct(w, a) && (a.Create? || a.Rotate? || a.Vet? || a.Delete?)
    ensures Booked(Act(w, a))
  {
    match a
    case Create(s, depositor) => if !NameTaken(w.db, s.name) { InsertIsBooked(w, s, Creator(depositor)); }
    case Rotate(secretId, name, versionId, plaintext) => RotateIsBooked(w, secretId, name, versionId, plaintext);
    case Vet(secretId, reviewed) => VetIsBooked(w, secretId, reviewed);
    case Delete(secretId, expected) => DeleteIsBooked(w, secretId, expected);
  }

  lemma ActIsBooked(w: World, a: Action)
    requires IssuedOk(w) && HistoryOk(w.db.secrets, w.db.versions, w.archive, w.names) && NamesUnique(w.db.secrets)
    requires Booked(w) && CanAct(w, a)
    ensures Booked(Act(w, a))
  {
    if a.Approve? {
      ApproveIsBooked(w, a.request, a.grantId, a.params, a.store);
    } else if a.Create? || a.Rotate? || a.Vet? || a.Delete? {
      SecretActIsBooked(w, a);
    } else {
      KeepsSecrets(w, a);
      SameIsBooked(w, Act(w, a));
    }
  }

  lemma {:induction false} RunIsBooked(ws: seq<World>, steps: seq<Step>, i: nat)
    requires Run(ws, steps) && i < |ws|
    ensures Booked(ws[i])
  {
    if i > 0 {
      RunIsBooked(ws, steps, i - 1);
      RunKeeps(ws, steps, i - 1);
      StepTaken(ws, steps, i - 1);
      ActIsBooked(ws[i - 1].(clock := steps[i - 1].now), steps[i - 1].action);
    }
  }

  /** The log accounts for the secrets: a name has one creation row more than deletion rows exactly while it
      is stored; a version row past the first has exactly one rotation row; and a stored secret, like a
      deleted one by its row, has as many versions as its current version says. */
  lemma SecretsAreAudited(ws: seq<World>, steps: seq<Step>, i: nat, name: string, v: Id)
    requires Run(ws, steps) && i < |ws|
    ensures var w := ws[i];
            && CountCreated(w.db.events, name) == CountDeleted(w.db.events, name) + (if NameTaken(w.db, name) then 1 else 0)
            && (CountRotated(w.db.events, v) == if v in w.archive && w.archive[v].number > 1 then 1 else 0)
            && (forall s :: s in w.db.secrets ==> |VersionsOf(w.db.versions, s)| == w.db.secrets[s].currentVersion)
            && (forall e :: e in w.db.events && e.SecretDeleted? ==> e.versionsDeleted == e.version)
  {
    RunIsBooked(ws, steps, i);
  }
}
