/**
 The credential table that the refresh protocol races on
 (packages/db/src/postgres-agent-auth-store.ts).  Every operation is one SQL
 statement, so each is one atomic function on the store.

 Two fields have no column of their own.  `incarnation` stands for the row's
 `createdAt`: it is set by an insert and by nothing else.  `history` remembers what was
 stored under every version a row ever had; only proofs look at it.
 */
module CredentialStore {
  import opened Prelude

  /** The primary key; `revision` is the connection's security revision. */
  datatype Key = Key(connection: string, revision: nat, principal: string)

  datatype Payload =
    | Active(token: string, refreshToken: Option<string>)
    | Pending(token: string, refreshToken: Option<string>)

  /** A sealed payload opens only under the key it was sealed for. */
  datatype Sealed = Sealed(boundTo: Key, payload: Payload) | Unreadable

  function Open(sealed: Sealed, key: Key): Option<Payload> {
    if sealed.Sealed? && sealed.boundTo == key then Some(sealed.payload) else None
  }

  datatype Lease = Lease(owner: nat, id: nat, until: int)

  datatype Row = Row(sealed: Sealed, expiresAt: Option<int>, rotationSeq: nat,
                     lease: Option<Lease>, incarnation: nat)

  datatype Version = Version(key: Key, incarnation: nat, rotationSeq: nat)

  datatype Content = Content(sealed: Sealed, expiresAt: Option<int>)

  datatype Store = Store(rows: map<Key, Row>, births: nat, leasesIssued: nat, history: map<Version, Content>)

  function VersionOf(key: Key, row: Row): Version {
    Version(key, row.incarnation, row.rotationSeq)
  }

  /** Version order within one key: a later incarnation, or a later rotation of the same one. */
  predicate Older(v: Version, w: Version) {
    v.incarnation < w.incarnation || (v.incarnation == w.incarnation && v.rotationSeq < w.rotationSeq)
  }

  predicate Current(s: Store, v: Version) {
    v.key in s.rows && VersionOf(v.key, s.rows[v.key]) == v
  }

  function Write(s: Store, key: Key, row: Row): Store {
    s.(rows := s.rows[key := row],
       history := s.history[VersionOf(key, row) := Content(row.sealed, row.expiresAt)])
  }

  function Rotated(row: Row, sealed: Sealed, expiresAt: Option<int>): Row {
    Row(sealed, expiresAt, row.rotationSeq + 1, None, row.incarnation)
  }

  /** Insert, or overwrite whatever is there: a new row restarts at sequence number 0. */
  function Put(s: Store, key: Key, sealed: Sealed, expiresAt: Option<int>): Store {
    if key in s.rows then
      Write(s, key, Rotated(s.rows[key], sealed, expiresAt))
    else
      Write(s.(births := s.births + 1), key, Row(sealed, expiresAt, 0, None, s.births))
  }

  predicate Matches(s: Store, key: Key, rotation: nat) {
    key in s.rows && s.rows[key].rotationSeq == rotation
  }

  function Delete(s: Store, key: Key, rotation: nat): Store {
    if Matches(s, key, rotation) then s.(rows := s.rows - {key}) else s
  }

  function Replace(s: Store, key: Key, rotation: nat, sealed: Sealed, expiresAt: Option<int>): Store {
    if Matches(s, key, rotation) then Write(s, key, Rotated(s.rows[key], sealed, expiresAt)) else s
  }

  predicate LeaseFree(row: Row, now: int) {
    row.lease.None? || row.lease.value.until <= now
  }

  predicate Claimable(s: Store, key: Key, rotation: nat, now: int) {
    Matches(s, key, rotation) && LeaseFree(s.rows[key], now)
  }

  /** Lease ids are random UUIDs; here they are drawn from a counter, so that none repeats. */
  function Claim(s: Store, key: Key, rotation: nat, owner: nat, until: int, now: int): Store {
    var issued := s.(leasesIssued := s.leasesIssued + 1);
    if Claimable(s, key, rotation, now) then
      issued.(rows := s.rows[key := s.rows[key].(lease := Some(Lease(owner, s.leasesIssued, until)))])
    else issued
  }

  predicate Holds(s: Store, key: Key, rotation: nat, owner: nat, leaseId: nat, now: int) {
    && Matches(s, key, rotation)
    && var lease := s.rows[key].lease;
       lease.Some? && lease.value.owner == owner && lease.value.id == leaseId && lease.value.until > now
  }

  function Complete(s: Store, key: Key, rotation: nat, owner: nat, leaseId: nat, now: int,
                    sealed: Sealed, expiresAt: Option<int>): Store {
    if Holds(s, key, rotation, owner, leaseId, now) then
      Write(s, key, Rotated(s.rows[key], sealed, expiresAt))
    else s
  }

  function Release(s: Store, key: Key, rotation: nat, owner: nat, leaseId: nat, now: int): Store {
    if Holds(s, key, rotation, owner, leaseId, now) then
      s.(rows := s.rows[key := s.rows[key].(lease := None)])
    else s
  }

  /** After a configuration change: drop every row of an older revision. */
  function DeleteStale(s: Store, connection: string, revision: nat): Store {
    s.(rows := map k | k in s.rows && !(k.connection == connection && k.revision < revision) :: s.rows[k])
  }

  // ---------------------------------------------------------------------------
  // What every operation keeps
  // ---------------------------------------------------------------------------

  /** A row holds what its version's history says; its lease id was issued. */
  ghost predicate RowOk(s: Store, k: Key) {
    k in s.rows ==>
      && VersionOf(k, s.rows[k]) in s.history
      && s.history[VersionOf(k, s.rows[k])] == Content(s.rows[k].sealed, s.rows[k].expiresAt)
      && (s.rows[k].lease.Some? ==> s.rows[k].lease.value.id < s.leasesIssued)
  }

  /** A version was born before now, and is not newer than its key's row. */
  ghost predicate VersionOk(s: Store, v: Version) {
    v in s.history ==>
      && v.incarnation < s.births
      && (v.key in s.rows ==> Current(s, v) || Older(v, VersionOf(v.key, s.rows[v.key])))
  }

  ghost predicate StoreInv(s: Store) {
    && (forall k {:trigger RowOk(s, k)} :: RowOk(s, k))
    && (forall v {:trigger VersionOk(s, v)} :: VersionOk(s, v))
  }

  /** Versions are immutable, and one that is gone never comes back. */
  ghost predicate Carried(s1: Store, s2: Store, v: Version) {
    v in s1.history ==>
      && v in s2.history && s2.history[v] == s1.history[v]
      && (Current(s2, v) ==> Current(s1, v))
  }

  /**
   A row either was inserted after `s1`, or is a row of `s1` whose sequence number did not
   shrink; and a lease id issued before `s1` sits on it only if it sat there in `s1`.
   */
  ghost predicate Grown(s1: Store, s2: Store, k: Key) {
    k in s2.rows ==>
      && (s2.rows[k].incarnation < s1.births ==>
            && k in s1.rows
            && s1.rows[k].incarnation == s2.rows[k].incarnation
            && s1.rows[k].rotationSeq <= s2.rows[k].rotationSeq)
      && (s2.rows[k].lease.Some? && s2.rows[k].lease.value.id < s1.leasesIssued ==>
            && k in s1.rows
            && s1.rows[k].lease == s2.rows[k].lease
            && VersionOf(k, s1.rows[k]) == VersionOf(k, s2.rows[k]))
  }

  /** `s2` may follow `s1`. */
  ghost predicate Extends(s1: Store, s2: Store) {
    && s1.births <= s2.births
    && s1.leasesIssued <= s2.leasesIssued
    && (forall v {:trigger Carried(s1, s2, v)} :: Carried(s1, s2, v))
    && (forall k {:trigger Grown(s1, s2, k)} :: Grown(s1, s2, k))
  }

  lemma ExtendsTransitive(s1: Store, s2: Store, s3: Store)
    requires StoreInv(s1) && StoreInv(s2) && StoreInv(s3)
    requires Extends(s1, s2) && Extends(s2, s3)
    ensures Extends(s1, s3)
  {
    forall v ensures Carried(s1, s3, v) { assert Carried(s1, s2, v) && Carried(s2, s3, v); }
    forall k ensures Grown(s1, s3, k) { assert Grown(s1, s2, k) && Grown(s2, s3, k); }
  }

  /** The step shared by Put on an existing row, Replace and Complete. */
  lemma RotateExtends(s: Store, key: Key, sealed: Sealed, expiresAt: Option<int>)
    requires StoreInv(s) && key in s.rows
    ensures var t := Write(s, key, Rotated(s.rows[key], sealed, expiresAt)); StoreInv(t) && Extends(s, t)
  {
    var row := Rotated(s.rows[key], sealed, expiresAt);
    var t := Write(s, key, row);
    assert RowOk(s, key) && VersionOk(s, VersionOf(key, s.rows[key])) && VersionOk(s, VersionOf(key, row));
    forall k ensures RowOk(t, k) && Grown(s, t, k) { assert RowOk(s, k); }
    forall v ensures VersionOk(t, v) && Carried(s, t, v) { assert VersionOk(s, v); }
  }

  lemma PutExtends(s: Store, key: Key, sealed: Sealed, expiresAt: Option<int>)
    requires StoreInv(s)
    ensures StoreInv(Put(s, key, sealed, expiresAt)) && Extends(s, Put(s, key, sealed, expiresAt))
  {
    if key in s.rows {
      RotateExtends(s, key, sealed, expiresAt);
    } else {
      var t := Put(s, key, sealed, expiresAt);
      assert VersionOk(s, VersionOf(key, t.rows[key]));
      forall k ensures RowOk(t, k) && Grown(s, t, k) { assert RowOk(s, k); }
      forall v ensures VersionOk(t, v) && Carried(s, t, v) { assert VersionOk(s, v); }
    }
  }

  /** No version is written: rows may vanish or change their lease for a new one or none. */
  lemma ThinnedExtends(s: Store, t: Store)
    requires StoreInv(s) && t.history == s.history && t.births == s.births && s.leasesIssued <= t.leasesIssued
    requires forall k <- t.rows :: k in s.rows && t.rows[k].(lease := s.rows[k].lease) == s.rows[k]
    requires forall k <- t.rows :: t.rows[k].lease.Some? && t.rows[k].lease != s.rows[k].lease ==>
               s.leasesIssued <= t.rows[k].lease.value.id < t.leasesIssued
    ensures StoreInv(t) && Extends(s, t)
  {
    forall k ensures RowOk(t, k) && Grown(s, t, k) { assert RowOk(s, k); }
    forall v ensures VersionOk(t, v) && Carried(s, t, v) { assert VersionOk(s, v); }
  }

  lemma DeleteExtends(s: Store, key: Key, rotation: nat)
    requires StoreInv(s)
    ensures StoreInv(Delete(s, key, rotation)) && Extends(s, Delete(s, key, rotation))
  {
    ThinnedExtends(s, Delete(s, key, rotation));
  }

  lemma ClaimExtends(s: Store, key: Key, rotation: nat, owner: nat, until: int, now: int)
    requires StoreInv(s)
    ensures var t := Claim(s, key, rotation, owner, until, now); StoreInv(t) && Extends(s, t)
  {
    ThinnedExtends(s, Claim(s, key, rotation, owner, until, now));
  }

  lemma ReleaseExtends(s: Store, key: Key, rotation: nat, owner: nat, leaseId: nat, now: int)
    requires StoreInv(s)
    ensures var t := Release(s, key, rotation, owner, leaseId, now); StoreInv(t) && Extends(s, t)
  {
    ThinnedExtends(s, Release(s, key, rotation, owner, leaseId, now));
  }

  /** A sweep leaves no row of an older revision of its connection, and every other row as it was. */
  lemma SweepLeavesTheRest(s: Store, connection: string, revision: nat, k: Key)
    ensures var t, stale := DeleteStale(s, connection, revision), k.connection == connection && k.revision < revision;
            && (k in t.rows <==> k in s.rows && !stale)
            && (k in t.rows ==> t.rows[k] == s.rows[k])
  {
  }

  lemma DeleteStaleExtends(s: Store, connection: string, revision: nat)
    requires StoreInv(s)
    ensures var t := DeleteStale(s, connection, revision); StoreInv(t) && Extends(s, t)
  {
    ThinnedExtends(s, DeleteStale(s, connection, revision));
  }
}
