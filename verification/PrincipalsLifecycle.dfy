module PrincipalsLifecycle {

  // The lifecycle of the release-smoke principals: provisioning and deactivation keep their own guards open, touch
  // nothing else, and replays change nothing, over any run of operations.

  import opened Options
  import opened Principals

  /** All guards are open. */
  ghost predicate Open(db: Db, c: Credentials) {
    LoadOwner(db, c).Ok? && LoadMember(db, c).Ok? && LoadPlatform(db, c).Ok?
  }

  lemma OnlyOne(x: nat)
    ensures Only({x}) == x
  {
    assert Only({x}) in {x};
  }

  predicate SameUser(u: User, v: User) {
    u.identityId == v.identityId && u.tenantId == v.tenantId && u.role == v.role && u.source == v.source
  }

  /** No user is taken away or given another place, and new users do not belong to the identity. */
  predicate SameMembers(db: Db, d: Db, identity: nat) {
    && (forall u <- db.users :: u in d.users && SameUser(db.users[u], d.users[u]))
    && (forall u <- d.users :: u !in db.users ==> d.users[u].identityId != Some(identity))
  }

  lemma SameMemberships(db: Db, d: Db, identity: nat)
    requires SameMembers(db, d, identity)
    ensures Memberships(d, identity) == Memberships(db, identity)
    ensures forall u <- Memberships(db, identity) :: u in db.users && u in d.users && SameUser(db.users[u], d.users[u])
  {}

  /** What the guards look at in an identity. */
  predicate SameIdentity(i: Identity, j: Identity) {
    i.id == j.id && i.mfaEnabled == j.mfaEnabled && i.isPlatformAdmin == j.isPlatformAdmin
  }

  lemma OwnerInside(db: Db, c: Credentials)
    requires LoadOwner(db, c).Ok?
    ensures c.tenantEmail in db.identities && c.tenantId in db.tenants && !db.identities[c.tenantEmail].mfaEnabled
    ensures !db.identities[c.tenantEmail].isPlatformAdmin
    ensures LoadOwner(db, c).value in Memberships(db, db.identities[c.tenantEmail].id)
  {}

  /** The owner's guard gives the same answer when nothing it looks at has changed. */
  lemma OwnerSame(db: Db, d: Db, c: Credentials)
    requires LoadOwner(db, c).Ok? && c.tenantEmail in db.identities && c.tenantEmail in d.identities
    requires SameIdentity(db.identities[c.tenantEmail], d.identities[c.tenantEmail])
    requires SameMembers(db, d, db.identities[c.tenantEmail].id)
    requires c.tenantId in db.tenants && c.tenantId in d.tenants
    requires d.tenants[c.tenantId] == db.tenants[c.tenantId]
          || d.tenants[c.tenantId] == db.tenants[c.tenantId].(ownerUser := Some(LoadOwner(db, c).value))
    ensures LoadOwner(d, c) == LoadOwner(db, c)
  {
    hide Memberships, SameMembers;
    SameMemberships(db, d, db.identities[c.tenantEmail].id);
    OwnerInside(db, c);
  }

  lemma MemberSame(db: Db, d: Db, c: Credentials)
    requires c.memberEmail in db.identities <==> c.memberEmail in d.identities
    requires c.memberEmail in db.identities ==>
      SameIdentity(db.identities[c.memberEmail], d.identities[c.memberEmail]) && SameMembers(db, d, db.identities[c.memberEmail].id)
    ensures LoadMember(d, c) == LoadMember(db, c)
  {
    hide Memberships, SameMembers;
    if c.memberEmail in db.identities { SameMemberships(db, d, db.identities[c.memberEmail].id); }
  }

  lemma PlatformSame(db: Db, d: Db, c: Credentials)
    requires c.platformEmail in db.identities <==> c.platformEmail in d.identities
    requires c.platformEmail in db.identities ==>
      && db.identities[c.platformEmail].id == d.identities[c.platformEmail].id
      && db.identities[c.platformEmail].mfaEnabled == d.identities[c.platformEmail].mfaEnabled
      && SameMembers(db, d, db.identities[c.platformEmail].id)
    ensures LoadPlatform(d, c) == LoadPlatform(db, c)
  {
    hide Memberships, SameMembers;
    if c.platformEmail in db.identities {
      var identity := db.identities[c.platformEmail].id;
      SameMemberships(db, d, identity);
      assert (exists u <- Memberships(d, identity) :: d.users[u].tenantId != None)
        <==> (exists u <- Memberships(db, identity) :: db.users[u].tenantId != None);
    }
  }

  // ----- One principal after the other

  lemma UsersStay(db: Db, d: Db, identity: nat)
    requires d.users.Keys == db.users.Keys && forall u <- db.users :: SameUser(db.users[u], d.users[u])
    ensures SameMembers(db, d, identity)
  {}

  lemma IdsDiffer(db: Db, e: string, f: string)
    requires Valid(db) && e in db.identities && f in db.identities && e != f
    ensures db.identities[e].id != db.identities[f].id
  {}

  lemma OwnerStep(db: Db, c: Credentials, hash: string)
    requires Valid(db) && Distinct(c) && LoadOwner(db, c).Ok?
    ensures var owner := LoadOwner(db, c).value;
      && owner in db.users && c.tenantEmail in db.identities && c.tenantId in db.tenants
      && var d := WithOwner(db, c, owner, hash);
      && Valid(d) && LoadOwner(d, c) == LoadOwner(db, c) && LoadMember(d, c) == LoadMember(db, c)
      && LoadPlatform(d, c) == LoadPlatform(db, c)
  {
    hide LoadOwner, LoadMember, LoadPlatform, Memberships, SameMembers;
    LoadedUsers(db, c);
    OwnerInside(db, c);
    var d := WithOwner(db, c, LoadOwner(db, c).value, hash);
    forall i ensures SameMembers(db, d, i) { UsersStay(db, d, i); }
    OwnerSame(db, d, c);
    MemberSame(db, d, c);
    PlatformSame(db, d, c);
  }

  /** Nobody belongs to an identity that is not there yet. */
  lemma NewIdentityAlone(db: Db)
    requires Valid(db)
    ensures Memberships(db, db.nextId) == {}
  {}

  lemma IdentityValid(db: Db, email: string, hash: string, platform: bool)
    requires Valid(db)
    ensures Valid(WithIdentity(db, email, hash, platform))
  {}

  lemma UserValid(db: Db, user: Option<nat>, row: User)
    requires Valid(db) && (user.Some? ==> user.value in db.users) && row.identityId.Some?
    requires row.identityId.value < db.nextId
    ensures Valid(WithUserOf(db, user, row).0)
  {}

  lemma MemberAdmin(db: Db, c: Credentials)
    requires LoadMember(db, c).Ok? && c.memberEmail in db.identities
    ensures !db.identities[c.memberEmail].isPlatformAdmin && !db.identities[c.memberEmail].mfaEnabled
  {}

  lemma ActivateMember(db: Db, c: Credentials, hash: string)
    requires Valid(db) && Distinct(c) && Open(db, c)
    ensures var d := WithIdentity(db, c.memberEmail, hash, false);
      && Valid(d) && d.users == db.users && c.memberEmail in d.identities
      && LoadOwner(d, c) == LoadOwner(db, c) && LoadMember(d, c) == LoadMember(db, c)
      && LoadPlatform(d, c) == LoadPlatform(db, c)
  {
    hide LoadOwner, LoadMember, LoadPlatform, Memberships, SameMembers, Valid;
    var d := WithIdentity(db, c.memberEmail, hash, false);
    IdentityValid(db, c.memberEmail, hash, false);
    OwnerInside(db, c);
    forall i ensures SameMembers(db, d, i) { UsersStay(db, d, i); }
    OwnerSame(db, d, c);
    PlatformSame(db, d, c);
    if c.memberEmail in db.identities {
      MemberAdmin(db, c);
      MemberSame(db, d, c);
    } else {
      NewIdentityAlone(db);
      SameMemberships(db, d, db.nextId);
      FreshMember(db, c);
      FreshMember(d, c);
    }
  }

  lemma FreshMember(db: Db, c: Credentials)
    requires c.memberEmail in db.identities ==>
      && !db.identities[c.memberEmail].isPlatformAdmin && !db.identities[c.memberEmail].mfaEnabled
      && Memberships(db, db.identities[c.memberEmail].id) == {}
    ensures LoadMember(db, c) == Ok(None)
  {}

  /** A row that fits is loaded. */
  lemma MemberLoads(db: Db, c: Credentials, u: nat)
    requires c.memberEmail in db.identities && u in db.users
    requires !db.identities[c.memberEmail].isPlatformAdmin && !db.identities[c.memberEmail].mfaEnabled
    requires Memberships(db, db.identities[c.memberEmail].id) == {u}
    requires SameUser(db.users[u], MemberRow(db.identities[c.memberEmail].id, c.tenantId))
    ensures LoadMember(db, c) == Ok(Some(u))
  {
    OnlyOne(u);
  }

  lemma MemberNone(db: Db, c: Credentials)
    requires LoadMember(db, c) == Ok(None) && c.memberEmail in db.identities
    ensures Memberships(db, db.identities[c.memberEmail].id) == {}
  {}

  lemma NewMembership(db: Db, d: Db, u: nat, identity: nat)
    requires u !in db.users && d.users.Keys == db.users.Keys + {u}
    requires forall v <- db.users :: SameUser(db.users[v], d.users[v])
    requires d.users[u].identityId == Some(identity)
    ensures Memberships(d, identity) == Memberships(db, identity) + {u}
    ensures forall other :: other != identity ==> SameMembers(db, d, other)
  {}

  lemma AddMember(db: Db, c: Credentials)
    requires Valid(db) && Distinct(c) && Open(db, c) && c.memberEmail in db.identities
    ensures LoadMember(db, c).value.Some? ==> LoadMember(db, c).value.value in db.users
    ensures var (e, u) := WithUserOf(db, LoadMember(db, c).value, MemberRow(db.identities[c.memberEmail].id, c.tenantId));
      && Valid(e) && LoadMember(e, c) == Ok(Some(u)) && u in e.users
      && LoadOwner(e, c) == LoadOwner(db, c) && LoadPlatform(e, c) == LoadPlatform(db, c)
  {
    hide LoadOwner, LoadMember, LoadPlatform, Memberships, SameMembers;
    LoadedUsers(db, c);
    OwnerInside(db, c);
    MemberAdmin(db, c);
    var identity := db.identities[c.memberEmail].id;
    var (e, u) := WithUserOf(db, LoadMember(db, c).value, MemberRow(identity, c.tenantId));
    UserValid(db, LoadMember(db, c).value, MemberRow(identity, c.tenantId));
    IdsDiffer(db, c.memberEmail, c.tenantEmail);
    if c.platformEmail in db.identities { IdsDiffer(db, c.memberEmail, c.platformEmail); }
    if LoadMember(db, c).value.Some? {
      forall i ensures SameMembers(db, e, i) { UsersStay(db, e, i); }
      MemberSame(db, e, c);
    } else {
      MemberNone(db, c);
      NewMembership(db, e, u, identity);
      assert Memberships(e, identity) == {u};
      MemberLoads(e, c, u);
    }
    OwnerSame(db, e, c);
    PlatformSame(db, e, c);
  }

  lemma MemberStep(db: Db, c: Credentials, hash: string)
    requires Valid(db) && Distinct(c) && Open(db, c)
    ensures LoadMember(db, c).value.Some? ==> LoadMember(db, c).value.value in db.users
    ensures var d := WithMember(db, c, LoadMember(db, c).value, hash);
      && Valid(d) && LoadOwner(d, c) == LoadOwner(db, c) && LoadMember(d, c).Ok? && LoadMember(d, c).value.Some?
      && LoadPlatform(d, c) == LoadPlatform(db, c)
  {
    hide LoadOwner, LoadPlatform, LoadMember, WithIdentity, Valid;
    LoadedUsers(db, c);
    ActivateMember(db, c, hash);
    var d := WithIdentity(db, c.memberEmail, hash, false);
    AddMember(d, c);
    var (e, u) := WithUserOf(d, LoadMember(db, c).value, MemberRow(d.identities[c.memberEmail].id, c.tenantId));
    ParticipantsDoNotMatter(e, c, e.participants + {u}, e.receipts);
  }

  lemma ParticipantsDoNotMatter(db: Db, c: Credentials, participants: set<nat>, receipts: seq<Receipt>)
    ensures var d := db.(participants := participants, receipts := receipts);
      && LoadOwner(d, c) == LoadOwner(db, c) && LoadMember(d, c) == LoadMember(db, c)
      && LoadPlatform(d, c) == LoadPlatform(db, c)
      && (Valid(d) <==> Valid(db))
  {
    var d := db.(participants := participants, receipts := receipts);
    assert forall i :: Memberships(d, i) == Memberships(db, i);
  }

  lemma FreshPlatform(db: Db, c: Credentials)
    requires c.platformEmail in db.identities ==>
      !db.identities[c.platformEmail].mfaEnabled && Memberships(db, db.identities[c.platformEmail].id) == {}
    ensures LoadPlatform(db, c) == Ok(None)
  {}

  lemma PlatformNone(db: Db, c: Credentials)
    requires LoadPlatform(db, c) == Ok(None) && c.platformEmail in db.identities
    ensures Memberships(db, db.identities[c.platformEmail].id) == {}
  {}

  lemma PlatformMfa(db: Db, c: Credentials)
    requires LoadPlatform(db, c).Ok?
    ensures c.platformEmail in db.identities ==> !db.identities[c.platformEmail].mfaEnabled
    ensures LoadPlatform(db, c).value.Some? ==>
      && c.platformEmail in db.identities && LoadPlatform(db, c).value.value in db.users
      && db.users[LoadPlatform(db, c).value.value].identityId == Some(db.identities[c.platformEmail].id)
  {}

  lemma PlatformLoads(db: Db, c: Credentials, u: nat)
    requires c.platformEmail in db.identities && u in db.users && !db.identities[c.platformEmail].mfaEnabled
    requires Memberships(db, db.identities[c.platformEmail].id) == {u}
    requires SameUser(db.users[u], PlatformRow(db.identities[c.platformEmail].id))
    ensures LoadPlatform(db, c) == Ok(Some(u))
  {
    OnlyOne(u);
  }

  lemma ActivatePlatform(db: Db, c: Credentials, hash: string)
    requires Valid(db) && Distinct(c) && Open(db, c)
    ensures var d := WithIdentity(db, c.platformEmail, hash, true);
      && Valid(d) && d.users == db.users && c.platformEmail in d.identities
      && LoadOwner(d, c) == LoadOwner(db, c) && LoadMember(d, c) == LoadMember(db, c)
      && LoadPlatform(d, c) == LoadPlatform(db, c)
  {
    hide LoadOwner, LoadMember, LoadPlatform, Memberships, SameMembers, Valid;
    var d := WithIdentity(db, c.platformEmail, hash, true);
    IdentityValid(db, c.platformEmail, hash, true);
    OwnerInside(db, c);
    forall i ensures SameMembers(db, d, i) { UsersStay(db, d, i); }
    OwnerSame(db, d, c);
    MemberSame(db, d, c);
    if c.platformEmail in db.identities {
      PlatformSame(db, d, c);
    } else {
      NewIdentityAlone(db);
      SameMemberships(db, d, db.nextId);
      FreshPlatform(db, c);
      FreshPlatform(d, c);
    }
  }

  lemma AddPlatform(db: Db, c: Credentials)
    requires Valid(db) && Distinct(c) && Open(db, c) && c.platformEmail in db.identities
    ensures LoadPlatform(db, c).value.Some? ==> LoadPlatform(db, c).value.value in db.users
    ensures var (e, u) := WithUserOf(db, LoadPlatform(db, c).value, PlatformRow(db.identities[c.platformEmail].id));
      && Valid(e) && LoadPlatform(e, c) == Ok(Some(u)) && u in e.users && e.users[u].isActive && e.identities == db.identities
      && LoadOwner(e, c) == LoadOwner(db, c) && LoadMember(e, c) == LoadMember(db, c)
  {
    hide LoadOwner, LoadMember, LoadPlatform, Memberships, SameMembers;
    LoadedUsers(db, c);
    OwnerInside(db, c);
    PlatformMfa(db, c);
    var identity := db.identities[c.platformEmail].id;
    var (e, u) := WithUserOf(db, LoadPlatform(db, c).value, PlatformRow(identity));
    UserValid(db, LoadPlatform(db, c).value, PlatformRow(identity));
    IdsDiffer(db, c.platformEmail, c.tenantEmail);
    if c.memberEmail in db.identities { IdsDiffer(db, c.memberEmail, c.platformEmail); }
    if LoadPlatform(db, c).value.Some? {
      forall i ensures SameMembers(db, e, i) { UsersStay(db, e, i); }
      PlatformSame(db, e, c);
    } else {
      PlatformNone(db, c);
      NewMembership(db, e, u, identity);
      assert Memberships(e, identity) == {u};
      PlatformLoads(e, c, u);
    }
    OwnerSame(db, e, c);
    MemberSame(db, e, c);
  }

  lemma PlatformStep(db: Db, c: Credentials, hash: string)
    requires Valid(db) && Distinct(c) && Open(db, c)
    ensures LoadPlatform(db, c).value.Some? ==> LoadPlatform(db, c).value.value in db.users
    ensures var d := WithPlatform(db, c, LoadPlatform(db, c).value, hash);
      && Valid(d) && LoadOwner(d, c) == LoadOwner(db, c) && LoadMember(d, c) == LoadMember(db, c)
      && AuthorityActive(d, c)
  {
    hide LoadOwner, LoadPlatform, LoadMember, Valid;
    LoadedUsers(db, c);
    ActivatePlatform(db, c, hash);
    AddPlatform(WithIdentity(db, c.platformEmail, hash, true), c);
  }

  // ----- Transactions

  predicate Fresh(db: Db, action: Action, operation: nat) { Receipt(action, operation) !in db.receipts }

  /** Provisioning succeeds exactly when the operation is recorded or all guards are open. Afterwards they are open, and
      the platform operator has its authority. */
  lemma ProvisionReopens(db: Db, c: Credentials, h: Hashes, operation: nat)
    requires Valid(db) && Distinct(c)
    ensures var r := Provision(db, c, h, operation);
      && (r.Ok? <==> !Fresh(db, Provisioned, operation) || Open(db, c))
      && (r.Ok? ==> Valid(r.value))
      && (r.Ok? && Fresh(db, Provisioned, operation) ==> Open(r.value, c) && AuthorityActive(r.value, c))
      && (!Fresh(db, Provisioned, operation) ==> r == Ok(db))
  {
    hide LoadOwner, LoadPlatform, LoadMember, Valid, WithOwner, WithMember, WithPlatform;
    if Fresh(db, Provisioned, operation) && Open(db, c) {
      LoadedUsers(db, c);
      OwnerStep(db, c, h.owner);
      var d1 := WithOwner(db, c, LoadOwner(db, c).value, h.owner);
      MemberStep(d1, c, h.member);
      var d2 := WithMember(d1, c, LoadMember(db, c).value, h.member);
      PlatformStep(d2, c, h.platform);
      var d3 := WithPlatform(d2, c, LoadPlatform(db, c).value, h.platform);
      ParticipantsDoNotMatter(d3, c, d3.participants, d3.receipts + [Receipt(Provisioned, operation)]);
    }
  }

  /** Deactivation succeeds exactly when the operation is recorded, or the owner's and the operator's guards are open
      and there is an operator. It keeps every guard open, and takes the operator's authority and password away. */
  lemma DeactivateReopens(db: Db, c: Credentials, operation: nat)
    requires Valid(db) && Distinct(c)
    ensures var r := Deactivate(db, c, operation); var isFresh := Fresh(db, PlatformDeactivated, operation);
      && (r.Ok? <==> !isFresh || (LoadOwner(db, c).Ok? && LoadPlatform(db, c).Ok? && LoadPlatform(db, c).value.Some?))
      && (r.Ok? ==> Valid(r.value))
      && (r.Ok? && isFresh ==>
            && (Open(db, c) ==> Open(r.value, c))
            && LoadPlatform(r.value, c) == LoadPlatform(db, c)
            && !AuthorityActive(r.value, c)
            && c.platformEmail in r.value.identities && r.value.identities[c.platformEmail].passwordHash == None
            && !LoginReady(r.value.identities[c.platformEmail]))
      && (!isFresh ==> r == Ok(db))
  {
    hide LoadOwner, LoadPlatform, LoadMember, Memberships, SameMembers;
    var r := Deactivate(db, c, operation);
    LoadedUsers(db, c);
    if r.Ok? && Fresh(db, PlatformDeactivated, operation) {
      OwnerInside(db, c);
      PlatformMfa(db, c);
      forall i ensures SameMembers(db, r.value, i) { UsersStay(db, r.value, i); }
      OwnerSame(db, r.value, c);
      PlatformSame(db, r.value, c);
      MemberSame(db, r.value, c);
    }
  }

  // ----- Frames

  predicate Touched(c: Credentials,
                    email: string) { email == c.tenantEmail || email == c.memberEmail || email == c.platformEmail }

  function Version(db: Db,
                   email: string): nat { if email in db.identities then db.identities[email].authVersion else 0 }

  /** The three edits of an applied provisioning. */
  lemma ProvisionIs(db: Db, c: Credentials, h: Hashes, operation: nat)
    requires Valid(db) && Distinct(c) && Open(db, c) && Fresh(db, Provisioned, operation)
    ensures c.tenantEmail in db.identities && c.tenantId in db.tenants
    ensures LoadOwner(db, c).value in db.users
    ensures LoadMember(db, c).value.Some? ==> LoadMember(db, c).value.value in db.users
    ensures LoadPlatform(db, c).value.Some? ==> LoadPlatform(db, c).value.value in db.users
    ensures var d1 := WithOwner(db, c, LoadOwner(db, c).value, h.owner);
      var d2 := WithMember(d1, c, LoadMember(db, c).value, h.member);
      var d3 := WithPlatform(d2, c, LoadPlatform(db, c).value, h.platform);
      Provision(db, c, h, operation) == Ok(WithReceipt(d3, Receipt(Provisioned, operation)))
  {
    hide LoadOwner, LoadPlatform, LoadMember;
    LoadedUsers(db, c);
    OwnerInside(db, c);
  }

  /** One identity activated, the others as they were. */
  lemma IdentityTouch(db: Db, email: string, hash: string, platform: bool)
    ensures var d := WithIdentity(db, email, hash, platform);
      && d.identities.Keys == db.identities.Keys + {email}
      && (forall e <- db.identities :: e != email ==> d.identities[e] == db.identities[e])
      && Version(d, email) == Version(db, email) + 1
      && d.identities[email].isPlatformAdmin == platform
      && (hash != "" && (email in db.identities ==> !db.identities[email].mfaEnabled) ==> LoginReady(d.identities[email]))
  {}

  lemma IdentityUsers(db: Db, email: string, hash: string, platform: bool)
    ensures WithIdentity(db, email, hash, platform).users == db.users
    ensures WithIdentity(db, email, hash, platform).tenants == db.tenants
  {}

  /** What an applied provisioning makes of the identities. */
  lemma ProvisionIdentities(db: Db, c: Credentials, h: Hashes, operation: nat)
    requires Valid(db) && Distinct(c) && Open(db, c) && Fresh(db, Provisioned, operation)
    ensures Provision(db, c, h, operation).Ok?
    ensures var i1 := WithIdentity(db, c.tenantEmail, h.owner, false);
      exists d1: Db, d2: Db ::
        && d1.identities == i1.identities && d2.identities == WithIdentity(d1, c.memberEmail, h.member, false).identities
        && Provision(db, c, h, operation).value.identities == WithIdentity(d2, c.platformEmail, h.platform, true).identities
  {
    hide LoadOwner, LoadPlatform, LoadMember, WithIdentity;
    ProvisionIs(db, c, h, operation);
    IdentityUsers(db, c.tenantEmail, h.owner, false);
    var d1 := WithOwner(db, c, LoadOwner(db, c).value, h.owner);
    IdentityUsers(d1, c.memberEmail, h.member, false);
    var d2 := WithMember(d1, c, LoadMember(db, c).value, h.member);
    assert d1.identities == WithIdentity(db, c.tenantEmail, h.owner, false).identities;
    assert d2.identities == WithIdentity(d1, c.memberEmail, h.member, false).identities;
  }

  lemma VersionKept(db: Db, d: Db, email: string, hash: string, platform: bool, e: string)
    requires d.identities == WithIdentity(db, email, hash, platform).identities
    ensures Version(d, e) == Version(db, e) + if e == email then 1 else 0
  {
    IdentityTouch(db, email, hash, platform);
  }

  /** Three identities activated one after the other. */
  lemma ThreeTouches(db: Db, d1: Db, d2: Db, d: Db, c: Credentials, h: Hashes)
    requires Distinct(c)
    requires d1.identities == WithIdentity(db, c.tenantEmail, h.owner, false).identities
    requires d2.identities == WithIdentity(d1, c.memberEmail, h.member, false).identities
    requires d.identities == WithIdentity(d2, c.platformEmail, h.platform, true).identities
    requires forall e <- db.identities :: Touched(c, e) ==> !db.identities[e].mfaEnabled
    ensures d.identities.Keys == db.identities.Keys + {c.tenantEmail, c.memberEmail, c.platformEmail}
    ensures forall e :: Version(d, e) == Version(db, e) + if Touched(c, e) then 1 else 0
    ensures forall e <- db.identities :: !Touched(c, e) ==> d.identities[e] == db.identities[e]
    ensures h.owner != "" ==> LoginReady(d.identities[c.tenantEmail])
    ensures h.member != "" ==> LoginReady(d.identities[c.memberEmail])
    ensures h.platform != "" ==> LoginReady(d.identities[c.platformEmail])
    ensures !d.identities[c.tenantEmail].isPlatformAdmin && !d.identities[c.memberEmail].isPlatformAdmin
    ensures d.identities[c.platformEmail].isPlatformAdmin
  {
    hide WithIdentity, LoginReady, Version;
    IdentityTouch(db, c.tenantEmail, h.owner, false);
    IdentityTouch(d1, c.memberEmail, h.member, false);
    IdentityTouch(d2, c.platformEmail, h.platform, true);
    forall e ensures Version(d, e) == Version(db, e) + if Touched(c, e) then 1 else 0 {
      VersionKept(db, d1, c.tenantEmail, h.owner, false, e);
      VersionKept(d1, d2, c.memberEmail, h.member, false, e);
      VersionKept(d2, d, c.platformEmail, h.platform, true, e);
    }
  }

  /** An applied provisioning raises the version of exactly the three identities by one, makes all three ready to log
      in, and changes no other identity. */
  lemma ProvisionTouches(db: Db, c: Credentials, h: Hashes, operation: nat)
    requires Valid(db) && Distinct(c) && Open(db, c) && Fresh(db, Provisioned, operation)
    ensures Provision(db, c, h, operation).Ok?
    ensures var d := Provision(db, c, h, operation).value;
      && d.identities.Keys == db.identities.Keys + {c.tenantEmail, c.memberEmail, c.platformEmail}
      && (forall e :: Version(d, e) == Version(db, e) + if Touched(c, e) then 1 else 0)
      && (forall e <- db.identities :: !Touched(c, e) ==> d.identities[e] == db.identities[e])
      && (h.owner != "" ==> LoginReady(d.identities[c.tenantEmail]))
      && (h.member != "" ==> LoginReady(d.identities[c.memberEmail]))
      && (h.platform != "" ==> LoginReady(d.identities[c.platformEmail]))
      && !d.identities[c.tenantEmail].isPlatformAdmin && !d.identities[c.memberEmail].isPlatformAdmin
      && d.identities[c.platformEmail].isPlatformAdmin
      && d.receipts == db.receipts + [Receipt(Provisioned, operation)]
  {
    hide LoadOwner, LoadPlatform, LoadMember, WithIdentity, Valid, Provision, LoginReady, Version;
    OwnerInside(db, c);
    if c.memberEmail in db.identities { MemberAdmin(db, c); }
    PlatformMfa(db, c);
    ProvisionIdentities(db, c, h, operation);
    var d1: Db, d2: Db :| d1.identities == WithIdentity(db, c.tenantEmail, h.owner, false).identities
      && d2.identities == WithIdentity(d1, c.memberEmail, h.member, false).identities
      && Provision(db, c, h, operation).value.identities == WithIdentity(d2, c.platformEmail, h.platform, true).identities;
    ThreeTouches(db, d1, d2, Provision(db, c, h, operation).value, c, h);
    ProvisionRecords(db, c, h, operation);
  }

  lemma ProvisionRecords(db: Db, c: Credentials, h: Hashes, operation: nat)
    requires Valid(db) && Distinct(c) && Open(db, c) && Fresh(db, Provisioned, operation)
    ensures Provision(db, c, h, operation).Ok?
    ensures Provision(db, c, h, operation).value.receipts == db.receipts + [Receipt(Provisioned, operation)]
    ensures Provision(db, c, h, operation).value.participants >= db.participants
  {
    hide LoadOwner, LoadPlatform, LoadMember, Valid;
    ProvisionIs(db, c, h, operation);
  }

  /** The user belongs to an identity of the three emails. */
  predicate Principal(db: Db, c: Credentials, u: nat) {
    u in db.users && exists e <- db.identities :: Touched(c, e) && db.users[u].identityId == Some(db.identities[e].id)
  }

  lemma OwnerSpares(db: Db, c: Credentials, owner: nat, hash: string, u: nat)
    requires c.tenantEmail in db.identities && owner in db.users && c.tenantId in db.tenants && u in db.users
    requires u != owner
    ensures var d := WithOwner(db, c, owner, hash); u in d.users && d.users[u] == db.users[u] && d.nextId == db.nextId
    ensures WithOwner(db, c, owner, hash).users.Keys == db.users.Keys
  {}

  lemma MemberSpares(db: Db, c: Credentials, member: Option<nat>, hash: string, u: nat)
    requires member.Some? ==> member.value in db.users
    requires u in db.users && u < db.nextId && member != Some(u)
    ensures var d := WithMember(db, c, member, hash); u in d.users && d.users[u] == db.users[u] && d.nextId >= db.nextId
    ensures WithMember(db, c, member, hash).users.Keys >= db.users.Keys
  {}

  lemma PlatformSpares(db: Db, c: Credentials, user: Option<nat>, hash: string, u: nat)
    requires user.Some? ==> user.value in db.users
    requires u in db.users && u < db.nextId && user != Some(u)
    ensures var d := WithPlatform(db, c, user, hash); u in d.users && d.users[u] == db.users[u]
  {}

  /** An applied provisioning changes no user of anyone else. */
  lemma ProvisionSparesUsers(db: Db, c: Credentials, h: Hashes, operation: nat, u: nat)
    requires Valid(db) && Distinct(c) && Open(db, c) && Fresh(db, Provisioned, operation) && u in db.users
    requires !Principal(db, c, u)
    ensures Provision(db, c, h, operation).Ok?
    ensures var d := Provision(db, c, h, operation).value; u in d.users && d.users[u] == db.users[u]
  {
    hide LoadOwner, LoadPlatform, LoadMember, Principal, WithOwner, WithMember, WithPlatform;
    ProvisionIs(db, c, h, operation);
    NotLoaded(db, c, u);
    OwnerSpares(db, c, LoadOwner(db, c).value, h.owner, u);
    var d1 := WithOwner(db, c, LoadOwner(db, c).value, h.owner);
    assert u < d1.nextId;
    MemberSpares(d1, c, LoadMember(db, c).value, h.member, u);
    PlatformSpares(WithMember(d1, c, LoadMember(db, c).value, h.member), c, LoadPlatform(db, c).value, h.platform, u);
  }

  lemma OwnerAdds(db: Db, c: Credentials, owner: nat, hash: string)
    requires Valid(db) && c.tenantEmail in db.identities && owner in db.users && c.tenantId in db.tenants
    ensures var d := WithOwner(db, c, owner, hash);
      d.users.Keys == db.users.Keys && d.participants == db.participants && forall x <- d.users :: x < d.nextId
  {}

  /** The user ids in use, before and after the member's step. */
  lemma MemberAdds(db: Db, c: Credentials, member: Option<nat>, hash: string) returns (u: nat)
    requires member.Some? ==> member.value in db.users
    requires forall x <- db.users :: x < db.nextId
    ensures var d := WithMember(db, c, member, hash);
      && d.users.Keys == db.users.Keys + {u} && d.participants == db.participants + {u} && (forall x <- d.users :: x < d.nextId)
      && c.memberEmail in d.identities
      && (match member
          case Some(x) => u == x
          case None => u !in db.users && d.users[u] == MemberRow(d.identities[c.memberEmail].id, c.tenantId))
  {
    u := if member.Some? then member.value else WithIdentity(db, c.memberEmail, hash, false).nextId;
  }

  lemma OperatorAdds(db: Db, c: Credentials, user: Option<nat>, hash: string) returns (u: nat)
    requires user.Some? ==> user.value in db.users
    requires forall x <- db.users :: x < db.nextId
    ensures var d := WithPlatform(db, c, user, hash);
      && d.users.Keys == db.users.Keys + {u} && d.participants == db.participants
      && c.platformEmail in d.identities
      && (match user
          case Some(x) => u == x
          case None => u !in db.users && d.users[u] == PlatformRow(d.identities[c.platformEmail].id))
      && (forall x <- db.users :: x != u ==> d.users[x] == db.users[x])
      && (forall e <- db.identities :: e != c.platformEmail ==> e in d.identities && d.identities[e] == db.identities[e])
  {
    u := if user.Some? then user.value else WithIdentity(db, c.platformEmail, hash, true).nextId;
  }

  /** What an applied provisioning may add: the member's user and the operator's user, each exactly when the guard found
      none, and the member's participant. */
  lemma ProvisionAdds(db: Db, c: Credentials, h: Hashes, operation: nat) returns (member: nat, operator: nat)
    requires Valid(db) && Distinct(c) && Open(db, c) && Fresh(db, Provisioned, operation)
    ensures Provision(db, c, h, operation).Ok?
    ensures var d := Provision(db, c, h, operation).value;
      && d.users.Keys == db.users.Keys + {member, operator}
      && d.participants == db.participants + {member}
      && c.memberEmail in d.identities && c.platformEmail in d.identities
      && (match LoadMember(db, c).value
          case Some(u) => member == u
          case None => member !in db.users && d.users[member] == MemberRow(d.identities[c.memberEmail].id, c.tenantId))
      && (match LoadPlatform(db, c).value
          case Some(u) => operator == u
          case None => operator !in db.users && d.users[operator] == PlatformRow(d.identities[c.platformEmail].id))
  {
    hide LoadOwner, LoadPlatform, LoadMember, WithOwner, WithMember, WithPlatform;
    LoadedUsers(db, c);
    ProvisionIs(db, c, h, operation);
    var owner := LoadOwner(db, c).value;
    var d1 := WithOwner(db, c, owner, h.owner);
    OwnerAdds(db, c, owner, h.owner);
    member := MemberAdds(d1, c, LoadMember(db, c).value, h.member);
    var d2 := WithMember(d1, c, LoadMember(db, c).value, h.member);
    operator := OperatorAdds(d2, c, LoadPlatform(db, c).value, h.platform);
  }

  /** An applied provisioning changes no tenant but the named one, and there only the owner, who is its one owner. */
  lemma ProvisionSparesTenants(db: Db, c: Credentials, h: Hashes, operation: nat)
    requires Valid(db) && Distinct(c) && Open(db, c) && Fresh(db, Provisioned, operation)
    ensures Provision(db, c, h, operation).Ok? && c.tenantId in db.tenants
    ensures Provision(db, c, h, operation).value.tenants
         == db.tenants[c.tenantId := db.tenants[c.tenantId].(ownerUser := Some(LoadOwner(db, c).value))]
  {
    hide LoadOwner, LoadPlatform, LoadMember;
    ProvisionIs(db, c, h, operation);
  }

  lemma NotLoaded(db: Db, c: Credentials, u: nat)
    requires Open(db, c) && u in db.users && !Principal(db, c, u)
    ensures u != LoadOwner(db, c).value && LoadMember(db, c).value != Some(u) && LoadPlatform(db, c).value != Some(u)
  {
    OwnerInside(db, c);
    assert Only(Memberships(db, db.identities[c.tenantEmail].id)) in Memberships(db, db.identities[c.tenantEmail].id);
    assert Touched(c, c.tenantEmail) && Touched(c, c.memberEmail) && Touched(c, c.platformEmail);
  }

  /** An applied deactivation raises the operator's version by one and changes no other identity, no other user, and no
      tenant. */
  lemma DeactivateTouches(db: Db, c: Credentials, operation: nat)
    requires Valid(db) && Distinct(c) && Fresh(db, PlatformDeactivated, operation) && Deactivate(db, c, operation).Ok?
    ensures var d := Deactivate(db, c, operation).value;
      && LoadPlatform(db, c).Ok? && LoadPlatform(db, c).value.Some?
      && (forall e :: Version(d, e) == Version(db, e) + if e == c.platformEmail then 1 else 0)
      && d.identities.Keys == db.identities.Keys && d.users.Keys == db.users.Keys
      && (forall e <- db.identities :: e != c.platformEmail ==> d.identities[e] == db.identities[e])
      && (forall u <- db.users :: u != LoadPlatform(db, c).value.value ==> d.users[u] == db.users[u])
      && d.tenants == db.tenants && d.participants == db.participants
      && d.receipts == db.receipts + [Receipt(PlatformDeactivated, operation)]
  {
    hide LoadOwner, LoadPlatform;
    LoadedUsers(db, c);
    PlatformMfa(db, c);
  }

  // ----- Runs of operations

  datatype Operation = DoProvision(hashes: Hashes, operation: nat) | DoDeactivate(operation: nat)

  /** A transaction that raises leaves the database as it was. */
  ghost function Apply(db: Db, c: Credentials, o: Operation): Db {
    var r := match o case DoProvision(h, n) => Provision(db, c, h, n) case DoDeactivate(n) => Deactivate(db, c, n);
    if r.Ok? then r.value else db
  }

  ghost function Run(db: Db, c: Credentials, ops: seq<Operation>): Db
    decreases |ops|
  {
    if ops == [] then db else Run(Apply(db, c, ops[0]), c, ops[1..])
  }

  /** The operation is not a replay and does not raise. */
  ghost predicate Applies(db: Db, c: Credentials, o: Operation) {
    match o
    case DoProvision(h, n) => Fresh(db, Provisioned, n) && Open(db, c)
    case DoDeactivate(n) => Fresh(db, PlatformDeactivated, n) && Open(db, c) && LoadPlatform(db, c).value.Some?
  }

  lemma ApplyKeeps(db: Db, c: Credentials, o: Operation)
    requires Valid(db) && Distinct(c) && Open(db, c)
    ensures var d := Apply(db, c, o);
      && Valid(d) && Open(d, c)
      && (!Applies(db, c, o) ==> d == db)
      && (Applies(db, c, o) ==> (AuthorityActive(d, c) <==> o.DoProvision?))
      && (Applies(db, c, o) && o.DoProvision? ==> forall e :: Version(d, e) == Version(db, e) + if Touched(c, e) then 1 else 0)
      && (Applies(db, c, o) && o.DoDeactivate? ==>
            forall e :: Version(d, e) == Version(db, e) + if e == c.platformEmail then 1 else 0)
  {
    hide LoadOwner, LoadPlatform, LoadMember, Valid, Provision, Deactivate, AuthorityActive;
    match o
    case DoProvision(h, n) =>
      ProvisionReopens(db, c, h, n);
      if Applies(db, c, o) { ProvisionTouches(db, c, h, n); }
    case DoDeactivate(n) =>
      DeactivateReopens(db, c, n);
      if Applies(db, c, o) { DeactivateTouches(db, c, n); }
  }

  /** Whether the last applied operation of a run gives the operator its authority; `active` before the run. */
  ghost function LastWord(db: Db, c: Credentials, ops: seq<Operation>, active: bool): bool
    decreases |ops|
  {
    if ops == [] then active
    else LastWord(Apply(db, c, ops[0]), c, ops[1..], if Applies(db, c, ops[0]) then ops[0].DoProvision? else active)
  }

  ghost function CountApplied(db: Db, c: Credentials, ops: seq<Operation>, provisions: bool): nat
    decreases |ops|
  {
    if ops == [] then 0
    else (if Applies(db, c, ops[0]) && ops[0].DoProvision? == provisions then 1 else 0)
         + CountApplied(Apply(db, c, ops[0]), c, ops[1..], provisions)
  }

  /** Over any run of operations, replays among them, all guards stay open; the operator has its authority exactly when
      the last applied operation was a provisioning, so no replay gives it back; and every version counts the applied
      operations that touch its identity. */
  lemma {:induction false} RunLifecycle(db: Db, c: Credentials, ops: seq<Operation>)
    requires Valid(db) && Distinct(c) && Open(db, c)
    ensures var d := Run(db, c, ops);
      && Valid(d) && Open(d, c)
      && (AuthorityActive(d, c) <==> LastWord(db, c, ops, AuthorityActive(db, c)))
      && (forall e :: Version(d, e) == Version(db, e)
                        + (if Touched(c, e) then CountApplied(db, c, ops, true) else 0)
                        + (if e == c.platformEmail then CountApplied(db, c, ops, false) else 0))
    decreases |ops|
  {
    hide Valid, Open, AuthorityActive, Version, Apply, Applies;
    if ops != [] {
      var o := ops[0];
      ApplyKeeps(db, c, o);
      PlatformIsTouched(c);
      RunLifecycle(Apply(db, c, o), c, ops[1..]);
    }
  }

  lemma PlatformIsTouched(c: Credentials)
    ensures Touched(c, c.platformEmail)
  {}

  /** Provision, deactivate, provision again: each step can follow the one before. */
  lemma CycleCanGoOn(db: Db, c: Credentials, h: Hashes, n: nat, m: nat, k: nat)
    requires Valid(db) && Distinct(c) && Open(db, c) && n != k
    requires Fresh(db, Provisioned, n) && Fresh(db, PlatformDeactivated, m) && Fresh(db, Provisioned, k)
    ensures Provision(db, c, h, n).Ok?
    ensures Deactivate(Provision(db, c, h, n).value, c, m).Ok?
    ensures Provision(Deactivate(Provision(db, c, h, n).value, c, m).value, c, h, k).Ok?
    ensures AuthorityActive(Provision(Deactivate(Provision(db, c, h, n).value, c, m).value, c, h, k).value, c)
    ensures Provision(Deactivate(Provision(db, c, h, n).value, c, m).value, c, h, n)
         == Ok(Deactivate(Provision(db, c, h, n).value, c, m).value)
  {
    hide LoadOwner, LoadPlatform, LoadMember, Valid, Provision, Deactivate;
    ProvisionReopens(db, c, h, n);
    ProvisionTouches(db, c, h, n);
    var d := Provision(db, c, h, n).value;
    DeactivateReopens(d, c, m);
    DeactivateTouches(d, c, m);
    var e := Deactivate(d, c, m).value;
    ProvisionReopens(e, c, h, k);
    ProvisionReopens(e, c, h, n);
  }
}
