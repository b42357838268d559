/** The release-smoke principals: guards, provisioning and deactivation as transactions on the identity tables. */
module Principals {

  import opened Options

  datatype Result<+T> = Ok(value: T) | Err(code: string) {
    predicate IsFailure() { Err? }
    function PropagateFailure<U>(): Result<U>
      requires Err?
    {
      Err(code)
    }
    function Extract(): T
      requires Ok?
    {
      value
    }
  }

  datatype Identity = Identity(id: nat, passwordHash: Option<string>, passwordLogin: bool, authVersion: nat, isActive: bool,
                               isPlatformAdmin: bool, emailVerified: bool, mfaEnabled: bool)

  datatype Role = OrgOwner | Member | PlatformAdmin | OtherRole

  datatype User = User(identityId: Option<nat>, tenantId: Option<nat>, role: Role, source: string, isActive: bool,
                       activationPending: bool)

  datatype Tenant = Tenant(name: string, slug: string, isActive: bool, ownerUser: Option<nat>, deletionRequested: bool,
                           deletionScheduled: bool)

  datatype Action = Provisioned | PlatformDeactivated

  datatype Receipt = Receipt(action: Action, operation: nat)

  /** The tables, identities by their unique email. Ids below `nextId` are in use. */
  datatype Db = Db(identities: map<string, Identity>, users: map<nat, User>, tenants: map<nat, Tenant>,
                   participants: set<nat>, receipts: seq<Receipt>, nextId: nat)

  datatype Credentials = Credentials(tenantEmail: string, tenantId: nat, platformEmail: string, memberEmail: string)

  /** The hashes of the owner's, the member's and the platform operator's password. */
  datatype Hashes = Hashes(owner: string, member: string, platform: string)

  const RELEASE_SMOKE := "release_smoke"

  /** What parsing the credentials establishes about their emails. */
  predicate Distinct(c: Credentials) {
    c.tenantEmail != c.memberEmail && c.tenantEmail != c.platformEmail && c.memberEmail != c.platformEmail
  }

  /** What the schema keeps: identity ids are unique, and new ids are unused. */
  predicate Valid(db: Db) {
    && (forall e <- db.identities :: db.identities[e].id < db.nextId)
    && (forall e <- db.identities, f <- db.identities :: e != f ==> db.identities[e].id != db.identities[f].id)
    && (forall u <- db.users :: u < db.nextId && (db.users[u].identityId.Some? ==> db.users[u].identityId.value < db.nextId))
  }

  // ----- Guards

  /** `_release_qa_tenant`. */
  predicate ReleaseQa(t: Tenant) {
    t.isActive && "Release QA " <= t.name && "release-qa-" <= t.slug && !t.deletionRequested && !t.deletionScheduled
  }

  function Memberships(db: Db, identity: nat): set<nat> { set u <- db.users | db.users[u].identityId == Some(identity) }

  ghost function Only(s: set<nat>): nat
    requires s != {}
  {
    var x :| x in s;
    x
  }

  /** The owner's membership, after all checks. */
  ghost function LoadOwner(db: Db, c: Credentials): Result<nat> {
    if c.tenantId !in db.tenants || !ReleaseQa(db.tenants[c.tenantId]) then Err("release_qa_tenant_required")
    else if c.tenantEmail !in db.identities then Err("release_qa_owner_identity_missing")
    else
      var identity := db.identities[c.tenantEmail];
      var memberships := Memberships(db, identity.id);
      if |memberships| != 1 then Err("release_qa_owner_must_have_one_membership")
      else
        var owner := db.users[Only(memberships)];
        if owner.tenantId != Some(c.tenantId) then Err("release_qa_owner_tenant_mismatch")
        else if owner.role != OrgOwner then Err("release_qa_owner_role_mismatch")
        else if owner.source != RELEASE_SMOKE then Err("release_qa_owner_source_mismatch")
        else if identity.isPlatformAdmin then Err("release_qa_owner_must_not_be_platform_admin")
        else if identity.mfaEnabled then Err("release_qa_owner_mfa_not_automatable")
        else if db.tenants[c.tenantId].ownerUser !in {None, Some(Only(memberships))} then
          Err("release_qa_tenant_owner_pointer_mismatch")
        else Ok(Only(memberships))
  }

  /** The member's membership, if there is one. */
  ghost function LoadMember(db: Db, c: Credentials): Result<Option<nat>> {
    if c.memberEmail !in db.identities then Ok(None)
    else
      var identity := db.identities[c.memberEmail];
      var memberships := Memberships(db, identity.id);
      if identity.isPlatformAdmin then Err("release_smoke_member_platform_flag_forbidden")
      else if identity.mfaEnabled then Err("release_smoke_member_mfa_not_automatable")
      else if |memberships| > 1 then Err("release_smoke_member_multiple_memberships_forbidden")
      else if memberships == {} then Ok(None)
      else
        var member := db.users[Only(memberships)];
        if member.tenantId != Some(c.tenantId) then Err("release_smoke_member_tenant_mismatch")
        else if member.role != Member then Err("release_smoke_member_role_mismatch")
        else if member.source != RELEASE_SMOKE then Err("release_smoke_member_source_mismatch")
        else Ok(Some(Only(memberships)))
  }

  /** The platform operator's user, if there is one. */
  ghost function LoadPlatform(db: Db, c: Credentials): Result<Option<nat>> {
    if c.platformEmail !in db.identities then Ok(None)
    else
      var identity := db.identities[c.platformEmail];
      var memberships := Memberships(db, identity.id);
      if identity.mfaEnabled then Err("release_smoke_platform_mfa_not_automatable")
      else if exists u <- memberships :: db.users[u].tenantId != None then
        Err("release_smoke_platform_company_membership_forbidden")
      else if |memberships| > 1 then Err("release_smoke_platform_multiple_users_forbidden")
      else if memberships == {} then Ok(None)
      else
        var user := db.users[Only(memberships)];
        if user.role != PlatformAdmin then Err("release_smoke_platform_role_mismatch")
        else if user.source != RELEASE_SMOKE then Err("release_smoke_platform_source_mismatch")
        else Ok(Some(Only(memberships)))
  }

  // ----- Edits

  /** `_activate_identity`. */
  function Activated(i: Identity, hash: string, platform: bool): Identity {
    i.(passwordHash := Some(hash), passwordLogin := true, authVersion := i.authVersion + 1, isActive := true,
       isPlatformAdmin := platform, emailVerified := true)
  }

  /** A new identity row with its defaults. */
  function NewIdentity(id: nat): Identity { Identity(id, None, false, 0, true, false, false, false) }

  /** The identity of an email, created when it is not there, and activated. */
  function WithIdentity(db: Db, email: string, hash: string, platform: bool): Db {
    if email in db.identities then db.(identities := db.identities[email := Activated(db.identities[email], hash, platform)])
    else db.(identities := db.identities[email := Activated(NewIdentity(db.nextId), hash, platform)], nextId := db.nextId + 1)
  }

  function Enabled(u: User): User { u.(isActive := true, activationPending := false) }

  /** A user made active. */
  function WithUser(db: Db, u: nat): Db
    requires u in db.users
  {
    db.(users := db.users[u := Enabled(db.users[u])])
  }

  /** A user of an identity, created when it is not there, and active. The second part is its id. */
  function WithUserOf(db: Db, user: Option<nat>, row: User): (Db, nat)
    requires user.Some? ==> user.value in db.users
  {
    match user
    case Some(u) => (WithUser(db, u), u)
    case None => (db.(users := db.users[db.nextId := Enabled(row)], nextId := db.nextId + 1), db.nextId)
  }

  function MemberRow(identity: nat, tenant: nat): User {
    User(Some(identity), Some(tenant), Member, RELEASE_SMOKE, true, false)
  }

  function PlatformRow(identity: nat): User { User(Some(identity), None, PlatformAdmin, RELEASE_SMOKE, true, false) }

  function WithOwner(db: Db, c: Credentials, owner: nat, hash: string): Db
    requires c.tenantEmail in db.identities && owner in db.users && c.tenantId in db.tenants
  {
    var d := WithUser(WithIdentity(db, c.tenantEmail, hash, false), owner);
    d.(tenants := d.tenants[c.tenantId := d.tenants[c.tenantId].(ownerUser := Some(owner))])
  }

  function WithMember(db: Db, c: Credentials, member: Option<nat>, hash: string): Db
    requires member.Some? ==> member.value in db.users
  {
    var d := WithIdentity(db, c.memberEmail, hash, false);
    var (e, u) := WithUserOf(d, member, MemberRow(d.identities[c.memberEmail].id, c.tenantId));
    e.(participants := e.participants + {u})
  }

  function WithPlatform(db: Db, c: Credentials, user: Option<nat>, hash: string): Db
    requires user.Some? ==> user.value in db.users
  {
    var d := WithIdentity(db, c.platformEmail, hash, true);
    WithUserOf(d, user, PlatformRow(d.identities[c.platformEmail].id)).0
  }

  function WithReceipt(db: Db, r: Receipt): Db { db.(receipts := db.receipts + [r]) }

  // ----- Transactions

  /** `provision`: the database after the transaction; the same database when the operation was applied before. */
  ghost function Provision(db: Db, c: Credentials, h: Hashes, operation: nat): Result<Db> {
    if Receipt(Provisioned, operation) in db.receipts then Ok(db)
    else
      var owner :- LoadOwner(db, c);
      var member :- LoadMember(db, c);
      var platform :- LoadPlatform(db, c);
      LoadedUsers(db, c);
      var d1 := WithOwner(db, c, owner, h.owner);
      var d2 := WithMember(d1, c, member, h.member);
      var d3 := WithPlatform(d2, c, platform, h.platform);
      Ok(WithReceipt(d3, Receipt(Provisioned, operation)))
  }

  lemma OwnerLoaded(db: Db, c: Credentials)
    ensures LoadOwner(db, c).Ok? ==> LoadOwner(db, c).value in db.users
  {
    if LoadOwner(db, c).Ok? {
      assert Only(Memberships(db, db.identities[c.tenantEmail].id)) in Memberships(db, db.identities[c.tenantEmail].id);
    }
  }

  lemma MemberLoaded(db: Db, c: Credentials)
    ensures LoadMember(db, c).Ok? && LoadMember(db, c).value.Some? ==> LoadMember(db, c).value.value in db.users
  {}

  lemma PlatformLoaded(db: Db, c: Credentials)
    ensures LoadPlatform(db, c).Ok? && LoadPlatform(db, c).value.Some? ==> LoadPlatform(db, c).value.value in db.users
  {}

  lemma LoadedUsers(db: Db, c: Credentials)
    ensures LoadOwner(db, c).Ok? ==> LoadOwner(db, c).value in db.users
    ensures LoadMember(db, c).Ok? && LoadMember(db, c).value.Some? ==> LoadMember(db, c).value.value in db.users
    ensures LoadPlatform(db, c).Ok? && LoadPlatform(db, c).value.Some? ==> LoadPlatform(db, c).value.value in db.users
  {
    hide LoadOwner, LoadMember, LoadPlatform;
    OwnerLoaded(db, c);
    MemberLoaded(db, c);
    PlatformLoaded(db, c);
  }

  function Stripped(i: Identity): Identity {
    i.(passwordHash := None, passwordLogin := false, authVersion := i.authVersion + 1, isActive := false,
       isPlatformAdmin := false)
  }

  /** `deactivate_platform`. */
  ghost function Deactivate(db: Db, c: Credentials, operation: nat): Result<Db> {
    if Receipt(PlatformDeactivated, operation) in db.receipts then Ok(db)
    else
      var _ :- LoadOwner(db, c);
      var platform :- LoadPlatform(db, c);
      if platform.None? then Err("release_smoke_platform_identity_missing")
      else
        var d := db.(identities := db.identities[c.platformEmail := Stripped(db.identities[c.platformEmail])],
                     users := db.users[platform.value := db.users[platform.value].(isActive := false)]);
        Ok(WithReceipt(d, Receipt(PlatformDeactivated, operation)))
  }

  /** `_identity_login_ready`. */
  predicate LoginReady(i: Identity) {
    i.isActive && i.passwordLogin && i.passwordHash.Some? && i.passwordHash.value != "" && i.emailVerified && !i.mfaEnabled
  }

  /** The platform operator's authority, as the inventory reports it. */
  ghost predicate AuthorityActive(db: Db, c: Credentials) {
    && LoadPlatform(db, c).Ok? && LoadPlatform(db, c).value.Some?
    && db.identities[c.platformEmail].isActive && db.identities[c.platformEmail].isPlatformAdmin
    && LoadPlatform(db, c).value.value in db.users && db.users[LoadPlatform(db, c).value.value].isActive
  }
}
