module PrincipalTables {

  // The principal manager's procedures on the tables they change.

  import opened Options
  import opened Principals

  lemma OnlyElement(s: set<nat>, x: nat)
    requires x in s && |s| == 1
    ensures Only(s) == x
  {
    assert |s - {x}| == 0;
    assert s == {x} + (s - {x});
  }

  lemma AtMostOne(s: set<nat>)
    requires |s| <= 1 && s != {}
    ensures |s| == 1
  {}

  class Tables {
    var identities: map<string, Identity>
    var users: map<nat, User>
    var tenants: map<nat, Tenant>
    var participants: set<nat>
    var receipts: seq<Receipt>
    var nextId: nat

    constructor (db: Db)
      ensures Current() == db
    {
      identities, users, tenants := db.identities, db.users, db.tenants;
      participants, receipts, nextId := db.participants, db.receipts, db.nextId;
    }

    /** The tables as a value. */
    function Current(): Db
      reads this
    {
      Db(identities, users, tenants, participants, receipts, nextId)
    }

    /** `_load_release_owner`. */
    method LoadReleaseOwner(c: Credentials) returns (r: Result<nat>)
      ensures r == LoadOwner(Current(), c)
    {
      if c.tenantId !in tenants || !ReleaseQa(tenants[c.tenantId]) {
        return Err("release_qa_tenant_required");
      }
      if c.tenantEmail !in identities {
        return Err("release_qa_owner_identity_missing");
      }
      var identity := identities[c.tenantEmail];
      var memberships := Memberships(Current(), identity.id);
      if |memberships| != 1 {
        return Err("release_qa_owner_must_have_one_membership");
      }
      var u :| u in memberships;
      OnlyElement(memberships, u);
      var owner := users[u];
      if owner.tenantId != Some(c.tenantId) {
        return Err("release_qa_owner_tenant_mismatch");
      }
      if owner.role != OrgOwner {
        return Err("release_qa_owner_role_mismatch");
      }
      if owner.source != RELEASE_SMOKE {
        return Err("release_qa_owner_source_mismatch");
      }
      if identity.isPlatformAdmin {
        return Err("release_qa_owner_must_not_be_platform_admin");
      }
      if identity.mfaEnabled {
        return Err("release_qa_owner_mfa_not_automatable");
      }
      if tenants[c.tenantId].ownerUser != None && tenants[c.tenantId].ownerUser != Some(u) {
        return Err("release_qa_tenant_owner_pointer_mismatch");
      }
      return Ok(u);
    }

    /** `_load_optional_member`. */
    method LoadOptionalMember(c: Credentials) returns (r: Result<Option<nat>>)
      ensures r == LoadMember(Current(), c)
    {
      if c.memberEmail !in identities {
        return Ok(None);
      }
      var identity := identities[c.memberEmail];
      var memberships := Memberships(Current(), identity.id);
      if identity.isPlatformAdmin {
        return Err("release_smoke_member_platform_flag_forbidden");
      }
      if identity.mfaEnabled {
        return Err("release_smoke_member_mfa_not_automatable");
      }
      if |memberships| > 1 {
        return Err("release_smoke_member_multiple_memberships_forbidden");
      }
      if memberships == {} {
        return Ok(None);
      }
      AtMostOne(memberships);
      var u :| u in memberships;
      OnlyElement(memberships, u);
      if users[u].tenantId != Some(c.tenantId) {
        return Err("release_smoke_member_tenant_mismatch");
      }
      if users[u].role != Member {
        return Err("release_smoke_member_role_mismatch");
      }
      if users[u].source != RELEASE_SMOKE {
        return Err("release_smoke_member_source_mismatch");
      }
      return Ok(Some(u));
    }

    /** `_load_optional_platform`. */
    method LoadOptionalPlatform(c: Credentials) returns (r: Result<Option<nat>>)
      ensures r == LoadPlatform(Current(), c)
    {
      if c.platformEmail !in identities {
        return Ok(None);
      }
      var identity := identities[c.platformEmail];
      var memberships := Memberships(Current(), identity.id);
      if identity.mfaEnabled {
        return Err("release_smoke_platform_mfa_not_automatable");
      }
      if exists u <- memberships :: users[u].tenantId != None {
        return Err("release_smoke_platform_company_membership_forbidden");
      }
      if |memberships| > 1 {
        return Err("release_smoke_platform_multiple_users_forbidden");
      }
      if memberships == {} {
        return Ok(None);
      }
      AtMostOne(memberships);
      var u :| u in memberships;
      OnlyElement(memberships, u);
      if users[u].role != PlatformAdmin {
        return Err("release_smoke_platform_role_mismatch");
      }
      if users[u].source != RELEASE_SMOKE {
        return Err("release_smoke_platform_source_mismatch");
      }
      return Ok(Some(u));
    }

    /** `_activate_identity`, field by field. */
    method ActivateIdentity(email: string, hash: string, platform: bool)
      requires email in identities
      modifies `identities
      ensures identities == old(identities)[email := Activated(old(identities)[email], hash, platform)]
    {
      var i := identities[email];
      i := i.(passwordHash := Some(hash));
      i := i.(passwordLogin := true);
      i := i.(authVersion := i.authVersion + 1);
      i := i.(isActive := true);
      i := i.(isPlatformAdmin := platform);
      i := i.(emailVerified := true);
      identities := identities[email := i];
    }

    /** The identity of an email, added when it is not there. */
    method EnsureIdentity(email: string, hash: string, platform: bool)
      modifies `identities, `nextId
      ensures Current() == WithIdentity(old(Current()), email, hash, platform)
    {
      if email !in identities {
        identities := identities[email := NewIdentity(nextId)];
        nextId := nextId + 1;
      }
      ActivateIdentity(email, hash, platform);
    }

    method EnableUser(u: nat)
      requires u in users
      modifies `users
      ensures users == old(users)[u := Enabled(old(users)[u])]
    {
      users := users[u := users[u].(isActive := true)];
      users := users[u := users[u].(activationPending := false)];
    }

    /** The user of an identity, added when it is not there. */
    method EnsureUser(user: Option<nat>, row: User) returns (u: nat)
      requires user.Some? ==> user.value in users
      modifies `users, `nextId
      ensures (Current(), u) == WithUserOf(old(Current()), user, row)
    {
      ghost var before := users;
      if user.Some? {
        u := user.value;
      } else {
        u := nextId;
        users := users[u := row];
        nextId := nextId + 1;
      }
      EnableUser(u);
      assert user.None? ==> users == before[u := Enabled(row)];
    }

    /** `provision`: true when applied, false when the operation was applied before. */
    method ProvisionPrincipals(c: Credentials, h: Hashes, operation: nat) returns (r: Result<bool>)
      modifies this
      ensures r.Ok? <==> Provision(old(Current()), c, h, operation).Ok?
      ensures r.Ok? ==> Current() == Provision(old(Current()), c, h, operation).value
      ensures r.Ok? ==> (r.value <==> Receipt(Provisioned, operation) !in old(receipts))
      ensures r.Err? ==> Current() == old(Current()) && r.code == Provision(old(Current()), c, h, operation).code
    {
      hide LoadOwner, LoadMember, LoadPlatform;
      if Receipt(Provisioned, operation) in receipts {
        return Ok(false);
      }
      var owner :- LoadReleaseOwner(c);
      var member :- LoadOptionalMember(c);
      var platform :- LoadOptionalPlatform(c);
      LoadedUsers(Current(), c);
      OwnerFound(Current(), c);
      ActivateIdentity(c.tenantEmail, h.owner, false);
      EnableUser(owner);
      tenants := tenants[c.tenantId := tenants[c.tenantId].(ownerUser := Some(owner))];
      EnsureIdentity(c.memberEmail, h.member, false);
      var u := EnsureUser(member, MemberRow(identities[c.memberEmail].id, c.tenantId));
      participants := participants + {u};
      EnsureIdentity(c.platformEmail, h.platform, true);
      var _ := EnsureUser(platform, PlatformRow(identities[c.platformEmail].id));
      receipts := receipts + [Receipt(Provisioned, operation)];
      return Ok(true);
    }

    /** `deactivate_platform`. */
    method DeactivatePlatform(c: Credentials, operation: nat) returns (r: Result<bool>)
      modifies this
      ensures r.Ok? <==> Deactivate(old(Current()), c, operation).Ok?
      ensures r.Ok? ==> Current() == Deactivate(old(Current()), c, operation).value
      ensures r.Ok? ==> (r.value <==> Receipt(PlatformDeactivated, operation) !in old(receipts))
      ensures r.Err? ==> Current() == old(Current()) && r.code == Deactivate(old(Current()), c, operation).code
    {
      hide LoadOwner;
      if Receipt(PlatformDeactivated, operation) in receipts {
        return Ok(false);
      }
      var _ :- LoadReleaseOwner(c);
      var platform :- LoadOptionalPlatform(c);
      if platform.None? {
        return Err("release_smoke_platform_identity_missing");
      }
      LoadedUsers(Current(), c);
      var i := identities[c.platformEmail];
      i := i.(passwordHash := None);
      i := i.(passwordLogin := false);
      i := i.(authVersion := i.authVersion + 1);
      i := i.(isActive := false);
      i := i.(isPlatformAdmin := false);
      identities := identities[c.platformEmail := i];
      users := users[platform.value := users[platform.value].(isActive := false)];
      receipts := receipts + [Receipt(PlatformDeactivated, operation)];
      return Ok(true);
    }
  }

  lemma OwnerFound(db: Db, c: Credentials)
    requires LoadOwner(db, c).Ok?
    ensures c.tenantEmail in db.identities && c.tenantId in db.tenants
  {}
}
