module PrincipalsMeaning {

  // The principals in literal rows: whom the guards let through, what provisioning and deactivation write, and which
  // credentials are accepted.

  import opened Options
  import opened PythonText
  import opened Principals
  import opened PrincipalsLifecycle
  import opened PrincipalCredentials

  // ----- Guards

  /** A release QA tenant that nobody is deleting. */
  predicate QaTenant(t: Tenant) {
    && t.isActive && !t.deletionRequested && !t.deletionScheduled
    && |t.name| >= 11 && t.name[..11] == "Release QA " && |t.slug| >= 11 && t.slug[..11] == "release-qa-"
  }

  /** The user is the only one of the email's identity. */
  predicate OnlyUserOf(db: Db, email: string, u: nat) {
    && email in db.identities && u in db.users && db.users[u].identityId == Some(db.identities[email].id)
    && forall v <- db.users :: db.users[v].identityId == Some(db.identities[email].id) ==> v == u
  }

  predicate NoUserOf(db: Db, email: string) {
    && email in db.identities
    && forall v <- db.users :: db.users[v].identityId != Some(db.identities[email].id)
  }

  /** The release-smoke owner of the tenant. */
  predicate IsOwner(db: Db, c: Credentials, u: nat) {
    && OnlyUserOf(db, c.tenantEmail, u)
    && db.users[u].tenantId == Some(c.tenantId) && db.users[u].role == OrgOwner && db.users[u].source == "release_smoke"
    && !db.identities[c.tenantEmail].isPlatformAdmin && !db.identities[c.tenantEmail].mfaEnabled
    && c.tenantId in db.tenants && QaTenant(db.tenants[c.tenantId])
    && (db.tenants[c.tenantId].ownerUser == None || db.tenants[c.tenantId].ownerUser == Some(u))
  }

  /** The release-smoke member of the tenant. */
  predicate IsMember(db: Db, c: Credentials, u: nat) {
    && OnlyUserOf(db, c.memberEmail, u)
    && db.users[u].tenantId == Some(c.tenantId) && db.users[u].role == Member && db.users[u].source == "release_smoke"
    && !db.identities[c.memberEmail].isPlatformAdmin && !db.identities[c.memberEmail].mfaEnabled
  }

  /** The release-smoke platform operator, of no tenant. */
  predicate IsOperator(db: Db, c: Credentials, u: nat) {
    && OnlyUserOf(db, c.platformEmail, u)
    && db.users[u].tenantId == None && db.users[u].role == PlatformAdmin && db.users[u].source == "release_smoke"
    && !db.identities[c.platformEmail].mfaEnabled
  }

  lemma OneMembership(db: Db, email: string, u: nat)
    requires email in db.identities
    ensures OnlyUserOf(db, email, u) <==> Memberships(db, db.identities[email].id) == {u}
  {
    var id := db.identities[email].id;
    if OnlyUserOf(db, email, u) {
      assert forall v :: v in Memberships(db, id) <==> v == u;
    }
    if Memberships(db, id) == {u} {
      assert u in Memberships(db, id);
      assert forall v <- db.users :: db.users[v].identityId == Some(id) ==> v in Memberships(db, id);
    }
  }

  lemma NoMembership(db: Db, email: string)
    requires email in db.identities
    ensures NoUserOf(db, email) <==> Memberships(db, db.identities[email].id) == {}
  {
    var id := db.identities[email].id;
    if Memberships(db, id) == {} {
      forall v | v in db.users ensures db.users[v].identityId != Some(id) { assert v !in Memberships(db, id); }
    }
  }

  lemma OneOf(s: set<nat>)
    requires |s| == 1
    ensures s == {Only(s)}
  {
    assert |s - {Only(s)}| == 0;
    assert s == {Only(s)} + (s - {Only(s)});
  }

  lemma TenantIs(t: Tenant)
    ensures ReleaseQa(t) <==> QaTenant(t)
  {}

  /** The owner's guard opens exactly for the owner. */
  lemma OwnerMeans(db: Db, c: Credentials, u: nat)
    ensures LoadOwner(db, c) == Ok(u) <==> IsOwner(db, c, u)
  {
    hide Memberships, OnlyUserOf, ReleaseQa, QaTenant;
    OwnerIsThere(db, c, u);
    if c.tenantId in db.tenants { TenantIs(db.tenants[c.tenantId]); }
    if c.tenantEmail in db.identities {
      var s := Memberships(db, db.identities[c.tenantEmail].id);
      OneMembership(db, c.tenantEmail, u);
      OnlyOne(u);
      if |s| == 1 { OneOf(s); }
    }
  }

  lemma OwnerIsThere(db: Db, c: Credentials, u: nat)
    ensures OnlyUserOf(db, c.tenantEmail, u) ==> c.tenantEmail in db.identities && u in db.users
    ensures OnlyUserOf(db, c.memberEmail, u) ==> c.memberEmail in db.identities && u in db.users
    ensures OnlyUserOf(db, c.platformEmail, u) ==> c.platformEmail in db.identities && u in db.users
  {}

  /** The member's guard opens exactly for the member, or when there is none and nothing stands in its way. */
  lemma MemberMeans(db: Db, c: Credentials, u: nat)
    ensures LoadMember(db, c) == Ok(Some(u)) <==> IsMember(db, c, u)
    ensures LoadMember(db, c) == Ok(None) <==>
      || c.memberEmail !in db.identities
      || (&& NoUserOf(db, c.memberEmail)
          && !db.identities[c.memberEmail].isPlatformAdmin && !db.identities[c.memberEmail].mfaEnabled)
  {
    hide Memberships, OnlyUserOf, NoUserOf;
    OwnerIsThere(db, c, u);
    if c.memberEmail in db.identities {
      var s := Memberships(db, db.identities[c.memberEmail].id);
      OneMembership(db, c.memberEmail, u);
      NoMembership(db, c.memberEmail);
      OnlyOne(u);
      if |s| == 1 { OneOf(s); }
    }
  }

  /** The operator's guard opens exactly for the operator, or when there is none and nothing stands in its way. */
  lemma OperatorMeans(db: Db, c: Credentials, u: nat)
    ensures LoadPlatform(db, c) == Ok(Some(u)) <==> IsOperator(db, c, u)
    ensures LoadPlatform(db, c) == Ok(None) <==>
      || c.platformEmail !in db.identities
      || (NoUserOf(db, c.platformEmail) && !db.identities[c.platformEmail].mfaEnabled)
  {
    hide Memberships, OnlyUserOf, NoUserOf;
    OwnerIsThere(db, c, u);
    if c.platformEmail in db.identities {
      var s := Memberships(db, db.identities[c.platformEmail].id);
      OneMembership(db, c.platformEmail, u);
      NoMembership(db, c.platformEmail);
      OnlyOne(u);
      if |s| == 1 { OneOf(s); }
    }
  }

  /** Why the owner's guard stays shut: the first of these faults. */
  lemma OwnerFaults(db: Db, c: Credentials, u: nat)
    ensures c.tenantId !in db.tenants || !QaTenant(db.tenants[c.tenantId]) ==>
      LoadOwner(db, c) == Err("release_qa_tenant_required")
    ensures c.tenantId in db.tenants && QaTenant(db.tenants[c.tenantId]) ==>
      && (c.tenantEmail !in db.identities ==> LoadOwner(db, c) == Err("release_qa_owner_identity_missing"))
      && (c.tenantEmail in db.identities && (forall v :: !OnlyUserOf(db, c.tenantEmail, v)) ==>
            LoadOwner(db, c) == Err("release_qa_owner_must_have_one_membership"))
      && (OnlyUserOf(db, c.tenantEmail, u) && !IsOwner(db, c, u) ==>
            var i, row := db.identities[c.tenantEmail], db.users[u];
            LoadOwner(db, c) ==
              Err(if row.tenantId != Some(c.tenantId) then "release_qa_owner_tenant_mismatch"
                  else if row.role != OrgOwner then "release_qa_owner_role_mismatch"
                  else if row.source != "release_smoke" then "release_qa_owner_source_mismatch"
                  else if i.isPlatformAdmin then "release_qa_owner_must_not_be_platform_admin"
                  else if i.mfaEnabled then "release_qa_owner_mfa_not_automatable"
                  else "release_qa_tenant_owner_pointer_mismatch"))
  {
    hide Memberships, OnlyUserOf, ReleaseQa, QaTenant;
    OwnerIsThere(db, c, u);
    if c.tenantId in db.tenants { TenantIs(db.tenants[c.tenantId]); }
    if c.tenantEmail in db.identities {
      var s := Memberships(db, db.identities[c.tenantEmail].id);
      OneMembership(db, c.tenantEmail, u);
      OnlyOne(u);
      if |s| == 1 {
        OneOf(s);
        OneMembership(db, c.tenantEmail, Only(s));
      }
    }
  }

  /** Why the member's guard stays shut, for an identity that is there: the first of these faults. */
  lemma MemberFaults(db: Db, c: Credentials, u: nat)
    requires c.memberEmail in db.identities
    ensures var i := db.identities[c.memberEmail];
      && (i.isPlatformAdmin ==> LoadMember(db, c) == Err("release_smoke_member_platform_flag_forbidden"))
      && (!i.isPlatformAdmin && i.mfaEnabled ==> LoadMember(db, c) == Err("release_smoke_member_mfa_not_automatable"))
      && (!i.isPlatformAdmin && !i.mfaEnabled && !NoUserOf(db, c.memberEmail)
          && (forall v :: !OnlyUserOf(db, c.memberEmail, v)) ==>
            LoadMember(db, c) == Err("release_smoke_member_multiple_memberships_forbidden"))
      && (!i.isPlatformAdmin && !i.mfaEnabled && OnlyUserOf(db, c.memberEmail, u) && !IsMember(db, c, u) ==>
            LoadMember(db, c) ==
              Err(if db.users[u].tenantId != Some(c.tenantId) then "release_smoke_member_tenant_mismatch"
                  else if db.users[u].role != Member then "release_smoke_member_role_mismatch"
                  else "release_smoke_member_source_mismatch"))
  {
    hide Memberships, OnlyUserOf, NoUserOf;
    OwnerIsThere(db, c, u);
    OnlyOne(u);
    Members(db, c.memberEmail, u);
  }

  /** The number of an identity's users. */
  lemma Members(db: Db, email: string, u: nat)
    requires email in db.identities
    ensures var s := Memberships(db, db.identities[email].id);
      && (OnlyUserOf(db, email, u) ==> s == {u} && |s| == 1)
      && (NoUserOf(db, email) <==> s == {})
      && ((forall v :: !OnlyUserOf(db, email, v)) && !NoUserOf(db, email) ==> |s| > 1)
  {
    hide Memberships, OnlyUserOf, NoUserOf;
    var s := Memberships(db, db.identities[email].id);
    OneMembership(db, email, u);
    NoMembership(db, email);
    if |s| == 1 {
      OneOf(s);
      OneMembership(db, email, Only(s));
    }
  }

  lemma InMemberships(db: Db, identity: nat)
    ensures forall v :: v in Memberships(db, identity) <==> v in db.users && db.users[v].identityId == Some(identity)
  {}

  /** Why the operator's guard stays shut, for an identity that is there: the first of these faults. */
  lemma OperatorFaults(db: Db, c: Credentials, u: nat)
    requires c.platformEmail in db.identities
    ensures var i := db.identities[c.platformEmail];
      && (i.mfaEnabled ==> LoadPlatform(db, c) == Err("release_smoke_platform_mfa_not_automatable"))
      && (!i.mfaEnabled && OnlyUserOf(db, c.platformEmail, u) && !IsOperator(db, c, u) ==>
            LoadPlatform(db, c) ==
              Err(if db.users[u].tenantId != None then "release_smoke_platform_company_membership_forbidden"
                  else if db.users[u].role != PlatformAdmin then "release_smoke_platform_role_mismatch"
                  else "release_smoke_platform_source_mismatch"))
      && (!i.mfaEnabled && !NoUserOf(db, c.platformEmail) && (forall v :: !OnlyUserOf(db, c.platformEmail, v)) ==>
            LoadPlatform(db, c) ==
              Err(if exists v <- db.users :: db.users[v].identityId == Some(i.id) && db.users[v].tenantId != None
                  then "release_smoke_platform_company_membership_forbidden"
                  else "release_smoke_platform_multiple_users_forbidden"))
  {
    hide Memberships, OnlyUserOf, NoUserOf;
    OwnerIsThere(db, c, u);
    OnlyOne(u);
    Members(db, c.platformEmail, u);
    InMemberships(db, db.identities[c.platformEmail].id);
  }

  // ----- What provisioning writes

  /** The identity of the email has the new password and one more version; a new one has a new id. */
  ghost predicate Rotated(db: Db, d: Db, email: string, hash: string, admin: bool) {
    && email in d.identities
    && var i := d.identities[email];
    && i.passwordHash == Some(hash) && i.passwordLogin && i.isActive && i.emailVerified && i.isPlatformAdmin == admin
    && if email in db.identities then
         var row := db.identities[email];
         i.id == row.id && i.mfaEnabled == row.mfaEnabled && i.authVersion == row.authVersion + 1
       else !i.mfaEnabled && i.authVersion == 1 && forall e <- db.identities :: db.identities[e].id != i.id
  }

  /** The user is active, and otherwise as it was when it was there. */
  predicate Woken(db: Db, d: Db, u: nat) {
    && u in d.users && d.users[u].isActive && !d.users[u].activationPending
    && (u in db.users ==>
          && d.users[u].identityId == db.users[u].identityId && d.users[u].tenantId == db.users[u].tenantId
          && d.users[u].role == db.users[u].role && d.users[u].source == db.users[u].source)
  }

  /** All other identities and users are as they were. */
  predicate OthersStay(db: Db, d: Db, email: string, u: nat) {
    && d.identities.Keys == db.identities.Keys + {email} && d.users.Keys == db.users.Keys + {u}
    && (forall e <- db.identities :: e != email ==> d.identities[e] == db.identities[e])
    && (forall v <- db.users :: v != u ==> d.users[v] == db.users[v])
  }

  lemma OwnerWrites(db: Db, c: Credentials, owner: nat, hash: string)
    requires c.tenantEmail in db.identities && owner in db.users && c.tenantId in db.tenants
    ensures var d := WithOwner(db, c, owner, hash);
      && Rotated(db, d, c.tenantEmail, hash, false) && Woken(db, d, owner) && OthersStay(db, d, c.tenantEmail, owner)
      && d.tenants == db.tenants[c.tenantId := db.tenants[c.tenantId].(ownerUser := Some(owner))]
      && d.participants == db.participants && d.nextId == db.nextId
  {}

  lemma MemberWrites(db: Db, c: Credentials, member: Option<nat>, hash: string) returns (u: nat)
    requires Valid(db) && (member.Some? ==> member.value in db.users)
    ensures var d := WithMember(db, c, member, hash);
      && Rotated(db, d, c.memberEmail, hash, false) && Woken(db, d, u) && OthersStay(db, d, c.memberEmail, u)
      && (if member.Some? then u == member.value
          else u !in db.users && d.users[u].identityId == Some(d.identities[c.memberEmail].id)
               && d.users[u].tenantId == Some(c.tenantId) && d.users[u].role == Member
               && d.users[u].source == "release_smoke")
      && d.tenants == db.tenants && d.participants == db.participants + {u} && d.nextId >= db.nextId
  {
    u := if member.Some? then member.value else WithIdentity(db, c.memberEmail, hash, false).nextId;
  }

  lemma OperatorWrites(db: Db, c: Credentials, user: Option<nat>, hash: string) returns (u: nat)
    requires Valid(db) && (user.Some? ==> user.value in db.users)
    ensures var d := WithPlatform(db, c, user, hash);
      && Rotated(db, d, c.platformEmail, hash, true) && Woken(db, d, u) && OthersStay(db, d, c.platformEmail, u)
      && (if user.Some? then u == user.value
          else u !in db.users && d.users[u].identityId == Some(d.identities[c.platformEmail].id)
               && d.users[u].tenantId == None && d.users[u].role == PlatformAdmin
               && d.users[u].source == "release_smoke")
      && d.tenants == db.tenants && d.participants == db.participants
  {
    u := if user.Some? then user.value else WithIdentity(db, c.platformEmail, hash, true).nextId;
  }

  lemma RotatedLater(db: Db, d1: Db, d: Db, email: string, hash: string, admin: bool)
    requires Rotated(db, d1, email, hash, admin) && email in d.identities && d.identities[email] == d1.identities[email]
    ensures Rotated(db, d, email, hash, admin)
  {}

  /** Rotated after other identities kept their rows but for one, which kept its id. */
  lemma RotatedEarlier(db: Db, d1: Db, d: Db, email: string, hash: string, admin: bool)
    requires Rotated(d1, d, email, hash, admin)
    requires forall e <- db.identities :: e in d1.identities && d1.identities[e].id == db.identities[e].id
    requires email in d1.identities ==> email in db.identities && d1.identities[email] == db.identities[email]
    ensures Rotated(db, d, email, hash, admin)
  {}

  lemma WokenAfter(db: Db, d1: Db, d: Db, u: nat)
    requires Woken(d1, d, u)
    requires u in db.users ==> u in d1.users && d1.users[u] == db.users[u]
    ensures Woken(db, d, u)
  {}

  /** An identity keeps its id when it is rotated. */
  lemma IdsKept(db: Db, d: Db, email: string, hash: string, admin: bool, u: nat)
    requires Rotated(db, d, email, hash, admin) && OthersStay(db, d, email, u)
    ensures forall e <- db.identities :: e in d.identities && d.identities[e].id == db.identities[e].id
  {}

  /** Everything that provisioning writes: three rotated identities, three active users, the tenant's owner, the member's
      participant and the receipt; and nothing else. */
  ghost predicate Provided(db: Db, c: Credentials, h: Hashes, operation: nat, d: Db, owner: nat, member: nat,
                           operator: nat) {
    && Rotated(db, d, c.tenantEmail, h.owner, false) && Rotated(db, d, c.memberEmail, h.member, false)
    && Rotated(db, d, c.platformEmail, h.platform, true)
    && Woken(db, d, owner) && Woken(db, d, member) && Woken(db, d, operator)
    && IsOwner(d, c, owner) && IsMember(d, c, member) && IsOperator(d, c, operator)
    && d.identities.Keys == db.identities.Keys + {c.tenantEmail, c.memberEmail, c.platformEmail}
    && (forall e <- db.identities :: e !in {c.tenantEmail, c.memberEmail, c.platformEmail} ==>
          d.identities[e] == db.identities[e])
    && owner in db.users && d.users.Keys == db.users.Keys + {member, operator}
    && (forall u <- db.users :: u !in {owner, member, operator} ==> d.users[u] == db.users[u])
    && c.tenantId in db.tenants
    && d.tenants == db.tenants[c.tenantId := db.tenants[c.tenantId].(ownerUser := Some(owner))]
    && d.participants == db.participants + {member}
    && d.receipts == db.receipts + [Receipt(Provisioned, operation)]
  }

  lemma TwoUsersDiffer(db: Db, e: string, f: string, u: nat, v: nat)
    requires Valid(db) && e in db.identities && f in db.identities && e != f && u in db.users && v in db.users
    requires db.users[u].identityId == Some(db.identities[e].id) && db.users[v].identityId == Some(db.identities[f].id)
    ensures u != v
  {}

  /** The loaded users are three different ones. */
  lemma LoadedDiffer(db: Db, c: Credentials)
    requires Valid(db) && Distinct(c) && Open(db, c)
    ensures LoadMember(db, c).value != Some(LoadOwner(db, c).value)
    ensures LoadPlatform(db, c).value != Some(LoadOwner(db, c).value)
    ensures LoadMember(db, c).value.Some? ==> LoadPlatform(db, c).value != LoadMember(db, c).value
  {
    hide LoadOwner, LoadMember, LoadPlatform, Valid;
    var owner := LoadOwner(db, c).value;
    OwnerMeans(db, c, owner);
    if LoadMember(db, c).value.Some? {
      MemberMeans(db, c, LoadMember(db, c).value.value);
      TwoUsersDiffer(db, c.tenantEmail, c.memberEmail, owner, LoadMember(db, c).value.value);
    }
    if LoadPlatform(db, c).value.Some? {
      OperatorMeans(db, c, LoadPlatform(db, c).value.value);
      TwoUsersDiffer(db, c.tenantEmail, c.platformEmail, owner, LoadPlatform(db, c).value.value);
      if LoadMember(db, c).value.Some? {
        TwoUsersDiffer(db, c.memberEmail, c.platformEmail, LoadMember(db, c).value.value, LoadPlatform(db, c).value.value);
      }
    }
  }

  /** The three steps of provisioning, one after the other. */
  ghost predicate ThreeSteps(db: Db, d1: Db, d2: Db, d: Db, c: Credentials, h: Hashes, owner: nat, member: nat,
                             operator: nat) {
    && Rotated(db, d1, c.tenantEmail, h.owner, false) && Woken(db, d1, owner) && OthersStay(db, d1, c.tenantEmail, owner)
    && Rotated(d1, d2, c.memberEmail, h.member, false) && Woken(d1, d2, member)
    && OthersStay(d1, d2, c.memberEmail, member)
    && Rotated(d2, d, c.platformEmail, h.platform, true) && Woken(d2, d, operator)
    && OthersStay(d2, d, c.platformEmail, operator)
    && owner in db.users && owner != member && owner != operator && member != operator
  }

  lemma StepsRotate(db: Db, d1: Db, d2: Db, d: Db, c: Credentials, h: Hashes, owner: nat, member: nat, operator: nat)
    requires Distinct(c) && ThreeSteps(db, d1, d2, d, c, h, owner, member, operator)
    ensures Rotated(db, d, c.tenantEmail, h.owner, false) && Rotated(db, d, c.memberEmail, h.member, false)
    ensures Rotated(db, d, c.platformEmail, h.platform, true)
  {
    hide Rotated, Woken;
    IdsKept(db, d1, c.tenantEmail, h.owner, false, owner);
    IdsKept(d1, d2, c.memberEmail, h.member, false, member);
    RotatedLater(db, d1, d, c.tenantEmail, h.owner, false);
    RotatedEarlier(db, d1, d2, c.memberEmail, h.member, false);
    RotatedLater(db, d2, d, c.memberEmail, h.member, false);
    RotatedEarlier(db, d2, d, c.platformEmail, h.platform, true);
  }

  lemma StepsWake(db: Db, d1: Db, d2: Db, d: Db, c: Credentials, h: Hashes, owner: nat, member: nat, operator: nat)
    requires ThreeSteps(db, d1, d2, d, c, h, owner, member, operator)
    ensures Woken(db, d, owner) && Woken(db, d, member) && Woken(db, d, operator)
  {
    hide Rotated, Woken;
    WokenLater(db, d1, d, owner);
    WokenAfter(db, d1, d2, member);
    WokenLater(db, d2, d, member);
    WokenAfter(db, d2, d, operator);
  }

  lemma StepsSpare(db: Db, d1: Db, d2: Db, d: Db, c: Credentials, h: Hashes, owner: nat, member: nat, operator: nat)
    requires ThreeSteps(db, d1, d2, d, c, h, owner, member, operator)
    ensures d.identities.Keys == db.identities.Keys + {c.tenantEmail, c.memberEmail, c.platformEmail}
    ensures forall e <- db.identities :: e !in {c.tenantEmail, c.memberEmail, c.platformEmail} ==>
      d.identities[e] == db.identities[e]
    ensures d.users.Keys == db.users.Keys + {member, operator}
    ensures forall u <- db.users :: u !in {owner, member, operator} ==> d.users[u] == db.users[u]
  {
    hide Rotated, Woken;
  }

  lemma WokenLater(db: Db, d1: Db, d: Db, u: nat)
    requires Woken(db, d1, u) && u in d.users && u in d1.users && d.users[u] == d1.users[u]
    ensures Woken(db, d, u)
  {}

  /** A principal that was there still belongs to its identity. */
  lemma StillBelongs(db: Db, d: Db, email: string, hash: string, admin: bool, u: nat)
    requires Rotated(db, d, email, hash, admin) && Woken(db, d, u) && OnlyUserOf(db, email, u)
    ensures d.users[u].identityId == Some(d.identities[email].id)
  {}

  /** The one user that a guard finds is the one that belongs. */
  lemma FoundMember(d: Db, c: Credentials, u: nat)
    requires LoadMember(d, c).Ok? && LoadMember(d, c).value.Some? && u in d.users
    requires c.memberEmail in d.identities && d.users[u].identityId == Some(d.identities[c.memberEmail].id)
    ensures IsMember(d, c, u)
  {
    hide LoadMember;
    MemberMeans(d, c, LoadMember(d, c).value.value);
  }

  lemma FoundOperator(d: Db, c: Credentials, u: nat)
    requires LoadPlatform(d, c).Ok? && LoadPlatform(d, c).value.Some? && u in d.users
    requires c.platformEmail in d.identities && d.users[u].identityId == Some(d.identities[c.platformEmail].id)
    ensures IsOperator(d, c, u)
  {
    hide LoadPlatform;
    OperatorMeans(d, c, LoadPlatform(d, c).value.value);
  }

  lemma MemberBelongs(db: Db, d2: Db, d: Db, c: Credentials, h: Hashes, member: nat)
    requires LoadMember(db, c).Ok? && Rotated(db, d, c.memberEmail, h.member, false) && Woken(db, d, member)
    requires LoadMember(db, c).value.Some? ==> member == LoadMember(db, c).value.value
    requires LoadMember(db, c).value.None? ==>
      && member in d2.users && d.users[member] == d2.users[member]
      && c.memberEmail in d2.identities && d2.identities[c.memberEmail].id == d.identities[c.memberEmail].id
      && d2.users[member].identityId == Some(d2.identities[c.memberEmail].id)
    ensures d.users[member].identityId == Some(d.identities[c.memberEmail].id)
  {
    hide LoadMember;
    if LoadMember(db, c).value.Some? {
      MemberMeans(db, c, member);
      StillBelongs(db, d, c.memberEmail, h.member, false, member);
    }
  }

  lemma OperatorBelongs(db: Db, d: Db, c: Credentials, h: Hashes, operator: nat)
    requires LoadPlatform(db, c).Ok? && Rotated(db, d, c.platformEmail, h.platform, true) && Woken(db, d, operator)
    requires LoadPlatform(db, c).value.Some? ==> operator == LoadPlatform(db, c).value.value
    requires LoadPlatform(db, c).value.None? ==> d.users[operator].identityId == Some(d.identities[c.platformEmail].id)
    ensures d.users[operator].identityId == Some(d.identities[c.platformEmail].id)
  {
    hide LoadPlatform;
    if LoadPlatform(db, c).value.Some? {
      OperatorMeans(db, c, operator);
      StillBelongs(db, d, c.platformEmail, h.platform, true, operator);
    }
  }

  /** The three steps with what they write, and the guards behind them. */
  lemma ProvisionSteps(db: Db, c: Credentials, h: Hashes, operation: nat)
    returns (d1: Db, d2: Db, d: Db, owner: nat, member: nat, operator: nat)
    requires Valid(db) && Distinct(c) && Open(db, c) && Fresh(db, Provisioned, operation)
    ensures LoadOwner(db, c) == Ok(owner) && ThreeSteps(db, d1, d2, d, c, h, owner, member, operator)
    ensures Provision(db, c, h, operation) == Ok(WithReceipt(d, Receipt(Provisioned, operation)))
    ensures LoadOwner(d, c) == Ok(owner) && LoadMember(d, c).Ok? && LoadMember(d, c).value.Some?
    ensures LoadPlatform(d, c).Ok? && LoadPlatform(d, c).value.Some?
    ensures LoadMember(db, c).value.Some? ==> member == LoadMember(db, c).value.value
    ensures LoadMember(db, c).value.None? ==>
      && member in d2.users && c.memberEmail in d2.identities
      && d2.users[member].identityId == Some(d2.identities[c.memberEmail].id)
    ensures LoadPlatform(db, c).value.Some? ==> operator == LoadPlatform(db, c).value.value
    ensures LoadPlatform(db, c).value.None? ==>
      && operator in d.users && c.platformEmail in d.identities
      && d.users[operator].identityId == Some(d.identities[c.platformEmail].id)
    ensures c.tenantId in db.tenants
    ensures d.tenants == db.tenants[c.tenantId := db.tenants[c.tenantId].(ownerUser := Some(owner))]
    ensures d.participants == db.participants + {member} && d.receipts == db.receipts
  {
    hide LoadOwner, LoadMember, LoadPlatform, Valid, WithOwner, WithMember, WithPlatform, Rotated, OthersStay;
    LoadedUsers(db, c);
    ProvisionIs(db, c, h, operation);
    LoadedDiffer(db, c);
    owner := LoadOwner(db, c).value;
    OwnerWrites(db, c, owner, h.owner);
    OwnerStep(db, c, h.owner);
    d1 := WithOwner(db, c, owner, h.owner);
    OtherKeys(db, d1, c.tenantEmail, owner);
    member := MemberWrites(d1, c, LoadMember(db, c).value, h.member);
    MemberStep(d1, c, h.member);
    d2 := WithMember(d1, c, LoadMember(db, c).value, h.member);
    OtherKeys(d1, d2, c.memberEmail, member);
    operator := OperatorWrites(d2, c, LoadPlatform(db, c).value, h.platform);
    PlatformStep(d2, c, h.platform);
    d := WithPlatform(d2, c, LoadPlatform(db, c).value, h.platform);
    ReceiptsStay(db, c, h, owner, LoadMember(db, c).value, LoadPlatform(db, c).value);
  }

  lemma ReceiptsStay(db: Db, c: Credentials, h: Hashes, owner: nat, member: Option<nat>, operator: Option<nat>)
    requires c.tenantEmail in db.identities && owner in db.users && c.tenantId in db.tenants
    requires member.Some? ==> member.value in db.users
    requires operator.Some? ==> operator.value in db.users
    ensures var d1 := WithOwner(db, c, owner, h.owner);
      && d1.receipts == db.receipts
      && var d2 := WithMember(d1, c, member, h.member);
      && d2.receipts == db.receipts && WithPlatform(d2, c, operator, h.platform).receipts == db.receipts
  {}

  /** An applied provisioning writes exactly this; afterwards the three principals are there. */
  lemma ProvisionWrites(db: Db, c: Credentials, h: Hashes, operation: nat)
    returns (owner: nat, member: nat, operator: nat)
    requires Valid(db) && Distinct(c) && Receipt(Provisioned, operation) !in db.receipts
    requires Provision(db, c, h, operation).Ok?
    ensures IsOwner(db, c, owner) && Provided(db, c, h, operation, Provision(db, c, h, operation).value, owner, member, operator)
  {
    hide LoadOwner, LoadMember, LoadPlatform, Valid, Rotated, IsOwner, IsMember, IsOperator, Provision;
    ProvisionReopens(db, c, h, operation);
    var d1, d2, d;
    d1, d2, d, owner, member, operator := ProvisionSteps(db, c, h, operation);
    StepsRotate(db, d1, d2, d, c, h, owner, member, operator);
    StepsWake(db, d1, d2, d, c, h, owner, member, operator);
    StepsSpare(db, d1, d2, d, c, h, owner, member, operator);
    var r := WithReceipt(d, Receipt(Provisioned, operation));
    OwnerMeans(db, c, owner);
    ParticipantsDoNotMatter(d, c, d.participants, r.receipts);
    OwnerMeans(r, c, owner);
    MemberBelongs(db, d2, d, c, h, member);
    OperatorBelongs(db, d, c, h, operator);
    FoundMember(r, c, member);
    FoundOperator(r, c, operator);
    ReceiptRotates(db, d, r, c, h);
  }

  lemma ReceiptRotates(db: Db, d: Db, r: Db, c: Credentials, h: Hashes)
    requires r.identities == d.identities
    ensures Rotated(db, d, c.tenantEmail, h.owner, false) ==> Rotated(db, r, c.tenantEmail, h.owner, false)
    ensures Rotated(db, d, c.memberEmail, h.member, false) ==> Rotated(db, r, c.memberEmail, h.member, false)
    ensures Rotated(db, d, c.platformEmail, h.platform, true) ==> Rotated(db, r, c.platformEmail, h.platform, true)
  {}

  lemma OtherKeys(db: Db, d: Db, email: string, u: nat)
    requires OthersStay(db, d, email, u)
    ensures d.users.Keys == db.users.Keys + {u}
  {}

  /** No member is there and nothing stands in its way. */
  predicate MemberMissing(db: Db, c: Credentials) {
    || c.memberEmail !in db.identities
    || (NoUserOf(db, c.memberEmail) && !db.identities[c.memberEmail].isPlatformAdmin
        && !db.identities[c.memberEmail].mfaEnabled)
  }

  /** No operator is there and nothing stands in its way. */
  predicate OperatorMissing(db: Db, c: Credentials) {
    || c.platformEmail !in db.identities
    || (NoUserOf(db, c.platformEmail) && !db.identities[c.platformEmail].mfaEnabled)
  }

  lemma OpenMeans(db: Db, c: Credentials)
    ensures LoadOwner(db, c).Ok? <==> exists u :: IsOwner(db, c, u)
    ensures LoadMember(db, c).Ok? <==> MemberMissing(db, c) || exists u :: IsMember(db, c, u)
    ensures LoadPlatform(db, c).Ok? <==> OperatorMissing(db, c) || exists u :: IsOperator(db, c, u)
  {
    hide LoadOwner, LoadMember, LoadPlatform, IsOwner, IsMember, IsOperator, NoUserOf;
    forall u: nat
      ensures LoadOwner(db, c) == Ok(u) <==> IsOwner(db, c, u)
      ensures LoadMember(db, c) == Ok(Some(u)) <==> IsMember(db, c, u)
      ensures LoadPlatform(db, c) == Ok(Some(u)) <==> IsOperator(db, c, u)
    {
      OwnerMeans(db, c, u);
      MemberMeans(db, c, u);
      OperatorMeans(db, c, u);
    }
    MemberMeans(db, c, 0);
    OperatorMeans(db, c, 0);
    Found(LoadOwner(db, c), LoadMember(db, c));
    Found(LoadOwner(db, c), LoadPlatform(db, c));
  }

  lemma Found(r: Result<nat>, o: Result<Option<nat>>)
    ensures r.Ok? <==> exists u :: r == Ok(u)
    ensures o.Ok? <==> o == Ok(None) || exists u :: o == Ok(Some(u))
  {
    if o.Ok? && o.value.Some? { assert o == Ok(Some(o.value.value)); }
  }

  /** A new operation succeeds exactly for the owner of the release QA tenant, with a member and an operator that are there
      or missing; deactivation needs the operator. */
  lemma OperationsAccept(db: Db, c: Credentials, h: Hashes, operation: nat)
    requires Valid(db) && Distinct(c)
    requires Receipt(Provisioned, operation) !in db.receipts && Receipt(PlatformDeactivated, operation) !in db.receipts
    ensures Provision(db, c, h, operation).Ok? <==>
      && (exists u :: IsOwner(db, c, u))
      && (MemberMissing(db, c) || exists u :: IsMember(db, c, u))
      && (OperatorMissing(db, c) || exists u :: IsOperator(db, c, u))
    ensures Deactivate(db, c, operation).Ok? <==>
      (exists u :: IsOwner(db, c, u)) && (exists u :: IsOperator(db, c, u))
  {
    hide LoadOwner, LoadMember, LoadPlatform, IsOwner, IsMember, IsOperator, MemberMissing, OperatorMissing, Valid, Provision,
      Deactivate;
    ProvisionReopens(db, c, h, operation);
    DeactivateReopens(db, c, operation);
    OpenMeans(db, c);
    forall u: nat ensures LoadPlatform(db, c) == Ok(Some(u)) <==> IsOperator(db, c, u) { OperatorMeans(db, c, u); }
    Found(LoadOwner(db, c), LoadPlatform(db, c));
  }

  /** An applied deactivation takes the operator's password, login, activity and authority, raises its version, and changes
      nothing else. */
  lemma DeactivateWrites(db: Db, c: Credentials, operation: nat, operator: nat)
    requires Valid(db) && Distinct(c) && Receipt(PlatformDeactivated, operation) !in db.receipts
    requires Deactivate(db, c, operation).Ok? && IsOperator(db, c, operator)
    ensures var i, u := db.identities[c.platformEmail], db.users[operator];
      Deactivate(db, c, operation).value ==
        Db(db.identities[c.platformEmail := Identity(i.id, None, false, i.authVersion + 1, false, false, i.emailVerified,
                                                     i.mfaEnabled)],
           db.users[operator := User(u.identityId, u.tenantId, u.role, u.source, false, u.activationPending)],
           db.tenants, db.participants, db.receipts + [Receipt(PlatformDeactivated, operation)], db.nextId)
  {
    hide LoadOwner, LoadPlatform, Valid;
    OperatorMeans(db, c, operator);
  }

  /** What the inventory reports: the operator's authority, and whether an identity can log in. */
  lemma InventoryMeans(db: Db, c: Credentials, i: Identity)
    ensures AuthorityActive(db, c) <==>
      exists u :: IsOperator(db, c, u) && db.users[u].isActive
                  && db.identities[c.platformEmail].isActive && db.identities[c.platformEmail].isPlatformAdmin
    ensures LoginReady(i) <==>
      exists h: string :: |h| > 0 && i == Identity(i.id, Some(h), true, i.authVersion, true, i.isPlatformAdmin, true, false)
  {
    hide LoadPlatform;
    forall u: nat ensures LoadPlatform(db, c) == Ok(Some(u)) <==> IsOperator(db, c, u) { OperatorMeans(db, c, u); }
    Found(Err(""), LoadPlatform(db, c));
    if LoginReady(i) {
      assert i == Identity(i.id, Some(i.passwordHash.value), true, i.authVersion, true, i.isPlatformAdmin, true, false);
    }
  }

  // ----- Credentials

  /** One `@` with text without whitespace on both sides. */
  ghost predicate IsEmail(s: string) {
    exists a, b :: s == a + "@" + b && a != "" && b != ""
                   && (forall c <- a :: c != '@' && !IsSpace(c)) && forall c <- b :: c != '@' && !IsSpace(c)
  }

  lemma EmailIs(s: string)
    ensures ValidEmail(s) <==> IsEmail(s)
  {
    hide IsSpace;
    if ValidEmail(s) {
      var at :| 0 < at < |s| - 1 && s[at] == '@' && forall i :: 0 <= i < |s| && i != at ==> s[i] != '@' && !IsSpace(s[i]);
      EmailParts(s, at);
    }
    if IsEmail(s) {
      var a, b :| s == a + "@" + b && a != "" && b != ""
        && (forall c <- a :: c != '@' && !IsSpace(c)) && forall c <- b :: c != '@' && !IsSpace(c);
      forall i | 0 <= i < |s| && i != |a| ensures s[i] != '@' && !IsSpace(s[i]) {
        if i < |a| { assert s[i] == a[i] && a[i] in a; } else { assert s[i] == b[i - |a| - 1] && b[i - |a| - 1] in b; }
      }
      assert s[|a|] == '@' && 0 < |a| < |s| - 1;
    }
  }

  lemma EmailParts(s: string, at: int)
    requires 0 < at < |s| - 1 && s[at] == '@' && forall i :: 0 <= i < |s| && i != at ==> s[i] != '@' && !IsSpace(s[i])
    ensures IsEmail(s)
  {
    hide IsSpace;
    var a, b := s[..at], s[at + 1..];
    forall c | c in a ensures c != '@' && !IsSpace(c) {
      var i :| 0 <= i < at && s[i] == c;
    }
    forall c | c in b ensures c != '@' && !IsSpace(c) {
      var i :| 0 <= i < |b| && b[i] == c;
      assert s[at + 1 + i] == c;
    }
    assert s == a + "@" + b;
  }

  /** A synthetic email of the smoke tests. */
  ghost predicate IsSynthetic(s: string) { exists a :: s == a + "@release-smoke.invalid" }

  lemma SyntheticIs(s: string)
    ensures Synthetic(s) <==> IsSynthetic(s)
  {
    var m := "@release-smoke.invalid";
    if Synthetic(s) { assert s == s[..|s| - |m|] + m; }
    if a :| s == a + m { assert s[|s| - |m|..] == m; }
  }

  /** Twenty to 4096 characters with a lower-case letter, an upper-case letter, a digit, and something else. */
  predicate IsStrong(py: Python, w: string) {
    && |w| >= 20 && |w| <= 4096
    && (exists i :: 0 <= i < |w| && py.isLower(w[i])) && (exists i :: 0 <= i < |w| && py.isUpper(w[i]))
    && (exists i :: 0 <= i < |w| && py.isDigit(w[i])) && (exists i :: 0 <= i < |w| && !py.isAlnum(w[i]))
  }

  lemma StrongIs(py: Python, w: string)
    ensures Strong(py, w) <==> IsStrong(py, w)
  {}

  /** The value under a key is a text of one to 4096 characters. */
  predicate Holds(values: map<string, Value>, key: string, text: string) {
    key in values && values[key] == Text(text) && 1 <= |text| <= 4096
  }

  /** The seven keys with these texts, and no others. */
  predicate Spelled(p: Payload, tenant: string, tenantPassword: string, id: string, platform: string, platformPassword: string,
                    member: string, memberPassword: string) {
    && p.Fields?
    && p.values.Keys == {"SMOKE_TENANT_EMAIL", "SMOKE_TENANT_PASSWORD", "SMOKE_TENANT_ID", "SMOKE_PLATFORM_ADMIN_EMAIL",
                         "SMOKE_PLATFORM_ADMIN_PASSWORD", "SMOKE_MEMBER_EMAIL", "SMOKE_MEMBER_PASSWORD"}
    && Holds(p.values, "SMOKE_TENANT_EMAIL", tenant) && Holds(p.values, "SMOKE_TENANT_PASSWORD", tenantPassword)
    && Holds(p.values, "SMOKE_TENANT_ID", id) && Holds(p.values, "SMOKE_PLATFORM_ADMIN_EMAIL", platform)
    && Holds(p.values, "SMOKE_PLATFORM_ADMIN_PASSWORD", platformPassword)
    && Holds(p.values, "SMOKE_MEMBER_EMAIL", member) && Holds(p.values, "SMOKE_MEMBER_PASSWORD", memberPassword)
  }

  /** Three different emails, two of them synthetic, a tenant id, and three different strong passwords. */
  ghost predicate Usable(py: Python, s: SmokeCredentials) {
    var c := s.principals;
    && IsEmail(c.tenantEmail) && IsEmail(c.platformEmail) && IsEmail(c.memberEmail)
    && c.tenantEmail != c.platformEmail && c.tenantEmail != c.memberEmail && c.platformEmail != c.memberEmail
    && IsSynthetic(c.platformEmail) && IsSynthetic(c.memberEmail)
    && IsStrong(py, s.tenantPassword) && IsStrong(py, s.platformPassword) && IsStrong(py, s.memberPassword)
    && s.tenantPassword != s.platformPassword && s.tenantPassword != s.memberPassword
    && s.platformPassword != s.memberPassword
  }

  lemma CompleteIs(p: Payload)
    ensures Complete(p) ==>
      Spelled(p, Get(p, TENANT_EMAIL), Get(p, TENANT_PASSWORD), Get(p, TENANT_ID), Get(p, PLATFORM_EMAIL),
              Get(p, PLATFORM_PASSWORD), Get(p, MEMBER_EMAIL), Get(p, MEMBER_PASSWORD))
  {}

  lemma SpelledIs(p: Payload, tenant: string, tenantPassword: string, id: string, platform: string, platformPassword: string,
                  member: string, memberPassword: string)
    requires Spelled(p, tenant, tenantPassword, id, platform, platformPassword, member, memberPassword)
    ensures Complete(p)
    ensures Get(p, TENANT_EMAIL) == tenant && Get(p, TENANT_PASSWORD) == tenantPassword && Get(p, TENANT_ID) == id
    ensures Get(p, PLATFORM_EMAIL) == platform && Get(p, PLATFORM_PASSWORD) == platformPassword
    ensures Get(p, MEMBER_EMAIL) == member && Get(p, MEMBER_PASSWORD) == memberPassword
  {}

  lemma AcceptableIs(py: Python, p: Payload)
    requires Complete(p) && py.parseId(Get(p, TENANT_ID)).Some?
    ensures Acceptable(p, py) <==>
      Usable(py, SmokeCredentials(
        Credentials(Canonical(py, Get(p, TENANT_EMAIL)), py.parseId(Get(p, TENANT_ID)).value,
                    Canonical(py, Get(p, PLATFORM_EMAIL)), Canonical(py, Get(p, MEMBER_EMAIL))),
        Get(p, TENANT_PASSWORD), Get(p, PLATFORM_PASSWORD), Get(p, MEMBER_PASSWORD)))
  {
    hide IsEmail, ValidEmail, IsSynthetic, Synthetic, IsStrong, Strong, Canonical, Get, AllTexts;
    EmailIs(Canonical(py, Get(p, TENANT_EMAIL)));
    EmailIs(Canonical(py, Get(p, PLATFORM_EMAIL)));
    EmailIs(Canonical(py, Get(p, MEMBER_EMAIL)));
    SyntheticIs(Canonical(py, Get(p, PLATFORM_EMAIL)));
    SyntheticIs(Canonical(py, Get(p, MEMBER_EMAIL)));
    StrongIs(py, Get(p, TENANT_PASSWORD));
    StrongIs(py, Get(p, PLATFORM_PASSWORD));
    StrongIs(py, Get(p, MEMBER_PASSWORD));
  }

  /** What the payload must spell for these credentials: the seven texts, with emails stripped and lower-cased. */
  lemma CredentialsMean(p: Payload, py: Python, s: SmokeCredentials)
    ensures ParseCredentials(p, py) == Ok(s) <==>
      && Usable(py, s)
      && exists tenant, id, platform, member ::
           && Spelled(p, tenant, s.tenantPassword, id, platform, s.platformPassword, member, s.memberPassword)
           && s.principals == Credentials(py.lower(Strip(tenant)), s.principals.tenantId, py.lower(Strip(platform)),
                                          py.lower(Strip(member)))
           && py.parseId(id) == Some(s.principals.tenantId)
  {
    hide ParseCredentials, Acceptable, Usable, Spelled, Complete, Get, Strip;
    ParseAccepts(p, py);
    if Acceptable(p, py) {
      ParsedFields(p, py);
      AcceptedComplete(p, py);
      CompleteIs(p);
      AcceptableIs(py, p);
    }
    if tenant, id, platform, member :|
        && Usable(py, s)
        && Spelled(p, tenant, s.tenantPassword, id, platform, s.platformPassword, member, s.memberPassword)
        && s.principals == Credentials(py.lower(Strip(tenant)), s.principals.tenantId, py.lower(Strip(platform)),
                                       py.lower(Strip(member)))
        && py.parseId(id) == Some(s.principals.tenantId) {
      SpelledIs(p, tenant, s.tenantPassword, id, platform, s.platformPassword, member, s.memberPassword);
      AcceptableIs(py, p);
      ParsedFields(p, py);
    }
  }

  lemma AcceptedComplete(p: Payload, py: Python)
    requires Acceptable(p, py)
    ensures Complete(p) && py.parseId(Get(p, TENANT_ID)).Some?
  {
    hide AcceptableEmails, Strong, AllTexts;
  }
}
