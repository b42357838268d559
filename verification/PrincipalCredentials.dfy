module PrincipalCredentials {

  // The credentials of the release-smoke principals: what parsing them accepts, and which spellings are the same principal.

  import opened Options
  import opened PythonText
  import opened Principals
  import opened PrincipalsLifecycle

  /** A value of the JSON object. */
  datatype Value = Text(text: string) | Other

  datatype Payload = Fields(values: map<string, Value>) | NotObject

  datatype SmokeCredentials = SmokeCredentials(principals: Credentials, tenantPassword: string, platformPassword: string,
                                               memberPassword: string)

  const TENANT_EMAIL := "SMOKE_TENANT_EMAIL"
  const TENANT_PASSWORD := "SMOKE_TENANT_PASSWORD"
  const TENANT_ID := "SMOKE_TENANT_ID"
  const PLATFORM_EMAIL := "SMOKE_PLATFORM_ADMIN_EMAIL"
  const PLATFORM_PASSWORD := "SMOKE_PLATFORM_ADMIN_PASSWORD"
  const MEMBER_EMAIL := "SMOKE_MEMBER_EMAIL"
  const MEMBER_PASSWORD := "SMOKE_MEMBER_PASSWORD"

  const REQUIRED_KEYS :=
    {TENANT_EMAIL, TENANT_PASSWORD, TENANT_ID, PLATFORM_EMAIL, PLATFORM_PASSWORD, MEMBER_EMAIL, MEMBER_PASSWORD}

  const EMAILS := {TENANT_EMAIL, PLATFORM_EMAIL, MEMBER_EMAIL}

  const SYNTHETIC_EMAIL_SUFFIX := "@release-smoke.invalid"

  /** What Python says: lower-casing, the classes of characters by its Unicode tables, and the reading of a tenant id.
      */
  datatype Python = Python(lower: string -> string, isLower: char -> bool, isUpper: char -> bool, isDigit: char -> bool,
                           isAlnum: char -> bool, parseId: string -> Option<nat>)

  // ----- Emails and passwords

  /** `canonicalize_email`; the empty text stands for its `None`. */
  function Canonical(py: Python, email: string): string { py.lower(Strip(email)) }

  /** The full match of `[^@\s]+@[^@\s]+`. */
  predicate ValidEmail(s: string) {
    exists at :: 0 < at < |s| - 1 && s[at] == '@' && forall i :: 0 <= i < |s| && i != at ==> s[i] != '@' && !IsSpace(s[i])
  }

  predicate Synthetic(email: string) {
    |email| >= |SYNTHETIC_EMAIL_SUFFIX| && email[|email| - |SYNTHETIC_EMAIL_SUFFIX|..] == SYNTHETIC_EMAIL_SUFFIX
  }

  predicate Strong(py: Python, password: string) {
    && 20 <= |password| <= 4096
    && (exists c <- password :: py.isLower(c))
    && (exists c <- password :: py.isUpper(c))
    && (exists c <- password :: py.isDigit(c))
    && (exists c <- password :: !py.isAlnum(c))
  }

  // ----- Parsing

  function Require(condition: bool, code: string): Result<()> { if condition then Ok(()) else Err(code) }

  predicate AllTexts(fields: map<string,
                     Value>) { forall k <- fields :: fields[k].Text? && 0 < |fields[k].text| <= 4096 }

  predicate Complete(payload: Payload) { payload.Fields? && payload.values.Keys == REQUIRED_KEYS && AllTexts(payload.values) }

  function Get(payload: Payload, key: string): string
    requires Complete(payload) && key in REQUIRED_KEYS
  {
    payload.values[key].text
  }

  function RequiredEmail(py: Python, email: string, code: string): Result<string> {
    if ValidEmail(Canonical(py, email)) then Ok(Canonical(py, email)) else Err(code)
  }

  /** `parse_credentials`. */
  function ParseCredentials(payload: Payload, py: Python): Result<SmokeCredentials> {
    var _ :- Require(payload.Fields?, "credentials_object_required");
    var _ :- Require(payload.values.Keys == REQUIRED_KEYS, "credentials_exact_keys_required");
    var _ :- Require(AllTexts(payload.values), "credentials_nonempty_strings_required");
    ParseTexts(py, Get(payload, TENANT_EMAIL), Get(payload, PLATFORM_EMAIL), Get(payload, MEMBER_EMAIL),
               py.parseId(Get(payload, TENANT_ID)),
               Get(payload, TENANT_PASSWORD), Get(payload, PLATFORM_PASSWORD), Get(payload, MEMBER_PASSWORD))
  }

  /** The checks of the single values, in their order. */
  function ParseTexts(py: Python, tenant: string, platform: string, member: string, id: Option<nat>, a: string,
                      b: string, c: string)
    : Result<SmokeCredentials>
  {
    var emails :- ParseEmails(py, tenant, platform, member);
    var _ :- Require(id.Some?, "tenant_id_invalid");
    var _ :- Require(Strong(py, a) && Strong(py, b) && Strong(py, c), "strong_passwords_required");
    var _ :- Require(|{a, b, c}| == 3, "principal_passwords_must_be_distinct");
    Ok(SmokeCredentials(Credentials(emails.0, id.value, emails.1, emails.2), a, b, c))
  }

  /** The canonical emails of the tenant, the platform operator and the member. */
  function ParseEmails(py: Python, tenant: string, platform: string, member: string): Result<(string, string, string)> {
    var tenantEmail :- RequiredEmail(py, tenant, "tenant_email_invalid");
    var platformEmail :- RequiredEmail(py, platform, "platform_email_invalid");
    var memberEmail :- RequiredEmail(py, member, "member_email_invalid");
    var _ :- Require(|{tenantEmail, platformEmail, memberEmail}| == 3, "principal_emails_must_be_distinct");
    var _ :- Require(Synthetic(platformEmail), "platform_email_must_be_release_smoke_synthetic");
    var _ :- Require(Synthetic(memberEmail), "member_email_must_be_release_smoke_synthetic");
    Ok((tenantEmail, platformEmail, memberEmail))
  }

  // ----- Canonical emails

  /** What `str.lower` keeps: it changes nothing the second time, and puts no whitespace at the ends. A text may grow.
      */
  ghost predicate Lowers(py: Python) {
    forall s :: py.lower(py.lower(s)) == py.lower(s) && (Strip(s) == s ==> Strip(py.lower(s)) == py.lower(s))
  }

  /** Lower-casing the letters of ASCII is such a function. */
  lemma AsciiLowers(py: Python)
    requires forall s :: py.lower(s) == Lower(s)
    ensures Lowers(py)
  {
    hide StripLeft, StripRight, Strip;
    forall s ensures py.lower(py.lower(s)) == py.lower(s) && (Strip(s) == s ==> Strip(py.lower(s)) == py.lower(s)) {
      StripEnds(s);
      LowerKeepsEnds(s);
      StripEnds(Lower(s));
      assert Lower(Lower(s)) == Lower(s);
    }
  }

  lemma LowerKeepsEnds(s: string)
    ensures |Lower(s)| == |s| && forall i :: 0 <= i < |s| ==> (IsSpace(Lower(s)[i]) <==> IsSpace(s[i]))
  {}

  /** Canonical emails are their own canonical form. */
  lemma CanonicalSettles(py: Python, email: string)
    requires Lowers(py)
    ensures Canonical(py, Canonical(py, email)) == Canonical(py, email)
  {
    hide StripLeft, StripRight, Strip;
    StripEnds(email);
    StripEnds(Strip(email));
  }

  // ----- What parsing establishes

  lemma ThreeDiffer<T>(a: T, b: T, c: T)
    ensures |{a, b, c}| == 3 <==> a != b && a != c && b != c
  {
    if a == b {
      assert {a, b, c} == {b, c};
    } else if a == c {
      assert {a, b, c} == {b, c};
    } else if b == c {
      assert {a, b, c} == {a, b};
    }
  }

  predicate AcceptableEmails(py: Python, tenant: string, platform: string, member: string) {
    var t, p, m := Canonical(py, tenant), Canonical(py, platform), Canonical(py, member);
    ValidEmail(t) && ValidEmail(p) && ValidEmail(m) && t != p && t != m && p != m && Synthetic(p) && Synthetic(m)
  }

  predicate AcceptableTexts(py: Python, tenant: string, platform: string, member: string, id: Option<nat>, a: string,
                            b: string, c: string) {
    && AcceptableEmails(py, tenant, platform, member) && id.Some?
    && Strong(py, a) && Strong(py, b) && Strong(py, c) && a != b && a != c && b != c
  }

  /** Accepted credentials are complete, and their emails and passwords are acceptable and pairwise different. */
  predicate Acceptable(payload: Payload, py: Python) {
    && Complete(payload)
    && AcceptableTexts(py, Get(payload, TENANT_EMAIL), Get(payload, PLATFORM_EMAIL), Get(payload, MEMBER_EMAIL),
                       py.parseId(Get(payload, TENANT_ID)),
                       Get(payload, TENANT_PASSWORD), Get(payload, PLATFORM_PASSWORD), Get(payload, MEMBER_PASSWORD))
  }

  lemma EmailsAccepted(py: Python, tenant: string, platform: string, member: string)
    ensures ParseEmails(py, tenant, platform, member).Ok? <==> AcceptableEmails(py, tenant, platform, member)
    ensures AcceptableEmails(py, tenant, platform, member) ==>
      ParseEmails(py, tenant, platform, member).value
        == (Canonical(py, tenant), Canonical(py, platform), Canonical(py, member))
  {
    hide ValidEmail, Synthetic, Canonical;
    ThreeDiffer(Canonical(py, tenant), Canonical(py, platform), Canonical(py, member));
  }

  lemma TextsAccepted(py: Python, tenant: string, platform: string, member: string, id: Option<nat>, a: string,
                      b: string, c: string)
    ensures var r := ParseTexts(py, tenant, platform, member, id, a, b, c);
      && (r.Ok? <==> AcceptableTexts(py, tenant, platform, member, id, a, b, c))
      && (r.Ok? ==>
            var e := Credentials(Canonical(py, tenant), id.value, Canonical(py, platform), Canonical(py, member));
            r.value == SmokeCredentials(e, a, b, c))
  {
    hide ParseEmails, AcceptableEmails, Strong, Canonical;
    EmailsAccepted(py, tenant, platform, member);
    ThreeDiffer(a, b, c);
  }

  lemma EmailsDistinct(py: Python, tenant: string, platform: string, member: string, id: nat)
    requires AcceptableEmails(py, tenant, platform, member)
    ensures Distinct(Credentials(Canonical(py, tenant), id, Canonical(py, platform), Canonical(py, member)))
  {
    hide ValidEmail, Synthetic, Canonical;
  }

  lemma ParseAccepts(payload: Payload, py: Python)
    ensures var r := ParseCredentials(payload, py);
      && (r.Ok? <==> Acceptable(payload, py))
      && (r.Ok? ==> Distinct(r.value.principals))
  {
    hide AllTexts, Get, ParseTexts, AcceptableEmails, Distinct, Strong;
    if Complete(payload) {
      var tenant, platform, member := Get(payload, TENANT_EMAIL), Get(payload, PLATFORM_EMAIL), Get(payload, MEMBER_EMAIL);
      var id := py.parseId(Get(payload, TENANT_ID));
      TextsAccepted(py, tenant, platform, member, id,
                    Get(payload, TENANT_PASSWORD), Get(payload, PLATFORM_PASSWORD), Get(payload, MEMBER_PASSWORD));
      if AcceptableEmails(py, tenant, platform, member) && id.Some? { EmailsDistinct(py, tenant, platform, member, id.value); }
    }
  }

  /** The payload that spells these credentials canonically. */
  function PayloadOf(s: SmokeCredentials, id: string): Payload {
    Fields(map[TENANT_EMAIL := Text(s.principals.tenantEmail), TENANT_PASSWORD := Text(s.tenantPassword),
               TENANT_ID := Text(id),
               PLATFORM_EMAIL := Text(s.principals.platformEmail), PLATFORM_PASSWORD := Text(s.platformPassword),
               MEMBER_EMAIL := Text(s.principals.memberEmail), MEMBER_PASSWORD := Text(s.memberPassword)])
  }

  lemma ValidNotEmpty(email: string)
    requires ValidEmail(email)
    ensures 0 < |email|
  {}

  lemma KeysDiffer()
    ensures |REQUIRED_KEYS| == 7
  {
    var keys := [TENANT_EMAIL, TENANT_PASSWORD, TENANT_ID, PLATFORM_EMAIL, PLATFORM_PASSWORD, MEMBER_EMAIL, MEMBER_PASSWORD];
    assert |TENANT_EMAIL| == 18 && |TENANT_PASSWORD| == 21 && |TENANT_ID| == 15 && |PLATFORM_EMAIL| == 26;
    assert |PLATFORM_PASSWORD| == 29 && |MEMBER_EMAIL| == 18 && |MEMBER_PASSWORD| == 21;
    assert TENANT_EMAIL[6] != MEMBER_EMAIL[6] && TENANT_PASSWORD[6] != MEMBER_PASSWORD[6];
  }

  /** What the canonical spelling holds under each key. */
  lemma PayloadHolds(s: SmokeCredentials, id: string)
    requires forall t <- [s.principals.tenantEmail, s.principals.platformEmail, s.principals.memberEmail, s.tenantPassword,
                          s.platformPassword, s.memberPassword, id] :: 0 < |t| <= 4096
    ensures var p := PayloadOf(s, id);
      && Complete(p)
      && Get(p, TENANT_EMAIL) == s.principals.tenantEmail && Get(p, PLATFORM_EMAIL) == s.principals.platformEmail
      && Get(p, MEMBER_EMAIL) == s.principals.memberEmail && Get(p, TENANT_ID) == id
      && Get(p, TENANT_PASSWORD) == s.tenantPassword && Get(p, PLATFORM_PASSWORD) == s.platformPassword
      && Get(p, MEMBER_PASSWORD) == s.memberPassword
  {
    KeysDiffer();
    assert PayloadOf(s, id).values.Keys == REQUIRED_KEYS;
  }

  /** What accepted credentials hold. */
  lemma ParsedFields(payload: Payload, py: Python)
    requires Acceptable(payload, py)
    ensures ParseCredentials(payload, py)
      == Ok(SmokeCredentials(
              Credentials(Canonical(py, Get(payload, TENANT_EMAIL)), py.parseId(Get(payload, TENANT_ID)).value,
                          Canonical(py, Get(payload, PLATFORM_EMAIL)), Canonical(py, Get(payload, MEMBER_EMAIL))),
              Get(payload, TENANT_PASSWORD), Get(payload, PLATFORM_PASSWORD), Get(payload, MEMBER_PASSWORD)))
  {
    ParseAccepts(payload, py);
    hide ValidEmail, Synthetic, Strong, Canonical, AllTexts, Get;
  }

  /** The canonical emails fit the limit on values; lower-casing may have made them longer. */
  predicate EmailsFit(s: SmokeCredentials) {
    |s.principals.tenantEmail| <= 4096 && |s.principals.platformEmail| <= 4096 && |s.principals.memberEmail| <= 4096
  }

  lemma TooLongRefused(s: SmokeCredentials, id: string, py: Python)
    requires !EmailsFit(s)
    ensures ParseCredentials(PayloadOf(s, id), py) == Err("credentials_nonempty_strings_required")
  {
    KeysDiffer();
    var values := PayloadOf(s, id).values;
    assert values.Keys == REQUIRED_KEYS;
    assert !AllTexts(values) by {
      assert TENANT_EMAIL in values && PLATFORM_EMAIL in values && MEMBER_EMAIL in values;
      assert values[TENANT_EMAIL].text == s.principals.tenantEmail && values[PLATFORM_EMAIL].text == s.principals.platformEmail;
      assert values[MEMBER_EMAIL].text == s.principals.memberEmail;
    }
  }

  /** Round trip: the canonical spelling of accepted credentials gives the same credentials, exactly when its emails
      fit. */
  lemma ParseSettles(payload: Payload, py: Python)
    requires Lowers(py) && ParseCredentials(payload, py).Ok?
    ensures Complete(payload)
    ensures var s := ParseCredentials(payload, py).value;
      ParseCredentials(PayloadOf(s, Get(payload, TENANT_ID)), py)
        == if EmailsFit(s) then Ok(s) else Err("credentials_nonempty_strings_required")
  {
    ParseAccepts(payload, py);
    hide ParseCredentials, ValidEmail, Synthetic, Strong, Canonical, PayloadOf, Lowers;
    var s := ParseCredentials(payload, py).value;
    ParsedFields(payload, py);
    if EmailsFit(s) {
      CanonicalSettles(py, Get(payload, TENANT_EMAIL));
      CanonicalSettles(py, Get(payload, PLATFORM_EMAIL));
      CanonicalSettles(py, Get(payload, MEMBER_EMAIL));
      ValidNotEmpty(s.principals.tenantEmail);
      ValidNotEmpty(s.principals.platformEmail);
      ValidNotEmpty(s.principals.memberEmail);
      PayloadHolds(s, Get(payload, TENANT_ID));
      ParsedFields(PayloadOf(s, Get(payload, TENANT_ID)), py);
    } else {
      TooLongRefused(s, Get(payload, TENANT_ID), py);
    }
  }

  /** Two spellings of one email in a payload are refused. */
  lemma SameEmailRefused(p: Payload, py: Python, j: string, k: string)
    requires Complete(p) && j in EMAILS && k in EMAILS && j != k && Canonical(py, Get(p, j)) == Canonical(py, Get(p, k))
    ensures ParseCredentials(p, py).Err?
  {
    ParseAccepts(p, py);
    hide ParseCredentials, ValidEmail, Synthetic, Strong, Canonical, Complete, Get;
  }

  lemma RespelledSame(p: Payload, q: Payload, py: Python)
    requires Complete(p) && Complete(q)
    requires Get(p, TENANT_ID) == Get(q, TENANT_ID) && Get(p, TENANT_PASSWORD) == Get(q, TENANT_PASSWORD)
    requires Get(p, PLATFORM_PASSWORD) == Get(q, PLATFORM_PASSWORD)
    requires Get(p, MEMBER_PASSWORD) == Get(q, MEMBER_PASSWORD)
    requires Canonical(py, Get(p, TENANT_EMAIL)) == Canonical(py, Get(q, TENANT_EMAIL))
    requires Canonical(py, Get(p, PLATFORM_EMAIL)) == Canonical(py, Get(q, PLATFORM_EMAIL))
    requires Canonical(py, Get(p, MEMBER_EMAIL)) == Canonical(py, Get(q, MEMBER_EMAIL))
    ensures ParseCredentials(p, py) == ParseCredentials(q, py)
  {
    hide ValidEmail, Synthetic, Strong, Canonical, Get, AllTexts;
  }

  /** Spellings that differ in case or surrounding whitespace are one principal: respelling emails does not change what
      is parsed, and two spellings of one email in a payload are refused. */
  lemma SpellingDoesNotMatter(p: Payload, q: Payload, py: Python)
    requires Complete(p) && Complete(q)
    requires forall k <- REQUIRED_KEYS - EMAILS :: Get(p, k) == Get(q, k)
    requires forall k <- EMAILS :: Canonical(py, Get(p, k)) == Canonical(py, Get(q, k))
    ensures ParseCredentials(p, py) == ParseCredentials(q, py)
    ensures forall j <- EMAILS, k <- EMAILS :: j != k && Canonical(py, Get(p, j)) == Canonical(py, Get(p, k)) ==>
      ParseCredentials(p, py).Err?
  {
    hide ParseCredentials, Canonical, Get, Complete;
    KeysDiffer();
    assert {TENANT_ID, TENANT_PASSWORD, PLATFORM_PASSWORD, MEMBER_PASSWORD} <= REQUIRED_KEYS - EMAILS by { OthersNotEmails(); }
    RespelledSame(p, q, py);
    forall j <- EMAILS, k <- EMAILS | j != k && Canonical(py, Get(p, j)) == Canonical(py, Get(p, k))
      ensures ParseCredentials(p, py).Err?
    {
      SameEmailRefused(p, py, j, k);
    }
  }

  lemma OthersNotEmails()
    ensures {TENANT_ID, TENANT_PASSWORD, PLATFORM_PASSWORD, MEMBER_PASSWORD} <= REQUIRED_KEYS - EMAILS
  {
    assert |TENANT_EMAIL| == 18 && |PLATFORM_EMAIL| == 26 && |MEMBER_EMAIL| == 18;
    assert |TENANT_ID| == 15 && |TENANT_PASSWORD| == 21 && |PLATFORM_PASSWORD| == 29 && |MEMBER_PASSWORD| == 21;
  }

  /** Parsed credentials can be provisioned and deactivated in any order for ever, once the guards accept them. */
  lemma ParsedRunsOn(payload: Payload, py: Python, db: Db, ops: seq<Operation>)
    requires ParseCredentials(payload, py).Ok?
    requires Valid(db) && Open(db, ParseCredentials(payload, py).value.principals)
    ensures var c := ParseCredentials(payload, py).value.principals; Valid(Run(db, c, ops)) && Open(Run(db, c, ops), c)
  {
    hide ParseCredentials, Valid, Open;
    ParseAccepts(payload, py);
    RunLifecycle(db, ParseCredentials(payload, py).value.principals, ops);
  }
}
