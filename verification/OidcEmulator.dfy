module OidcEmulator {

  // The local OIDC emulator: one-time authorization codes with PKCE (sections 4.1.2 and 4.1.3 of RFC 6749, section 4.6
  // of RFC 7636), over every interleaving of approvals and of the two critical sections of the token endpoint.

  import opened Options

  const CODE_TTL := 120.0
  const TOKEN_TTL := 300.0

  /** The configured client. */
  datatype Config = Config(clientId: string, clientSecret: string)

  /** The query of an authorization request; `redirectAllowed` and `openid` are what the checks of the redirect URI and
      of the scope say. */
  datatype Request = Request(clientId: string, redirectUri: string, redirectAllowed: bool, responseType: string, openid: bool,
                             state: string, challenge: string, challengeMethod: string, nonce: string)

  datatype Grant = Grant(clientId: string, redirectUri: string, challenge: string, nonce: string, expiresAt: real)

  datatype Form = Form(code: string, clientId: string, clientSecret: string, redirectUri: string, verifier: string)

  /** `_validated_authorization_request`. */
  predicate Accepted(cfg: Config, q: Request) {
    && q.clientId == cfg.clientId && q.redirectAllowed
    && q.responseType == "code" && q.openid
    && q.state != "" && q.nonce != "" && q.challenge != "" && q.challengeMethod == "S256"
  }

  predicate ClientOk(cfg: Config, f: Form) { f.clientId == cfg.clientId && f.clientSecret == cfg.clientSecret }

  predicate IsAscii(s: string) { forall c <- s :: c as int < 128 }

  /** What the token endpoint demands of the code it took out. `digest` is the PKCE transformation, `None` where it
      raises; a challenge with characters outside ASCII cannot be compared. */
  predicate GrantOk(digest: string -> Option<string>, g: Grant, f: Form, now: real) {
    && IsAscii(g.challenge) && now < g.expiresAt && g.clientId == f.clientId && g.redirectUri == f.redirectUri
    && f.verifier != "" && digest(f.verifier) == Some(g.challenge)
  }

  /** A token request between its two critical sections. */
  datatype Exchange = Exchange(form: Form, grant: Grant, at: real)

  /** An issued access token, with the nonce in its ID token and its expiry. */
  datatype Issued = Issued(token: string, exchange: Exchange, nonce: string, expiresAt: real)

  /** `codes` and `tokens` are the server's dictionaries; `pending` are requests under way. `approvals` and `issued` are
      everything approved and issued so far. */
  datatype State = State(codes: map<string, Grant>, tokens: map<string, real>, pending: map<nat, Exchange>,
                         approvals: map<string, Grant>, issued: seq<Issued>, requests: set<nat>)

  const EMPTY := State(map[], map[], map[], map[], [], {})

  datatype Action =
    | Approve(code: string, request: Request, now: real)
    | Redeem(id: nat, form: Form, now: real)
    | Issue(id: nat, token: string, now: real)

  function NewGrant(q: Request, now: real): Grant { Grant(q.clientId, q.redirectUri, q.challenge, q.nonce, now + CODE_TTL) }

  predicate NewToken(s: State, token: string) { forall i <- s.issued :: i.token != token }

  /** `approve`, with a random code that was never drawn before. */
  function ApproveStep(cfg: Config, s: State, code: string, q: Request, now: real): State {
    if code in s.approvals || !Accepted(cfg, q) then s
    else
      var g := NewGrant(q, now);
      s.(codes := s.codes[code := g], approvals := s.approvals[code := g])
  }

  /** The first critical section of `token` and the checks behind it. */
  function RedeemStep(cfg: Config, digest: string -> Option<string>, s: State, id: nat, f: Form, now: real): State {
    if id in s.requests then s
    else
      var t := s.(requests := s.requests + {id});
      if !ClientOk(cfg, f) then t
      else if f.code in s.codes && GrantOk(digest, s.codes[f.code], f, now) then
        t.(codes := s.codes - {f.code}, pending := s.pending[id := Exchange(f, s.codes[f.code], now)])
      else t.(codes := s.codes - {f.code})
  }

  /** The second critical section of `token`, with a random access token that was never drawn before. */
  function IssueStep(s: State, id: nat, token: string, now: real): State {
    if id !in s.pending || !NewToken(s, token) then s
    else
      var x := s.pending[id];
      s.(tokens := s.tokens[token := now + TOKEN_TTL], pending := s.pending - {id},
         issued := s.issued + [Issued(token, x, x.grant.nonce, now + TOKEN_TTL)])
  }

  function Step(cfg: Config, digest: string -> Option<string>, s: State, a: Action): State {
    match a
    case Approve(code, q, now) => ApproveStep(cfg, s, code, q, now)
    case Redeem(id, f, now) => RedeemStep(cfg, digest, s, id, f, now)
    case Issue(id, token, now) => IssueStep(s, id, token, now)
  }

  function Run(cfg: Config, digest: string -> Option<string>, s: State, actions: seq<Action>): State
    decreases |actions|
  {
    if actions == [] then s else Run(cfg, digest, Step(cfg, digest, s, actions[0]), actions[1..])
  }

  // ----- What every reachable state satisfies

  /** The exchange presented an approved code in time, with the approved client, redirect URI and challenge. */
  predicate Sound(cfg: Config, digest: string -> Option<string>, s: State, x: Exchange) {
    && x.form.code in s.approvals && s.approvals[x.form.code] == x.grant && x.form.code !in s.codes
    && ClientOk(cfg, x.form) && GrantOk(digest, x.grant, x.form, x.at)
  }

  predicate CodesOk(s: State) { forall code <- s.codes :: code in s.approvals && s.approvals[code] == s.codes[code] }

  predicate PendingOk(cfg: Config, digest: string -> Option<string>, s: State) {
    forall id <- s.pending :: id in s.requests && Sound(cfg, digest, s, s.pending[id])
  }

  predicate IssuedOk(cfg: Config, digest: string -> Option<string>, s: State) {
    forall i <- s.issued :: Sound(cfg, digest, s, i.exchange) && i.nonce == i.exchange.grant.nonce
  }

  /** No code is used twice, neither by requests under way nor by issued tokens. */
  predicate CodesApart(s: State) {
    && (forall a <- s.pending, b <- s.pending :: a != b ==> s.pending[a].form.code != s.pending[b].form.code)
    && (forall a <- s.pending, i <- s.issued :: s.pending[a].form.code != i.exchange.form.code)
    && (forall i, j :: 0 <= i < j < |s.issued| ==> s.issued[i].exchange.form.code != s.issued[j].exchange.form.code)
  }

  /** The dictionary of access tokens holds the issued ones. */
  predicate TokensOk(s: State) {
    && (forall i, j :: 0 <= i < j < |s.issued| ==> s.issued[i].token != s.issued[j].token)
    && (forall i <- s.issued :: i.token in s.tokens && s.tokens[i.token] == i.expiresAt)
    && (forall token <- s.tokens :: exists i <- s.issued :: i.token == token)
  }

  predicate Valid(cfg: Config, digest: string -> Option<string>, s: State) {
    CodesOk(s) && PendingOk(cfg, digest, s) && IssuedOk(cfg, digest, s) && CodesApart(s) && TokensOk(s)
  }

  /** A step that keeps the approvals and brings no used code back keeps exchanges sound. */
  predicate Keeps(s: State, t: State) {
    && (forall code <- s.approvals :: code in t.approvals && t.approvals[code] == s.approvals[code])
    && (forall code <- s.approvals :: code in t.codes ==> code in s.codes)
  }

  lemma SoundStays(cfg: Config, digest: string -> Option<string>, s: State, t: State)
    requires Keeps(s, t)
    ensures forall x :: Sound(cfg, digest, s, x) ==> Sound(cfg, digest, t, x)
  {
    hide GrantOk, ClientOk;
  }

  lemma ApproveKeeps(cfg: Config, digest: string -> Option<string>, s: State, code: string, q: Request, now: real)
    requires Valid(cfg, digest, s)
    ensures Valid(cfg, digest, ApproveStep(cfg, s, code, q, now))
  {
    hide Sound, CodesApart, TokensOk;
    var t := ApproveStep(cfg, s, code, q, now);
    SoundStays(cfg, digest, s, t);
    SameApart(s, t);
  }

  lemma SameApart(s: State, t: State)
    requires t.pending == s.pending && t.issued == s.issued && t.tokens == s.tokens
    ensures CodesApart(s) ==> CodesApart(t)
    ensures TokensOk(s) ==> TokensOk(t)
  {}

  /** A code that is still there was not used. */
  lemma UnusedCode(cfg: Config, digest: string -> Option<string>, s: State, code: string)
    requires PendingOk(cfg, digest, s) && IssuedOk(cfg, digest, s) && code in s.codes
    ensures forall x <- s.pending :: s.pending[x].form.code != code
    ensures forall i <- s.issued :: i.exchange.form.code != code
  {
    hide GrantOk, ClientOk;
  }

  /** Taking a code out. */
  lemma TakeKeeps(cfg: Config, digest: string -> Option<string>, s: State, code: string, id: nat)
    requires Valid(cfg, digest, s)
    ensures Valid(cfg, digest, s.(codes := s.codes - {code}, requests := s.requests + {id}))
  {
    hide Sound, CodesApart, TokensOk;
    var t := s.(codes := s.codes - {code}, requests := s.requests + {id});
    SoundStays(cfg, digest, s, t);
    SameApart(s, t);
  }

  lemma PendKeeps(cfg: Config, digest: string -> Option<string>, s: State, id: nat, x: Exchange)
    requires Valid(cfg, digest, s) && id !in s.pending && id in s.requests && Sound(cfg, digest, s, x)
    requires (forall y <- s.pending :: s.pending[y].form.code != x.form.code)
    requires (forall i <- s.issued :: i.exchange.form.code != x.form.code)
    ensures Valid(cfg, digest, s.(pending := s.pending[id := x]))
  {
    hide GrantOk, ClientOk;
    var t := s.(pending := s.pending[id := x]);
    SoundStays(cfg, digest, s, t);
    assert TokensOk(t);
  }

  lemma RedeemKeeps(cfg: Config, digest: string -> Option<string>, s: State, id: nat, f: Form, now: real)
    requires Valid(cfg, digest, s)
    ensures Valid(cfg, digest, RedeemStep(cfg, digest, s, id, f, now))
  {
    hide GrantOk, ClientOk, PendingOk, IssuedOk, CodesApart, TokensOk;
    if id !in s.requests {
      TakeKeeps(cfg, digest, s, f.code, id);
      var t := s.(codes := s.codes - {f.code}, requests := s.requests + {id});
      if f.code in s.codes && ClientOk(cfg, f) && GrantOk(digest, s.codes[f.code], f, now) {
        UnusedCode(cfg, digest, s, f.code);
        assert id !in s.pending by { RequestsKnown(cfg, digest, s); }
        PendKeeps(cfg, digest, t, id, Exchange(f, s.codes[f.code], now));
      }
      RequestOnly(cfg, digest, s, id);
    }
  }

  lemma RequestsKnown(cfg: Config, digest: string -> Option<string>, s: State)
    requires PendingOk(cfg, digest, s)
    ensures s.pending.Keys <= s.requests
  {}

  lemma RequestOnly(cfg: Config, digest: string -> Option<string>, s: State, id: nat)
    requires Valid(cfg, digest, s)
    ensures Valid(cfg, digest, s.(requests := s.requests + {id}))
  {
    hide Sound, CodesApart, TokensOk;
    var t := s.(requests := s.requests + {id});
    SoundStays(cfg, digest, s, t);
    SameApart(s, t);
  }

  lemma IssueKeepsCodes(cfg: Config, digest: string -> Option<string>, s: State, id: nat, token: string, now: real)
    requires Valid(cfg, digest, s)
    ensures var t := IssueStep(s, id, token, now); PendingOk(cfg, digest, t) && IssuedOk(cfg, digest, t) && CodesApart(t)
  {
    hide GrantOk, ClientOk, TokensOk, Sound;
    var t := IssueStep(s, id, token, now);
    SoundStays(cfg, digest, s, t);
    if id in s.pending && NewToken(s, token) {
      forall i, j | 0 <= i < j < |t.issued| ensures t.issued[i].exchange.form.code != t.issued[j].exchange.form.code {
        if j == |s.issued| { assert s.issued[i] in s.issued; }
      }
    }
  }

  lemma IssueKeepsTokens(s: State, id: nat, token: string, now: real)
    requires TokensOk(s)
    ensures TokensOk(IssueStep(s, id, token, now))
  {
    var t := IssueStep(s, id, token, now);
    if id in s.pending && NewToken(s, token) {
      var n := |s.issued|;
      forall i, j | 0 <= i < j < |t.issued| ensures t.issued[i].token != t.issued[j].token {
        if j == n { assert s.issued[i] in s.issued; }
      }
      forall x | x in t.tokens ensures exists i <- t.issued :: i.token == x {
        if x == token {
          assert t.issued[n].token == token && t.issued[n] in t.issued;
        } else {
          var i :| i in s.issued && i.token == x;
          assert i in t.issued;
        }
      }
    }
  }

  lemma IssueKeeps(cfg: Config, digest: string -> Option<string>, s: State, id: nat, token: string, now: real)
    requires Valid(cfg, digest, s)
    ensures Valid(cfg, digest, IssueStep(s, id, token, now))
  {
    hide PendingOk, IssuedOk, CodesApart, TokensOk;
    IssueKeepsCodes(cfg, digest, s, id, token, now);
    IssueKeepsTokens(s, id, token, now);
  }

  lemma StepKeeps(cfg: Config, digest: string -> Option<string>, s: State, a: Action)
    requires Valid(cfg, digest, s)
    ensures Valid(cfg, digest, Step(cfg, digest, s, a))
  {
    hide Valid, ApproveStep, RedeemStep, IssueStep;
    match a
    case Approve(code, q, now) => ApproveKeeps(cfg, digest, s, code, q, now);
    case Redeem(id, f, now) => RedeemKeeps(cfg, digest, s, id, f, now);
    case Issue(id, token, now) => IssueKeeps(cfg, digest, s, id, token, now);
  }

  lemma {:induction false} RunKeeps(cfg: Config, digest: string -> Option<string>, s: State, actions: seq<Action>)
    requires Valid(cfg, digest, s)
    ensures Valid(cfg, digest, Run(cfg, digest, s, actions))
    decreases |actions|
  {
    hide Valid, Step;
    if actions != [] {
      StepKeeps(cfg, digest, s, actions[0]);
      RunKeeps(cfg, digest, Step(cfg, digest, s, actions[0]), actions[1..]);
    }
  }

  lemma EmptyValid(cfg: Config, digest: string -> Option<string>)
    ensures Valid(cfg, digest, EMPTY)
  {}

  // ----- Guarantees over all runs

  /** Whatever the interleaving: every access token was issued for an approved code that was presented within its
      lifetime, by the client, for the redirect URI and with the verifier of the approval, and its ID token carries the
      approved nonce; and different tokens come from different codes. */
  lemma TokensComeFromApprovals(cfg: Config, digest: string -> Option<string>, actions: seq<Action>)
    ensures var s := Run(cfg, digest, EMPTY, actions);
      && (forall i <- s.issued ::
            && i.exchange.form.code in s.approvals
            && var g, f := s.approvals[i.exchange.form.code], i.exchange.form;
            && f.clientId == cfg.clientId && f.clientSecret == cfg.clientSecret
            && f.clientId == g.clientId && f.redirectUri == g.redirectUri
            && digest(f.verifier) == Some(g.challenge) && f.verifier != ""
            && i.exchange.at < g.expiresAt && i.nonce == g.nonce)
      && (forall i, j :: 0 <= i < j < |s.issued| ==>
            s.issued[i].exchange.form.code != s.issued[j].exchange.form.code && s.issued[i].token != s.issued[j].token)
  {
    hide Run, CodesOk, PendingOk, CodesApart, TokensOk;
    EmptyValid(cfg, digest);
    RunKeeps(cfg, digest, EMPTY, actions);
    IssuedSound(cfg, digest, Run(cfg, digest, EMPTY, actions));
  }

  lemma IssuedSound(cfg: Config, digest: string -> Option<string>, s: State)
    requires Valid(cfg, digest, s)
    ensures forall i <- s.issued :: Sound(cfg, digest, s, i.exchange) && i.nonce == i.exchange.grant.nonce
    ensures forall i, j :: 0 <= i < j < |s.issued| ==>
      s.issued[i].exchange.form.code != s.issued[j].exchange.form.code && s.issued[i].token != s.issued[j].token
  {
    hide Sound;
  }

  /** An approval that was recorded stays as it was. */
  lemma {:induction false} ApprovalsStay(cfg: Config, digest: string -> Option<string>, s: State, actions: seq<Action>,
                                         code: string)
    requires code in s.approvals
    ensures var t := Run(cfg, digest, s, actions); code in t.approvals && t.approvals[code] == s.approvals[code]
    ensures code !in s.codes ==> code !in Run(cfg, digest, s, actions).codes
    decreases |actions|
  {
    if actions != [] { ApprovalsStay(cfg, digest, Step(cfg, digest, s, actions[0]), actions[1..], code); }
  }

  /** Any attempt with the client's credentials burns the code, whatever else is wrong with it; an attempt with wrong
      credentials leaves every code as it was. A burnt code is never accepted again. */
  lemma AttemptBurnsCode(cfg: Config, digest: string -> Option<string>, s: State, id: nat, f: Form, now: real,
                         later: seq<Action>)
    requires id !in s.requests
    ensures var t := Step(cfg, digest, s, Redeem(id, f, now));
      && (f.clientId != cfg.clientId || f.clientSecret != cfg.clientSecret ==> t.codes == s.codes && t.pending == s.pending)
      && (f.clientId == cfg.clientId && f.clientSecret == cfg.clientSecret ==>
            && t.codes == s.codes - {f.code}
            && (f.code in s.approvals ==> f.code !in Run(cfg, digest, t, later).codes))
      && (id in t.pending && id !in s.pending ==> f.code in s.codes)
  {
    hide Run, GrantOk;
    var t := Step(cfg, digest, s, Redeem(id, f, now));
    if ClientOk(cfg, f) && f.code in s.approvals { ApprovalsStay(cfg, digest, t, later, f.code); }
  }

  /** The tokens issued for a code. */
  function CountFor(issued: seq<Issued>, code: string): nat {
    if issued == [] then 0 else (if issued[0].exchange.form.code == code then 1 else 0) + CountFor(issued[1..], code)
  }

  lemma {:induction false} CountOnce(issued: seq<Issued>, code: string)
    requires forall i, j :: 0 <= i < j < |issued| ==> issued[i].exchange.form.code != issued[j].exchange.form.code
    ensures CountFor(issued, code) <= 1
    ensures CountFor(issued, code) == 0 <==> forall i <- issued :: i.exchange.form.code != code
  {
    if issued != [] {
      var rest := issued[1..];
      CountOnce(rest, code);
      assert issued == [issued[0]] + rest;
      if issued[0].exchange.form.code == code {
        forall i | i in rest ensures i.exchange.form.code != code {
          var k :| 0 <= k < |rest| && rest[k] == i;
          assert issued[0].exchange.form.code != issued[k + 1].exchange.form.code;
        }
      }
    }
  }

  /** Each code is exchanged at most once, however many requests race for it. */
  lemma CodeIsOneTime(cfg: Config, digest: string -> Option<string>, actions: seq<Action>, code: string)
    ensures CountFor(Run(cfg, digest, EMPTY, actions).issued, code) <= 1
  {
    hide Run, Sound;
    EmptyValid(cfg, digest);
    RunKeeps(cfg, digest, EMPTY, actions);
    CountOnce(Run(cfg, digest, EMPTY, actions).issued, code);
  }

  /** `userinfo`. */
  predicate UserInfo(tokens: map<string, real>, token: string, now: real) {
    token in tokens && tokens[token] != 0.0 && now < tokens[token]
  }

  /** The user endpoint accepts exactly issued tokens within their lifetime. */
  lemma UserInfoMeans(cfg: Config, digest: string -> Option<string>, actions: seq<Action>, token: string, now: real)
    ensures var s := Run(cfg, digest, EMPTY, actions);
      UserInfo(s.tokens, token, now) <==> exists i <- s.issued :: i.token == token && i.expiresAt != 0.0 && now < i.expiresAt
  {
    hide Run, Sound;
    EmptyValid(cfg, digest);
    RunKeeps(cfg, digest, EMPTY, actions);
  }

  // ----- The server

  /** What the first critical section and the checks behind it lead to; `Raised` is an exception out of the handler. */
  datatype Answer = InvalidClient | InvalidGrant | Raised | Taken(grant: Grant)

  class Server {
    const cfg: Config
    var authorizationCodes: map<string, Grant>
    var accessTokens: map<string, real>

    constructor (cfg: Config)
      ensures this.cfg == cfg && authorizationCodes == map[] && accessTokens == map[]
    {
      this.cfg := cfg;
      authorizationCodes, accessTokens := map[], map[];
    }

    /** `approve`: true when the request is accepted. */
    method ApproveRequest(code: string, q: Request, now: real) returns (accepted: bool)
      modifies `authorizationCodes
      ensures accepted <==>
        && q.clientId == cfg.clientId && q.redirectAllowed && q.responseType == "code" && q.openid
        && q.state != "" && q.nonce != "" && q.challenge != "" && q.challengeMethod == "S256"
      ensures authorizationCodes ==
        if accepted then old(authorizationCodes)[code := Grant(q.clientId, q.redirectUri, q.challenge, q.nonce, now + 120.0)]
        else old(authorizationCodes)
    {
      if q.clientId != cfg.clientId {
        return false;
      }
      if !q.redirectAllowed {
        return false;
      }
      if q.responseType != "code" || !q.openid {
        return false;
      }
      if q.state == "" || q.nonce == "" || q.challenge == "" || q.challengeMethod != "S256" {
        return false;
      }
      authorizationCodes := authorizationCodes[code := NewGrant(q, now)];
      return true;
    }

    /** The first half of `token`: the code is taken out before anything about it is checked. */
    method TakeCode(digest: string -> Option<string>, f: Form, now: real) returns (answer: Answer)
      modifies `authorizationCodes
      ensures answer.InvalidClient? <==> f.clientId != cfg.clientId || f.clientSecret != cfg.clientSecret
      ensures authorizationCodes ==
        if answer.InvalidClient? then old(authorizationCodes) else old(authorizationCodes) - {f.code}
      ensures answer.Taken? <==>
        && f.clientId == cfg.clientId && f.clientSecret == cfg.clientSecret && f.code in old(authorizationCodes)
        && var g := old(authorizationCodes)[f.code];
        && now < g.expiresAt && g.clientId == f.clientId && g.redirectUri == f.redirectUri && f.verifier != ""
        && digest(f.verifier) == Some(g.challenge) && forall c <- g.challenge :: c as int < 128
      ensures answer.Raised? <==>
        && f.clientId == cfg.clientId && f.clientSecret == cfg.clientSecret && f.code in old(authorizationCodes)
        && var g := old(authorizationCodes)[f.code];
        && now < g.expiresAt && g.clientId == f.clientId && g.redirectUri == f.redirectUri && f.verifier != ""
        && (digest(f.verifier) == None || exists c <- g.challenge :: c as int >= 128)
      ensures answer.Taken? ==> answer.grant == old(authorizationCodes)[f.code]
    {
      if f.clientId != cfg.clientId || f.clientSecret != cfg.clientSecret {
        return InvalidClient;
      }
      var grant := if f.code in authorizationCodes then Some(authorizationCodes[f.code]) else None;
      authorizationCodes := authorizationCodes - {f.code};
      if grant.None? || grant.value.expiresAt <= now || grant.value.clientId != f.clientId
         || grant.value.redirectUri != f.redirectUri || f.verifier == "" {
        return InvalidGrant;
      }
      if digest(f.verifier) == None || !IsAscii(grant.value.challenge) {
        return Raised;
      }
      if digest(f.verifier) != Some(grant.value.challenge) {
        return InvalidGrant;
      }
      return Taken(grant.value);
    }

    /** The second half of `token`: the nonce of the ID token is the approved one. */
    method IssueToken(token: string, grant: Grant, now: real) returns (nonce: string)
      modifies `accessTokens
      ensures accessTokens == old(accessTokens)[token := now + 300.0] && nonce == grant.nonce
    {
      accessTokens := accessTokens[token := now + TOKEN_TTL];
      nonce := grant.nonce;
    }

    /** `userinfo`: true when the token is accepted. */
    method CheckToken(token: string, now: real) returns (ok: bool)
      ensures ok <==> token in accessTokens && accessTokens[token] != 0.0 && now < accessTokens[token]
    {
      var expiresAt := if token in accessTokens then accessTokens[token] else 0.0;
      if expiresAt == 0.0 || expiresAt <= now {
        return false;
      }
      return true;
    }
  }
}
