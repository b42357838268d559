module OidcHistory {

  // Where access tokens come from, read off the requests themselves: an approval, an exchange of its code, an issue.

  import opened Options
  import opened OidcEmulator

  /** A request for this client with state, nonce and an S256 challenge. */
  predicate Acceptable(cfg: Config, q: Request) {
    && q.clientId == cfg.clientId && q.redirectAllowed && q.responseType == "code" && q.openid
    && q.state != "" && q.nonce != "" && q.challenge != "" && q.challengeMethod == "S256"
  }

  /** Action `a` approved the code: an acceptable request, and the grant that was made of it. */
  ghost predicate Approved(cfg: Config, actions: seq<Action>, a: nat, code: string, g: Grant) {
    && a < |actions| && actions[a].Approve? && actions[a].code == code
    && var q, t := actions[a].request, actions[a].now;
    && Acceptable(cfg, q)
    && g.clientId == q.clientId && g.redirectUri == q.redirectUri && g.challenge == q.challenge && g.nonce == q.nonce
    && g.expiresAt == t + 120.0
  }

  /** Action `b` presented the code: the client's credentials, the redirect URI and the verifier of the approval, in time.
      */
  ghost predicate Presented(cfg: Config, digest: string -> Option<string>, actions: seq<Action>, b: nat, id: nat,
                            x: Exchange) {
    && b < |actions| && actions[b].Redeem? && actions[b].id == id && actions[b].form == x.form && actions[b].now == x.at
    && x.form.clientId == cfg.clientId && x.form.clientSecret == cfg.clientSecret
    && x.form.clientId == x.grant.clientId && x.form.redirectUri == x.grant.redirectUri
    && x.form.verifier != "" && digest(x.form.verifier) == Some(x.grant.challenge)
    && x.at < x.grant.expiresAt
  }

  /** Action `c` issued the token, five minutes long. */
  ghost predicate Handed(actions: seq<Action>, c: nat, id: nat, i: Issued) {
    && c < |actions| && actions[c].Issue? && actions[c].id == id && actions[c].token == i.token
    && i.expiresAt == actions[c].now + 300.0 && i.nonce == i.exchange.grant.nonce
  }

  ghost predicate HasApproval(cfg: Config, actions: seq<Action>, code: string, g: Grant) {
    exists a :: Approved(cfg, actions, a, code, g)
  }

  ghost predicate HasExchange(cfg: Config, digest: string -> Option<string>, actions: seq<Action>, id: nat, x: Exchange) {
    exists a, b :: a < b && Approved(cfg, actions, a, x.form.code, x.grant) && Presented(cfg, digest, actions, b, id, x)
  }

  ghost predicate HasHistory(cfg: Config, digest: string -> Option<string>, actions: seq<Action>, i: Issued) {
    exists a: nat, b: nat, c: nat, id: nat ::
      && a < b < c && Approved(cfg, actions, a, i.exchange.form.code, i.exchange.grant)
      && Presented(cfg, digest, actions, b, id, i.exchange) && Handed(actions, c, id, i)
  }

  /** Everything in the state has its history in the actions so far. */
  ghost predicate Recorded(cfg: Config, digest: string -> Option<string>, actions: seq<Action>, s: State) {
    && (forall code <- s.approvals :: HasApproval(cfg, actions, code, s.approvals[code]))
    && (forall code <- s.codes :: code in s.approvals && s.codes[code] == s.approvals[code])
    && (forall id <- s.pending :: HasExchange(cfg, digest, actions, id, s.pending[id]))
    && (forall i <- s.issued :: HasHistory(cfg, digest, actions, i))
  }

  lemma ApprovalStays(cfg: Config, actions: seq<Action>, more: Action, code: string, g: Grant)
    requires HasApproval(cfg, actions, code, g)
    ensures HasApproval(cfg, actions + [more], code, g)
  {
    var a :| Approved(cfg, actions, a, code, g);
    assert Approved(cfg, actions + [more], a, code, g);
  }

  lemma ExchangeStays(cfg: Config, digest: string -> Option<string>, actions: seq<Action>, more: Action, id: nat, x: Exchange)
    requires HasExchange(cfg, digest, actions, id, x)
    ensures HasExchange(cfg, digest, actions + [more], id, x)
  {
    var a, b :| a < b && Approved(cfg, actions, a, x.form.code, x.grant) && Presented(cfg, digest, actions, b, id, x);
    assert Approved(cfg, actions + [more], a, x.form.code, x.grant) && Presented(cfg, digest, actions + [more], b, id, x);
  }

  lemma HistoryStays(cfg: Config, digest: string -> Option<string>, actions: seq<Action>, more: Action, i: Issued)
    requires HasHistory(cfg, digest, actions, i)
    ensures HasHistory(cfg, digest, actions + [more], i)
  {
    hide Approved, Presented, Handed;
    var a: nat, b: nat, c: nat, id: nat :|
      && a < b < c && Approved(cfg, actions, a, i.exchange.form.code, i.exchange.grant)
      && Presented(cfg, digest, actions, b, id, i.exchange) && Handed(actions, c, id, i);
    PartsStay(cfg, digest, actions, more, a, b, c, id, i);
  }

  lemma PartsStay(cfg: Config, digest: string -> Option<string>, actions: seq<Action>, more: Action, a: nat, b: nat, c: nat,
                  id: nat, i: Issued)
    ensures Approved(cfg, actions, a, i.exchange.form.code, i.exchange.grant) ==>
      Approved(cfg, actions + [more], a, i.exchange.form.code, i.exchange.grant)
    ensures Presented(cfg, digest, actions, b, id, i.exchange) ==>
      Presented(cfg, digest, actions + [more], b, id, i.exchange)
    ensures Handed(actions, c, id, i) ==> Handed(actions + [more], c, id, i)
  {}

  lemma RecordedLonger(cfg: Config, digest: string -> Option<string>, actions: seq<Action>, more: Action, s: State)
    requires Recorded(cfg, digest, actions, s)
    ensures Recorded(cfg, digest, actions + [more], s)
  {
    hide HasApproval, HasExchange, HasHistory;
    forall code | code in s.approvals ensures HasApproval(cfg, actions + [more], code, s.approvals[code]) {
      ApprovalStays(cfg, actions, more, code, s.approvals[code]);
    }
    forall id | id in s.pending ensures HasExchange(cfg, digest, actions + [more], id, s.pending[id]) {
      ExchangeStays(cfg, digest, actions, more, id, s.pending[id]);
    }
    forall i | i in s.issued ensures HasHistory(cfg, digest, actions + [more], i) {
      HistoryStays(cfg, digest, actions, more, i);
    }
  }

  lemma ApproveRecords(cfg: Config, digest: string -> Option<string>, actions: seq<Action>, s: State, code: string,
                       q: Request, now: real)
    requires Recorded(cfg, digest, actions, s)
    ensures Recorded(cfg, digest, actions + [Approve(code, q, now)], ApproveStep(cfg, s, code, q, now))
  {
    hide HasExchange, HasHistory, Approved;
    var all := actions + [Approve(code, q, now)];
    RecordedLonger(cfg, digest, actions, Approve(code, q, now), s);
    if code !in s.approvals && Accepted(cfg, q) { NowApproved(cfg, actions, code, q, now); }
  }

  lemma NowApproved(cfg: Config, actions: seq<Action>, code: string, q: Request, now: real)
    requires Accepted(cfg, q)
    ensures Approved(cfg, actions + [Approve(code, q, now)], |actions|, code, NewGrant(q, now))
  {}

  /** An exchange whose code is approved. */
  lemma PresentRecords(cfg: Config, digest: string -> Option<string>, actions: seq<Action>, id: nat, x: Exchange)
    requires HasApproval(cfg, actions, x.form.code, x.grant) && ClientOk(cfg, x.form) && GrantOk(digest, x.grant, x.form, x.at)
    ensures HasExchange(cfg, digest, actions + [Redeem(id, x.form, x.at)], id, x)
  {
    var a :| Approved(cfg, actions, a, x.form.code, x.grant);
    var all := actions + [Redeem(id, x.form, x.at)];
    assert Approved(cfg, all, a, x.form.code, x.grant) && Presented(cfg, digest, all, |actions|, id, x);
  }

  lemma RedeemRecords(cfg: Config, digest: string -> Option<string>, actions: seq<Action>, s: State, id: nat, f: Form,
                      now: real)
    requires Recorded(cfg, digest, actions, s)
    ensures Recorded(cfg, digest, actions + [Redeem(id, f, now)], RedeemStep(cfg, digest, s, id, f, now))
  {
    hide HasApproval, HasExchange, HasHistory, ClientOk, GrantOk;
    RecordedLonger(cfg, digest, actions, Redeem(id, f, now), s);
    if id !in s.requests && ClientOk(cfg, f) && f.code in s.codes && GrantOk(digest, s.codes[f.code], f, now) {
      PresentRecords(cfg, digest, actions, id, Exchange(f, s.codes[f.code], now));
    }
  }

  lemma HandRecords(cfg: Config, digest: string -> Option<string>, actions: seq<Action>, id: nat, x: Exchange, token: string,
                    now: real)
    requires HasExchange(cfg, digest, actions, id, x)
    ensures HasHistory(cfg, digest, actions + [Issue(id, token, now)], Issued(token, x, x.grant.nonce, now + TOKEN_TTL))
  {
    hide Approved, Presented;
    var a, b :| a < b && Approved(cfg, actions, a, x.form.code, x.grant) && Presented(cfg, digest, actions, b, id, x);
    var all, i := actions + [Issue(id, token, now)], Issued(token, x, x.grant.nonce, now + TOKEN_TTL);
    PartsStay(cfg, digest, actions, Issue(id, token, now), a, b, |actions|, id, i);
    PresentedBefore(cfg, digest, actions, b, id, x);
    assert Handed(all, |actions|, id, i);
  }

  lemma PresentedBefore(cfg: Config, digest: string -> Option<string>, actions: seq<Action>, b: nat, id: nat, x: Exchange)
    requires Presented(cfg, digest, actions, b, id, x)
    ensures b < |actions|
  {}

  lemma IssueRecords(cfg: Config, digest: string -> Option<string>, actions: seq<Action>, s: State, id: nat, token: string,
                     now: real)
    requires Recorded(cfg, digest, actions, s)
    ensures Recorded(cfg, digest, actions + [Issue(id, token, now)], IssueStep(s, id, token, now))
  {
    hide HasApproval, HasExchange, HasHistory;
    RecordedLonger(cfg, digest, actions, Issue(id, token, now), s);
    if id in s.pending { HandRecords(cfg, digest, actions, id, s.pending[id], token, now); }
  }

  lemma {:induction false} RunRecords(cfg: Config, digest: string -> Option<string>, before: seq<Action>, s: State,
                                      actions: seq<Action>)
    requires Recorded(cfg, digest, before, s)
    ensures Recorded(cfg, digest, before + actions, Run(cfg, digest, s, actions))
    decreases |actions|
  {
    hide Recorded, ApproveStep, RedeemStep, IssueStep;
    if actions == [] {
      assert before + actions == before;
    } else {
      var a := actions[0];
      match a {
        case Approve(code, q, now) => ApproveRecords(cfg, digest, before, s, code, q, now);
        case Redeem(id, f, now) => RedeemRecords(cfg, digest, before, s, id, f, now);
        case Issue(id, token, now) => IssueRecords(cfg, digest, before, s, id, token, now);
      }
      RunRecords(cfg, digest, before + [a], Step(cfg, digest, s, a), actions[1..]);
      assert before + [a] + actions[1..] == before + actions;
    }
  }

  /** Every access token goes back, over any interleaving, to an accepted approval, a later presentation of its code with
      the client's credentials, the same redirect URI and the verifier of the challenge within two minutes, and a later
      issue; it is good for five minutes and its ID token carries the nonce of the approval. */
  lemma TokensHaveHistory(cfg: Config, digest: string -> Option<string>, actions: seq<Action>)
    ensures forall i <- Run(cfg, digest, EMPTY, actions).issued :: HasHistory(cfg, digest, actions, i)
  {
    hide HasHistory, Run;
    NothingRecorded(cfg, digest);
    RunRecords(cfg, digest, [], EMPTY, actions);
    assert [] + actions == actions;
  }

  lemma NothingRecorded(cfg: Config, digest: string -> Option<string>)
    ensures Recorded(cfg, digest, [], EMPTY)
  {}

  // ----- What earns a token

  /** A presentation is taken exactly when the code is there, in time, for the same client, redirect URI and verifier; the
      token handed out for it is then good for five minutes. */
  lemma PresentationMeans(cfg: Config, digest: string -> Option<string>, s: State, id: nat, f: Form, now: real)
    requires id !in s.requests && id !in s.pending
    ensures var t := Step(cfg, digest, s, Redeem(id, f, now));
      && (id in t.pending <==>
            && f.clientId == cfg.clientId && f.clientSecret == cfg.clientSecret && f.code in s.codes
            && var g := s.codes[f.code];
            && f.clientId == g.clientId && f.redirectUri == g.redirectUri && now < g.expiresAt
            && f.verifier != "" && digest(f.verifier) == Some(g.challenge) && forall c <- g.challenge :: c as int < 128)
      && (id in t.pending ==> f.code in s.codes && t.pending[id] == Exchange(f, s.codes[f.code], now))
      && t.tokens == s.tokens && t.issued == s.issued && t.approvals == s.approvals
  {}

  lemma IssueMeans(cfg: Config, digest: string -> Option<string>, s: State, id: nat, token: string, now: real)
    requires id in s.pending && forall i <- s.issued :: i.token != token
    ensures var t, x := Step(cfg, digest, s, Issue(id, token, now)), s.pending[id];
      && t.tokens == s.tokens[token := now + 300.0]
      && t.issued == s.issued + [Issued(token, x, x.grant.nonce, now + 300.0)]
      && t.codes == s.codes && t.pending == s.pending - {id}
  {}

  lemma ApprovalMeans(cfg: Config, digest: string -> Option<string>, s: State, code: string, q: Request, now: real)
    requires code !in s.approvals && code !in s.codes
    ensures var t := Step(cfg, digest, s, Approve(code, q, now));
      && (code in t.codes <==> Acceptable(cfg, q))
      && (code in t.codes ==>
            t.codes == s.codes[code := Grant(q.clientId, q.redirectUri, q.challenge, q.nonce, now + 120.0)])
      && (code !in t.codes ==> t == s)
      && t.tokens == s.tokens && t.pending == s.pending && t.issued == s.issued && t.requests == s.requests
  {}

  /** The form answers the approval of the request at time `t`: the client's credentials, the same redirect URI, the
      verifier of the challenge, and within two minutes. */
  predicate Answers(cfg: Config, digest: string -> Option<string>, q: Request, t: real, f: Form, at: real) {
    && f.clientId == cfg.clientId && f.clientSecret == cfg.clientSecret
    && f.redirectUri == q.redirectUri && at < t + 120.0
    && f.verifier != "" && digest(f.verifier) == Some(q.challenge) && forall c <- q.challenge :: c as int < 128
  }

  lemma RunThree(cfg: Config, digest: string -> Option<string>, s: State, a: Action, b: Action, c: Action)
    ensures Run(cfg, digest, s, [a, b, c]) == Step(cfg, digest, Step(cfg, digest, Step(cfg, digest, s, a), b), c)
  {
    hide Step;
    var one := Step(cfg, digest, s, a);
    var two := Step(cfg, digest, one, b);
    assert [a, b, c][1..] == [b, c] && [b, c][1..] == [c] && [c][1..] == [];
    assert Run(cfg, digest, s, [a, b, c]) == Run(cfg, digest, one, [b, c]) == Run(cfg, digest, two, [c]);
    assert Run(cfg, digest, two, [c]) == Run(cfg, digest, Step(cfg, digest, two, c), []);
  }

  /** The whole flow, in any state: approval, presentation and issue hand out a token exactly when the request is acceptable
      and the form answers it; the token is then good for five minutes and carries the nonce. */
  lemma FlowEarnsToken(cfg: Config, digest: string -> Option<string>, s: State, q: Request, t: real, id: nat, f: Form,
                       at: real, token: string, now: real)
    requires f.code !in s.approvals && f.code !in s.codes && id !in s.requests && id !in s.pending
    requires forall i <- s.issued :: i.token != token
    ensures var r := Run(cfg, digest, s, [Approve(f.code, q, t), Redeem(id, f, at), Issue(id, token, now)]);
      if Acceptable(cfg, q) && Answers(cfg, digest, q, t, f, at) then
        && r.tokens == s.tokens[token := now + 300.0]
        && |r.issued| == |s.issued| + 1 && r.issued[|s.issued|].token == token && r.issued[|s.issued|].nonce == q.nonce
      else r.tokens == s.tokens && r.issued == s.issued
  {
    hide Step, Run, Acceptable;
    RunThree(cfg, digest, s, Approve(f.code, q, t), Redeem(id, f, at), Issue(id, token, now));
    var one := Step(cfg, digest, s, Approve(f.code, q, t));
    ApprovalMeans(cfg, digest, s, f.code, q, t);
    AcceptableNames(cfg, q);
    PresentationMeans(cfg, digest, one, id, f, at);
    var two := Step(cfg, digest, one, Redeem(id, f, at));
    if id in two.pending { IssueMeans(cfg, digest, two, id, token, now); } else { NothingIssued(cfg, digest, two, id, token, now); }
  }

  lemma AcceptableNames(cfg: Config, q: Request)
    ensures Acceptable(cfg, q) ==> q.clientId == cfg.clientId
  {}

  lemma NothingIssued(cfg: Config, digest: string -> Option<string>, s: State, id: nat, token: string, now: real)
    requires id !in s.pending
    ensures Step(cfg, digest, s, Issue(id, token, now)) == s
  {}
}
