/**
 Refresh-token rotation with reuse detection.  The table stores rows only; the lineages that rotation
 draws through them are history, and the protocol's promise is about the lineages.
 */
module RefreshTokens {
  import opened Common

  /** A refresh token.  The table keys rows by its SHA-256 digest, taken as injective. */
  type Token = nat

  /** The columns of users that authentication reads; password stands for what the stored hash verifies. */
  datatype Account = Account(email: string, password: string, active: bool, suspended: bool, disabled: bool, deleted: bool)

  datatype Row = Row(
    user: Id, device: Option<string>, issuedAt: Time, lastUsedAt: Option<Time>, expiresAt: Time, revokedAt: Option<Time>)

  datatype AuthError =
    | InvalidCredentials | AccountSuspended | InvalidToken | TokenReused | TokenExpired | AuthenticationRequired
    | ManyAccounts  // scalar_one_or_none met two rows with one email

  datatype Reply = Issued(token: Token) | LoggedOut | Rejected(error: AuthError)

  type Accounts = map<Id, Account>
  type Tokens = map<Token, Row>

  /** A lineage starts at a login or signup and grows by one token at each rotation. */
  type Lineages = seq<seq<Token>>

  datatype Auth = Auth(accounts: Accounts, tokens: Tokens, lineages: Lineages)

  datatype Step = Step(auth: Auth, reply: Reply)

  // ---------------------------------------------------------------------------
  // The calls
  // ---------------------------------------------------------------------------

  function WithEmail(accounts: Accounts, email: string): set<Id> {
    set u | u in accounts && accounts[u].email == email && !accounts[u].deleted
  }

  predicate Live(tokens: Tokens, token: Token) {
    token in tokens && tokens[token].revokedAt.None?
  }

  /** UPDATE refresh_tokens SET revoked_at WHERE user_id = user AND revoked_at IS NULL. */
  function RevokeAll(tokens: Tokens, user: Id, at: Time): Tokens {
    map t | t in tokens ::
      if tokens[t].user == user && tokens[t].revokedAt.None? then tokens[t].(revokedAt := Some(at)) else tokens[t]
  }

  function Extended(lineages: Lineages, presented: Token, issue: Token): (longer: Lineages)
    ensures |longer| == |lineages|
    ensures forall i | 0 <= i < |lineages| ::
              longer[i] == if presented in lineages[i] then lineages[i] + [issue] else lineages[i]
  {
    seq(|lineages|, i requires 0 <= i < |lineages| =>
      if presented in lineages[i] then lineages[i] + [issue] else lineages[i])
  }

  function NewRow(user: Id, device: Option<string>, at: Time, days: int): Row {
    Row(user, device, at, None, at + Days(days), None)
  }

  /** The end of signup: the new account and its first token. */
  function SignUp(auth: Auth, user: Id, account: Account, token: Token, at: Time, days: int): Step {
    Step(Auth(auth.accounts[user := account],
              auth.tokens[token := NewRow(user, None, at, days)],
              auth.lineages + [[token]]),
         Issued(token))
  }

  function Login(
      auth: Auth, email: string, password: string, device: Option<string>, token: Token, at: Time, days: int): Step
  {
    match ScalarOneOrNone(WithEmail(auth.accounts, email))
    case NoRow => Step(auth, Rejected(InvalidCredentials))
    case ManyRows => Step(auth, Rejected(ManyAccounts))
    case OneRow(user) =>
      assert user in WithEmail(auth.accounts, email);
      var account := auth.accounts[user];
      if account.password != password || !account.active then Step(auth, Rejected(InvalidCredentials))
      else if account.suspended then Step(auth, Rejected(AccountSuspended))
      else
        Step(auth.(tokens := auth.tokens[token := NewRow(user, device, at, days)],
                   lineages := auth.lineages + [[token]]),
             Issued(token))
  }

  predicate MayRefresh(accounts: Accounts, user: Id) {
    user in accounts && !accounts[user].deleted && accounts[user].active && !accounts[user].disabled
  }

  function Refresh(auth: Auth, presented: Token, issue: Token, at: Time): Step {
    if presented !in auth.tokens then Step(auth, Rejected(InvalidToken))
    else
      var row := auth.tokens[presented];
      if row.revokedAt.Some? then
        Step(auth.(tokens := RevokeAll(auth.tokens, row.user, at)), Rejected(TokenReused))
      else if row.expiresAt < at then Step(auth, Rejected(TokenExpired))
      else if !MayRefresh(auth.accounts, row.user) then Step(auth, Rejected(AuthenticationRequired))
      else
        Step(auth.(tokens := auth.tokens[presented := row.(revokedAt := Some(at), lastUsedAt := Some(at))]
                                        [issue := NewRow(row.user, row.device, at, 7)],
                   lineages := Extended(auth.lineages, presented, issue)),
             Issued(issue))
  }

  function Logout(auth: Auth, presented: Token, at: Time): Step {
    if Live(auth.tokens, presented) then
      Step(auth.(tokens := auth.tokens[presented := auth.tokens[presented].(revokedAt := Some(at))]), LoggedOut)
    else Step(auth, LoggedOut)
  }

  function LogoutAll(auth: Auth, user: Id, at: Time): Step {
    Step(auth.(tokens := RevokeAll(auth.tokens, user, at)), LoggedOut)
  }

  // ---------------------------------------------------------------------------
  // Runs
  // ---------------------------------------------------------------------------

  /** Moderate stands for every change of an account that touches no token: suspension, disabling, deletion. */
  datatype Call =
    | CallSignUp(user: Id, account: Account, token: Token, days: int)
    | CallLogin(email: string, password: string, device: Option<string>, token: Token, days: int)
    | CallRefresh(presented: Token, token: Token)
    | CallLogout(presented: Token)
    | CallLogoutAll(user: Id)
    | Moderate(user: Id, account: Account)

  datatype Op = Op(call: Call, at: Time)

  function Apply(auth: Auth, op: Op): Step {
    match op.call
    case CallSignUp(user, account, token, days) => SignUp(auth, user, account, token, op.at, days)
    case CallLogin(email, password, device, token, days) => Login(auth, email, password, device, token, op.at, days)
    case CallRefresh(presented, token) => Refresh(auth, presented, token, op.at)
    case CallLogout(presented) => Logout(auth, presented, op.at)
    case CallLogoutAll(user) => LogoutAll(auth, user, op.at)
    case Moderate(user, account) => Step(auth.(accounts := auth.accounts[user := account]), LoggedOut)
  }

  /** A generated token is new, and so is the key of a new user. */
  predicate Admissible(auth: Auth, op: Op) {
    && (op.call.CallSignUp? || op.call.CallLogin? || op.call.CallRefresh? ==> op.call.token !in auth.tokens)
    && (op.call.CallSignUp? ==> op.call.user !in auth.accounts)
  }

  predicate IsRun(auth: Auth, ops: seq<Op>)
    decreases |ops|
  {
    ops == [] || (Admissible(auth, ops[0]) && IsRun(Apply(auth, ops[0]).auth, ops[1..]))
  }

  function After(auth: Auth, ops: seq<Op>): Auth
    decreases |ops|
  {
    if ops == [] then auth else After(Apply(auth, ops[0]).auth, ops[1..])
  }

  // ---------------------------------------------------------------------------
  // Lineages
  // ---------------------------------------------------------------------------

  /** All tokens of a lineage are one user's, and all but its newest are revoked. */
  predicate GoodLineage(tokens: Tokens, lineage: seq<Token>) {
    && lineage != []
    && Distinct(lineage)
    && lineage[0] in tokens
    && (forall j | 0 <= j < |lineage| :: lineage[j] in tokens && tokens[lineage[j]].user == tokens[lineage[0]].user)
    && (forall j | 0 <= j < |lineage| - 1 :: lineage[j] in tokens && tokens[lineage[j]].revokedAt.Some?)
  }

  predicate Apart(a: seq<Token>, b: seq<Token>) {
    forall t | t in a :: t !in b
  }

  predicate Within(token: Token, lineages: Lineages) {
    exists i | 0 <= i < |lineages| :: token in lineages[i]
  }

  /** The lineages partition the tokens. */
  predicate Sound(auth: Auth) {
    && (forall i | 0 <= i < |auth.lineages| :: GoodLineage(auth.tokens, auth.lineages[i]))
    && (forall i, j | 0 <= i < j < |auth.lineages| :: Apart(auth.lineages[i], auth.lineages[j]))
    && (forall t {:trigger Within(t, auth.lineages)} | t in auth.tokens :: Within(t, auth.lineages))
  }

  /** The update touches no lineage unless it revokes more. */
  predicate OnlyRevokes(before: Tokens, after: Tokens) {
    && before.Keys == after.Keys
    && forall t | t in before ::
         && after[t].user == before[t].user
         && (before[t].revokedAt.Some? ==> after[t] == before[t])
  }

  lemma RevokingKeepsLineages(auth: Auth, after: Tokens)
    requires Sound(auth) && OnlyRevokes(auth.tokens, after)
    ensures Sound(auth.(tokens := after))
  {
    forall i | 0 <= i < |auth.lineages|
      ensures GoodLineage(after, auth.lineages[i])
    {
      assert GoodLineage(auth.tokens, auth.lineages[i]);
    }
  }

  lemma StartingALineage(auth: Auth, accounts: Accounts, token: Token, row: Row)
    requires Sound(auth) && token !in auth.tokens
    ensures Sound(Auth(accounts, auth.tokens[token := row], auth.lineages + [[token]]))
  {
    var after := auth.tokens[token := row];
    forall i | 0 <= i < |auth.lineages|
      ensures GoodLineage(after, auth.lineages[i]) && token !in auth.lineages[i]
    {
      assert GoodLineage(auth.tokens, auth.lineages[i]);
    }
    assert GoodLineage(after, [token]);
    var lineages := auth.lineages + [[token]];
    forall t | t in after
      ensures Within(t, lineages)
    {
      if t == token {
        assert t in lineages[|auth.lineages|];
      } else {
        assert Within(t, auth.lineages);
        var i :| 0 <= i < |auth.lineages| && t in auth.lineages[i];
        assert lineages[i] == auth.lineages[i];
      }
    }
  }

  /** Only the newest token of a lineage can be live, so a rotation extends its lineage at the end. */
  lemma RotationKeepsItsLineage(before: Tokens, after: Tokens, lineage: seq<Token>, presented: Token, issue: Token)
    requires GoodLineage(before, lineage) && Live(before, presented) && issue !in before
    requires after.Keys == before.Keys + {issue}
    requires forall t | t in before && t != presented :: after[t] == before[t]
    requires after[presented].user == before[presented].user == after[issue].user && after[presented].revokedAt.Some?
    ensures GoodLineage(after, if presented in lineage then lineage + [issue] else lineage)
  {
    if presented in lineage {
      var longer := lineage + [issue];
      forall j | 0 <= j < |longer|
        ensures longer[j] in after && after[longer[j]].user == after[longer[0]].user
        ensures j < |longer| - 1 ==> after[longer[j]].revokedAt.Some?
      {
        var k :| 0 <= k < |lineage| && lineage[k] == presented;
        if j < |lineage| { assert longer[j] == lineage[j]; }
      }
    }
  }

  lemma RotationIsSound(auth: Auth, presented: Token, issue: Token, at: Time)
    requires Sound(auth) && issue !in auth.tokens && Refresh(auth, presented, issue, at).reply.Issued?
    ensures Sound(Refresh(auth, presented, issue, at).auth)
  {
    var next := Refresh(auth, presented, issue, at).auth;
    forall i | 0 <= i < |auth.lineages|
      ensures GoodLineage(next.tokens, next.lineages[i]) && issue !in auth.lineages[i]
    {
      assert GoodLineage(auth.tokens, auth.lineages[i]);
      RotationKeepsItsLineage(auth.tokens, next.tokens, auth.lineages[i], presented, issue);
    }
    forall i, j | 0 <= i < j < |next.lineages|
      ensures Apart(next.lineages[i], next.lineages[j])
    {
      assert Apart(auth.lineages[i], auth.lineages[j]);
    }
    forall t | t in next.tokens
      ensures Within(t, next.lineages)
    {
      var s := if t == issue then presented else t;
      assert Within(s, auth.lineages);
      var i :| 0 <= i < |auth.lineages| && s in auth.lineages[i];
      assert t in next.lineages[i];
    }
  }

  lemma StepIsSound(auth: Auth, op: Op)
    requires Sound(auth) && Admissible(auth, op)
    ensures Sound(Apply(auth, op).auth)
  {
    match op.call
    case CallSignUp(user, account, token, days) =>
      StartingALineage(auth, auth.accounts[user := account], token, NewRow(user, None, op.at, days));
    case CallLogin(email, password, device, token, days) =>
      var step := Login(auth, email, password, device, token, op.at, days);
      if step.reply.Issued? {
        var user := ScalarOneOrNone(WithEmail(auth.accounts, email)).id;
        StartingALineage(auth, auth.accounts, token, NewRow(user, device, op.at, days));
      }
    case CallRefresh(presented, token) =>
      var step := Refresh(auth, presented, token, op.at);
      if step.reply.Issued? {
        RotationIsSound(auth, presented, token, op.at);
      } else if step.reply == Rejected(TokenReused) {
        RevokingKeepsLineages(auth, step.auth.tokens);
      }
    case CallLogout(presented) =>
      RevokingKeepsLineages(auth, Logout(auth, presented, op.at).auth.tokens);
    case CallLogoutAll(user) =>
      RevokingKeepsLineages(auth, LogoutAll(auth, user, op.at).auth.tokens);
    case Moderate(_, _) =>
  }

  lemma {:induction false} RunIsSound(auth: Auth, ops: seq<Op>)
    requires Sound(auth) && IsRun(auth, ops)
    ensures Sound(After(auth, ops))
    decreases |ops|
  {
    if ops != [] {
      StepIsSound(auth, ops[0]);
      RunIsSound(Apply(auth, ops[0]).auth, ops[1..]);
    }
  }

  /** After every run each lineage has at most one live token, its newest, and every token is in one lineage. */
  lemma EveryLineageHasOneLiveToken(accounts: Accounts, ops: seq<Op>, i: nat, t: Token)
    requires IsRun(Auth(accounts, map[], []), ops)
    ensures var end := After(Auth(accounts, map[], []), ops);
            && Sound(end)
            && (i < |end.lineages| && t in end.lineages[i] && Live(end.tokens, t) ==>
                  t == end.lineages[i][|end.lineages[i]| - 1])
  {
    var start := Auth(accounts, map[], []);
    RunIsSound(start, ops);
    var end := After(start, ops);
    if i < |end.lineages| {
      assert GoodLineage(end.tokens, end.lineages[i]);
    }
  }

  // ---------------------------------------------------------------------------
  // Sessions
  // ---------------------------------------------------------------------------

  function LiveTokens(tokens: Tokens, user: Id): set<Token> {
    set t | t in tokens && tokens[t].user == user && tokens[t].revokedAt.None?
  }

  /** The lineages among the first n that belong to the user. */
  function SessionsOf(tokens: Tokens, lineages: Lineages, user: Id): nat
    requires forall i | 0 <= i < |lineages| :: GoodLineage(tokens, lineages[i])
  {
    if lineages == [] then 0
    else
      var last := lineages[|lineages| - 1];
      assert GoodLineage(tokens, last);
      SessionsOf(tokens, lineages[..|lineages| - 1], user) + (if tokens[last[0]].user == user then 1 else 0)
  }

  /** A user has at most as many live tokens as logins and signups of theirs issued one. */
  lemma {:induction false} LiveTokensAreSessions(tokens: Tokens, lineages: Lineages, user: Id, live: set<Token>)
    requires forall i | 0 <= i < |lineages| :: GoodLineage(tokens, lineages[i])
    requires forall t | t in live ::
               && t in LiveTokens(tokens, user)
               && Within(t, lineages)
    ensures |live| <= SessionsOf(tokens, lineages, user)
  {
    if lineages != [] {
      var front, last := lineages[..|lineages| - 1], lineages[|lineages| - 1];
      assert GoodLineage(tokens, last);
      var newest := last[|last| - 1];
      var others := live - {newest};
      forall t | t in others
        ensures Within(t, front)
      {
        var i :| 0 <= i < |lineages| && t in lineages[i];
        assert i < |front| && t in front[i];
      }
      LiveTokensAreSessions(tokens, front, user, others);
      if newest in live {
        assert live == others + {newest};
      } else {
        assert live == others;
      }
    } else {
      assert forall t | t in live :: Within(t, lineages);
      assert live == {};
    }
  }

  /** After every run a user has no more live tokens than sessions begun. */
  lemma LiveTokensAreBounded(accounts: Accounts, ops: seq<Op>, user: Id)
    requires IsRun(Auth(accounts, map[], []), ops)
    ensures var end := After(Auth(accounts, map[], []), ops);
            && (forall i | 0 <= i < |end.lineages| :: GoodLineage(end.tokens, end.lineages[i]))
            && |LiveTokens(end.tokens, user)| <= SessionsOf(end.tokens, end.lineages, user)
  {
    var start := Auth(accounts, map[], []);
    RunIsSound(start, ops);
    var end := After(start, ops);
    LiveTokensAreSessions(end.tokens, end.lineages, user, LiveTokens(end.tokens, user));
  }

  // ---------------------------------------------------------------------------
  // Revocation
  // ---------------------------------------------------------------------------

  /** A revoked row is never written again. */
  lemma StepKeepsRevoked(auth: Auth, op: Op, token: Token)
    requires Admissible(auth, op) && token in auth.tokens && auth.tokens[token].revokedAt.Some?
    ensures token in Apply(auth, op).auth.tokens && Apply(auth, op).auth.tokens[token] == auth.tokens[token]
  {
  }

  lemma {:induction false} RevocationIsPermanent(auth: Auth, ops: seq<Op>, token: Token)
    requires IsRun(auth, ops) && token in auth.tokens && auth.tokens[token].revokedAt.Some?
    ensures token in After(auth, ops).tokens && After(auth, ops).tokens[token] == auth.tokens[token]
    decreases |ops|
  {
    if ops != [] {
      StepKeepsRevoked(auth, ops[0], token);
      RevocationIsPermanent(Apply(auth, ops[0]).auth, ops[1..], token);
    }
  }

  /** The successful refreshes of the run that presented the token. */
  function Rotations(auth: Auth, ops: seq<Op>, token: Token): nat
    decreases |ops|
  {
    if ops == [] then 0
    else
      (if ops[0].call.CallRefresh? && ops[0].call.presented == token && Apply(auth, ops[0]).reply.Issued? then 1 else 0)
      + Rotations(Apply(auth, ops[0]).auth, ops[1..], token)
  }

  lemma {:induction false} RotatesAtMostOnce(auth: Auth, ops: seq<Op>, token: Token)
    requires IsRun(auth, ops)
    ensures Rotations(auth, ops, token) <=
              if token in auth.tokens && auth.tokens[token].revokedAt.Some? then 0 else 1
    ensures Rotations(auth, ops, token) == 1 ==>
              token in After(auth, ops).tokens && After(auth, ops).tokens[token].revokedAt.Some?
    decreases |ops|
  {
    if ops != [] {
      var next := Apply(auth, ops[0]).auth;
      RotatesAtMostOnce(next, ops[1..], token);
      if ops[0].call.CallRefresh? && ops[0].call.presented == token && Apply(auth, ops[0]).reply.Issued? {
        assert next.tokens[token].revokedAt.Some?;
        RevocationIsPermanent(next, ops[1..], token);
      } else if token in auth.tokens && auth.tokens[token].revokedAt.Some? {
        StepKeepsRevoked(auth, ops[0], token);
      }
    }
  }

  // ---------------------------------------------------------------------------
  // Reuse
  // ---------------------------------------------------------------------------

  /** Presenting a revoked token leaves its user without a live token and every other user's rows as they were. */
  lemma ReuseRevokesTheUser(auth: Auth, presented: Token, issue: Token, at: Time)
    requires presented in auth.tokens && auth.tokens[presented].revokedAt.Some?
    ensures var step, user := Refresh(auth, presented, issue, at), auth.tokens[presented].user;
            && step.reply == Rejected(TokenReused)
            && LiveTokens(step.auth.tokens, user) == {}
            && (forall t | t in auth.tokens && auth.tokens[t].user != user ::
                  t in step.auth.tokens && step.auth.tokens[t] == auth.tokens[t])
            && (forall t | t in step.auth.tokens :: t in auth.tokens)
            && step.auth.accounts == auth.accounts && step.auth.lineages == auth.lineages
  {
  }

  /** Whoever presents a token second, after any run in between, ends every session of its user. */
  lemma ReplayEndsEverySession(auth: Auth, ops: seq<Op>, token: Token, issue: Token, at: Time)
    requires IsRun(auth, ops) && Rotations(auth, ops, token) >= 1
    ensures var end := After(auth, ops);
            && token in end.tokens
            && Refresh(end, token, issue, at).reply == Rejected(TokenReused)
            && LiveTokens(Refresh(end, token, issue, at).auth.tokens, end.tokens[token].user) == {}
  {
    RotatesAtMostOnce(auth, ops, token);
    ReuseRevokesTheUser(After(auth, ops), token, issue, at);
  }

  /** The one undeleted account with the email. */
  predicate IsTheirs(accounts: Accounts, email: string, user: Id) {
    && user in accounts && accounts[user].email == email && !accounts[user].deleted
    && forall u | u in accounts && accounts[u].email == email && !accounts[u].deleted :: u == user
  }

  predicate NobodyHas(accounts: Accounts, email: string) {
    forall u | u in accounts && accounts[u].email == email :: accounts[u].deleted
  }

  lemma EmailLookup(accounts: Accounts, email: string)
    ensures var found := ScalarOneOrNone(WithEmail(accounts, email));
            && (found.NoRow? <==> NobodyHas(accounts, email))
            && (found.OneRow? ==> IsTheirs(accounts, email, found.id))
            && (!found.OneRow? ==> forall u: Id :: !IsTheirs(accounts, email, u))
  {
    var rows := WithEmail(accounts, email);
    var found := ScalarOneOrNone(rows);
    assert forall u | u in accounts && accounts[u].email == email && !accounts[u].deleted :: u in rows;
    assert forall u: Id | IsTheirs(accounts, email, u) :: rows == {u};
    if found.OneRow? { assert found.id in rows; }
  }

  /** A token of the user that was not used or revoked yet, and is good for so many days. */
  predicate IsFresh(row: Row, user: Id, device: Option<string>, at: Time, days: int) {
    && row.user == user && row.device == device && row.issuedAt == at && row.expiresAt == at + days * 86_400_000_000
    && row.lastUsedAt.None? && row.revokedAt.None?
  }

  /** One more live token of the user, and every row there was is still the same. */
  predicate AddsOneToken(before: Tokens, after: Tokens, token: Token, user: Id, device: Option<string>, at: Time, days: int) {
    && token in after && IsFresh(after[token], user, device, at, days)
    && after == before[token := after[token]]
    && LiveTokens(after, user) == LiveTokens(before, user) + {token}
  }

  predicate MayLogin(accounts: Accounts, email: string, password: string, user: Id) {
    && IsTheirs(accounts, email, user) && accounts[user].password == password
    && accounts[user].active && !accounts[user].suspended
  }

  /** A login issues a token exactly to the one account with the email, on its own password, while it is active and not suspended. */
  lemma LoginIssuesExactlyWhen(
      auth: Auth, email: string, password: string, device: Option<string>, token: Token, at: Time, days: int)
    returns (user: Id)
    requires token !in auth.tokens
    ensures var step := Login(auth, email, password, device, token, at, days);
            && (step.reply.Issued? <==> exists u | u in auth.accounts :: MayLogin(auth.accounts, email, password, u))
            && (step.reply.Issued? ==>
                  && step.reply.token == token && MayLogin(auth.accounts, email, password, user)
                  && AddsOneToken(auth.tokens, step.auth.tokens, token, user, device, at, days)
                  && step.auth == auth.(tokens := step.auth.tokens, lineages := auth.lineages + [[token]]))
            && (!step.reply.Issued? ==> step.auth == auth)
  {
    EmailLookup(auth.accounts, email);
    var found := ScalarOneOrNone(WithEmail(auth.accounts, email));
    user := if found.OneRow? then found.id else token;
  }

  /** A suspension is told only to who knows the password; everything else about an account looks the same from outside. */
  lemma LoginRefusals(auth: Auth, email: string, password: string, device: Option<string>, token: Token, at: Time, days: int)
    ensures var reply := Login(auth, email, password, device, token, at, days).reply;
            && (NobodyHas(auth.accounts, email) ==> reply == Rejected(InvalidCredentials))
            && (forall user | IsTheirs(auth.accounts, email, user) ::
                  var account := auth.accounts[user];
                  && (reply == Rejected(InvalidCredentials) <==> account.password != password || !account.active)
                  && (reply == Rejected(AccountSuspended) <==>
                        account.password == password && account.active && account.suspended))
  {
    EmailLookup(auth.accounts, email);
  }

  /** A signup opens the account's first session. */
  lemma SignUpIssues(auth: Auth, user: Id, account: Account, token: Token, at: Time, days: int)
    requires token !in auth.tokens && user !in auth.accounts
    ensures var step := SignUp(auth, user, account, token, at, days);
            && step.reply == Issued(token)
            && AddsOneToken(auth.tokens, step.auth.tokens, token, user, None, at, days)
            && step.auth.accounts == auth.accounts[user := account] && step.auth.lineages == auth.lineages + [[token]]
  {
  }

  /** The account is there, undeleted, active and not disabled. */
  predicate InService(accounts: Accounts, user: Id) {
    user in accounts && accounts[user].active && !accounts[user].deleted && !accounts[user].disabled
  }

  /** Exactly who gets a new token, what becomes of the old one, and that any other refresh but a reuse leaves the tables alone. */
  lemma RefreshIssuesExactlyWhen(auth: Auth, presented: Token, issue: Token, at: Time)
    requires issue !in auth.tokens
    ensures var step := Refresh(auth, presented, issue, at);
            && (step.reply.Issued? <==>
                  && Live(auth.tokens, presented) && at <= auth.tokens[presented].expiresAt
                  && InService(auth.accounts, auth.tokens[presented].user))
            && (step.reply.Issued? ==>
                  var was := auth.tokens[presented];
                  && step.reply.token == issue && issue in step.auth.tokens
                  && step.auth.tokens == auth.tokens[presented := was.(revokedAt := Some(at), lastUsedAt := Some(at))]
                                                    [issue := step.auth.tokens[issue]]
                  && IsFresh(step.auth.tokens[issue], was.user, was.device, at, 7)
                  && LiveTokens(step.auth.tokens, was.user) == LiveTokens(auth.tokens, was.user) - {presented} + {issue}
                  && step.auth.accounts == auth.accounts)
            && (step.reply.Rejected? && step.reply.error != TokenReused ==> step.auth == auth)
  {
  }

  /** The reasons for a refusal, in this order. */
  lemma RefreshRefusals(auth: Auth, presented: Token, issue: Token, at: Time)
    ensures var reply := Refresh(auth, presented, issue, at).reply;
            && (reply == Rejected(InvalidToken) <==> presented !in auth.tokens)
            && (reply == Rejected(TokenReused) <==> presented in auth.tokens && !Live(auth.tokens, presented))
            && (reply == Rejected(TokenExpired) <==> Live(auth.tokens, presented) && auth.tokens[presented].expiresAt < at)
            && (reply == Rejected(AuthenticationRequired) <==>
                  && Live(auth.tokens, presented) && at <= auth.tokens[presented].expiresAt
                  && !InService(auth.accounts, auth.tokens[presented].user))
  {
  }

  /** Rows revoked earlier keep their time; the others of the user, and nobody else's, get this one. */
  predicate StampsLive(before: Tokens, after: Tokens, user: Id, at: Time) {
    && (forall t | t in after :: t in before)
    && forall t | t in before ::
         && t in after
         && after[t] == if t in LiveTokens(before, user) then before[t].(revokedAt := Some(at)) else before[t]
  }

  /** Reuse and logout_all revoke alike. */
  lemma BulkRevocationStamps(auth: Auth, presented: Token, issue: Token, user: Id, at: Time)
    ensures StampsLive(auth.tokens, LogoutAll(auth, user, at).auth.tokens, user, at)
    ensures presented in auth.tokens && auth.tokens[presented].revokedAt.Some? ==>
              StampsLive(auth.tokens, Refresh(auth, presented, issue, at).auth.tokens, auth.tokens[presented].user, at)
  {
  }

  /** A suspension refuses new logins, yet a session that is already open goes on rotating. */
  lemma SuspensionStopsLoginsOnly(auth: Auth, user: Id, presented: Token, issue: Token, at: Time, email: string, password: string, days: int)
    requires Live(auth.tokens, presented) && auth.tokens[presented].user == user && at <= auth.tokens[presented].expiresAt
    requires MayRefresh(auth.accounts, user) && auth.accounts[user].suspended
    requires WithEmail(auth.accounts, email) == {user}
    ensures Refresh(auth, presented, issue, at).reply == Issued(issue)
    ensures Login(auth, email, password, None, issue, at, days).reply.Rejected?
  {
    var found := ScalarOneOrNone(WithEmail(auth.accounts, email));
    if found.OneRow? {
      assert found.id in WithEmail(auth.accounts, email);
    }
  }

  /** logout ends its own session only, and logout_all all of the user's and nobody else's. */
  lemma LogoutEndsWhatItNames(auth: Auth, presented: Token, user: Id, at: Time)
    ensures !Live(Logout(auth, presented, at).auth.tokens, presented)
    ensures Live(auth.tokens, presented) ==>
              Logout(auth, presented, at).auth.tokens[presented] == auth.tokens[presented].(revokedAt := Some(at))
    ensures !Live(auth.tokens, presented) ==> Logout(auth, presented, at).auth == auth
    ensures forall t | t in auth.tokens && t != presented :: Logout(auth, presented, at).auth.tokens[t] == auth.tokens[t]
    ensures LiveTokens(LogoutAll(auth, user, at).auth.tokens, user) == {}
    ensures forall t | t in auth.tokens && auth.tokens[t].user != user ::
              LogoutAll(auth, user, at).auth.tokens[t] == auth.tokens[t]
  {
  }
}
