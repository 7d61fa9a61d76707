/** The authentication service as the object whose tables its calls update. */
module AuthService {
  import opened Common
  import opened RefreshTokens

  class Service {
    var accounts: Accounts
    var tokens: Tokens
    /** History only: which tokens came of which login or signup. */
    ghost var lineages: Lineages

    ghost function View(): Auth
      reads this
    {
      Auth(accounts, tokens, lineages)
    }

    ghost predicate Valid()
      reads this
    {
      Sound(View())
    }

    constructor (accounts: Accounts)
      ensures Valid() && View() == Auth(accounts, map[], [])
    {
      this.accounts, tokens, lineages := accounts, map[], [];
    }

    /** _create_refresh_token_row: a row with no lineage behind it. */
    method CreateRefreshTokenRow(user: Id, device: Option<string>, token: Token, now: Time, days: int)
      requires Valid() && token !in tokens
      modifies this`tokens, this`lineages
      ensures Valid() && lineages == old(lineages) + [[token]]
      ensures tokens == old(tokens)[token := NewRow(user, device, now, days)]
    {
      StartingALineage(View(), accounts, token, NewRow(user, device, now, days));
      tokens := tokens[token := Row(user, device, now, None, now + Days(days), None)];
      lineages := lineages + [[token]];
    }

    /** The end of signup, once the invite is consumed and the email found free. */
    method SignUp(user: Id, account: Account, token: Token, now: Time, days: int) returns (reply: Reply)
      requires Valid() && token !in tokens && user !in accounts
      modifies this
      ensures Valid() && Step(View(), reply) == RefreshTokens.SignUp(old(View()), user, account, token, now, days)
    {
      accounts := accounts[user := account];
      CreateRefreshTokenRow(user, None, token, now, days);
      reply := Issued(token);
    }

    method Login(email: string, password: string, device: Option<string>, token: Token, now: Time, days: int)
      returns (reply: Reply)
      requires Valid() && token !in tokens
      modifies this`tokens, this`lineages
      ensures Valid()
      ensures Step(View(), reply) == RefreshTokens.Login(old(View()), email, password, device, token, now, days)
      ensures reply.Issued? <==> exists u | u in accounts :: MayLogin(accounts, email, password, u)
      ensures reply.Issued? ==>
                exists u | u in accounts ::
                  && MayLogin(accounts, email, password, u)
                  && AddsOneToken(old(tokens), tokens, token, u, device, now, days)
      ensures !reply.Issued? ==> tokens == old(tokens)
    {
      ghost var user := LoginIssuesExactlyWhen(View(), email, password, device, token, now, days);
      var found := ScalarOneOrNone(WithEmail(accounts, email));
      if found.ManyRows? {
        return Rejected(ManyAccounts);
      }
      if found.NoRow? {
        return Rejected(InvalidCredentials);
      }
      assert found.id in WithEmail(accounts, email);
      var account := accounts[found.id];
      if account.password != password {
        return Rejected(InvalidCredentials);
      }
      if !account.active {
        return Rejected(InvalidCredentials);
      }
      if account.suspended {
        return Rejected(AccountSuspended);
      }
      CreateRefreshTokenRow(found.id, device, token, now, days);
      reply := Issued(token);
    }

    method Refresh(presented: Token, issue: Token, now: Time) returns (reply: Reply)
      requires Valid() && issue !in tokens
      modifies this`tokens, this`lineages
      ensures Valid() && Step(View(), reply) == RefreshTokens.Refresh(old(View()), presented, issue, now)
    {
      StepIsSound(View(), Op(CallRefresh(presented, issue), now));
      if presented !in tokens {
        return Rejected(InvalidToken);
      }
      var row := tokens[presented];
      if row.revokedAt.Some? {
        RevokeTokensOf(row.user, now);
        return Rejected(TokenReused);
      }
      if row.expiresAt < now {
        return Rejected(TokenExpired);
      }
      if row.user !in accounts || accounts[row.user].deleted || !accounts[row.user].active || accounts[row.user].disabled {
        return Rejected(AuthenticationRequired);
      }
      row := row.(revokedAt := Some(now));
      row := row.(lastUsedAt := Some(now));
      tokens := tokens[presented := row];
      tokens := tokens[issue := Row(row.user, row.device, now, None, now + Days(7), None)];
      lineages := Extended(lineages, presented, issue);
      reply := Issued(issue);
    }

    /** The bulk UPDATE that reuse detection and logout_all share. */
    method RevokeTokensOf(user: Id, now: Time)
      requires Valid()
      modifies this`tokens
      ensures Valid() && tokens == RevokeAll(old(tokens), user, now)
    {
      RevokingKeepsLineages(View(), RevokeAll(tokens, user, now));
      var matching := map t | t in tokens && tokens[t].user == user && tokens[t].revokedAt.None? ::
        tokens[t].(revokedAt := Some(now));
      assert tokens + matching == RevokeAll(tokens, user, now);
      tokens := tokens + matching;
    }

    method Logout(presented: Token, now: Time)
      requires Valid()
      modifies this`tokens
      ensures Valid() && View() == RefreshTokens.Logout(old(View()), presented, now).auth
    {
      StepIsSound(View(), Op(CallLogout(presented), now));
      if presented in tokens && tokens[presented].revokedAt.None? {
        tokens := tokens[presented := tokens[presented].(revokedAt := Some(now))];
      }
    }

    method LogoutAll(user: Id, now: Time)
      requires Valid()
      modifies this`tokens
      ensures Valid() && View() == RefreshTokens.LogoutAll(old(View()), user, now).auth
    {
      RevokeTokensOf(user, now);
    }
  }
}
