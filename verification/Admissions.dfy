/** Whom a link admits and who hands links out, said of the rows: when each call goes through, why it does not, what it writes. */
module Admissions {
  import opened Common
  import opened Invites

  // ---------------------------------------------------------------------------
  // Signing up
  // ---------------------------------------------------------------------------

  /** The one link that carries the token. */
  predicate IsTheLink(invites: Links, token: nat, i: Id) {
    i in invites && invites[i].token == token && forall j | j in invites && invites[j].token == token :: j == i
  }

  predicate NoLinkHas(invites: Links, token: nat) {
    forall i | i in invites :: invites[i].token != token
  }

  lemma TokenLookup(invites: Links, token: nat)
    ensures var found := ScalarOneOrNone(WithToken(invites, token));
            && (found.NoRow? <==> NoLinkHas(invites, token))
            && (found.OneRow? ==> IsTheLink(invites, token, found.id))
            && (!found.OneRow? ==> forall i: Id :: !IsTheLink(invites, token, i))
  {
    var rows := WithToken(invites, token);
    var found := ScalarOneOrNone(rows);
    assert forall i | i in invites && invites[i].token == token :: i in rows;
    assert forall i: Id | IsTheLink(invites, token, i) :: rows == {i};
    if found.OneRow? { assert found.id in rows; }
  }

  predicate EmailIsFree(users: Members, email: string) {
    forall u | u in users && users[u].email == email :: users[u].deleted
  }

  lemma EmailLookup(users: Members, email: string)
    ensures ScalarOneOrNone(WithEmail(users, email)).NoRow? <==> EmailIsFree(users, email)
  {
    assert forall u | u in users && users[u].email == email && !users[u].deleted :: u in WithEmail(users, email);
  }

  /** A link is good up to the microsecond it expires at, for as many uses as it has, until it is revoked. */
  predicate IsGood(invite: Invite, now: Time) {
    && invite.revokedAt.None?
    && (invite.expiresAt.Some? ==> now <= invite.expiresAt.value)
    && (invite.maxUses.Some? ==> invite.usedCount < invite.maxUses.value)
  }

  predicate Admits(club: Club, token: nat, choice: Option<Role>, email: string, now: Time, i: Id) {
    && IsTheLink(club.invites, token, i) && IsGood(club.invites[i], now) && Entitled(club, club.invites[i], choice)
    && EmailIsFree(club.users, email)
  }

  /**
   The new account has the role of the invite, or the chosen one and the seller of the referral; the link has
   one more use and a row says so.
   */
  predicate HasJoined(before: Club, i: Id, choice: Option<Role>, email: string, user: Id, after: Club)
    requires i in before.invites
  {
    var link := before.invites[i];
    && user in after.users && after.users == before.users[user := after.users[user]]
    && after.users[user].email == email && !after.users[user].deleted
    && (link.kind == AdminInvite ==>
          Some(after.users[user].role) == link.roleTarget && after.users[user].referringSeller.None?)
    && (link.kind == SellerReferral ==>
          Some(after.users[user].role) == choice && after.users[user].referringSeller == Some(link.issuer))
    && after.invites == before.invites[i := link.(usedCount := link.usedCount + 1)]
    && |after.referrals| == |before.referrals| + 1 && after.referrals[..|before.referrals|] == before.referrals
    && var row := after.referrals[|before.referrals|];
    && row.referrer == link.issuer && row.referred == user && row.invite == i
    && after.sellers == before.sellers
  }

  /** A signup is welcomed exactly with one good link that entitles to the choice and an email that is free. */
  lemma WelcomedExactlyWhen(club: Club, token: nat, choice: Option<Role>, email: string, user: Id, now: Time) returns (i: Id)
    ensures var step := SignUp(club, token, choice, email, user, now);
            && (step.reply.Welcome? <==> exists j | j in club.invites :: Admits(club, token, choice, email, now, j))
            && (step.reply.Welcome? ==>
                  && step.reply.user == user && Admits(club, token, choice, email, now, i)
                  && HasJoined(club, i, choice, email, user, step.club))
            && (!step.reply.Welcome? ==> step.club == club)
  {
    TokenLookup(club.invites, token);
    EmailLookup(club.users, email);
    var found := ScalarOneOrNone(WithToken(club.invites, token));
    i := if found.OneRow? then found.id else user;
  }

  /** The reasons for a refusal, in this order. */
  lemma RefusedSignUpSaysWhy(club: Club, token: nat, choice: Option<Role>, email: string, user: Id, now: Time)
    ensures var reply := SignUp(club, token, choice, email, user, now).reply;
            && (NoLinkHas(club.invites, token) ==> reply == Failed(InviteInvalid))
            && forall i | i in club.invites && IsTheLink(club.invites, token, i) ::
                 && (reply == Failed(InviteRevoked) <==> club.invites[i].revokedAt.Some?)
                 && (club.invites[i].revokedAt.None? ==> RefusesBy(club, club.invites[i], choice, email, now, reply))
  {
    TokenLookup(club.invites, token);
    EmailLookup(club.users, email);
  }

  /** Expired before used up, used up before the role, the role before the issuer, all before the email. */
  predicate RefusesBy(club: Club, invite: Invite, choice: Option<Role>, email: string, now: Time, reply: Reply) {
    && (reply == Failed(InviteExpired) <==> invite.expiresAt.Some? && invite.expiresAt.value < now)
    && (reply == Failed(InviteAlreadyUsed) <==>
          && (invite.expiresAt.None? || now <= invite.expiresAt.value)
          && invite.maxUses.Some? && invite.maxUses.value <= invite.usedCount)
    && (reply == Failed(InviteRoleMismatch) <==>
          && IsGood(invite, now)
          && match invite.kind
             case AdminInvite => choice.Some? && choice != invite.roleTarget
             case SellerReferral => choice != Some(Customer) && choice != Some(Seller))
    && (reply == Failed(EmailTaken) ==>
          IsGood(invite, now) && Entitled(club, invite, choice) && !EmailIsFree(club.users, email))
    && (reply == Failed(InviteInvalid) ==> IsGood(invite, now) && !Entitled(club, invite, choice))
  }

  /** What the public check reports of a link. */
  lemma ReportedExactly(club: Club, token: nat, now: Time)
    ensures NoLinkHas(club.invites, token) ==>
              ValidateInvite(club, token, now) == Ok(Validity(false, false, false, false, false))
    ensures forall i | i in club.invites && IsTheLink(club.invites, token, i) ::
              var invite, report := club.invites[i], ValidateInvite(club, token, now);
              && report.Ok? && report.value.known && (report.value.valid <==> IsGood(invite, now))
              && (report.value.expired <==> invite.expiresAt.Some? && invite.expiresAt.value < now)
              && (report.value.revoked <==> invite.revokedAt.Some?)
              && (report.value.alreadyUsed <==> invite.maxUses.Some? && invite.maxUses.value <= invite.usedCount)
  {
    TokenLookup(club.invites, token);
  }

  // ---------------------------------------------------------------------------
  // Handing out links
  // ---------------------------------------------------------------------------

  /** A new link of the issuer that nobody used yet. */
  predicate IsNewLink(before: Links, after: Links, i: Id, issuer: Id, token: nat) {
    && i in after && after == before[i := after[i]]
    && after[i].issuer == issuer && after[i].token == token && after[i].usedCount == 0 && after[i].revokedAt.None?
  }

  /** An admin's invite is good for one use in the role it names, until its hours are over. */
  lemma InvitedExactlyWhen(club: Club, issuer: Id, roleTarget: Role, hours: int, invite: Id, token: nat, now: Time)
    requires issuer in club.users
    ensures var step := CreateAdminInvite(club, issuer, roleTarget, hours, invite, token, now);
            && (step.reply == Link(invite) <==> club.users[issuer].role == Admin)
            && (step.reply != Link(invite) ==> step == Step(club, Failed(NotAuthorized)))
            && (step.reply == Link(invite) ==>
                  && step.club == club.(invites := step.club.invites)
                  && IsNewLink(club.invites, step.club.invites, invite, issuer, token)
                  && var row := step.club.invites[invite];
                  && row.kind == AdminInvite && row.roleTarget == Some(roleTarget) && row.maxUses == Some(1)
                  && row.expiresAt == Some(now + hours * 3_600_000_000))
  {
  }

  /** A referral link of the issuer's that is still good for anybody. */
  predicate IsReferral(invite: Invite, issuer: Id) {
    invite.issuer == issuer && invite.kind == SellerReferral && invite.revokedAt.None?
  }

  predicate MayHandOut(club: Club, seller: Id) {
    seller in club.sellers && seller in club.users && club.users[seller].role != Customer && club.users[seller].role != Driver
  }

  predicate IsNewReferral(before: Links, after: Links, i: Id, seller: Id, token: nat) {
    && IsNewLink(before, after, i, seller, token)
    && after[i].kind == SellerReferral && after[i].roleTarget.None? && after[i].maxUses.None? && after[i].expiresAt.None?
  }

  /** The one referral link there is, or a new one that never ends. */
  lemma ObtainedExactlyWhen(club: Club, seller: Id, invite: Id, token: nat)
    requires OneActiveEach(club.invites) && invite !in club.invites
    ensures var step := GetOrCreateReferral(club, seller, invite, token);
            && (step.reply.Link? <==> MayHandOut(club, seller))
            && (!step.reply.Link? ==> step == Step(club, Failed(NotAuthorized)))
            && (step.reply.Link? && step.reply.invite in club.invites ==>
                  step.club == club && IsReferral(club.invites[step.reply.invite], seller))
            && (step.reply.Link? && step.reply.invite !in club.invites ==>
                  && step.reply.invite == invite && (forall i | i in club.invites :: !IsReferral(club.invites[i], seller))
                  && step.club == club.(invites := step.club.invites)
                  && IsNewReferral(club.invites, step.club.invites, invite, seller, token))
  {
    var rows := ActiveReferrals(club.invites, seller);
    var found := ScalarOneOrNone(rows);
    ManyRowsMeansTwo(rows);
    assert forall i | i in club.invites && IsReferral(club.invites[i], seller) :: i in rows;
    if found.OneRow? { assert found.id in rows; }
  }

  /** Every referral link of the seller's that was good ends now; no other link does. */
  predicate ReferralsEnd(before: Links, after: Links, seller: Id, now: Time) {
    && (forall i | i in after :: i in before)
    && forall i | i in before ::
         && i in after
         && after[i] == if IsReferral(before[i], seller) then before[i].(revokedAt := Some(now)) else before[i]
  }

  lemma RegeneratedExactlyWhen(club: Club, seller: Id, invite: Id, token: nat, now: Time) returns (ended: Links)
    requires invite !in club.invites
    ensures var step := RegenerateReferral(club, seller, invite, token, now);
            && (step.reply == Link(invite) <==> MayHandOut(club, seller))
            && (step.reply != Link(invite) ==> step == Step(club, Failed(NotAuthorized)))
            && (step.reply == Link(invite) ==>
                  && ReferralsEnd(club.invites, ended, seller, now)
                  && step.club == club.(invites := step.club.invites)
                  && IsNewReferral(ended, step.club.invites, invite, seller, token))
  {
    ended := RevokeReferrals(club.invites, seller, now);
  }

  /** An admin ends any link that is not used up, a seller their own referral; used up ones stay. */
  lemma RevokedExactlyWhen(club: Club, user: Id, invite: Id, now: Time)
    requires user in club.users
    ensures var step := RevokeInvite(club, user, invite, now);
            && (step.reply == Failed(InviteNotFound) <==> invite !in club.invites)
            && (invite in club.invites ==>
                  var link, role := club.invites[invite], club.users[user].role;
                  var open := link.maxUses.None? || link.usedCount < link.maxUses.value;
                  var theirs := role == Admin || (role == Seller && link.kind == SellerReferral && link.issuer == user);
                  && (step.reply == Failed(InviteAlreadyUsed) <==> !open)
                  && (step.reply == Failed(NotAuthorized) <==> open && !theirs)
                  && (step.reply == Done <==> open && theirs)
                  && (step.reply == Done ==>
                        step.club == club.(invites := club.invites[invite := link.(revokedAt := Some(now))])))
            && (step.reply != Done ==> step.club == club)
  {
  }
}
