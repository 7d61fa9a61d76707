/** The invite service, and the part of signup that consumes invites, as an object over its tables. */
module InviteService {
  import opened Admissions
  import opened Common
  import opened Invites

  class Service {
    var users: Members
    var sellers: set<Id>
    var invites: Links
    var referrals: seq<Referral>

    ghost function View(): Club
      reads this
    {
      Club(users, sellers, invites, referrals)
    }

    ghost predicate Valid()
      reads this
    {
      Sound(View())
    }

    constructor ()
      ensures Valid() && View() == Nobody()
    {
      users, sellers, invites, referrals := map[], {}, map[], [];
    }

    method CreateAdminInvite(issuer: Id, roleTarget: Role, hours: int, invite: Id, token: nat, now: Time) returns (reply: Reply)
      requires Valid() && issuer in users && Fresh(View(), invite, token)
      modifies this`invites
      ensures Valid()
      ensures Step(View(), reply) == Invites.CreateAdminInvite(old(View()), issuer, roleTarget, hours, invite, token, now)
      ensures reply == Link(invite) <==> users[issuer].role == Admin
      ensures if reply == Link(invite) then IsNewLink(old(invites), invites, invite, issuer, token) else invites == old(invites)
    {
      InvitedExactlyWhen(View(), issuer, roleTarget, hours, invite, token, now);
      CreatingIsSound(View(), issuer, roleTarget, hours, invite, token, now);
      reply := InsertAdminInvite(issuer, roleTarget, hours, invite, token, now);
    }

    method InsertAdminInvite(issuer: Id, roleTarget: Role, hours: int, invite: Id, token: nat, now: Time) returns (reply: Reply)
      requires issuer in users
      modifies this`invites
      ensures Step(View(), reply) == Invites.CreateAdminInvite(old(View()), issuer, roleTarget, hours, invite, token, now)
    {
      if users[issuer].role != Admin {
        return Failed(NotAuthorized);
      }
      var expiresAt := now + Hours(hours);
      invites := invites[invite := Invite(issuer, AdminInvite, token, Some(roleTarget), Some(1), 0, Some(expiresAt), None)];
      reply := Link(invite);
    }

    method GetOrCreateSellerReferral(seller: Id, invite: Id, token: nat) returns (reply: Reply)
      requires Valid() && seller in users && Fresh(View(), invite, token)
      modifies this`invites
      ensures Valid() && Step(View(), reply) == GetOrCreateReferral(old(View()), seller, invite, token)
      ensures reply.Link? <==> MayHandOut(old(View()), seller)
      ensures reply.Link? ==> reply.invite in invites && IsReferral(invites[reply.invite], seller)
    {
      ObtainedExactlyWhen(View(), seller, invite, token);
      ObtainingIsSound(View(), seller, invite, token);
      if users[seller].role != Seller && users[seller].role != Admin {
        return Failed(NotAuthorized);
      }
      if seller !in sellers {
        return Failed(NotAuthorized);
      }
      var existing := ScalarOneOrNone(ActiveReferrals(invites, seller));
      if existing.ManyRows? {
        return Failed(MultipleResults);
      }
      if existing.OneRow? {
        return Link(existing.id);
      }
      invites := invites[invite := NewReferral(seller, token)];
      reply := Link(invite);
    }

    method RegenerateSellerReferral(seller: Id, invite: Id, token: nat, now: Time) returns (reply: Reply)
      requires Valid() && seller in users && Fresh(View(), invite, token)
      modifies this`invites
      ensures Valid() && Step(View(), reply) == RegenerateReferral(old(View()), seller, invite, token, now)
      ensures reply == Link(invite) <==> MayHandOut(old(View()), seller)
      ensures reply == Link(invite) ==>
                forall i | i in invites :: IsReferral(invites[i], seller) <==> i == invite
    {
      ghost var ended := RegeneratedExactlyWhen(View(), seller, invite, token, now);
      RegeneratingIsSound(View(), seller, invite, token, now);
      if users[seller].role != Seller && users[seller].role != Admin {
        return Failed(NotAuthorized);
      }
      if seller !in sellers {
        return Failed(NotAuthorized);
      }
      RevokeActiveReferrals(seller, now);
      invites := invites[invite := NewReferral(seller, token)];
      reply := Link(invite);
    }

    /** The bulk UPDATE. */
    method RevokeActiveReferrals(seller: Id, now: Time)
      modifies this`invites
      ensures invites == RevokeReferrals(old(invites), seller, now)
    {
      var active := map i | i in invites && IsActiveReferral(invites[i], seller) :: invites[i].(revokedAt := Some(now));
      invites := invites + active;
    }

    method RevokeInvite(user: Id, invite: Id, now: Time) returns (reply: Reply)
      requires Valid() && user in users
      modifies this`invites
      ensures Valid() && Step(View(), reply) == Invites.RevokeInvite(old(View()), user, invite, now)
      ensures if reply == Done then invite in invites && invites[invite].revokedAt == Some(now) else invites == old(invites)
    {
      RevokedExactlyWhen(View(), user, invite, now);
      RevokingOneIsSound(View(), user, invite, now);
      if invite !in invites {
        return Failed(InviteNotFound);
      }
      var row := invites[invite];
      if IsUsed(row) {
        return Failed(InviteAlreadyUsed);
      }
      match users[user].role {
        case Admin =>
        case Seller =>
          if row.issuer != user || row.kind != SellerReferral {
            return Failed(NotAuthorized);
          }
        case Customer => return Failed(NotAuthorized);
        case Driver => return Failed(NotAuthorized);
      }
      invites := invites[invite := row.(revokedAt := Some(now))];
      reply := Done;
    }

    /** Raises or increments used_count; the caller writes the referral row or rolls back. */
    method ConsumeInvite(token: nat, choice: Option<Role>, now: Time) returns (result: Consumption)
      modifies this`invites
      ensures result == Consumable(old(View()), token, choice, now)
      ensures invites == match result
                         case Denied(_) => old(invites)
                         case Granted(i) => old(invites)[i := old(invites)[i].(usedCount := old(invites)[i].usedCount + 1)]
    {
      var found := ScalarOneOrNone(WithToken(invites, token));
      if found.NoRow? {
        return Denied(InviteInvalid);
      }
      if found.ManyRows? {
        return Denied(MultipleResults);
      }
      assert found.id in WithToken(invites, token);
      var invite := invites[found.id];
      if invite.revokedAt.Some? {
        return Denied(InviteRevoked);
      }
      if IsExpired(invite, now) {
        return Denied(InviteExpired);
      }
      if IsUsed(invite) {
        return Denied(InviteAlreadyUsed);
      }
      match invite.kind {
        case AdminInvite =>
          if choice.Some? && choice != invite.roleTarget {
            return Denied(InviteRoleMismatch);
          }
          if invite.roleTarget.None? {
            return Denied(InviteInvalid);
          }
        case SellerReferral =>
          if choice.None? || (choice.value != Customer && choice.value != Seller) {
            return Denied(InviteRoleMismatch);
          }
          if invite.issuer !in users || users[invite.issuer].role != Seller {
            return Denied(InviteInvalid);
          }
          if invite.issuer !in sellers {
            return Denied(InviteInvalid);
          }
      }
      invites := invites[found.id := invite.(usedCount := invite.usedCount + 1)];
      result := Granted(found.id);
    }

    /** signup up to its commit; an exception after the invite was consumed rolls the session back. */
    method SignUp(token: nat, choice: Option<Role>, email: string, user: Id, now: Time) returns (reply: Reply)
      requires Valid() && user !in users
      modifies this
      ensures Valid() && Step(View(), reply) == Invites.SignUp(old(View()), token, choice, email, user, now)
      ensures reply.Welcome? <==> exists i | i in old(invites) :: Admits(old(View()), token, choice, email, now, i)
      ensures reply.Welcome? ==>
                exists i | i in old(invites) ::
                  Admits(old(View()), token, choice, email, now, i) && HasJoined(old(View()), i, choice, email, user, View())
      ensures !reply.Welcome? ==> View() == old(View())
    {
      ghost var i := WelcomedExactlyWhen(View(), token, choice, email, user, now);
      SigningUpIsSound(View(), token, choice, email, user, now);
      reply := Register(token, choice, email, user, now);
    }

    method Register(token: nat, choice: Option<Role>, email: string, user: Id, now: Time) returns (reply: Reply)
      modifies this
      ensures Step(View(), reply) == Invites.SignUp(old(View()), token, choice, email, user, now)
    {
      var committed := invites;
      var consumed := ConsumeInvite(token, choice, now);
      if consumed.Denied? {
        return Failed(consumed.problem);
      }
      var existing := ScalarOneOrNone(WithEmail(users, email));
      if !existing.NoRow? {
        invites := committed;
        return Failed(if existing.OneRow? then EmailTaken else MultipleResults);
      }
      var invite := invites[consumed.invite];
      var role := if invite.kind == AdminInvite then invite.roleTarget.value else choice.value;
      var referringSeller := None;
      if invite.kind == SellerReferral {
        referringSeller := Some(invite.issuer);
      }
      users := users[user := Member(role, email, referringSeller, false)];
      referrals := referrals + [Referral(invite.issuer, user, consumed.invite)];
      reply := Welcome(user);
    }
  }
}
