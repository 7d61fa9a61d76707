/** Invite links, the signups that consume them, and the referral graph the signups draw. */
module Invites {
  import opened Common

  datatype Kind = AdminInvite | SellerReferral

  /** token is the plaintext the link carries, a unique column. */
  datatype Invite = Invite(
    issuer: Id, kind: Kind, token: nat, roleTarget: Option<Role>, maxUses: Option<int>, usedCount: int,
    expiresAt: Option<Time>, revokedAt: Option<Time>)

  datatype Member = Member(role: Role, email: string, referringSeller: Option<Id>, deleted: bool)

  datatype Referral = Referral(referrer: Id, referred: Id, invite: Id)

  type Members = map<Id, Member>
  type Links = map<Id, Invite>

  /** sellers holds the users with an undeleted seller profile; referrals are in insertion order. */
  datatype Club = Club(users: Members, sellers: set<Id>, invites: Links, referrals: seq<Referral>)

  datatype Problem =
    | NotAuthorized | InviteNotFound | InviteInvalid | InviteRevoked | InviteExpired | InviteAlreadyUsed
    | InviteRoleMismatch | EmailTaken | MultipleResults

  datatype Reply = Link(invite: Id) | Welcome(user: Id) | Done | Failed(problem: Problem)

  datatype Step = Step(club: Club, reply: Reply)

  // ---------------------------------------------------------------------------
  // Tests on one invite
  // ---------------------------------------------------------------------------

  predicate IsExpired(invite: Invite, now: Time) {
    invite.expiresAt.Some? && invite.expiresAt.value < now
  }

  predicate IsUsed(invite: Invite) {
    invite.maxUses.Some? && invite.usedCount >= invite.maxUses.value
  }

  predicate IsActiveReferral(invite: Invite, issuer: Id) {
    invite.issuer == issuer && invite.kind == SellerReferral && invite.revokedAt.None?
  }

  function ActiveReferrals(invites: Links, issuer: Id): set<Id> {
    set i | i in invites && IsActiveReferral(invites[i], issuer)
  }

  function WithToken(invites: Links, token: nat): set<Id> {
    set i | i in invites && invites[i].token == token
  }

  function WithEmail(users: Members, email: string): set<Id> {
    set u | u in users && users[u].email == email && !users[u].deleted
  }

  // ---------------------------------------------------------------------------
  // The services
  // ---------------------------------------------------------------------------

  function Fail(club: Club, problem: Problem): Step {
    Step(club, Failed(problem))
  }

  function CreateAdminInvite(club: Club, issuer: Id, roleTarget: Role, hours: int, invite: Id, token: nat, now: Time): Step
    requires issuer in club.users
  {
    if club.users[issuer].role != Admin then Fail(club, NotAuthorized)
    else
      var row := Invite(issuer, AdminInvite, token, Some(roleTarget), Some(1), 0, Some(now + Hours(hours)), None);
      Step(club.(invites := club.invites[invite := row]), Link(invite))
  }

  predicate MayRefer(club: Club, seller: Id) {
    seller in club.users && (club.users[seller].role == Seller || club.users[seller].role == Admin) && seller in club.sellers
  }

  function NewReferral(seller: Id, token: nat): Invite {
    Invite(seller, SellerReferral, token, None, None, 0, None, None)
  }

  function GetOrCreateReferral(club: Club, seller: Id, invite: Id, token: nat): Step {
    if !MayRefer(club, seller) then Fail(club, NotAuthorized)
    else
      match ScalarOneOrNone(ActiveReferrals(club.invites, seller))
      case OneRow(found) => Step(club, Link(found))
      case ManyRows => Fail(club, MultipleResults)
      case NoRow => Step(club.(invites := club.invites[invite := NewReferral(seller, token)]), Link(invite))
  }

  /** UPDATE invite_links SET revoked_at on every active referral of the seller. */
  function RevokeReferrals(invites: Links, seller: Id, now: Time): Links {
    map i | i in invites ::
      if IsActiveReferral(invites[i], seller) then invites[i].(revokedAt := Some(now)) else invites[i]
  }

  function RegenerateReferral(club: Club, seller: Id, invite: Id, token: nat, now: Time): Step {
    if !MayRefer(club, seller) then Fail(club, NotAuthorized)
    else
      Step(club.(invites := RevokeReferrals(club.invites, seller, now)[invite := NewReferral(seller, token)]), Link(invite))
  }

  function RevokeInvite(club: Club, user: Id, invite: Id, now: Time): Step
    requires user in club.users
  {
    if invite !in club.invites then Fail(club, InviteNotFound)
    else if IsUsed(club.invites[invite]) then Fail(club, InviteAlreadyUsed)
    else
      var row := club.invites[invite];
      var role := club.users[user].role;
      if role == Admin || (role == Seller && row.issuer == user && row.kind == SellerReferral)
      then Step(club.(invites := club.invites[invite := row.(revokedAt := Some(now))]), Done)
      else Fail(club, NotAuthorized)
  }

  /** What validate_invite reports about a token. */
  datatype Validity = Validity(known: bool, valid: bool, alreadyUsed: bool, expired: bool, revoked: bool)

  function ValidateInvite(club: Club, token: nat, now: Time): Result<Validity> {
    match ScalarOneOrNone(WithToken(club.invites, token))
    case NoRow => Ok(Validity(false, false, false, false, false))
    case ManyRows => Err(MultipleResultsFound)
    case OneRow(i) =>
      assert i in WithToken(club.invites, token);
      var invite := club.invites[i];
      var expired, revoked, used := IsExpired(invite, now), invite.revokedAt.Some?, IsUsed(invite);
      Ok(Validity(true, !expired && !revoked && !used, used, expired, revoked))
  }

  /** The invite a signup may consume, or why not; the checks in the order they are made. */
  function Consumable(club: Club, token: nat, choice: Option<Role>, now: Time): (result: Consumption)
    ensures result.Granted? ==> result.invite in club.invites && club.invites[result.invite].token == token
    ensures result.Granted? ==> club.invites[result.invite].kind == AdminInvite ==> club.invites[result.invite].roleTarget.Some?
    ensures result.Granted? ==> club.invites[result.invite].kind == SellerReferral ==> choice.Some?
  {
    match ScalarOneOrNone(WithToken(club.invites, token))
    case NoRow => Denied(InviteInvalid)
    case ManyRows => Denied(MultipleResults)
    case OneRow(i) =>
      assert i in WithToken(club.invites, token);
      var invite := club.invites[i];
      if invite.revokedAt.Some? then Denied(InviteRevoked)
      else if IsExpired(invite, now) then Denied(InviteExpired)
      else if IsUsed(invite) then Denied(InviteAlreadyUsed)
      else if invite.kind == AdminInvite then
        if choice.Some? && choice != invite.roleTarget then Denied(InviteRoleMismatch)
        else if invite.roleTarget.None? then Denied(InviteInvalid)
        else Granted(i)
      else if choice != Some(Customer) && choice != Some(Seller) then Denied(InviteRoleMismatch)
      else if invite.issuer !in club.users || club.users[invite.issuer].role != Seller then Denied(InviteInvalid)
      else if invite.issuer !in club.sellers then Denied(InviteInvalid)
      else Granted(i)
  }

  datatype Consumption = Granted(invite: Id) | Denied(problem: Problem)

  /** The account and the referral row a signup writes. */
  function Joined(club: Club, i: Id, choice: Option<Role>, email: string, user: Id): Club
    requires i in club.invites
    requires club.invites[i].kind == AdminInvite ==> club.invites[i].roleTarget.Some?
    requires club.invites[i].kind == SellerReferral ==> choice.Some?
  {
    var invite := club.invites[i];
    var member :=
      if invite.kind == AdminInvite then Member(invite.roleTarget.value, email, None, false)
      else Member(choice.value, email, Some(invite.issuer), false);
    Club(club.users[user := member], club.sellers,
         club.invites[i := invite.(usedCount := invite.usedCount + 1)],
         club.referrals + [Referral(invite.issuer, user, i)])
  }

  /** signup; a failure after the invite was consumed rolls everything back. */
  function SignUp(club: Club, token: nat, choice: Option<Role>, email: string, user: Id, now: Time): Step {
    match Consumable(club, token, choice, now)
    case Denied(problem) => Fail(club, problem)
    case Granted(i) =>
      match ScalarOneOrNone(WithEmail(club.users, email))
      case OneRow(_) => Fail(club, EmailTaken)
      case ManyRows => Fail(club, MultipleResults)
      case NoRow => Step(Joined(club, i, choice, email, user), Welcome(user))
  }

  // ---------------------------------------------------------------------------
  // Runs
  // ---------------------------------------------------------------------------

  /** Found is an account set up without an invite, OpenShop and CloseShop write and delete a seller profile. */
  datatype Call =
    | CallCreate(issuer: Id, roleTarget: Role, hours: int, invite: Id, token: nat)
    | CallGetOrCreate(issuer: Id, invite: Id, token: nat)
    | CallRegenerate(issuer: Id, invite: Id, token: nat)
    | CallRevoke(issuer: Id, invite: Id)
    | CallSignUp(token: nat, choice: Option<Role>, email: string, user: Id)
    | Found(user: Id, role: Role, email: string)
    | Leave(user: Id)
    | OpenShop(user: Id)
    | CloseShop(user: Id)

  datatype Op = Op(call: Call, at: Time)

  /** Generated keys and tokens are new, callers exist, and founding accounts respect the unique email. */
  predicate Admissible(club: Club, op: Op) {
    match op.call
    case CallCreate(issuer, _, _, invite, token) => issuer in club.users && Fresh(club, invite, token)
    case CallGetOrCreate(issuer, invite, token) => Fresh(club, invite, token)
    case CallRegenerate(issuer, invite, token) => Fresh(club, invite, token)
    case CallRevoke(issuer, _) => issuer in club.users
    case CallSignUp(_, _, _, user) => user !in club.users
    case Found(user, _, email) => user !in club.users && WithEmail(club.users, email) == {}
    case Leave(user) => user in club.users
    case OpenShop(_) => true
    case CloseShop(_) => true
  }

  predicate Fresh(club: Club, invite: Id, token: nat) {
    invite !in club.invites && WithToken(club.invites, token) == {}
  }

  function Apply(club: Club, op: Op): Step
    requires Admissible(club, op)
  {
    match op.call
    case CallCreate(issuer, role, hours, invite, token) => CreateAdminInvite(club, issuer, role, hours, invite, token, op.at)
    case CallGetOrCreate(issuer, invite, token) => GetOrCreateReferral(club, issuer, invite, token)
    case CallRegenerate(issuer, invite, token) => RegenerateReferral(club, issuer, invite, token, op.at)
    case CallRevoke(issuer, invite) => RevokeInvite(club, issuer, invite, op.at)
    case CallSignUp(token, choice, email, user) => SignUp(club, token, choice, email, user, op.at)
    case Found(user, role, email) => Step(club.(users := club.users[user := Member(role, email, None, false)]), Welcome(user))
    case Leave(user) => Step(club.(users := club.users[user := club.users[user].(deleted := true)]), Done)
    case OpenShop(user) => Step(club.(sellers := club.sellers + {user}), Done)
    case CloseShop(user) => Step(club.(sellers := club.sellers - {user}), Done)
  }

  predicate IsRun(club: Club, ops: seq<Op>)
    decreases |ops|
  {
    ops == [] || (Admissible(club, ops[0]) && IsRun(Apply(club, ops[0]).club, ops[1..]))
  }

  function After(club: Club, ops: seq<Op>): Club
    requires IsRun(club, ops)
    decreases |ops|
  {
    if ops == [] then club else After(Apply(club, ops[0]).club, ops[1..])
  }

  function Nobody(): Club {
    Club(map[], {}, map[], [])
  }

  // ---------------------------------------------------------------------------
  // What every run keeps
  // ---------------------------------------------------------------------------

  /** The referral rows that name the invite. */
  function Uses(referrals: seq<Referral>, invite: Id): nat {
    if referrals == [] then 0
    else Uses(referrals[..|referrals| - 1], invite) + (if referrals[|referrals| - 1].invite == invite then 1 else 0)
  }

  /** used_count counts the referral rows, never beyond max_uses. */
  predicate Counted(invites: Links, referrals: seq<Referral>) {
    forall i | i in invites ::
      && invites[i].usedCount == Uses(referrals, i)
      && (invites[i].maxUses.Some? ==> invites[i].usedCount <= invites[i].maxUses.value)
  }

  /** What the partial unique index asks for. */
  predicate OneActiveEach(invites: Links) {
    forall i, j | i in invites && j in invites && invites[i].kind == SellerReferral && invites[j].kind == SellerReferral
                  && invites[i].issuer == invites[j].issuer && invites[i].revokedAt.None? && invites[j].revokedAt.None? ::
      i == j
  }

  predicate TokensDiffer(invites: Links) {
    forall i, j | i in invites && j in invites && invites[i].token == invites[j].token :: i == j
  }

  predicate EmailsDiffer(users: Members) {
    forall u, v | u in users && v in users && users[u].email == users[v].email && !users[u].deleted && !users[v].deleted ::
      u == v
  }

  /** Admins issue single-use links to a role, sellers and admins unlimited referrals. */
  predicate WellIssued(users: Members, invites: Links) {
    forall i | i in invites ::
      && invites[i].issuer in users
      && match invites[i].kind
         case AdminInvite =>
           users[invites[i].issuer].role == Admin && invites[i].maxUses == Some(1) && invites[i].roleTarget.Some?
         case SellerReferral =>
           users[invites[i].issuer].role in {Seller, Admin} && invites[i].maxUses.None?
  }

  /** A referral row agrees with the link and with the account it is about. */
  predicate EdgeFits(users: Members, invites: Links, r: Referral) {
    && r.referrer in users && r.referred in users && r.invite in invites
    && invites[r.invite].issuer == r.referrer
    && match invites[r.invite].kind
       case AdminInvite => users[r.referred].referringSeller.None? && Some(users[r.referred].role) == invites[r.invite].roleTarget
       case SellerReferral =>
         && users[r.referred].referringSeller == Some(r.referrer)
         && users[r.referred].role in {Customer, Seller}
         && users[r.referrer].role == Seller
  }

  predicate EdgesFit(users: Members, invites: Links, referrals: seq<Referral>) {
    forall k | 0 <= k < |referrals| :: EdgeFits(users, invites, referrals[k])
  }

  /** Each user is referred once, and by someone whose own referral, if any, is older. */
  predicate Forest(referrals: seq<Referral>) {
    && (forall j, k | 0 <= j < k < |referrals| :: referrals[j].referred != referrals[k].referred)
    && (forall j, k | 0 <= j < |referrals| && 0 <= k < |referrals| && referrals[j].referred == referrals[k].referrer :: j < k)
  }

  predicate Sound(club: Club) {
    && Counted(club.invites, club.referrals)
    && OneActiveEach(club.invites)
    && TokensDiffer(club.invites)
    && EmailsDiffer(club.users)
    && WellIssued(club.users, club.invites)
    && EdgesFit(club.users, club.invites, club.referrals)
    && Forest(club.referrals)
  }

  // ---------------------------------------------------------------------------
  // Steps
  // ---------------------------------------------------------------------------

  lemma {:induction false} UnnamedIsUnused(referrals: seq<Referral>, invite: Id)
    requires forall k | 0 <= k < |referrals| :: referrals[k].invite != invite
    ensures Uses(referrals, invite) == 0
  {
    if referrals != [] {
      UnnamedIsUnused(referrals[..|referrals| - 1], invite);
    }
  }

  lemma NewLinkIsCounted(invites: Links, referrals: seq<Referral>, i: Id, row: Invite)
    requires Counted(invites, referrals) && i !in invites && row.usedCount == 0
    requires row.maxUses.Some? ==> row.maxUses.value >= 0
    requires forall k | 0 <= k < |referrals| :: referrals[k].invite != i
    ensures Counted(invites[i := row], referrals)
  {
    UnnamedIsUnused(referrals, i);
  }

  lemma NewLinkIsUnique(invites: Links, i: Id, row: Invite)
    requires OneActiveEach(invites) && TokensDiffer(invites) && i !in invites && WithToken(invites, row.token) == {}
    requires row.kind == SellerReferral ==> ActiveReferrals(invites, row.issuer) == {}
    ensures OneActiveEach(invites[i := row]) && TokensDiffer(invites[i := row])
  {
    assert forall j | j in invites :: j !in WithToken(invites, row.token);
    assert forall j | j in invites && row.kind == SellerReferral :: j !in ActiveReferrals(invites, row.issuer);
  }

  lemma NewLinkFits(users: Members, invites: Links, referrals: seq<Referral>, i: Id, row: Invite)
    requires WellIssued(users, invites) && WellIssued(users, map[i := row]) && EdgesFit(users, invites, referrals) && i !in invites
    ensures WellIssued(users, invites[i := row]) && EdgesFit(users, invites[i := row], referrals)
    ensures forall k | 0 <= k < |referrals| :: referrals[k].invite != i
  {
    assert row == map[i := row][i];
    forall k | 0 <= k < |referrals|
      ensures EdgeFits(users, invites[i := row], referrals[k]) && referrals[k].invite != i
    {
      assert EdgeFits(users, invites, referrals[k]);
    }
  }

  lemma NewLinkIsSound(club: Club, i: Id, row: Invite)
    requires Sound(club) && Fresh(club, i, row.token)
    requires WellIssued(club.users, map[i := row]) && row.usedCount == 0 && row.revokedAt.None?
    requires row.kind == SellerReferral ==> ActiveReferrals(club.invites, row.issuer) == {}
    ensures Sound(club.(invites := club.invites[i := row]))
  {
    assert row == map[i := row][i];
    NewLinkFits(club.users, club.invites, club.referrals, i, row);
    NewLinkIsCounted(club.invites, club.referrals, i, row);
    NewLinkIsUnique(club.invites, i, row);
  }

  /** Only revocation stamps changed, and none was cleared. */
  predicate OnlyRevokes(before: Links, after: Links) {
    && before.Keys == after.Keys
    && forall i | i in before ::
         && before[i] == after[i].(revokedAt := before[i].revokedAt)
         && (before[i].revokedAt.Some? ==> after[i].revokedAt.Some?)
  }

  lemma RevokingIsSound(club: Club, after: Links)
    requires Sound(club) && OnlyRevokes(club.invites, after)
    ensures Sound(club.(invites := after))
  {
    forall k | 0 <= k < |club.referrals|
      ensures EdgeFits(club.users, after, club.referrals[k])
    {
      assert EdgeFits(club.users, club.invites, club.referrals[k]);
    }
    assert forall i | i in after :: i in club.invites && after[i].token == club.invites[i].token;
  }

  /** A new account, or one that left: nothing that links and referrals say about accounts changed. */
  lemma AccountsAreSound(club: Club, users: Members)
    requires Sound(club) && EmailsDiffer(users)
    requires forall u | u in club.users ::
               u in users && users[u].role == club.users[u].role && users[u].referringSeller == club.users[u].referringSeller
    ensures Sound(club.(users := users))
  {
    forall k | 0 <= k < |club.referrals|
      ensures EdgeFits(users, club.invites, club.referrals[k])
    {
      assert EdgeFits(club.users, club.invites, club.referrals[k]);
    }
  }

  lemma JoiningKeepsTheForest(club: Club, r: Referral)
    requires Sound(club) && r.referrer in club.users && r.referred !in club.users
    ensures Forest(club.referrals + [r])
  {
    forall k | 0 <= k < |club.referrals|
      ensures club.referrals[k].referred != r.referred && club.referrals[k].referrer != r.referred
    {
      assert EdgeFits(club.users, club.invites, club.referrals[k]);
    }
  }

  lemma JoiningKeepsTheEdges(club: Club, i: Id, choice: Option<Role>, email: string, user: Id)
    requires EdgesFit(club.users, club.invites, club.referrals) && user !in club.users
    requires i in club.invites && club.invites[i].issuer in club.users
    requires match club.invites[i].kind
             case AdminInvite => club.invites[i].roleTarget.Some?
             case SellerReferral =>
               choice.Some? && choice.value in {Customer, Seller} && club.users[club.invites[i].issuer].role == Seller
    ensures var next := Joined(club, i, choice, email, user);
            EdgesFit(next.users, next.invites, next.referrals)
  {
    var next := Joined(club, i, choice, email, user);
    forall k | 0 <= k < |next.referrals|
      ensures EdgeFits(next.users, next.invites, next.referrals[k])
    {
      if k < |club.referrals| { assert EdgeFits(club.users, club.invites, club.referrals[k]); }
    }
  }

  /** One more use changes nothing that the links' uniqueness and issuers depend on. */
  lemma UsingKeepsTheLinks(users: Members, invites: Links, i: Id, row: Invite)
    requires OneActiveEach(invites) && TokensDiffer(invites) && WellIssued(users, invites)
    requires i in invites && row == invites[i].(usedCount := row.usedCount)
    ensures OneActiveEach(invites[i := row]) && TokensDiffer(invites[i := row]) && WellIssued(users, invites[i := row])
  {
  }

  lemma NewMemberKeepsTheAccounts(users: Members, invites: Links, user: Id, member: Member)
    requires EmailsDiffer(users) && WellIssued(users, invites)
    requires user !in users && WithEmail(users, member.email) == {}
    ensures EmailsDiffer(users[user := member]) && WellIssued(users[user := member], invites)
  {
    assert forall u | u in users :: u !in WithEmail(users, member.email);
  }

  lemma JoiningKeepsTheLinks(club: Club, i: Id, choice: Option<Role>, email: string, user: Id)
    requires OneActiveEach(club.invites) && TokensDiffer(club.invites) && WellIssued(club.users, club.invites)
    requires EmailsDiffer(club.users) && WithEmail(club.users, email) == {} && user !in club.users
    requires i in club.invites
    requires club.invites[i].kind == AdminInvite ==> club.invites[i].roleTarget.Some?
    requires club.invites[i].kind == SellerReferral ==> choice.Some?
    ensures var next := Joined(club, i, choice, email, user);
            && OneActiveEach(next.invites) && TokensDiffer(next.invites) && WellIssued(next.users, next.invites)
            && EmailsDiffer(next.users)
  {
    var next := Joined(club, i, choice, email, user);
    assert next.invites == club.invites[i := next.invites[i]] && next.users == club.users[user := next.users[user]];
    UsingKeepsTheLinks(club.users, club.invites, i, next.invites[i]);
    NewMemberKeepsTheAccounts(club.users, next.invites, user, next.users[user]);
  }

  lemma JoiningIsSound(club: Club, token: nat, choice: Option<Role>, email: string, user: Id, now: Time)
    requires Sound(club) && user !in club.users
    requires SignUp(club, token, choice, email, user, now).reply.Welcome?
    ensures Sound(SignUp(club, token, choice, email, user, now).club)
  {
    var i := Consumable(club, token, choice, now).invite;
    var invite := club.invites[i];
    GrantedMeansEntitled(club, token, choice, now);
    JoinedIsSound(club, i, choice, email, user);
  }

  lemma SigningUpIsSound(club: Club, token: nat, choice: Option<Role>, email: string, user: Id, now: Time)
    requires Sound(club) && user !in club.users
    ensures Sound(SignUp(club, token, choice, email, user, now).club)
  {
    if SignUp(club, token, choice, email, user, now).reply.Welcome? {
      JoiningIsSound(club, token, choice, email, user, now);
    }
  }

  lemma GrantedMeansEntitled(club: Club, token: nat, choice: Option<Role>, now: Time)
    requires Consumable(club, token, choice, now).Granted?
    ensures var i := Consumable(club, token, choice, now).invite;
            !IsUsed(club.invites[i]) && Entitled(club, club.invites[i], choice)
  {
  }

  lemma JoinedIsSound(club: Club, i: Id, choice: Option<Role>, email: string, user: Id)
    requires Sound(club) && user !in club.users && WithEmail(club.users, email) == {}
    requires i in club.invites && !IsUsed(club.invites[i]) && Entitled(club, club.invites[i], choice)
    ensures Sound(Joined(club, i, choice, email, user))
  {
    var r := Referral(club.invites[i].issuer, user, i);
    JoiningKeepsTheForest(club, r);
    JoiningCounts(club.invites, club.referrals, i, r);
    JoiningKeepsTheEdges(club, i, choice, email, user);
    JoiningKeepsTheLinks(club, i, choice, email, user);
  }

  lemma JoiningCounts(invites: Links, referrals: seq<Referral>, i: Id, r: Referral)
    requires Counted(invites, referrals) && i in invites && !IsUsed(invites[i]) && r.invite == i
    ensures Counted(invites[i := invites[i].(usedCount := invites[i].usedCount + 1)], referrals + [r])
  {
    assert (referrals + [r])[..|referrals|] == referrals;
  }

  lemma RegeneratingIsSound(club: Club, seller: Id, invite: Id, token: nat, now: Time)
    requires Sound(club) && Fresh(club, invite, token)
    ensures Sound(RegenerateReferral(club, seller, invite, token, now).club)
  {
    if MayRefer(club, seller) {
      var revoked := RevokeReferrals(club.invites, seller, now);
      RevokingIsSound(club, revoked);
      assert WithToken(revoked, token) == {} by {
        assert forall i | i in revoked :: i !in WithToken(club.invites, token);
      }
      assert ActiveReferrals(revoked, seller) == {};
      NewLinkIsSound(club.(invites := revoked), invite, NewReferral(seller, token));
    }
  }

  lemma CreatingIsSound(club: Club, issuer: Id, role: Role, hours: int, invite: Id, token: nat, now: Time)
    requires Sound(club) && issuer in club.users && Fresh(club, invite, token)
    ensures Sound(CreateAdminInvite(club, issuer, role, hours, invite, token, now).club)
  {
    if club.users[issuer].role == Admin {
      NewLinkIsSound(club, invite, Invite(issuer, AdminInvite, token, Some(role), Some(1), 0, Some(now + Hours(hours)), None));
    }
  }

  lemma ObtainingIsSound(club: Club, seller: Id, invite: Id, token: nat)
    requires Sound(club) && Fresh(club, invite, token)
    ensures Sound(GetOrCreateReferral(club, seller, invite, token).club)
  {
    if MayRefer(club, seller) && ScalarOneOrNone(ActiveReferrals(club.invites, seller)).NoRow? {
      NewLinkIsSound(club, invite, NewReferral(seller, token));
    }
  }

  lemma StampIsRevoking(invites: Links, invite: Id, now: Time)
    requires invite in invites
    ensures OnlyRevokes(invites, invites[invite := invites[invite].(revokedAt := Some(now))])
  {
  }

  lemma RevokingOneIsSound(club: Club, user: Id, invite: Id, now: Time)
    requires Sound(club) && user in club.users
    ensures Sound(RevokeInvite(club, user, invite, now).club)
  {
    var step := RevokeInvite(club, user, invite, now);
    if step.reply.Done? {
      StampIsRevoking(club.invites, invite, now);
      RevokingIsSound(club, club.invites[invite := club.invites[invite].(revokedAt := Some(now))]);
    } else {
      assert step.club == club;
    }
  }

  lemma AccountStepIsSound(club: Club, op: Op)
    requires Sound(club) && Admissible(club, op) && (op.call.Found? || op.call.Leave?)
    ensures Sound(Apply(club, op).club)
  {
    if op.call.Found? {
      assert forall u | u in club.users :: u !in WithEmail(club.users, op.call.email);
    }
    AccountsAreSound(club, Apply(club, op).club.users);
  }

  lemma StepIsSound(club: Club, op: Op)
    requires Sound(club) && Admissible(club, op)
    ensures Sound(Apply(club, op).club)
  {
    match op.call
    case CallCreate(issuer, role, hours, invite, token) => CreatingIsSound(club, issuer, role, hours, invite, token, op.at);
    case CallGetOrCreate(issuer, invite, token) => ObtainingIsSound(club, issuer, invite, token);
    case CallRegenerate(issuer, invite, token) => RegeneratingIsSound(club, issuer, invite, token, op.at);
    case CallRevoke(issuer, invite) => RevokingOneIsSound(club, issuer, invite, op.at);
    case CallSignUp(token, choice, email, user) => SigningUpIsSound(club, token, choice, email, user, op.at);
    case Found(_, _, _) => AccountStepIsSound(club, op);
    case Leave(_) => AccountStepIsSound(club, op);
    case OpenShop(_) =>
    case CloseShop(_) =>
  }

  lemma {:induction false} RunIsSound(club: Club, ops: seq<Op>)
    requires Sound(club) && IsRun(club, ops)
    ensures Sound(After(club, ops))
    decreases |ops|
  {
    if ops != [] {
      StepIsSound(club, ops[0]);
      RunIsSound(Apply(club, ops[0]).club, ops[1..]);
    }
  }

  // ---------------------------------------------------------------------------
  // Results
  // ---------------------------------------------------------------------------

  /** After every run a link was used exactly as often as accounts were opened with it, and within its limit. */
  lemma UsesAreCounted(ops: seq<Op>, invite: Id)
    requires IsRun(Nobody(), ops) && invite in After(Nobody(), ops).invites
    ensures var club := After(Nobody(), ops);
            && club.invites[invite].usedCount == Uses(club.referrals, invite)
            && (club.invites[invite].kind == AdminInvite ==> Uses(club.referrals, invite) <= 1)
  {
    RunIsSound(Nobody(), ops);
    assert WellIssued(After(Nobody(), ops).users, After(Nobody(), ops).invites);
  }

  /** After every run no lookup of the invite services meets two rows. */
  lemma LookupsAreUnambiguous(ops: seq<Op>, seller: Id, token: nat, email: string)
    requires IsRun(Nobody(), ops)
    ensures var club := After(Nobody(), ops);
            && !ScalarOneOrNone(ActiveReferrals(club.invites, seller)).ManyRows?
            && !ScalarOneOrNone(WithToken(club.invites, token)).ManyRows?
            && !ScalarOneOrNone(WithEmail(club.users, email)).ManyRows?
  {
    RunIsSound(Nobody(), ops);
    var club := After(Nobody(), ops);
    ManyRowsMeansTwo(ActiveReferrals(club.invites, seller));
    ManyRowsMeansTwo(WithToken(club.invites, token));
    ManyRowsMeansTwo(WithEmail(club.users, email));
  }

  /** Some row says the second user referred the first. */
  predicate ReferredBy(referrals: seq<Referral>, user: Id, referrer: Id) {
    exists j | 0 <= j < |referrals| :: referrals[j].referred == user && referrals[j].referrer == referrer
  }

  /** From user to referrer to referrer's referrer, along rows of the table. */
  predicate IsChain(referrals: seq<Referral>, chain: seq<Id>) {
    forall k | 0 <= k < |chain| - 1 :: ReferredBy(referrals, chain[k], chain[k + 1])
  }

  /** Rows that lead up a chain. */
  predicate Leads(referrals: seq<Referral>, chain: seq<Id>, rows: seq<nat>) {
    && |rows| == |chain| - 1
    && (forall k | 0 <= k < |rows| ::
          && rows[k] < |referrals|
          && referrals[rows[k]].referred == chain[k] && referrals[rows[k]].referrer == chain[k + 1])
  }

  lemma {:induction false} ChainHasRows(referrals: seq<Referral>, chain: seq<Id>) returns (rows: seq<nat>)
    requires IsChain(referrals, chain) && |chain| >= 1
    ensures Leads(referrals, chain, rows)
  {
    if |chain| == 1 {
      return [];
    }
    var rest := ChainHasRows(referrals, chain[1..]);
    assert ReferredBy(referrals, chain[0], chain[1]);
    var j: nat :| j < |referrals| && referrals[j].referred == chain[0] && referrals[j].referrer == chain[1];
    rows := [j] + rest;
  }

  /** Going up a chain the rows get strictly older. */
  lemma {:induction false} RowsGetOlder(referrals: seq<Referral>, chain: seq<Id>, rows: seq<nat>, i: nat, k: nat)
    requires Forest(referrals) && Leads(referrals, chain, rows) && i <= k < |rows|
    ensures rows[k] <= rows[i] - (k - i)
    decreases k - i
  {
    if i < k {
      RowsGetOlder(referrals, chain, rows, i, k - 1);
      assert referrals[rows[k]].referred == referrals[rows[k - 1]].referrer;
    }
  }

  lemma ForestChainsEnd(referrals: seq<Referral>, chain: seq<Id>)
    requires Forest(referrals) && IsChain(referrals, chain)
    ensures Distinct(chain) && |chain| <= |referrals| + 1
  {
    if |chain| >= 2 {
      var rows := ChainHasRows(referrals, chain);
      RowsGetOlder(referrals, chain, rows, 0, |rows| - 1);
      forall i, k | 0 <= i < k < |chain|
        ensures chain[i] != chain[k]
      {
        RowsGetOlder(referrals, chain, rows, i, k - 1);
        assert referrals[rows[k - 1]].referrer == chain[k] && referrals[rows[i]].referred == chain[i];
      }
    }
  }

  /** After every run the referral graph is a forest: no chain of referrers repeats a user or outgrows the table. */
  lemma ChainsOfReferrersEnd(ops: seq<Op>, chain: seq<Id>)
    requires IsRun(Nobody(), ops) && IsChain(After(Nobody(), ops).referrals, chain)
    ensures Distinct(chain) && |chain| <= |After(Nobody(), ops).referrals| + 1
    ensures forall j, k | 0 <= j < k < |After(Nobody(), ops).referrals| ::
              After(Nobody(), ops).referrals[j].referred != After(Nobody(), ops).referrals[k].referred
  {
    RunIsSound(Nobody(), ops);
    ForestChainsEnd(After(Nobody(), ops).referrals, chain);
  }

  /** After every run whoever came by a seller's link is a customer or seller who sees that seller's products. */
  lemma ReferredUsersFollowTheirLink(ops: seq<Op>, k: nat)
    requires IsRun(Nobody(), ops) && k < |After(Nobody(), ops).referrals|
    ensures var club := After(Nobody(), ops);
            var r := club.referrals[k];
            EdgeFits(club.users, club.invites, r)
            && (club.users[r.referred].role in {Admin, Driver} ==>
                  club.invites[r.invite].kind == AdminInvite && club.users[r.referrer].role == Admin)
  {
    RunIsSound(Nobody(), ops);
    var club := After(Nobody(), ops);
    assert EdgeFits(club.users, club.invites, club.referrals[k]);
    assert WellIssued(club.users, club.invites);
  }

  /** What the signup form's role and the issuer must satisfy beyond validity. */
  predicate Entitled(club: Club, invite: Invite, choice: Option<Role>) {
    match invite.kind
    case AdminInvite => invite.roleTarget.Some? && (choice.None? || choice == invite.roleTarget)
    case SellerReferral =>
      && (choice == Some(Customer) || choice == Some(Seller))
      && invite.issuer in club.users && club.users[invite.issuer].role == Seller && invite.issuer in club.sellers
  }

  /** validate_invite says valid exactly when consume_invite has nothing left to object to but role and issuer. */
  lemma ValidExactlyWhenConsumable(club: Club, token: nat, choice: Option<Role>, now: Time)
    requires TokensDiffer(club.invites)
    ensures ValidateInvite(club, token, now).Ok?
    ensures Consumable(club, token, choice, now).Granted? <==>
              && ValidateInvite(club, token, now).value.valid
              && exists i | i in club.invites :: club.invites[i].token == token && Entitled(club, club.invites[i], choice)
    ensures !ValidateInvite(club, token, now).value.valid ==>
              Consumable(club, token, choice, now).Denied?
              && Consumable(club, token, choice, now).problem in {InviteInvalid, InviteRevoked, InviteExpired, InviteAlreadyUsed}
  {
    var rows := WithToken(club.invites, token);
    ManyRowsMeansTwo(rows);
    if i :| i in club.invites && club.invites[i].token == token {
      assert i in rows;
      assert rows == {i};
    }
  }

  /** An admin may own a referral link, and it is reported valid, yet no signup can use it. */
  lemma AdminReferralsAdmitNobody(club: Club, i: Id, choice: Option<Role>, now: Time)
    requires TokensDiffer(club.invites) && i in club.invites && club.invites[i].kind == SellerReferral
    requires club.invites[i].issuer in club.users && club.users[club.invites[i].issuer].role == Admin
    ensures Consumable(club, club.invites[i].token, choice, now).Denied?
    ensures club.invites[i].revokedAt.None? && club.invites[i].maxUses.None? && club.invites[i].expiresAt.None? ==>
              ValidateInvite(club, club.invites[i].token, now) == Ok(Validity(true, true, false, false, false))
  {
    var rows := WithToken(club.invites, club.invites[i].token);
    ManyRowsMeansTwo(rows);
    assert i in rows;
    assert rows == {i};
  }

  /** get_or_create twice is once, and after regenerate it returns the regenerated link. */
  lemma ReferralIsStable(club: Club, seller: Id, invite: Id, token: nat, other: Id, next: nat, now: Time)
    requires Sound(club) && MayRefer(club, seller) && Fresh(club, invite, token)
    ensures var first := GetOrCreateReferral(club, seller, invite, token);
            first.reply.Link? && GetOrCreateReferral(first.club, seller, other, next) == first
    ensures var renewed := RegenerateReferral(club, seller, invite, token, now);
            GetOrCreateReferral(renewed.club, seller, other, next) == Step(renewed.club, Link(invite))
  {
    ManyRowsMeansTwo(ActiveReferrals(club.invites, seller));
    var first := GetOrCreateReferral(club, seller, invite, token);
    if ScalarOneOrNone(ActiveReferrals(club.invites, seller)).NoRow? {
      assert ActiveReferrals(first.club.invites, seller) == {invite};
    }
    var renewed := RegenerateReferral(club, seller, invite, token, now);
    assert ActiveReferrals(renewed.club.invites, seller) == {invite};
  }
}
