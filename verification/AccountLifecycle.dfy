/**
 Invitations, one-time account links and the suspension of organizations. Every operation is one
 database transaction; a refused one leaves the tables as they were.
 */
module AccountLifecycle {
  import opened Options

  type UserId = nat
  type OrgId = nat
  type Hash = nat

  /** The account status 'active' is `Activated` here, the organization status 'active' is `Operating`. */
  datatype AccountStatus = Invited | Activated | Disabled
  datatype OrgStatus = PendingActivation | Operating | Suspended
  datatype Purpose = AccountActivation | PasswordReset

  datatype User = User(status: AccountStatus, isActive: bool, password: Option<string>)
  datatype Organization = Organization(status: OrgStatus, isActive: bool)
  datatype Member = Member(isOwner: bool, isActive: bool)
  datatype Token = Token(user: UserId, purpose: Purpose, expiresAt: int, usedAt: Option<int>, revokedAt: Option<int>)

  type Users = map<UserId, User>
  type Organizations = map<OrgId, Organization>
  type Members = map<(OrgId, UserId), Member>
  type Tokens = map<Hash, Token>

  datatype Db = Db(users: Users, orgs: Organizations, members: Members, tokens: Tokens)

  datatype Refusal = InvalidToken | WrongStatus | NotFound | Duplicate

  /** The row a link joins to: its token, its user, and one of the user's memberships, if there is any. */
  datatype Context = Context(hash: Hash, user: UserId, purpose: Purpose, status: AccountStatus, isActive: bool,
                             org: Option<OrgId>, isOwner: bool)

  datatype Transaction =
    | Issue(user: UserId, purpose: Purpose, hash: Hash, expiresAt: int, now: int)
    | Revoke(user: UserId, purpose: Purpose, now: int)
    | Activate(hash: Hash, via: Option<OrgId>, password: string, now: int)
    | Reset(hash: Hash, via: Option<OrgId>, password: string, now: int)
    | Suspend(org: OrgId)
    | Invite(user: UserId, org: OrgId)
    | Approve(org: OrgId, owner: UserId)

  predicate Spent(t: Token) {
    t.usedAt.Some? || t.revokedAt.Some?
  }

  predicate IsValid(t: Token, now: int) {
    !Spent(t) && t.expiresAt > now
  }

  function RevokeActive(tokens: Tokens, user: UserId, purpose: Purpose, now: int): Tokens {
    map h | h in tokens ::
      if tokens[h].user == user && tokens[h].purpose == purpose && !Spent(tokens[h])
      then tokens[h].(revokedAt := Some(now)) else tokens[h]
  }

  /** The context of a valid link. Which membership the join yields is the database's choice, `org`. */
  function LockValid(db: Db, hash: Hash, org: Option<OrgId>, now: int): Option<Context> {
    if hash in db.tokens && IsValid(db.tokens[hash], now) && db.tokens[hash].user in db.users then
      var t := db.tokens[hash];
      var owner := org.Some? && (org.value, t.user) in db.members && db.members[(org.value, t.user)].isOwner;
      Some(Context(hash, t.user, t.purpose, db.users[t.user].status, db.users[t.user].isActive, org, owner))
    else None
  }

  predicate Joined(members: Members, user: UserId, org: Option<OrgId>, k: (OrgId, UserId)) {
    k in members && k.1 == user && (org == None || k.0 == org.value)
  }

  predicate HasOtherOwner(members: Members, org: OrgId, user: UserId) {
    exists k :: k in members && k.0 == org && k.1 != user && members[k].isOwner && members[k].isActive
  }

  /** Activating these memberships would give an organization two active owners, which a unique index forbids. */
  predicate OwnerClash(members: Members, user: UserId, org: Option<OrgId>) {
    exists k :: k in members && Joined(members, user, org, k) && members[k].isOwner && HasOtherOwner(members, k.0, user)
  }

  function ActivateMembers(members: Members, user: UserId, org: Option<OrgId>): Members {
    map k | k in members :: if Joined(members, user, org, k) then members[k].(isActive := true) else members[k]
  }

  function ActivationRefused(db: Db, hash: Hash, org: Option<OrgId>, now: int): Option<Refusal> {
    match LockValid(db, hash, org, now)
    case None => Some(InvalidToken)
    case Some(c) =>
      if c.purpose != AccountActivation then Some(InvalidToken)
      else if c.status != Invited then Some(WrongStatus)
      else if OwnerClash(db.members, c.user, org) then Some(Duplicate)
      else None
  }

  function ResetRefused(db: Db, hash: Hash, org: Option<OrgId>, now: int): Option<Refusal> {
    match LockValid(db, hash, org, now)
    case None => Some(InvalidToken)
    case Some(c) =>
      if c.purpose != PasswordReset then Some(InvalidToken)
      else if !c.isActive || c.status != Activated then Some(WrongStatus)
      else None
  }

  function IssueRefused(db: Db, user: UserId, hash: Hash, expiresAt: int, now: int): Option<Refusal> {
    if user !in db.users then Some(NotFound)
    else if hash in db.tokens || expiresAt <= now then Some(Duplicate)
    else None
  }

  function SuspensionRefused(db: Db, org: OrgId): Option<Refusal> {
    if org !in db.orgs then Some(NotFound)
    else if !db.orgs[org].isActive || db.orgs[org].status != Operating then Some(WrongStatus)
    else None
  }

  /** Why a transaction is refused, if it is. Ids of new users and organizations are always new. */
  function Refused(db: Db, t: Transaction): Option<Refusal> {
    match t
    case Issue(user, _, hash, expiresAt, now) => IssueRefused(db, user, hash, expiresAt, now)
    case Revoke(_, _, _) => None
    case Activate(hash, org, _, now) => ActivationRefused(db, hash, org, now)
    case Reset(hash, org, _, now) => ResetRefused(db, hash, org, now)
    case Suspend(org) => SuspensionRefused(db, org)
    case Invite(user, org) => if user in db.users then Some(Duplicate) else if org !in db.orgs then Some(NotFound) else None
    case Approve(org, owner) => if owner in db.users || org in db.orgs then Some(Duplicate) else None
  }

  /** The tables after a transaction that was not refused. */
  function Committed(db: Db, t: Transaction): Db
    requires Refused(db, t).None?
  {
    match t
    case Issue(user, purpose, hash, expiresAt, now) =>
      db.(tokens := RevokeActive(db.tokens, user, purpose, now)[hash := Token(user, purpose, expiresAt, None, None)])
    case Revoke(user, purpose, now) => db.(tokens := RevokeActive(db.tokens, user, purpose, now))
    case Activate(hash, org, password, now) =>
      var c := LockValid(db, hash, org, now).value;
      Db(db.users[c.user := User(Activated, true, Some(password))],
         if c.isOwner && org.value in db.orgs then db.orgs[org.value := Organization(Operating, true)] else db.orgs,
         ActivateMembers(db.members, c.user, org),
         db.tokens[hash := db.tokens[hash].(usedAt := Some(now))])
    case Reset(hash, org, password, now) =>
      var c := LockValid(db, hash, org, now).value;
      db.(users := db.users[c.user := db.users[c.user].(password := Some(password))],
          tokens := db.tokens[hash := db.tokens[hash].(usedAt := Some(now))])
    case Suspend(org) =>
      db.(orgs := db.orgs[org := Organization(Suspended, false)],
          members := map k | k in db.members :: if k.0 == org then db.members[k].(isActive := false) else db.members[k],
          users := map u | u in db.users ::
            if (org, u) in db.members then db.users[u].(status := Disabled, isActive := false) else db.users[u])
    case Invite(user, org) =>
      db.(users := db.users[user := User(Invited, false, None)],
          members := db.members[(org, user) := Member(false, false)])
    case Approve(org, owner) =>
      db.(users := db.users[owner := User(Invited, false, None)],
          orgs := db.orgs[org := Organization(PendingActivation, false)],
          members := db.members[(org, owner) := Member(true, false)])
  }

  function Step(db: Db, t: Transaction): Db {
    if Refused(db, t).None? then Committed(db, t) else db
  }

  function RunAll(db: Db, run: seq<Transaction>): Db {
    if run == [] then db else Step(RunAll(db, run[..|run| - 1]), run[|run| - 1])
  }

  /** The four tables, changed statement by statement inside transactions that are undone when they throw. */
  class Database {
    var users: Users
    var orgs: Organizations
    var members: Members
    var tokens: Tokens

    constructor (db: Db)
      ensures Tables() == db
    {
      users, orgs, members, tokens := db.users, db.orgs, db.members, db.tokens;
    }

    function Tables(): Db
      reads this
    {
      Db(users, orgs, members, tokens)
    }

    method Rollback(start: Db)
      modifies this
      ensures Tables() == start
    {
      users, orgs, members, tokens := start.users, start.orgs, start.members, start.tokens;
    }

    method RevokeActiveTokens(user: UserId, purpose: Purpose, now: int)
      modifies `tokens
      ensures tokens == RevokeActive(old(tokens), user, purpose, now)
    {
      tokens := map h | h in tokens ::
        if tokens[h].user == user && tokens[h].purpose == purpose && tokens[h].usedAt == None && tokens[h].revokedAt == None
        then tokens[h].(revokedAt := Some(now)) else tokens[h];
    }

    /** The INSERT fails on an unknown user, a taken hash or an expiry that is not in the future. */
    method CreateToken(user: UserId, purpose: Purpose, hash: Hash, expiresAt: int, now: int) returns (ok: bool)
      modifies `tokens
      ensures ok <==> user in users && hash !in old(tokens) && expiresAt > now
      ensures tokens == if ok then old(tokens)[hash := Token(user, purpose, expiresAt, None, None)] else old(tokens)
    {
      ok := user in users && hash !in tokens && expiresAt > now;
      if ok {
        tokens := tokens[hash := Token(user, purpose, expiresAt, None, None)];
      }
    }

    method IssueAccountAction(user: UserId, purpose: Purpose, hash: Hash, expiresAt: int, now: int)
      returns (refusal: Option<Refusal>)
      modifies this
      ensures refusal == Refused(old(Tables()), Issue(user, purpose, hash, expiresAt, now))
      ensures Tables() == Step(old(Tables()), Issue(user, purpose, hash, expiresAt, now))
    {
      var start := Tables();
      RevokeActiveTokens(user, purpose, now);
      var ok := CreateToken(user, purpose, hash, expiresAt, now);
      if !ok {
        Rollback(start);
        return Some(if user !in users then NotFound else Duplicate);
      }
      return None;
    }

    method ActivateAccount(c: Context, password: string, now: int) returns (ok: bool)
      requires c.user in users && c.hash in tokens
      modifies this
      ensures ok <==> !OwnerClash(old(members), c.user, c.org)
      ensures ok ==> Tables() == Db(
        old(users)[c.user := User(Activated, true, Some(password))],
        if c.isOwner && c.org.Some? && c.org.value in old(orgs)
          then old(orgs)[c.org.value := Organization(Operating, true)] else old(orgs),
        ActivateMembers(old(members), c.user, c.org),
        old(tokens)[c.hash := old(tokens)[c.hash].(usedAt := Some(now))])
    {
      users := users[c.user := User(Activated, true, Some(password))];
      if OwnerClash(members, c.user, c.org) {
        return false;
      }
      members := ActivateMembers(members, c.user, c.org);
      if c.isOwner && c.org.Some? && c.org.value in orgs {
        orgs := orgs[c.org.value := Organization(Operating, true)];
      }
      tokens := tokens[c.hash := tokens[c.hash].(usedAt := Some(now))];
      return true;
    }

    method ActivateByLink(hash: Hash, org: Option<OrgId>, password: string, now: int) returns (refusal: Option<Refusal>)
      modifies this
      ensures refusal == Refused(old(Tables()), Activate(hash, org, password, now))
      ensures Tables() == Step(old(Tables()), Activate(hash, org, password, now))
    {
      var start := Tables();
      var context := LockValid(start, hash, org, now);
      if context == None {
        return Some(InvalidToken);
      }
      if context.value.purpose != AccountActivation {
        return Some(InvalidToken);
      }
      if context.value.status != Invited {
        return Some(WrongStatus);
      }
      var ok := ActivateAccount(context.value, password, now);
      if !ok {
        Rollback(start);
        return Some(Duplicate);
      }
      return None;
    }

    method ResetByLink(hash: Hash, org: Option<OrgId>, password: string, now: int) returns (refusal: Option<Refusal>)
      modifies this
      ensures refusal == Refused(old(Tables()), Reset(hash, org, password, now))
      ensures Tables() == Step(old(Tables()), Reset(hash, org, password, now))
    {
      var context := LockValid(Tables(), hash, org, now);
      if context == None || context.value.purpose != PasswordReset {
        return Some(InvalidToken);
      }
      var c := context.value;
      if !c.isActive || c.status != Activated {
        return Some(WrongStatus);
      }
      if users[c.user].isActive && users[c.user].status == Activated {
        users := users[c.user := users[c.user].(password := Some(password))];
      }
      tokens := tokens[c.hash := tokens[c.hash].(usedAt := Some(now))];
      return None;
    }

    method SuspendOrganization(org: OrgId) returns (refusal: Option<Refusal>)
      modifies this
      ensures refusal == Refused(old(Tables()), Suspend(org))
      ensures Tables() == Step(old(Tables()), Suspend(org))
    {
      if org !in orgs {
        return Some(NotFound);
      }
      if !orgs[org].isActive || orgs[org].status != Operating {
        return Some(WrongStatus);
      }
      var userIds := set k | k in members && k.0 == org :: k.1;
      orgs := orgs[org := Organization(Suspended, false)];
      members := map k | k in members :: if k.0 == org then members[k].(isActive := false) else members[k];
      users := map u | u in users :: if u in userIds then users[u].(status := Disabled, isActive := false) else users[u];
      assert forall u :: u in userIds <==> (org, u) in old(members);
      return None;
    }
  }

  // ---------------------------------------------------------------- what a link does

  predicate OwnedBy(members: Members, org: OrgId, user: UserId) {
    (org, user) in members && members[(org, user)].isOwner
  }

  /**
   An activation that goes through enables an invited account and the memberships it was joined to, opens
   the organization exactly if the account owns it, spends this one link, and touches nothing else.
   */
  lemma ActivationEnables(db: Db, hash: Hash, via: Option<OrgId>, password: string, now: int)
    requires ActivationRefused(db, hash, via, now).None?
    ensures var after, u := Step(db, Activate(hash, via, password, now)), db.tokens[hash].user;
      && db.users[u].status == Invited && after.users[u] == User(Activated, true, Some(password))
      && after.users.Keys == db.users.Keys && (forall v :: v in db.users && v != u ==> after.users[v] == db.users[v])
      && after.members.Keys == db.members.Keys
      && (forall k :: k in db.members ==>
            && after.members[k].isOwner == db.members[k].isOwner
            && (after.members[k].isActive <==> db.members[k].isActive || (k.1 == u && (via == None || via == Some(k.0)))))
      && (forall o: OrgId :: IsOpen(after, o) <==>
            (IsOpen(db, o) || (via == Some(o) && o in db.orgs && OwnedBy(db.members, o, u))))
      && after.tokens.Keys == db.tokens.Keys
      && (forall h :: h in db.tokens && h != hash ==> after.tokens[h] == db.tokens[h])
      && after.tokens[hash] == db.tokens[hash].(usedAt := Some(now))
  {
  }

  /** A reset that goes through changes the password of one active account and spends this one link. */
  lemma ResetChangesPassword(db: Db, hash: Hash, via: Option<OrgId>, password: string, now: int)
    requires ResetRefused(db, hash, via, now).None?
    ensures var after, u := Step(db, Reset(hash, via, password, now)), db.tokens[hash].user;
      && db.users[u].status == Activated && db.users[u].isActive
      && after.users[u] == User(Activated, true, Some(password))
      && after.users.Keys == db.users.Keys && (forall v :: v in db.users && v != u ==> after.users[v] == db.users[v])
      && after.members == db.members && after.orgs == db.orgs && after.tokens.Keys == db.tokens.Keys
      && (forall h :: h in db.tokens && h != hash ==> after.tokens[h] == db.tokens[h])
      && after.tokens[hash] == db.tokens[hash].(usedAt := Some(now))
  {
  }

  /** A link that is unknown, used, revoked or expired, or for the other purpose, is refused and changes nothing. */
  lemma BadLinksAreRefused(db: Db, t: Transaction)
    requires t.Activate? || t.Reset?
    requires t.hash !in db.tokens || db.tokens[t.hash].usedAt.Some? || db.tokens[t.hash].revokedAt.Some? ||
      db.tokens[t.hash].expiresAt <= t.now ||
      db.tokens[t.hash].purpose != (if t.Activate? then AccountActivation else PasswordReset)
    ensures Refused(db, t) == Some(InvalidToken) && Step(db, t) == db
  {
  }

  /** The accounts a link is for: activation takes invited ones, a reset active ones, and no others. */
  lemma WrongAccountsAreRefused(db: Db, t: Transaction)
    requires t.Activate? || t.Reset?
    requires t.hash in db.tokens && db.tokens[t.hash].user in db.users
    requires var u := db.users[db.tokens[t.hash].user];
      if t.Activate? then u.status != Invited else u.status != Activated || !u.isActive
    ensures Refused(db, t).Some? && Step(db, t) == db
  {
  }

  /**
   An issued link can be followed until it expires; an invited account's is accepted for activation unless
   another owner is active, an active account's for a reset. It replaces the user's earlier links for the purpose.
   */
  lemma IssuedLinkWorks(db: Db, user: UserId, purpose: Purpose, hash: Hash, expiresAt: int, now: int, via: Option<OrgId>,
      password: string, later: int)
    requires Refused(db, Issue(user, purpose, hash, expiresAt, now)).None? && later < expiresAt
    ensures var after := Step(db, Issue(user, purpose, hash, expiresAt, now));
      && (purpose == AccountActivation && db.users[user].status == Invited && !OwnerClash(db.members, user, via) ==>
            Refused(after, Activate(hash, via, password, later)).None?)
      && (purpose == PasswordReset && db.users[user].status == Activated && db.users[user].isActive ==>
            Refused(after, Reset(hash, via, password, later)).None?)
      && forall h :: h in db.tokens ==>
           (Spent(after.tokens[h]) <==>
             Spent(db.tokens[h]) || (db.tokens[h].user == user && db.tokens[h].purpose == purpose))
  {
  }

  /** A link is issued exactly for a known user, under a new hash, with an expiry in the future. */
  lemma IssuesExactly(db: Db, user: UserId, purpose: Purpose, hash: Hash, expiresAt: int, now: int)
    ensures Refused(db, Issue(user, purpose, hash, expiresAt, now)).None? <==>
      user in db.users && hash !in db.tokens && now < expiresAt
    ensures Refused(db, Issue(user, purpose, hash, expiresAt, now)).None? ==>
      Step(db, Issue(user, purpose, hash, expiresAt, now)).tokens[hash] == Token(user, purpose, expiresAt, None, None)
  {
  }

  /** A revocation closes exactly the user's links for the purpose. */
  lemma RevocationCloses(db: Db, user: UserId, purpose: Purpose, now: int)
    ensures var after := Step(db, Revoke(user, purpose, now));
      && after.users == db.users && after.orgs == db.orgs && after.members == db.members
      && after.tokens.Keys == db.tokens.Keys
      && forall h :: h in db.tokens ==>
           var was := db.tokens[h];
           if was.user == user && was.purpose == purpose && was.usedAt == None && was.revokedAt == None
           then after.tokens[h] == was.(revokedAt := Some(now)) else after.tokens[h] == was
  {
  }

  /** A suspension touches its own organization, its memberships and its members, and no one else; issuing only links. */
  lemma OthersStayAsTheyWere(db: Db, org: OrgId, user: UserId, purpose: Purpose, hash: Hash, expiresAt: int, now: int)
    ensures var after := Step(db, Suspend(org));
      && after.tokens == db.tokens && after.users.Keys == db.users.Keys && after.members.Keys == db.members.Keys
      && (forall o :: o in db.orgs && o != org ==> o in after.orgs && after.orgs[o] == db.orgs[o])
      && (forall k :: k in db.members ==> after.members[k].isOwner == db.members[k].isOwner)
      && (forall k :: k in db.members && k.0 != org ==> after.members[k] == db.members[k])
      && (forall u :: u in db.users && (org, u) !in db.members ==> after.users[u] == db.users[u])
    ensures var after := Step(db, Issue(user, purpose, hash, expiresAt, now));
      after.users == db.users && after.orgs == db.orgs && after.members == db.members
  {
  }

  /** An enrolment changes no row there was. */
  lemma EnrolmentAddsOnly(db: Db, t: Transaction)
    requires Linked(db) && (t.Invite? || t.Approve?)
    ensures var after := Step(db, t);
      && after.tokens == db.tokens
      && (forall u :: u in db.users ==> u in after.users && after.users[u] == db.users[u])
      && (forall o :: o in db.orgs ==> o in after.orgs && after.orgs[o] == db.orgs[o])
      && (forall k :: k in db.members ==> k in after.members && after.members[k] == db.members[k])
  {
  }

  /** Only an operating, active organization can be suspended. */
  lemma SuspendsExactlyOpen(db: Db, org: OrgId)
    ensures Refused(db, Suspend(org)).None? <==> IsOpen(db, org)
  {
  }

  /** An approval creates an organization that waits for its owner, an invitation adds an account that owns nothing. */
  lemma EnrolledAreInvited(db: Db, user: UserId, org: OrgId)
    requires Linked(db) && user !in db.users
    ensures org !in db.orgs ==>
      && AwaitsOwner(Step(db, Approve(org, user)), org, user)
      && Step(db, Approve(org, user)).orgs[org] == Organization(PendingActivation, false)
      && Step(db, Approve(org, user)).users[user] == User(Invited, false, None)
      && !Step(db, Approve(org, user)).members[(org, user)].isActive
    ensures org in db.orgs ==>
      var after := Step(db, Invite(user, org));
      && after.users[user] == User(Invited, false, None) && after.members[(org, user)] == Member(false, false)
      && after.orgs == db.orgs
  {
    assert org !in db.orgs ==> forall k :: k in db.members ==> k.0 != org;
  }

  /** No organization has two active owners. */
  ghost predicate OneActiveOwner(members: Members) {
    forall j, k :: j in members && k in members && j != k && j.0 == k.0 && members[j].isOwner && members[k].isOwner ==>
      !members[j].isActive || !members[k].isActive
  }

  lemma StepKeepsOneOwner(db: Db, t: Transaction)
    requires OneActiveOwner(db.members)
    ensures OneActiveOwner(Step(db, t).members)
  {
    if t.Activate? && Refused(db, t).None? {
      var u := db.tokens[t.hash].user;
      forall k | k in db.members && Joined(db.members, u, t.via, k) && db.members[k].isOwner
        ensures !HasOtherOwner(db.members, k.0, u)
      {
        assert !OwnerClash(db.members, u, t.via);
      }
      forall j | j in db.members && db.members[j].isOwner && db.members[j].isActive && j.1 != u
        ensures HasOtherOwner(db.members, j.0, u)
      {
      }
    }
  }

  /** Over every run an organization keeps at most one active owner. */
  lemma {:induction false} OwnersStayUnique(db: Db, run: seq<Transaction>)
    requires OneActiveOwner(db.members)
    ensures OneActiveOwner(RunAll(db, run).members)
  {
    if run != [] {
      OwnersStayUnique(db, run[..|run| - 1]);
      StepKeepsOneOwner(RunAll(db, run[..|run| - 1]), run[|run| - 1]);
    }
  }

  // ---------------------------------------------------------------- links

  /** A used or revoked link stays used or revoked, and no transaction it is presented to accepts it. */
  lemma {:induction false} SpentStaysSpent(db: Db, run: seq<Transaction>, hash: Hash)
    requires hash in db.tokens && Spent(db.tokens[hash])
    ensures hash in RunAll(db, run).tokens && Spent(RunAll(db, run).tokens[hash])
    ensures forall t: Transaction :: (t.Activate? || t.Reset?) && t.hash == hash ==>
      Refused(RunAll(db, run), t) == Some(InvalidToken)
  {
    if run != [] {
      SpentStaysSpent(db, run[..|run| - 1], hash);
    }
  }

  /** The `i`th transaction of the run presents the link `hash` and goes through. */
  predicate Completes(db: Db, run: seq<Transaction>, i: nat, hash: Hash)
    requires i < |run|
  {
    var t := run[i];
    (t.Activate? || t.Reset?) && t.hash == hash && Refused(RunAll(db, run[..i]), t).None?
  }

  lemma {:induction false} RunOfPrefix(db: Db, run: seq<Transaction>, i: nat)
    requires i <= |run|
    ensures RunAll(db, run) == RunAll(RunAll(db, run[..i]), run[i..])
    decreases |run|
  {
    if i == |run| {
      assert run[..i] == run && run[i..] == [];
    } else {
      var n := |run| - 1;
      RunOfPrefix(db, run[..n], i);
      assert run[..n][..i] == run[..i] && run[..n][i..] == run[i..][..|run[i..]| - 1];
    }
  }

  /** Each link completes at most one action, of either kind, in any run. */
  lemma LinksWorkOnce(db: Db, run: seq<Transaction>, hash: Hash, i: nat, j: nat)
    requires i < j < |run| && Completes(db, run, i, hash)
    ensures !Completes(db, run, j, hash)
  {
    var after := RunAll(db, run[..i + 1]);
    assert run[..i + 1][..i] == run[..i];
    assert hash in after.tokens && Spent(after.tokens[hash]);
    SpentStaysSpent(after, run[..j][i + 1..], hash);
    RunOfPrefix(db, run[..j], i + 1);
    assert run[..j][..i + 1] == run[..i + 1];
  }

  /** Two links of one user and purpose are never open at once. */
  ghost predicate OneOpenLink(tokens: Tokens) {
    forall g, h :: g in tokens && h in tokens && g != h && !Spent(tokens[g]) && !Spent(tokens[h]) ==>
      tokens[g].user != tokens[h].user || tokens[g].purpose != tokens[h].purpose
  }

  lemma {:induction false} LatestLinkOnly(db: Db, run: seq<Transaction>)
    requires OneOpenLink(db.tokens)
    ensures OneOpenLink(RunAll(db, run).tokens)
  {
    if run != [] {
      LatestLinkOnly(db, run[..|run| - 1]);
    }
  }

  // ---------------------------------------------------------------- suspension

  /** The foreign keys of the membership table. */
  ghost predicate Linked(db: Db) {
    forall k :: k in db.members ==> k.0 in db.orgs && k.1 in db.users
  }

  ghost predicate SameDisabledUser(users: Users, users': Users, u: UserId) {
    u in users && u in users' && users'[u] == users[u] && !users[u].isActive && users[u].status == Disabled
  }

  /** `start` is the state a suspension of `org` left; `db` has kept it, whatever else happened. */
  ghost predicate Closed(start: Db, db: Db, org: OrgId) {
    && Linked(db)
    && org in db.orgs && db.orgs[org] == Organization(Suspended, false)
    && (forall u :: (org, u) in start.members ==> SameDisabledUser(start.users, db.users, u))
    && (forall u :: (org, u) in start.members ==> (org, u) in db.members && !db.members[(org, u)].isActive)
    && (forall u :: (org, u) in db.members && (org, u) !in start.members ==> !db.members[(org, u)].isOwner)
  }

  lemma ActivationKeepsClosed(start: Db, db: Db, org: OrgId, t: Transaction)
    requires Closed(start, db, org) && t.Activate?
    ensures Closed(start, Step(db, t), org)
  {
    if Refused(db, t).None? {
      var u := db.tokens[t.hash].user;
      assert (org, u) !in start.members;
    }
  }

  lemma SuspendingKeepsClosed(start: Db, db: Db, org: OrgId, t: Transaction)
    requires Closed(start, db, org) && t.Suspend?
    ensures Closed(start, Step(db, t), org)
  {
  }

  lemma EnrollingKeepsClosed(start: Db, db: Db, org: OrgId, t: Transaction)
    requires Closed(start, db, org) && (t.Invite? || t.Approve?)
    ensures Closed(start, Step(db, t), org)
  {
  }

  lemma StepKeepsClosed(start: Db, db: Db, org: OrgId, t: Transaction)
    requires Closed(start, db, org)
    ensures Closed(start, Step(db, t), org)
  {
    if t.Activate? {
      ActivationKeepsClosed(start, db, org, t);
    } else if t.Suspend? {
      SuspendingKeepsClosed(start, db, org, t);
    } else if t.Invite? || t.Approve? {
      EnrollingKeepsClosed(start, db, org, t);
    }
  }

  lemma {:induction false} RunKeepsClosed(start: Db, run: seq<Transaction>, org: OrgId)
    requires Closed(start, start, org)
    ensures Closed(start, RunAll(start, run), org)
  {
    if run != [] {
      RunKeepsClosed(start, run[..|run| - 1], org);
      StepKeepsClosed(start, RunAll(start, run[..|run| - 1]), org, run[|run| - 1]);
    }
  }

  /**
   Once a suspension commits, nothing undoes it: the organization stays suspended, and the accounts of
   all who were its members keep their disabled rows, passwords included, over every further run.
   */
  lemma SuspensionIsFinal(db: Db, org: OrgId, run: seq<Transaction>, user: UserId)
    requires Linked(db) && Refused(db, Suspend(org)).None?
    ensures var start, end := Step(db, Suspend(org)), RunAll(Step(db, Suspend(org)), run);
      && org in end.orgs && end.orgs[org] == Organization(Suspended, false)
      && ((org, user) in db.members ==>
            && user in end.users && end.users[user] == db.users[user].(status := Disabled, isActive := false)
            && (org, user) in end.members && !end.members[(org, user)].isActive)
  {
    RunKeepsClosed(Step(db, Suspend(org)), run, org);
  }

  // ---------------------------------------------------------------- which organizations can open

  predicate IsOpen(db: Db, org: OrgId) {
    org in db.orgs && db.orgs[org] == Organization(Operating, true)
  }

  /** An invited owner, with no other owner active beside them. */
  predicate AwaitsOwner(db: Db, org: OrgId, user: UserId) {
    && org in db.orgs && user in db.users && db.users[user].status == Invited
    && (org, user) in db.members && db.members[(org, user)].isOwner && !HasOtherOwner(db.members, org, user)
  }

  predicate LinksOnly(run: seq<Transaction>) {
    forall t :: t in run ==> t.Issue? || t.Revoke? || t.Activate? || t.Reset?
  }

  ghost predicate CanOpen(db: Db, org: OrgId) {
    exists run :: LinksOnly(run) && IsOpen(RunAll(db, run), org)
  }

  lemma ActiveOwnersStay(db: Db, t: Transaction, org: OrgId, user: UserId)
    requires t.Issue? || t.Revoke? || t.Activate? || t.Reset?
    requires HasOtherOwner(db.members, org, user)
    ensures HasOtherOwner(Step(db, t).members, org, user)
  {
    var k :| k in db.members && k.0 == org && k.1 != user && db.members[k].isOwner && db.members[k].isActive;
    assert k in Step(db, t).members;
  }

  lemma NoNewOwnerAwaited(db: Db, t: Transaction, org: OrgId, user: UserId)
    requires t.Issue? || t.Revoke? || t.Activate? || t.Reset?
    requires AwaitsOwner(Step(db, t), org, user)
    ensures AwaitsOwner(db, org, user)
  {
    if HasOtherOwner(db.members, org, user) {
      ActiveOwnersStay(db, t, org, user);
    }
  }

  lemma OpensOnlyByOwner(db: Db, t: Transaction, org: OrgId)
    requires t.Issue? || t.Revoke? || t.Activate? || t.Reset?
    requires !IsOpen(db, org) && IsOpen(Step(db, t), org)
    ensures exists u :: AwaitsOwner(db, org, u)
  {
    assert t.Activate? && t.via == Some(org);
    var u := db.tokens[t.hash].user;
    assert (org, u) in db.members && db.members[(org, u)].isOwner;
    assert Joined(db.members, u, t.via, (org, u));
    assert AwaitsOwner(db, org, u);
  }

  lemma {:induction false} StaysShutWithoutOwner(db: Db, run: seq<Transaction>, org: OrgId)
    requires LinksOnly(run)
    requires !IsOpen(db, org) && forall u :: !AwaitsOwner(db, org, u)
    ensures !IsOpen(RunAll(db, run), org) && forall u :: !AwaitsOwner(RunAll(db, run), org, u)
  {
    if run != [] {
      var before, t := RunAll(db, run[..|run| - 1]), run[|run| - 1];
      StaysShutWithoutOwner(db, run[..|run| - 1], org);
      if IsOpen(Step(before, t), org) {
        OpensOnlyByOwner(before, t, org);
      }
      forall u | AwaitsOwner(Step(before, t), org, u)
        ensures AwaitsOwner(before, org, u)
      {
        NoNewOwnerAwaited(before, t, org, u);
      }
    }
  }

  lemma {:induction false} UnusedHash(hashes: set<Hash>) returns (unused: Hash)
    ensures forall h :: h in hashes ==> h < unused
    decreases hashes
  {
    if hashes == {} {
      unused := 0;
    } else {
      var some :| some in hashes;
      var above := UnusedHash(hashes - {some});
      unused := if some < above then above else some + 1;
      assert forall h :: h in hashes ==> h == some || h in hashes - {some};
    }
  }

  /** Issuing a link to an invited owner and following it opens the organization. */
  lemma OwnerCanOpen(db: Db, org: OrgId, user: UserId)
    requires AwaitsOwner(db, org, user)
    ensures CanOpen(db, org)
  {
    var hash := UnusedHash(db.tokens.Keys);
    var issue, follow := Issue(user, AccountActivation, hash, 1, 0), Activate(hash, Some(org), "", 0);
    var run := [issue, follow];
    var issued := Step(db, issue);
    assert run[..1][..0] == [];
    assert RunAll(db, run[..1]) == issued && issued.members == db.members;
    assert forall k :: Joined(db.members, user, Some(org), k) ==> k == (org, user);
    assert Refused(issued, follow).None?;
    assert IsOpen(RunAll(db, run), org);
  }

  /** Account links alone can open an organization exactly when it is open or awaits its owner. */
  lemma OpensExactlyForInvitedOwner(db: Db, org: OrgId)
    ensures CanOpen(db, org) <==> IsOpen(db, org) || exists u :: AwaitsOwner(db, org, u)
  {
    if IsOpen(db, org) {
      assert LinksOnly([]) && RunAll(db, []) == db;
    } else if u :| AwaitsOwner(db, org, u) {
      OwnerCanOpen(db, org, u);
    } else {
      forall run | LinksOnly(run)
        ensures !IsOpen(RunAll(db, run), org)
      {
        StaysShutWithoutOwner(db, run, org);
      }
    }
  }
}
