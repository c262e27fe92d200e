/**
The account table, the vault row and what each account request computes inside
one transaction (backend/crud/auth.py). A request that runs the slow key
derivation is split in three: what it does before its first commit
(`FirstSegment`), the derivation outside any transaction (`DeriveKeys`), and
what it does in its second transaction (`SecondSegment`).
*/
module Accounts {
  import opened Wrappers
  import opened KeyMaterials

  type UserId = nat

  datatype Role = Admin | Member | Service

  datatype User = User(
    username: string,
    role: Role,
    active: bool,
    mustChange: bool,
    serviceOwner: Option<UserId>,
    tokenHash: Option<string>,
    material: KeyMaterial)

  datatype VaultRow = VaultRow(owner: Option<UserId>, material: KeyMaterial, linksReady: bool)

  /** `holders` are the accounts that own entries or folders; `orphans` says
      whether entries or attachments exist that no account owns yet. */
  datatype Db = Db(
    users: map<UserId, User>,
    nextUser: UserId,
    vault: Option<VaultRow>,
    holders: set<UserId>,
    orphans: bool)

  /** What a session token was opened for. The credential fingerprint is an
      injective digest of the key record, so it is the key record here. */
  datatype Session = Session(user: UserId, fingerprint: KeyMaterial, key: RawKey)

  datatype Reject = InvalidRequest | Forbidden | NotFound | SessionRequired | BadCredentials

  /** The acting account of an authorised request, and the key of its session. */
  datatype Actor = Actor(user: UserId, key: RawKey)

  datatype Op =
    | Bootstrap(username: string, password: string)
    | Login(username: string, password: string)
    | Unlock(password: string)
    | Use(readOnly: bool, allowChange: bool)
    | ChangePassword(current: string, next: string, openSession: bool)
    | VerifyPassword(current: string)
    | CreateUser(username: string, role: Role, temporary: Option<string>, secret: string)
    | UpdateUser(target: UserId, newRole: Option<Role>, newActive: Option<bool>)
    | RevokeSessions(target: UserId)
    | RequireChange(target: UserId)
    | RotateToken(target: UserId, secret: string)
    | ResetPassword(target: UserId, replacement: string)
    | DeleteUser(target: UserId)

  /** What a request carries over its mid-request commit. */
  datatype Plan =
    | NewVault(username: string, password: string)
    | AdoptVault(username: string, password: string, observed: KeyMaterial)
    | SignIn(user: UserId, password: string, observed: KeyMaterial)
    | NoSuchUser
    | Rekey(actor: Actor, observed: KeyMaterial, current: string, next: string, openSession: bool)
    | Confirm(actor: Actor, observed: KeyMaterial, current: string)
    | Provision(actor: Actor, username: string, role: Role, credential: string)
    | Replace(actor: Actor, target: UserId, credential: string, service: bool)

  /** After the derivation: the vault key, and the key record to store (or, for
      the requests that store none, the one observed). */
  datatype Ready = Ready(plan: Plan, key: RawKey, material: KeyMaterial)

  /** In-memory work registered to run once the transaction has committed. */
  datatype Hook = NoHook | RevokeUser(user: UserId) | RevokeOthers(user: UserId)

  /** The credential an account gets by a write. `drawn` tells a key record
      sealed with a fresh salt from the vault record an account adopts. */
  datatype Issue = Issue(user: UserId, password: string, material: KeyMaterial, drawn: bool)

  /** What a transaction leaves to commit: the new rows, the credential issued,
      the session it opened (before the commit) and the hook it registered. */
  datatype Write = Write(db: Db, issue: Option<Issue>, open: Option<Session>, hook: Hook)

  datatype First = Refused(error: Reject) | Finished(write: Write) | Continue(plan: Plan)

  predicate Human(u: User) { u.role != Service }

  predicate ActiveAdmin(u: User) { u.active && u.role == Admin }

  predicate KeyMatches(key: RawKey, material: KeyMaterial) { KeyCheck(key) == material.keyCheck }

  predicate NameTaken(d: Db, username: string) {
    exists u :: u in d.users && d.users[u].username == username
  }

  function Nothing(d: Db): Write { Write(d, None, None, NoHook) }

  /** `validate_vault_material`: None where the code raises for damage. */
  function CanonicalMaterial(d: Db): Option<KeyMaterial> {
    if d.vault.None? then None
    else if d.vault.value.owner.None? then Some(d.vault.value.material)
    else
      var owner := d.vault.value.owner.value;
      if owner in d.users && d.users[owner].material == d.vault.value.material
      then Some(d.vault.value.material) else None
  }

  /** `AuthCRUD.context`, from the session the token resolved to. */
  function ContextOf(d: Db, session: Session, allowChange: bool): Result<Actor, Reject> {
    if session.user !in d.users then Err(SessionRequired)
    else
      var user := d.users[session.user];
      if !user.active || user.role == Service || d.vault.None? || session.fingerprint != user.material then
        Err(SessionRequired)
      else
        match CanonicalMaterial(d)
        case None => Err(SessionRequired)
        case Some(canonical) =>
          if !KeyMatches(session.key, canonical) then Err(SessionRequired)
          else if user.mustChange && !allowChange then Err(Forbidden)
          else Ok(Actor(session.user, session.key))
  }

  // ----- First transaction --------------------------------------------------

  function BootstrapFirst(d: Db, username: string, password: string): First {
    if d.users != map[] then Refused(if d.vault.None? then InvalidRequest else Forbidden)
    else if d.vault.None? then
      if d.orphans then Refused(InvalidRequest) else Continue(NewVault(username, password))
    else Continue(AdoptVault(username, password, d.vault.value.material))
  }

  /** A user that does not exist still costs one derivation (`NoSuchUser`). */
  ghost function LoginFirst(d: Db, username: string, password: string): First {
    if exists u :: u in d.users && d.users[u].username == username && d.users[u].active && Human(d.users[u]) then
      var u :| u in d.users && d.users[u].username == username && d.users[u].active && Human(d.users[u]);
      if d.vault.None? then Refused(InvalidRequest)
      else Continue(SignIn(u, password, d.users[u].material))
    else Continue(NoSuchUser)
  }

  ghost function UnlockFirst(d: Db, password: string): First {
    if d.vault.None? then Refused(NotFound)
    else match d.vault.value.owner
      case None => BootstrapFirst(d, "admin", password)
      case Some(owner) =>
        if owner !in d.users then Refused(InvalidRequest)
        else LoginFirst(d, d.users[owner].username, password)
  }

  predicate OtherActiveAdmin(d: Db, user: UserId) {
    exists u :: u in d.users && u != user && ActiveAdmin(d.users[u])
  }

  function UpdateUserWrite(d: Db, target: UserId, newRole: Option<Role>, newActive: Option<bool>): First
    requires target in d.users
  {
    var user := d.users[target];
    var nextRole := if newRole.Some? then newRole.value else user.role;
    if (user.role == Service) != (nextRole == Service) then Refused(Forbidden)
    else if user.active && user.role == Admin && (newActive == Some(false) || nextRole != Admin)
            && !OtherActiveAdmin(d, target) then Refused(Forbidden)
    else
      var updated := user.(role := nextRole, active := if newActive.Some? then newActive.value else user.active);
      var hook := if newRole.Some? || newActive == Some(false) then RevokeUser(target) else NoHook;
      Finished(Write(d.(users := d.users[target := updated]), None, None, hook))
  }

  function DeleteUserWrite(d: Db, actor: Actor, target: UserId): First
    requires target in d.users
  {
    if target == actor.user then Refused(Forbidden)
    else if d.vault.Some? && d.vault.value.owner == Some(target) then Refused(Forbidden)
    else if target in d.holders then Refused(Forbidden)
    else if exists u :: u in d.users && d.users[u].serviceOwner == Some(target) then Refused(Forbidden)
    else Finished(Write(d.(users := d.users - {target}), None, None, RevokeUser(target)))
  }

  /** The part of an authorised request before its first commit, after
      `ContextOf` accepted the session in the same transaction. */
  function AuthorisedFirst(d: Db, op: Op, actor: Actor): First
    requires actor.user in d.users
  {
    var self := d.users[actor.user];
    var admin := ActiveAdmin(self);
    match op
    case Use(_, _) => Finished(Nothing(d))
    case ChangePassword(current, next, openSession) =>
      if self.role == Service then Refused(Forbidden)
      else Continue(Rekey(actor, self.material, current, next, openSession))
    case VerifyPassword(current) => Continue(Confirm(actor, self.material, current))
    case CreateUser(username, role, temporary, secret) =>
      if !admin then Refused(Forbidden)
      else if NameTaken(d, username) then Refused(InvalidRequest)
      else if role != Service && temporary.None? then Refused(InvalidRequest)
      else Continue(Provision(actor, username, role, if role == Service then secret else temporary.value))
    case UpdateUser(target, newRole, newActive) =>
      if !admin then Refused(Forbidden)
      else if target !in d.users then Refused(NotFound)
      else UpdateUserWrite(d, target, newRole, newActive)
    case RevokeSessions(target) =>
      if !admin then Refused(Forbidden)
      else if target !in d.users then Refused(NotFound)
      else Finished(Write(d, None, None, RevokeUser(target)))
    case RequireChange(target) =>
      if !admin then Refused(Forbidden)
      else if target !in d.users then Refused(NotFound)
      else if d.users[target].role == Service then Refused(Forbidden)
      else Finished(Nothing(d.(users := d.users[target := d.users[target].(mustChange := true)])))
    case RotateToken(target, secret) =>
      if !admin then Refused(Forbidden)
      else if target !in d.users then Refused(NotFound)
      else if d.users[target].role != Service then Refused(Forbidden)
      else Continue(Replace(actor, target, secret, true))
    case ResetPassword(target, replacement) =>
      if !admin then Refused(Forbidden)
      else if target !in d.users then Refused(NotFound)
      else if d.users[target].role == Service then Refused(Forbidden)
      else Continue(Replace(actor, target, replacement, false))
    case DeleteUser(target) =>
      if !admin then Refused(Forbidden)
      else if target !in d.users then Refused(NotFound)
      else DeleteUserWrite(d, actor, target)
    case Bootstrap(_, _) => Refused(InvalidRequest)
    case Login(_, _) => Refused(InvalidRequest)
    case Unlock(_) => Refused(InvalidRequest)
  }

  predicate Anonymous(op: Op) { op.Bootstrap? || op.Login? || op.Unlock? }

  function AllowsChange(op: Op): bool {
    match op
    case Use(_, allowChange) => allowChange
    case ChangePassword(_, _, _) => true
    case _ => false
  }

  ghost function FirstSegment(d: Db, op: Op, session: Option<Session>): First {
    match op
    case Bootstrap(username, password) => BootstrapFirst(d, username, password)
    case Login(username, password) => LoginFirst(d, username, password)
    case Unlock(password) => UnlockFirst(d, password)
    case _ =>
      if session.None? then Refused(SessionRequired)
      else match ContextOf(d, session.value, AllowsChange(op))
        case Err(error) => Refused(error)
        case Ok(actor) => AuthorisedFirst(d, op, actor)
  }

  // ----- Key derivation, outside any transaction ------------------------------

  predicate DrawsSalt(plan: Plan) {
    plan.NewVault? || plan.Rekey? || plan.Provision? || plan.Replace?
  }

  function OpenMaterial(password: string, material: KeyMaterial): Result<RawKey, Reject> {
    match UnlockKeyMaterial(password, material)
    case Opened(key) => Ok(key)
    case WrongPassword => Err(BadCredentials)
    case DecryptionFailed => Err(InvalidRequest)
  }

  /** `salt` and `raw` are the random salt and vault key drawn here. */
  function DeriveKeys(plan: Plan, salt: Salt, raw: RawKey): Result<Ready, Reject> {
    match plan
    case NewVault(_, password) => Ok(Ready(plan, raw, SealKeyMaterial(password, raw, salt)))
    case AdoptVault(_, password, observed) =>
      (match OpenMaterial(password, observed)
       case Err(e) => Err(e)
       case Ok(key) => Ok(Ready(plan, key, observed)))
    case SignIn(_, password, observed) =>
      (match OpenMaterial(password, observed)
       case Err(e) => Err(e)
       case Ok(key) => Ok(Ready(plan, key, observed)))
    case NoSuchUser => Err(BadCredentials)
    case Rekey(actor, observed, current, next, _) =>
      (match OpenMaterial(current, observed)
       case Err(e) => Err(e)
       case Ok(unlocked) =>
         if KeyCheck(unlocked) != KeyCheck(actor.key) then Err(Forbidden)
         else if next == current then Err(InvalidRequest)
         else Ok(Ready(plan, actor.key, SealKeyMaterial(next, actor.key, salt))))
    case Confirm(actor, observed, current) =>
      (match OpenMaterial(current, observed)
       case Err(e) => Err(e)
       case Ok(unlocked) =>
         if KeyCheck(unlocked) != KeyCheck(actor.key) then Err(Forbidden) else Ok(Ready(plan, actor.key, observed)))
    case Provision(actor, _, _, credential) => Ok(Ready(plan, actor.key, SealKeyMaterial(credential, actor.key, salt)))
    case Replace(actor, _, credential, _) => Ok(Ready(plan, actor.key, SealKeyMaterial(credential, actor.key, salt)))
  }

  // ----- Second transaction ---------------------------------------------------

  function FirstAdmin(username: string, material: KeyMaterial): User {
    User(username, Admin, true, false, None, None, material)
  }

  /** The first account, the vault row it owns, its claim on ownerless entries,
      and its session. */
  function Founding(d: Db, username: string, password: string, material: KeyMaterial, key: RawKey, drawn: bool): Write {
    var id := d.nextUser;
    Write(Db(d.users[id := FirstAdmin(username, material)], id + 1, Some(VaultRow(Some(id), material, true)),
             if d.orphans then d.holders + {id} else d.holders, false),
          Some(Issue(id, password, material, drawn)), Some(Session(id, material, key)), NoHook)
  }

  /** The administrator is checked again: it may have changed meanwhile. */
  predicate StillAdmin(d: Db, actor: Actor) {
    && actor.user in d.users
    && ActiveAdmin(d.users[actor.user])
    && d.vault.Some?
    && KeyMatches(actor.key, d.vault.value.material)
  }

  /** The last check of `change_password` and `verify_current_password`. */
  predicate StillOwn(d: Db, actor: Actor, observed: KeyMaterial) {
    && actor.user in d.users
    && d.users[actor.user].active
    && d.users[actor.user].material == observed
    && CanonicalMaterial(d).Some?
    && KeyMatches(actor.key, CanonicalMaterial(d).value)
  }

  /** The rows after `user` got a new key record: the vault row of its owner
      account is kept equal to it. */
  function WithMaterial(d: Db, id: UserId, user: User): Db
    requires d.vault.Some?
  {
    var vault := if d.vault.value.owner == Some(id) then d.vault.value.(material := user.material) else d.vault.value;
    d.(users := d.users[id := user], vault := Some(vault))
  }

  function SignInSecond(d: Db, user: UserId, observed: KeyMaterial, key: RawKey): Result<Write, Reject> {
    if d.vault.None? then Err(InvalidRequest)
    else match CanonicalMaterial(d)
      case None => Err(InvalidRequest)
      case Some(canonical) =>
        if user !in d.users || !d.users[user].active || d.users[user].role == Service
           || d.users[user].material != observed then Err(BadCredentials)
        else if !KeyMatches(key, canonical) then Err(InvalidRequest)
        else Ok(Write(d.(vault := Some(d.vault.value.(linksReady := true))), None, Some(Session(user, observed, key)),
            NoHook))
  }

  function SecondSegment(d: Db, ready: Ready): Result<Write, Reject> {
    match ready.plan
    case NewVault(username, password) =>
      if d.users != map[] || d.vault.Some? then Err(Forbidden)
      else Ok(Founding(d, username, password, ready.material, ready.key, true))
    case AdoptVault(username, password, observed) =>
      if d.users != map[] || d.vault.None? || d.vault.value.material != observed then Err(Forbidden)
      else Ok(Founding(d, username, password, observed, ready.key, false))
    case SignIn(user, _, observed) => SignInSecond(d, user, observed, ready.key)
    case NoSuchUser => Err(BadCredentials)
    case Rekey(actor, observed, _, next, openSession) =>
      if !StillOwn(d, actor, observed) then Err(SessionRequired)
      else
        var user := d.users[actor.user].(material := ready.material, mustChange := false);
        Ok(Write(WithMaterial(d, actor.user, user), Some(Issue(actor.user, next, ready.material, true)),
                 if openSession then Some(Session(actor.user, ready.material, actor.key)) else None,
                 if openSession then RevokeOthers(actor.user) else RevokeUser(actor.user)))
    case Confirm(actor, observed, _) =>
      if !StillOwn(d, actor, observed) then Err(SessionRequired) else Ok(Nothing(d))
    case Provision(actor, username, role, credential) =>
      if !StillAdmin(d, actor) then Err(Forbidden)
      else if NameTaken(d, username) then Err(InvalidRequest)
      else
        var service := role == Service;
        var user := User(username, role, true, !service, if service then Some(actor.user) else None,
                         if service then Some(credential) else None, ready.material);
        Ok(Write(d.(users := d.users[d.nextUser := user], nextUser := d.nextUser + 1),
                 Some(Issue(d.nextUser, credential, ready.material, true)), None, NoHook))
    case Replace(actor, target, credential, service) =>
      if !StillAdmin(d, actor) || target !in d.users || (d.users[target].role == Service) != service then Err(Forbidden)
      else if service then
        var user := d.users[target].(material := ready.material, tokenHash := Some(credential));
        Ok(Write(d.(users := d.users[target := user]), Some(Issue(target, credential, ready.material, true)), None,
            NoHook))
      else
        var user := d.users[target].(material := ready.material, mustChange := true);
        Ok(Write(WithMaterial(d, target, user), Some(Issue(target, credential, ready.material, true)), None,
            RevokeUser(target)))
  }

  // ----- What every segment keeps ---------------------------------------------

  predicate UniqueNames(users: map<UserId, User>) {
    forall u, v :: u in users && v in users && users[u].username == users[v].username ==> u == v
  }

  predicate HasActiveAdmin(users: map<UserId, User>) {
    exists a :: a in users && ActiveAdmin(users[a])
  }

  /** The vault row mirrors the key record of the account that owns it. */
  predicate MirrorsOwner(users: map<UserId, User>, row: VaultRow) {
    && (row.owner.None? <==> users == map[])
    && (row.owner.Some? ==>
          && row.owner.value in users
          && Human(users[row.owner.value])
          && users[row.owner.value].material == row.material)
  }

  /** Every account's key record opens, and to the one vault key. */
  ghost predicate OneVaultKey(users: map<UserId, User>, key: RawKey) {
    forall u :: u in users ==> WellSealed(users[u].material) && KeyOf(users[u].material) == key
  }

  ghost predicate Sound(d: Db) {
    && (forall u :: u in d.users ==> u < d.nextUser)
    && UniqueNames(d.users)
    && (d.users != map[] ==> d.vault.Some? && HasActiveAdmin(d.users))
    && (d.vault.Some? ==>
          && WellSealed(d.vault.value.material)
          && MirrorsOwner(d.users, d.vault.value)
          && OneVaultKey(d.users, KeyOf(d.vault.value.material)))
  }

  /** Where the key records of the new rows come from: unchanged, or the one
      issued. The vault key never changes. */
  ghost predicate Evolves(d: Db, w: Write) {
    && d.nextUser <= w.db.nextUser
    && (forall u <- w.db.users ::
          || (u in d.users && w.db.users[u].material == d.users[u].material
              && !(w.issue.Some? && w.issue.value.user == u))
          || (w.issue.Some? && w.issue.value.user == u && w.db.users[u].material == w.issue.value.material
              && (u in d.users || u == d.nextUser)))
    && (d.vault.Some? ==> w.db.vault.Some? && KeyOf(w.db.vault.value.material) == KeyOf(d.vault.value.material))
    && (w.db.vault.Some? && !(d.vault.Some? && w.db.vault.value.material == d.vault.value.material) ==>
          w.issue.Some? && w.db.vault.value.material == w.issue.value.material)
    && (w.issue.Some? ==>
          var i := w.issue.value;
          && i.user in w.db.users
          && w.db.vault.Some?
          && UnlockKeyMaterial(i.password, i.material) == Opened(KeyOf(w.db.vault.value.material))
          && (!i.drawn ==> d.users == map[] && d.vault.Some? && i.material == d.vault.value.material))
    && (d.users != map[] ==> w.db.users != map[])
    && (w.open.Some? ==> KeyOf(w.open.value.fingerprint) == w.open.value.key)
  }

  predicate Founds(w: Write, d: Db) { d.users == map[] && w.db.users != map[] }

  ghost predicate ReadyOk(ready: Ready) {
    match ready.plan
    case NewVault(_, password) => UnlockKeyMaterial(password, ready.material) == Opened(ready.key)
    case AdoptVault(_, password, observed) =>
      ready.material == observed && UnlockKeyMaterial(password, observed) == Opened(ready.key)
    case SignIn(_, password, observed) =>
      ready.material == observed && UnlockKeyMaterial(password, observed) == Opened(ready.key)
    case NoSuchUser => true
    case Rekey(actor, _, _, next, _) =>
      ready.key == actor.key && UnlockKeyMaterial(next, ready.material) == Opened(ready.key)
    case Confirm(actor, observed, current) =>
      ready.material == observed && UnlockKeyMaterial(current, observed) == Opened(actor.key)
    case Provision(actor, _, _, credential) =>
      ready.key == actor.key && UnlockKeyMaterial(credential, ready.material) == Opened(ready.key)
    case Replace(actor, _, credential, _) =>
      ready.key == actor.key && UnlockKeyMaterial(credential, ready.material) == Opened(ready.key)
  }

  lemma DerivedIsReady(plan: Plan, salt: Salt, raw: RawKey)
    requires DeriveKeys(plan, salt, raw).Ok?
    ensures ReadyOk(DeriveKeys(plan, salt, raw).value)
    ensures DrawsSalt(plan) ==> DeriveKeys(plan, salt, raw).value.material.salt == salt
    ensures DeriveKeys(plan, salt, raw).value.plan == plan
  {
  }

  lemma SealedKeyCheck(d: Db, key: RawKey)
    requires Sound(d) && d.vault.Some? && KeyMatches(key, d.vault.value.material)
    ensures key == KeyOf(d.vault.value.material)
  {
  }

  /** Changing the role or the flags of one row. */
  lemma EditKeeps(d: Db, id: UserId, user: User)
    requires Sound(d) && id in d.users
    requires user.username == d.users[id].username && user.material == d.users[id].material
    requires Human(user) == Human(d.users[id])
    requires HasActiveAdmin(d.users[id := user])
    ensures Sound(d.(users := d.users[id := user]))
  {
  }

  lemma DeleteKeeps(d: Db, actor: Actor, target: UserId)
    requires Sound(d) && target in d.users && actor.user in d.users && ActiveAdmin(d.users[actor.user])
    requires DeleteUserWrite(d, actor, target).Finished?
    ensures Sound(d.(users := d.users - {target})) && d.users - {target} != map[]
  {
    assert actor.user in d.users - {target};
  }

  lemma UpdateKeeps(d: Db, target: UserId, newRole: Option<Role>, newActive: Option<bool>)
    requires Sound(d) && target in d.users
    requires UpdateUserWrite(d, target, newRole, newActive).Finished?
    ensures Sound(UpdateUserWrite(d, target, newRole, newActive).write.db)
  {
    var users := UpdateUserWrite(d, target, newRole, newActive).write.db.users;
    var a :| a in d.users && ActiveAdmin(d.users[a]);
    if OtherActiveAdmin(d, target) {
      var other :| other in d.users && other != target && ActiveAdmin(d.users[other]);
      assert other in users && ActiveAdmin(users[other]);
    } else {
      assert a in users && ActiveAdmin(users[a]);
    }
    EditKeeps(d, target, users[target]);
  }

  /** A new key record for one account, mirrored in the vault row it owns. */
  lemma RekeyKeeps(d: Db, id: UserId, user: User, password: string)
    requires Sound(d) && d.vault.Some? && id in d.users
    requires UnlockKeyMaterial(password, user.material) == Opened(KeyOf(d.vault.value.material))
    requires user.username == d.users[id].username && user.role == d.users[id].role && user.active == d.users[id].active
    ensures Sound(WithMaterial(d, id, user))
    ensures KeyOf(WithMaterial(d, id, user).vault.value.material) == KeyOf(d.vault.value.material)
  {
    var a :| a in d.users && ActiveAdmin(d.users[a]);
    assert a in d.users[id := user] && ActiveAdmin(d.users[id := user][a]);
    assert WellSealed(user.material);
  }

  lemma AddKeeps(d: Db, user: User, password: string)
    requires Sound(d) && d.vault.Some? && d.users != map[]
    requires !NameTaken(d, user.username)
    requires UnlockKeyMaterial(password, user.material) == Opened(KeyOf(d.vault.value.material))
    ensures Sound(d.(users := d.users[d.nextUser := user], nextUser := d.nextUser + 1))
  {
    var a :| a in d.users && ActiveAdmin(d.users[a]);
    var users := d.users[d.nextUser := user];
    assert a in users && ActiveAdmin(users[a]);
    assert WellSealed(user.material);
  }

  lemma FoundingKeeps(d: Db, username: string, password: string, material: KeyMaterial, key: RawKey, drawn: bool)
    requires Sound(d) && d.users == map[]
    requires UnlockKeyMaterial(password, material) == Opened(key)
    requires d.vault.Some? ==> !drawn && material == d.vault.value.material
    requires d.vault.None? ==> drawn
    ensures Sound(Founding(d, username, password, material, key, drawn).db)
    ensures Evolves(d, Founding(d, username, password, material, key, drawn))
  {
    var w := Founding(d, username, password, material, key, drawn);
    assert d.nextUser in w.db.users && ActiveAdmin(w.db.users[d.nextUser]);
    assert WellSealed(material);
  }

  ghost predicate Keeps(d: Db, w: Write) { Sound(w.db) && Evolves(d, w) }

  lemma RequireChangeKeeps(d: Db, target: UserId)
    requires Sound(d) && target in d.users
    ensures Sound(d.(users := d.users[target := d.users[target].(mustChange := true)]))
  {
    var a :| a in d.users && ActiveAdmin(d.users[a]);
    var user := d.users[target].(mustChange := true);
    assert a in d.users[target := user] && ActiveAdmin(d.users[target := user][a]);
    EditKeeps(d, target, user);
  }

  lemma AuthorisedFirstKeeps(d: Db, op: Op, actor: Actor)
    requires Sound(d) && actor.user in d.users && AuthorisedFirst(d, op, actor).Finished?
    ensures var w := AuthorisedFirst(d, op, actor).write;
            Keeps(d, w) && w.issue.None? && w.open.None?
  {
    var w := AuthorisedFirst(d, op, actor).write;
    match op
    case UpdateUser(target, newRole, newActive) => UpdateKeeps(d, target, newRole, newActive);
    case RequireChange(target) => RequireChangeKeeps(d, target);
    case DeleteUser(target) => DeleteKeeps(d, actor, target);
    case _ =>
  }

  lemma FirstSegmentKeeps(d: Db, op: Op, session: Option<Session>)
    requires Sound(d) && FirstSegment(d, op, session).Finished?
    ensures var w := FirstSegment(d, op, session).write;
            Keeps(d, w) && w.issue.None? && w.open.None?
  {
    var actor := ContextOf(d, session.value, AllowsChange(op)).value;
    AuthorisedFirstKeeps(d, op, actor);
  }

  lemma RekeySegmentKeeps(d: Db, ready: Ready)
    requires Sound(d) && ReadyOk(ready) && ready.plan.Rekey? && SecondSegment(d, ready).Ok?
    ensures Keeps(d, SecondSegment(d, ready).value)
  {
    var actor := ready.plan.actor;
    SealedKeyCheck(d, actor.key);
    var user := d.users[actor.user].(material := ready.material, mustChange := false);
    RekeyKeeps(d, actor.user, user, ready.plan.next);
    assert SecondSegment(d, ready).value.db == WithMaterial(d, actor.user, user);
  }

  lemma ProvisionSegmentKeeps(d: Db, ready: Ready)
    requires Sound(d) && ReadyOk(ready) && ready.plan.Provision? && SecondSegment(d, ready).Ok?
    ensures Keeps(d, SecondSegment(d, ready).value)
  {
    SealedKeyCheck(d, ready.plan.actor.key);
    AddKeeps(d, SecondSegment(d, ready).value.db.users[d.nextUser], ready.plan.credential);
  }

  lemma ReplaceSegmentKeeps(d: Db, ready: Ready)
    requires Sound(d) && ReadyOk(ready) && ready.plan.Replace? && SecondSegment(d, ready).Ok?
    ensures Keeps(d, SecondSegment(d, ready).value)
  {
    SealedKeyCheck(d, ready.plan.actor.key);
    var target := ready.plan.target;
    var w := SecondSegment(d, ready).value;
    RekeyKeeps(d, target, w.db.users[target], ready.plan.credential);
    assert w.db == WithMaterial(d, target, w.db.users[target]);
  }

  lemma SignInSegmentKeeps(d: Db, user: UserId, observed: KeyMaterial, key: RawKey)
    requires Sound(d) && KeyOf(observed) == key && SignInSecond(d, user, observed, key).Ok?
    ensures Keeps(d, SignInSecond(d, user, observed, key).value)
  {
  }

  lemma SecondSegmentKeeps(d: Db, ready: Ready)
    requires Sound(d) && ReadyOk(ready) && SecondSegment(d, ready).Ok?
    ensures Keeps(d, SecondSegment(d, ready).value)
  {
    match ready.plan
    case NewVault(username, password) => FoundingKeeps(d, username, password, ready.material, ready.key, true);
    case AdoptVault(username, password, observed) => FoundingKeeps(d, username, password, observed, ready.key, false);
    case Rekey(_, _, _, _, _) => RekeySegmentKeeps(d, ready);
    case Provision(_, _, _, _) => ProvisionSegmentKeeps(d, ready);
    case Replace(_, _, _, _) => ReplaceSegmentKeeps(d, ready);
    case SignIn(user, _, observed) => SignInSegmentKeeps(d, user, observed, ready.key);
    case Confirm(_, _, _) =>
    case NoSuchUser =>
  }

  lemma IssuesFreshly(d: Db, ready: Ready)
    requires SecondSegment(d, ready).Ok?
    ensures var w := SecondSegment(d, ready).value;
            w.issue.Some? && w.issue.value.drawn ==> DrawsSalt(ready.plan) && w.issue.value.material == ready.material
    ensures Founds(SecondSegment(d, ready).value, d) ==> ready.plan.NewVault? || ready.plan.AdoptVault?
  {
  }
}
