/**
The writing half of the account requests as they run: rows overwritten in
place, one statement after another, inside the transaction that holds the write
lock (backend/crud/auth.py). Each method leaves the rows, the session to open
and the hook that the corresponding segment of `Accounts` says.
*/
module AccountStore {
  import opened Wrappers
  import opened KeyMaterials
  import opened Accounts

  /** What a successful write segment hands back: the session it opens before
      the commit, and its hook. */
  datatype Outcome = Outcome(open: Option<Session>, hook: Hook)

  class AccountTables {
    var users: map<UserId, User>
    var nextUser: UserId
    var vault: Option<VaultRow>
    var holders: set<UserId>
    var orphans: bool

    function Rows(): Db
      reads this
    {
      Db(users, nextUser, vault, holders, orphans)
    }

    /** The rows and the outcome are those of `expected`, or nothing changed. */
    predicate Follows(before: Db, expected: Result<Write, Reject>, actual: Result<Outcome, Reject>)
      reads this
    {
      match expected
      case Err(error) => actual == Err(error) && Rows() == before
      case Ok(write) => actual == Ok(Outcome(write.open, write.hook)) && Rows() == write.db
    }

    constructor (d: Db)
      ensures Rows() == d
    {
      users, nextUser, vault, holders, orphans := d.users, d.nextUser, d.vault, d.holders, d.orphans;
    }

    method StoreUserMaterial(id: UserId, material: KeyMaterial)
      requires id in users
      modifies this`users
      ensures users == old(users)[id := old(users)[id].(material := material)]
    {
      users := users[id := users[id].(material := material)];
    }

    method StoreVaultMaterial(material: KeyMaterial)
      requires vault.Some?
      modifies this`vault
      ensures vault == Some(old(vault).value.(material := material))
    {
      vault := Some(vault.value.(material := material));
    }

    method AddFirstAdmin(username: string, material: KeyMaterial) returns (id: UserId)
      requires users == map[]
      modifies this`users, this`nextUser
      ensures id == old(nextUser) && nextUser == id + 1
      ensures users == map[id := FirstAdmin(username, material)]
    {
      id := nextUser;
      users := users[id := FirstAdmin(username, material)];
      nextUser := nextUser + 1;
    }

    /** The second transaction of `bootstrap`, for a vault without and with a
        key record of its own. */
    method Bootstrap(ready: Ready) returns (r: Result<Outcome, Reject>)
      requires ready.plan.NewVault? || ready.plan.AdoptVault?
      modifies this
      ensures Follows(old(Rows()), SecondSegment(old(Rows()), ready), r)
    {
      if users != map[] { return Err(Forbidden); }
      var id: UserId;
      var material := ready.material;
      if ready.plan.NewVault? {
        if vault.Some? { return Err(Forbidden); }
        id := AddFirstAdmin(ready.plan.username, material);
        vault := Some(VaultRow(Some(id), material, false));
      } else {
        if vault.None? || vault.value.material != ready.plan.observed { return Err(Forbidden); }
        material := ready.plan.observed;
        id := AddFirstAdmin(ready.plan.username, material);
        vault := Some(vault.value.(owner := Some(id)));
      }
      if orphans {
        holders := holders + {id};
        orphans := false;
      }
      vault := Some(vault.value.(linksReady := true));
      r := Ok(Outcome(Some(Session(id, material, ready.key)), NoHook));
    }

    /** The second transaction of `login`. */
    method Login(ready: Ready) returns (r: Result<Outcome, Reject>)
      requires ready.plan.SignIn?
      modifies this
      ensures Follows(old(Rows()), SecondSegment(old(Rows()), ready), r)
    {
      var id := ready.plan.user;
      if vault.None? { return Err(InvalidRequest); }
      var canonical := CanonicalMaterial(Rows());
      if canonical.None? { return Err(InvalidRequest); }
      if id !in users || !users[id].active || users[id].role == Service || users[id].material != ready.plan.observed {
        return Err(BadCredentials);
      }
      if !KeyMatches(ready.key, canonical.value) { return Err(InvalidRequest); }
      vault := Some(vault.value.(linksReady := true));
      r := Ok(Outcome(Some(Session(id, users[id].material, ready.key)), NoHook));
    }

    /** The second transaction of `change_password`. */
    method ChangePassword(ready: Ready) returns (r: Result<Outcome, Reject>)
      requires ready.plan.Rekey?
      modifies this
      ensures Follows(old(Rows()), SecondSegment(old(Rows()), ready), r)
    {
      var id := ready.plan.actor.user;
      if !StillOwn(Rows(), ready.plan.actor, ready.plan.observed) { return Err(SessionRequired); }
      StoreUserMaterial(id, ready.material);
      users := users[id := users[id].(mustChange := false)];
      if vault.value.owner == Some(id) { StoreVaultMaterial(ready.material); }
      if ready.plan.openSession {
        r := Ok(Outcome(Some(Session(id, users[id].material, ready.plan.actor.key)), RevokeOthers(id)));
      } else {
        r := Ok(Outcome(None, RevokeUser(id)));
      }
    }

    /** The second transaction of `create_user`. */
    method CreateUser(ready: Ready) returns (r: Result<Outcome, Reject>)
      requires ready.plan.Provision?
      modifies this
      ensures Follows(old(Rows()), SecondSegment(old(Rows()), ready), r)
    {
      var actor := ready.plan.actor;
      if !StillAdmin(Rows(), actor) { return Err(Forbidden); }
      if exists u :: u in users && users[u].username == ready.plan.username { return Err(InvalidRequest); }
      var service := ready.plan.role == Service;
      users := users[nextUser := User(ready.plan.username, ready.plan.role, true, !service,
                                      if service then Some(actor.user) else None,
                                      if service then Some(ready.plan.credential) else None, ready.material)];
      nextUser := nextUser + 1;
      r := Ok(Outcome(None, NoHook));
    }

    /** The second transactions of `rotate_service_token` and `reset_password`. */
    method ReplaceCredential(ready: Ready) returns (r: Result<Outcome, Reject>)
      requires ready.plan.Replace?
      modifies this
      ensures Follows(old(Rows()), SecondSegment(old(Rows()), ready), r)
    {
      var target := ready.plan.target;
      if !StillAdmin(Rows(), ready.plan.actor) || target !in users
         || (users[target].role == Service) != ready.plan.service {
        return Err(Forbidden);
      }
      StoreUserMaterial(target, ready.material);
      if ready.plan.service {
        users := users[target := users[target].(tokenHash := Some(ready.plan.credential))];
        return Ok(Outcome(None, NoHook));
      }
      users := users[target := users[target].(mustChange := true)];
      if vault.value.owner == Some(target) { StoreVaultMaterial(ready.material); }
      r := Ok(Outcome(None, RevokeUser(target)));
    }

    ghost function FirstAsWrite(first: First): Result<Write, Reject>
      requires !first.Continue?
    {
      match first
      case Refused(error) => Err(error)
      case Finished(write) => Ok(write)
    }

    /** `update_user`, after the session was accepted. */
    method UpdateUser(actor: Actor, target: UserId, newRole: Option<Role>, newActive: Option<bool>)
      returns (r: Result<Outcome, Reject>)
      requires actor.user in users
      modifies this
      ensures Follows(old(Rows()),
                FirstAsWrite(AuthorisedFirst(old(Rows()), Op.UpdateUser(target, newRole, newActive), actor)), r)
    {
      if !ActiveAdmin(users[actor.user]) { return Err(Forbidden); }
      if target !in users { return Err(NotFound); }
      var user := users[target];
      var nextRole := if newRole.Some? then newRole.value else user.role;
      if (user.role == Service) != (nextRole == Service) { return Err(Forbidden); }
      var removesAdmin := user.active && user.role == Admin && (newActive == Some(false) || nextRole != Admin);
      if removesAdmin {
        var others := set u | u in users && u != target && ActiveAdmin(users[u]);
        assert forall u :: u in users && u != target && ActiveAdmin(users[u]) ==> u in others;
        if others == {} { return Err(Forbidden); }
      }
      if newRole.Some? { user := user.(role := newRole.value); }
      if newActive.Some? { user := user.(active := newActive.value); }
      users := users[target := user];
      r := Ok(Outcome(None, if newRole.Some? || newActive == Some(false) then RevokeUser(target) else NoHook));
    }

    /** `delete_user`, after the session was accepted. */
    method DeleteUser(actor: Actor, target: UserId) returns (r: Result<Outcome, Reject>)
      requires actor.user in users
      modifies this
      ensures Follows(old(Rows()), FirstAsWrite(AuthorisedFirst(old(Rows()), Op.DeleteUser(target), actor)), r)
    {
      if !ActiveAdmin(users[actor.user]) { return Err(Forbidden); }
      if target !in users { return Err(NotFound); }
      if target == actor.user { return Err(Forbidden); }
      if vault.Some? && vault.value.owner == Some(target) { return Err(Forbidden); }
      if target in holders { return Err(Forbidden); }
      if exists u :: u in users && users[u].serviceOwner == Some(target) { return Err(Forbidden); }
      users := users - {target};
      r := Ok(Outcome(None, RevokeUser(target)));
    }
  }
}
