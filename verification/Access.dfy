/**
Who may see and change an entry or a folder (backend/crud/access.py,
backend/crud/folder.py). The same question is answered by four computations
written apart: one entry's permission, the list of its sources, the list of
visible entries, and the folder report; here they are proved to agree.
*/
module Access {
  import opened Wrappers
  import opened VaultTables

  datatype Level = CanRead | CanWrite | Owns

  datatype SourceKind = OwnEntry | DirectShare | OwnFolder | FolderShare | GroupShare

  datatype Source = Source(kind: SourceKind, id: nat, permission: Permission, expires: Option<Time>, expired: bool)

  /** `grant_active`, and the comparison the queries make. */
  predicate Unexpired(expires: Option<Time>, now: Time) { expires.None? || expires.value > now }

  function Strongest(permissions: set<Permission>): Option<Permission> {
    if Write in permissions then Some(Write) else if Read in permissions then Some(Read) else None
  }

  function LevelOf(p: Option<Permission>): Option<Level> {
    if p.None? then None else Some(if p.value == Write then CanWrite else CanRead)
  }

  // ----- One folder, one entry --------------------------------------------------------

  function DirectOn<K(==)>(grants: map<K, Grant>, key: K, now: Time): set<Permission> {
    if key in grants && Unexpired(grants[key].expires, now) then {grants[key].permission} else {}
  }

  function GroupsOn(grants: map<(FolderId, GroupId), Grant>, members: set<(GroupId, UserId)>, folder: FolderId,
          user: UserId, now: Time): set<Permission> {
    set k |
      k in grants && k.0 == folder && (k.1, user) in members && Unexpired(grants[k].expires, now) ::
      grants[k].permission
  }

  function FolderShares(g: Grants, folder: FolderId, user: UserId, now: Time): set<Permission> {
    DirectOn(g.folderUsers, (folder, user), now) + GroupsOn(g.folderGroups, g.members, folder, user, now)
  }

  /** `FolderCRUD.permission_for`. */
  function FolderPermission(t: Tables, folder: FolderId, user: UserId, now: Time): Option<Level>
    requires folder in t.folders
  {
    if t.folders[folder].owner == user then Some(Owns)
    else LevelOf(Strongest(FolderShares(t.grants, folder, user, now)))
  }

  /** `EntryACL.permission`; None where it raises NotFound. */
  function EntryPermission(t: Tables, entry: EntryId, user: UserId, now: Time): Option<Level> {
    if entry !in t.entries then None
    else
      var e := t.entries[entry];
      if e.owner == Some(user) then Some(Owns)
      else
        var direct := DirectOn(t.grants.entryUsers, (entry, user), now);
        if e.link.None? then LevelOf(Strongest(direct))
        else
          var f := e.link.value;
          if f in t.folders && t.folders[f].owner == user then Some(Owns)
          else LevelOf(Strongest(direct + FolderShares(t.grants, f, user, now)))
  }

  /** `EntryACL.require`. */
  function Require(t: Tables, entry: EntryId, user: UserId, now: Time, needed: Level): Result<Level, Error> {
    match EntryPermission(t, entry, user, now)
    case None => Err(NotFound)
    case Some(level) =>
      if needed == Owns && level != Owns then Err(Forbidden)
      else if needed == CanWrite && level == CanRead then Err(Forbidden)
      else Ok(level)
  }

  // ----- The lists -----------------------------------------------------------------------

  function Shown<K(==)>(grants: map<K, Grant>, key: K, kind: SourceKind, id: nat, now: Time): set<Source> {
    if key in grants
    then {Source(kind, id, grants[key].permission, grants[key].expires, !Unexpired(grants[key].expires, now))} else {}
  }

  /** The rows a join over grants, memberships and groups returns. */
  function GroupSources(g: Grants, folder: FolderId, user: UserId, now: Time): set<Source> {
    set k | k in g.folderGroups && k.0 == folder && (k.1, user) in g.members && k.1 in g.groups
      :: Source(GroupShare, k.1, g.folderGroups[k].permission, g.folderGroups[k].expires,
                !Unexpired(g.folderGroups[k].expires, now))
  }

  /** `EntryACL.sources`. */
  function Sources(t: Tables, entry: EntryId, user: UserId, now: Time): set<Source>
    requires entry in t.entries
  {
    var e := t.entries[entry];
    if e.owner == Some(user) then {Source(OwnEntry, user, Write, None, false)}
    else
      var direct := Shown(t.grants.entryUsers, (entry, user), DirectShare, entry, now);
      if e.link.None? || e.link.value !in t.folders then direct
      else
        var f := e.link.value;
        direct
        + (if t.folders[f].owner == user then {Source(OwnFolder, f, Write, None, false)} else {})
        + Shown(t.grants.folderUsers, (f, user), FolderShare, f, now)
        + GroupSources(t.grants, f, user, now)
  }

  predicate Visible(t: Tables, id: EntryId, user: UserId, now: Time)
    requires id in t.entries
  {
    var e := t.entries[id];
    || e.owner == Some(user)
    || ((id, user) in t.grants.entryUsers && Unexpired(t.grants.entryUsers[(id, user)].expires, now))
    || (e.link.Some? && e.link.value in t.folders && t.folders[e.link.value].owner == user)
    || (e.link.Some? && (e.link.value, user) in t.grants.folderUsers
        && Unexpired(t.grants.folderUsers[(e.link.value, user)].expires, now))
    || (e.link.Some? && exists k :: k in t.grants.folderGroups && k.0 == e.link.value && (k.1, user) in t.grants.members
                                    && Unexpired(t.grants.folderGroups[k].expires, now))
  }

  /** `EntryACL.visible_ids`. */
  function VisibleIds(t: Tables, user: UserId, now: Time, deleted: bool): set<EntryId> {
    set id | id in t.entries && t.entries[id].deleted.Some? == deleted && Visible(t, id, user, now)
  }

  /** One line of `FolderCRUD.user_access`. */
  datatype FolderAccess = FolderAccess(direct: Option<Grant>, effective: Option<Permission>, sources: set<Source>)

  function UserAccess(t: Tables, folder: FolderId, user: UserId, now: Time): FolderAccess
    requires folder in t.folders
  {
    var key := (folder, user);
    var sources := (if t.folders[folder].owner == user then {Source(OwnFolder, user, Write, None, false)} else {})
                 + Shown(t.grants.folderUsers, key, FolderShare, user, now)
                 + GroupSources(t.grants, folder, user, now);
    var active := set s | s in sources && Unexpired(s.expires, now) :: s.permission;
    FolderAccess(if key in t.grants.folderUsers then Some(t.grants.folderUsers[key]) else None,
                 if t.folders[folder].owner == user then Some(Write) else Strongest(active), sources)
  }

  /** `EntryACL.relinquish`: the level that is left. */
  function Relinquish(t: Tables, entry: EntryId, user: UserId, now: Time): Result<(Tables, Option<Level>), Error> {
    match EntryPermission(t, entry, user, now)
    case None => Err(NotFound)
    case Some(level) =>
      if level == Owns then Err(Forbidden)
      else if (entry, user) !in t.grants.entryUsers then Err(InvalidRequest)
      else
        var t' := t.(grants := t.grants.(entryUsers := t.grants.entryUsers - {(entry, user)}));
        Ok((t', EntryPermission(t', entry, user, now)))
  }

  // ----- They agree ------------------------------------------------------------------------

  function Standing(sources: set<Source>): set<Permission> {
    set s | s in sources && !s.expired :: s.permission
  }

  predicate Owning(sources: set<Source>) { exists s :: s in sources && (s.kind == OwnEntry || s.kind == OwnFolder) }

  lemma ShownStands<K>(grants: map<K, Grant>, key: K, kind: SourceKind, id: nat, now: Time)
    ensures Standing(Shown(grants, key, kind, id, now)) == DirectOn(grants, key, now)
  {
  }

  lemma GroupsStand(g: Grants, folder: FolderId, user: UserId, now: Time)
    requires forall m :: m in g.members ==> m.0 in g.groups
    ensures Standing(GroupSources(g, folder, user, now)) == GroupsOn(g.folderGroups, g.members, folder, user, now)
  {
    var sources := GroupSources(g, folder, user, now);
    forall p | p in GroupsOn(g.folderGroups, g.members, folder, user, now) ensures p in Standing(sources) {
      var k :| k in g.folderGroups && k.0 == folder && (k.1, user) in g.members
               && Unexpired(g.folderGroups[k].expires, now) && g.folderGroups[k].permission == p;
      assert Source(GroupShare, k.1, p, g.folderGroups[k].expires, false) in sources;
    }
  }

  lemma StandingUnion(a: set<Source>, b: set<Source>)
    ensures Standing(a + b) == Standing(a) + Standing(b)
  {
  }

  /** What a folder's two kinds of grant show, and what they give. */
  lemma FolderSharesStand(g: Grants, folder: FolderId, user: UserId, id: nat, now: Time)
    requires forall m :: m in g.members ==> m.0 in g.groups
    ensures var shown :=
              Shown(g.folderUsers, (folder, user), FolderShare, id, now) + GroupSources(g, folder, user, now);
            Standing(shown) == FolderShares(g, folder, user, now) && !Owning(shown)
  {
    ShownStands(g.folderUsers, (folder, user), FolderShare, id, now);
    GroupsStand(g, folder, user, now);
    StandingUnion(Shown(g.folderUsers, (folder, user), FolderShare, id, now), GroupSources(g, folder, user, now));
  }

  /** The permission is the strongest of the unexpired sources the list shows:
      an owner when one of them is ownership, not found when there are none. */
  lemma PermissionIsStrongestSource(t: Tables, entry: EntryId, user: UserId, now: Time)
    requires Valid(t) && entry in t.entries
    ensures var sources := Sources(t, entry, user, now);
            EntryPermission(t, entry, user, now)
            == (if Owning(sources) then Some(Owns) else LevelOf(Strongest(Standing(sources))))
  {
    var e := t.entries[entry];
    var sources := Sources(t, entry, user, now);
    if e.owner == Some(user) {
      assert Source(OwnEntry, user, Write, None, false) in sources;
    } else {
      var direct := Shown(t.grants.entryUsers, (entry, user), DirectShare, entry, now);
      ShownStands(t.grants.entryUsers, (entry, user), DirectShare, entry, now);
      if e.link.Some? {
        var f := e.link.value;
        FolderSharesStand(t.grants, f, user, f, now);
        var shares := Shown(t.grants.folderUsers, (f, user), FolderShare, f, now)
            + GroupSources(t.grants, f, user, now);
        if t.folders[f].owner == user {
          assert Source(OwnFolder, f, Write, None, false) in sources;
        } else {
          assert sources == direct + shares;
          StandingUnion(direct, shares);
        }
      }
    }
  }

  lemma AnyIsStrongest(permissions: set<Permission>)
    ensures Strongest(permissions).Some? <==> permissions != {}
  {
    if p :| p in permissions { assert p == Read || p == Write; }
  }

  lemma AnyGroup(g: Grants, folder: FolderId, user: UserId, now: Time)
    ensures GroupsOn(g.folderGroups, g.members, folder, user, now) != {}
        <==> exists k :: k in g.folderGroups && k.0 == folder && (k.1, user) in g.members
                         && Unexpired(g.folderGroups[k].expires, now)
  {
    if k :|
         k in g.folderGroups && k.0 == folder && (k.1, user) in g.members && Unexpired(g.folderGroups[k].expires, now)
    {
      assert g.folderGroups[k].permission in GroupsOn(g.folderGroups, g.members, folder, user, now);
    }
  }

  /** An entry is listed exactly when its permission is found. */
  lemma VisibleIffPermitted(t: Tables, entry: EntryId, user: UserId, now: Time, deleted: bool)
    requires Valid(t)
    ensures entry in VisibleIds(t, user, now, deleted)
        <==> EntryPermission(t, entry, user, now).Some? && t.entries[entry].deleted.Some? == deleted
  {
    if entry in t.entries {
      var e := t.entries[entry];
      var direct := DirectOn(t.grants.entryUsers, (entry, user), now);
      AnyIsStrongest(direct);
      if e.link.Some? {
        var f := e.link.value;
        AnyGroup(t.grants, f, user, now);
        AnyIsStrongest(direct + FolderShares(t.grants, f, user, now));
      }
    }
  }

  function Rank(level: Level): nat {
    match level case CanRead => 0 case CanWrite => 1 case Owns => 2
  }

  /** An entry is never less accessible than the folder it is in. */
  lemma EntryNotBelowFolder(t: Tables, entry: EntryId, user: UserId, now: Time)
    requires Valid(t) && entry in t.entries && t.entries[entry].link.Some?
    ensures var folder := FolderPermission(t, t.entries[entry].link.value, user, now);
            var level := EntryPermission(t, entry, user, now);
            folder.Some? ==> level.Some? && Rank(level.value) >= Rank(folder.value)
  {
  }

  /** The folder report's effective level is the permission the checks use,
      with ownership shown as write access. */
  lemma ReportIsPermission(t: Tables, folder: FolderId, user: UserId, now: Time)
    requires Valid(t) && folder in t.folders
    ensures var level := FolderPermission(t, folder, user, now);
            var shown := UserAccess(t, folder, user, now).effective;
            && LevelOf(shown) == (if level == Some(Owns) then Some(CanWrite) else level)
            && (shown.None? <==> level.None?)
  {
    var key := (folder, user);
    FolderSharesStand(t.grants, folder, user, user, now);
    if t.folders[folder].owner != user {
      var sources := UserAccess(t, folder, user, now).sources;
      assert sources
             == Shown(t.grants.folderUsers, key, FolderShare, user, now) + GroupSources(t.grants, folder, user, now);
      assert forall s :: s in sources ==> s.expired == !Unexpired(s.expires, now);
      assert (set s | s in sources && Unexpired(s.expires, now) :: s.permission) == Standing(sources);
    }
  }

  // ----- Giving up a share ----------------------------------------------------------------

  /** Giving up a share leaves exactly what the folder gives. */
  lemma RelinquishLeavesFolderAccess(t: Tables, entry: EntryId, user: UserId, now: Time)
    requires Valid(t) && Relinquish(t, entry, user, now).Ok?
    ensures var link := t.entries[entry].link;
            Relinquish(t, entry, user, now).value.1
            == if link.None? then None else FolderPermission(t, link.value, user, now)
  {
    var t' := Relinquish(t, entry, user, now).value.0;
    assert DirectOn(t'.grants.entryUsers, (entry, user), now) == {};
    var link := t.entries[entry].link;
    if link.Some? {
      assert FolderShares(t'.grants, link.value, user, now) == FolderShares(t.grants, link.value, user, now);
      assert {} + FolderShares(t.grants, link.value, user, now) == FolderShares(t.grants, link.value, user, now);
    }
  }

  /** Nobody else's access, and no other access of this user, changes. */
  lemma RelinquishTouchesNoOther(t: Tables, entry: EntryId, user: UserId, now: Time, entry': EntryId, user': UserId)
    requires Relinquish(t, entry, user, now).Ok? && (entry', user') != (entry, user)
    ensures var t' := Relinquish(t, entry, user, now).value.0;
            EntryPermission(t', entry', user', now) == EntryPermission(t, entry', user', now)
  {
    var t' := Relinquish(t, entry, user, now).value.0;
    if entry' in t.entries && t.entries[entry'].link.Some? {
      var f := t.entries[entry'].link.value;
      assert FolderShares(t'.grants, f, user', now) == FolderShares(t.grants, f, user', now);
    }
    assert DirectOn(t'.grants.entryUsers, (entry', user'), now) == DirectOn(t.grants.entryUsers, (entry', user'), now);
  }

  lemma RelinquishKeepsValid(t: Tables, entry: EntryId, user: UserId, now: Time)
    requires Valid(t) && Relinquish(t, entry, user, now).Ok?
    ensures Valid(Relinquish(t, entry, user, now).value.0)
  {
  }
}
