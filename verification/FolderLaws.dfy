/**
What single operations on entries and folders change, and what undoes them
(backend/crud/password.py, backend/crud/access.py, backend/crud/folder.py).
*/
module FolderLaws {
  import opened Wrappers
  import opened VaultTables
  import opened Access
  import opened Folders

  predicate OnlyEntry(t: Tables, t': Tables, id: EntryId) {
    && id in t.entries && id in t'.entries
    && t'.entries == t.entries[id := t'.entries[id]]
    && t'.attachments == t.attachments && t'.grants == t.grants && t'.nextEntry == t.nextEntry
    && forall f :: f in t.folders ==> f in t'.folders && t'.folders[f] == t.folders[f]
  }

  /** The password a new one replaces becomes the first of the history, the
      older ones move on, and at most ten are kept. */
  predicate HistoryKept(before: Document, after: Document, stamp: string) {
    if before.value == after.value || after.kind != Login then after.history == before.history
    else
      && |after.history| > 0 && after.history[0] == HistoryItem(before.value, stamp)
      && after.history[1..] <= before.history
      && (|before.history| < HISTORY_LIMIT ==> after.history[1..] == before.history)
      && (|before.history| >= HISTORY_LIMIT ==> |after.history| == HISTORY_LIMIT)
  }

  /** An update changes the one active entry of that name: to the content asked
      for, under its folder's own name, with the history kept; its owner, its
      times of creation and deletion, and every other row stay. */
  lemma UpdateChangesOneEntry(t: Tables, who: Actor, name: string, draft: Draft, now: Time, stamp: string)
    requires Sound(t) && UpdatePassword(t, who, name, draft, now, stamp).Ok?
    ensures FindActive(t, name).Some?
    ensures var id := FindActive(t, name).value;
            var t' := UpdatePassword(t, who, name, draft, now, stamp).value;
            && OnlyEntry(t, t', id)
            && var e, e' := t.entries[id], t'.entries[id];
            && e' == Entry(e.owner, e'.link, e'.doc, e.created, now, None, false)
            && e'.doc == draft.doc.(folder := e'.doc.folder, history := e'.doc.history)
            && (Names(draft.doc.folder) ==> e'.doc.folder == draft.doc.folder)
            && HistoryKept(e.doc, e'.doc, stamp)
  {
    var id := FindActive(t, name).value;
    var e := t.entries[id];
    var moved := Carried(e, draft);
    FolderForKeeps(t, Some(who.owner), moved, HistoryAfter(e.doc, moved.doc, stamp));
    HistoryIsKept(e.doc, moved.doc, stamp);
    CarriedSame(e, draft, t.folders);
  }

  lemma CarriedSame(e: Entry, draft: Draft, folders: map<FolderId, Folder>)
    requires EntryLinked(e, folders)
    ensures Carried(e, draft).doc == draft.doc
  {
  }

  lemma HistoryIsKept(before: Document, next: Document, stamp: string)
    ensures HistoryKept(before, next.(history := HistoryAfter(before, next, stamp)), stamp)
  {
    var longer := [HistoryItem(before.value, stamp)] + before.history;
    assert longer[1..] == before.history;
    if |longer| > HISTORY_LIMIT { assert longer[..HISTORY_LIMIT][1..] == before.history[..HISTORY_LIMIT - 1]; }
  }

  predicate MayWrite(level: Option<Level>) { level == Some(CanWrite) || level == Some(Owns) }

  /** A new entry belongs to the owner of the folder chosen for it, else to whom
      the request acts for; a service keeps write access to what it files nowhere. */
  lemma CreateAddsOneEntry(t: Tables, who: Actor, draft: Draft, now: Time)
    requires Sound(t) && CreatePassword(t, who, draft, now).Ok?
    ensures !NameActive(t, draft.doc.name)
    ensures var t' := CreatePassword(t, who, draft, now).value;
            var id := t.nextEntry;
            && id !in t.entries && id in t'.entries && t'.entries == t.entries[id := t'.entries[id]]
            && var e := t'.entries[id];
            && Active(e) && e.doc == draft.doc.(folder := e.doc.folder, history := [])
            && (Names(draft.doc.folder) ==> e.doc.folder == draft.doc.folder)
            && (draft.folderId.Some? ==>
                 e.link == draft.folderId && e.owner == Some(t.folders[draft.folderId.value].owner))
            && (draft.folderId.None? ==> e.owner == Some(who.owner))
            && (who.service && e.link.None? ==> MayWrite(EntryPermission(t', id, who.user, now)))
  {
    FolderForKeeps(t, Some(who.owner), draft, []);
  }

  /** Who can write what they create: whoever acts for themselves, chooses a
      folder by its id, or names one that is shared with them for writing; and a
      service that files nowhere. */
  ghost predicate WritesOwnEntry(t: Tables, who: Actor, draft: Draft, now: Time) {
    || who.owner == who.user
    || draft.folderId.Some?
    || (if Names(draft.doc.folder)
        then exists f :: f in t.folders && t.folders[f] == Folder(who.owner, draft.doc.folder.value)
                         && MayWrite(FolderPermission(t, f, who.user, now))
        else who.service)
  }

  /** A new entry in a folder is as accessible as the folder, to all but its owner. */
  lemma FolderDecides(t: Tables, t': Tables, f: FolderId, id: EntryId, user: UserId, now: Time)
    requires Valid(t) && f in t.folders && f in t'.folders && t'.folders[f] == t.folders[f] && id !in t.entries
    requires t'.grants == t.grants && id in t'.entries && t'.entries[id].link == Some(f)
    requires t'.entries[id].owner == Some(t.folders[f].owner)
    ensures EntryPermission(t', id, user, now) == FolderPermission(t, f, user, now)
  {
    assert (id, user) !in t.grants.entryUsers;
    assert {} + FolderShares(t.grants, f, user, now) == FolderShares(t.grants, f, user, now);
  }

  lemma NamedFolderDecides(t: Tables, t': Tables, who: Actor, name: string, id: EntryId, now: Time)
    requires Valid(t) && Valid(t') && t'.grants == t.grants && id !in t.entries && id in t'.entries
    requires forall f :: f in t.folders ==> f in t'.folders && t'.folders[f] == t.folders[f]
    requires var e := t'.entries[id];
             && e.owner == Some(who.owner) && e.link.Some? && e.link.value in t'.folders
             && t'.folders[e.link.value] == Folder(who.owner, name)
    ensures MayWrite(EntryPermission(t', id, who.user, now))
        <==> who.owner == who.user
             || exists f :: f in t.folders && t.folders[f] == Folder(who.owner, name)
                            && MayWrite(FolderPermission(t, f, who.user, now))
  {
    var f := t'.entries[id].link.value;
    if f in t.folders {
      FolderDecides(t, t', f, id, who.user, now);
    } else {
      NoGrantsYet(t, f, id, who.user, now);
    }
  }

  /** Nobody has a share of a folder or an entry that is not there. */
  lemma NoGrantsYet(t: Tables, f: FolderId, id: EntryId, user: UserId, now: Time)
    requires Valid(t) && f !in t.folders && id !in t.entries
    ensures DirectOn(t.grants.entryUsers, (id, user), now) + FolderShares(t.grants, f, user, now) == {}
  {
  }

  /** What creating an entry leaves: where it is, whose it is, and a grant only
      for what a service files nowhere. */
  predicate Created(t: Tables, t': Tables, who: Actor, draft: Draft) {
    var id := t.nextEntry;
    && Valid(t) && Valid(t') && id !in t.entries && id in t'.entries
    && (forall f :: f in t.folders ==> f in t'.folders && t'.folders[f] == t.folders[f])
    && var e := t'.entries[id];
    && (draft.folderId.Some? ==> draft.folderId.value in t.folders && e.link == draft.folderId
                                 && e.owner == Some(t.folders[draft.folderId.value].owner))
    && (draft.folderId.None? ==>
          && e.owner == Some(who.owner) && (e.link.Some? <==> Names(draft.doc.folder))
          && (e.link.Some? ==> e.link.value in t'.folders
                               && t'.folders[e.link.value] == Folder(who.owner, draft.doc.folder.value)))
    && t'.grants == if who.service && e.link.None? then Shared(t.grants, id, who.user) else t.grants
  }

  function Shared(g: Grants, id: EntryId, user: UserId): Grants {
    g.(entryUsers := g.entryUsers[(id, user) := Grant(Write, None)])
  }

  lemma CreateCreates(t: Tables, who: Actor, draft: Draft, now: Time)
    requires Sound(t) && CreatePassword(t, who, draft, now).Ok?
    ensures Created(t, CreatePassword(t, who, draft, now).value, who, draft)
    ensures draft.folderId.Some? ==> MayWrite(FolderPermission(t, draft.folderId.value, who.user, now))
  {
    CreatePasswordKeeps(t, who, draft, now);
    FolderForKeeps(t, Some(who.owner), draft, []);
    if draft.folderId.None? { FolderNamedKeeps(t, Some(who.owner), draft.doc.folder); }
    SharedIsUnion(t.grants, t.nextEntry, who.user);
  }

  lemma SharedIsUnion(g: Grants, id: EntryId, user: UserId)
    ensures Shared(g, id, user) == g.(entryUsers := g.entryUsers + map[(id, user) := Grant(Write, None)])
    ensures g == g.(entryUsers := g.entryUsers + map[])
  {
    assert g.entryUsers + map[] == g.entryUsers;
    assert g.entryUsers[(id, user) := Grant(Write, None)] == g.entryUsers + map[(id, user) := Grant(Write, None)];
  }

  /** An entry that is filed nowhere, of whom the request acts for. */
  lemma UnfiledDecides(t: Tables, t': Tables, who: Actor, id: EntryId, now: Time)
    requires Valid(t) && id !in t.entries && id in t'.entries
    requires t'.entries[id].owner == Some(who.owner) && t'.entries[id].link.None?
    requires t'.grants == if who.service then Shared(t.grants, id, who.user) else t.grants
    ensures MayWrite(EntryPermission(t', id, who.user, now)) <==> who.owner == who.user || who.service
  {
    assert (id, who.user) !in t.grants.entryUsers;
    if who.service { assert DirectOn(t'.grants.entryUsers, (id, who.user), now) == {Write}; }
  }

  /** The creator can write the new entry exactly then. */
  lemma CreatorWritesExactly(t: Tables, who: Actor, draft: Draft, now: Time)
    requires Sound(t) && CreatePassword(t, who, draft, now).Ok?
    ensures MayWrite(EntryPermission(CreatePassword(t, who, draft, now).value, t.nextEntry, who.user, now))
        <==> WritesOwnEntry(t, who, draft, now)
  {
    CreateCreates(t, who, draft, now);
    CreatedWrites(t, CreatePassword(t, who, draft, now).value, who, draft, now);
  }

  lemma CreatedWrites(t: Tables, t': Tables, who: Actor, draft: Draft, now: Time)
    requires Created(t, t', who, draft)
    requires draft.folderId.Some? ==> MayWrite(FolderPermission(t, draft.folderId.value, who.user, now))
    ensures MayWrite(EntryPermission(t', t.nextEntry, who.user, now)) <==> WritesOwnEntry(t, who, draft, now)
  {
    if draft.folderId.Some? {
      FolderDecides(t, t', draft.folderId.value, t.nextEntry, who.user, now);
    } else if Names(draft.doc.folder) {
      NamedFolderDecides(t, t', who, draft.doc.folder.value, t.nextEntry, now);
    } else {
      UnfiledDecides(t, t', who, t.nextEntry, now);
    }
  }

  /** A service that names a folder of its owner's, new here, cannot write what
      it has just created: the grant it gets for unfiled entries is left out. */
  lemma ServiceLosesFiledEntry(doc: Document, now: Time)
    requires doc.folder == Some("f")
    ensures var who, draft := Actor(7, 1, true), Draft(doc, None);
            && Sound(NoTables()) && CreatePassword(NoTables(), who, draft, now).Ok?
            && !MayWrite(EntryPermission(CreatePassword(NoTables(), who, draft, now).value, 0, 7, now))
  {
    CreatorWritesExactly(NoTables(), Actor(7, 1, true), Draft(doc, None), now);
  }

  /** Undoing a deletion brings the same entry back. */
  lemma DeleteThenRestoreReturns(t: Tables, who: Actor, name: string, now: Time, later: Time)
    requires Sound(t) && DeletePassword(t, who, name, now).Ok? && FindActive(t, name).Some?
    requires Require(t, FindActive(t, name).value, who.user, later, CanWrite).Ok?
    ensures var id := FindActive(t, name).value;
            var t1 := DeletePassword(t, who, name, now).value;
            && RestorePassword(t1, who, name, Some(id), later).Ok?
            && RestorePassword(t1, who, name, Some(id), later).value
               == WithEntry(t, id, t.entries[id].(updated := later))
  {
    var id := FindActive(t, name).value;
    var t1 := DeletePassword(t, who, name, now).value;
    DeletedIsFound(t, id, name, now);
    SameAccess(t, t1, id, who.user, later);
    assert WithEntry(t1, id, t1.entries[id].(deleted := None, updated := later))
           == WithEntry(t, id, t.entries[id].(updated := later));
  }

  lemma DeletedIsFound(t: Tables, id: EntryId, name: string, now: Time)
    requires UniqueActive(t.entries) && id in t.entries && ActiveNamed(t.entries, id, name)
    ensures var t1 := WithEntry(t, id, t.entries[id].(deleted := Some(now), updated := now));
            FindTrashed(t1, name, Some(id)) == Some(id) && !NameActive(t1, name)
  {
    var t1 := WithEntry(t, id, t.entries[id].(deleted := Some(now), updated := now));
    assert LatestTrashed(t1, id, name, Some(id));
  }

  lemma SameAccess(t: Tables, t1: Tables, id: EntryId, user: UserId, now: Time)
    requires id in t.entries && id in t1.entries && t1.grants == t.grants && t1.folders == t.folders
    requires t1.entries[id].owner == t.entries[id].owner && t1.entries[id].link == t.entries[id].link
    ensures EntryPermission(t1, id, user, now) == EntryPermission(t, id, user, now)
  {
  }

  /** Purging takes the entry, its attachments and its grants, and nothing else. */
  lemma PurgeRemovesExactly(t: Tables, who: Actor, name: string, wanted: Option<EntryId>, now: Time)
    requires Sound(t) && PurgePassword(t, who, name, wanted, now).Ok?
    ensures FindTrashed(t, name, wanted).Some?
    ensures var id := FindTrashed(t, name, wanted).value;
            var t' := PurgePassword(t, who, name, wanted, now).value;
            && id in t.entries && t.entries[id].deleted.Some? && EntryPermission(t, id, who.user, now) == Some(Owns)
            && t'.entries == t.entries - {id}
            && (forall a :: a in t'.attachments <==> a in t.attachments && t.attachments[a].entry != id)
            && (forall k :: k in t'.grants.entryUsers <==> k in t.grants.entryUsers && k.0 != id)
            && t'.folders == t.folders
  {
    FindsTrashedExactly(t, name, wanted);
  }

  predicate SameBut(e: Entry, f: Entry) { f == e.(updated := f.updated) }

  /** Renaming a folder back restores every document. */
  lemma RenameBackReturns(t: Tables, who: Actor, folder: FolderId, name: string, now: Time, later: Time)
    requires Sound(t) && name != "" && RenameFolder(t, who, folder, name, now).Ok?
    ensures var t1 := RenameFolder(t, who, folder, name, now).value;
            var back := RenameFolder(t1, who, folder, t.folders[folder].name, later);
            && back.Ok?
            && back.value.folders == t.folders
            && back.value.entries.Keys == t.entries.Keys
            && (forall id :: id in t.entries ==> SameBut(t.entries[id], back.value.entries[id]))
  {
    var t1 := RenameFolder(t, who, folder, name, now).value;
    var previous := t.folders[folder].name;
    forall f | f in t1.folders && f != folder ensures t1.folders[f] != Folder(who.user, previous) {
      assert t1.folders[f] == t.folders[f];
    }
    forall id | id in t.entries && t.entries[id].link == Some(folder)
      ensures t.entries[id].doc.folder == Some(previous)
    {
      assert EntryLinked(t.entries[id], t.folders);
    }
  }
}
