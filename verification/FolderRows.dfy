/**
The operations on entries and folders as they change the rows in place, and the
one-time migration that links the entries of an older vault
(backend/crud/folder.py, backend/crud/password.py).
*/
module FolderRows {
  import opened Wrappers
  import opened VaultTables
  import opened Access
  import opened Folders

  /** Links that can be completed: every entry has an owner, and a link there is
      already leads to the owner's folder of the document's name. */
  predicate Migratable(e: Entry, folders: map<FolderId, Folder>) {
    && e.owner.Some?
    && (e.link.Some? ==>
          && Names(e.doc.folder)
          && e.link.value in folders
          && folders[e.link.value] == Folder(e.owner.value, e.doc.folder.value))
  }

  predicate AllMigratable(t: Tables) { forall id :: id in t.entries ==> Migratable(t.entries[id], t.folders) }

  predicate FoldersKept(before: map<FolderId, Folder>, after: map<FolderId, Folder>) {
    forall f :: f in before ==> f in after && after[f] == before[f]
  }

  predicate RelinkedEntry(before: Entry, after: Entry) {
    after == before.(link := after.link, updated := after.updated) && (before.link.Some? ==> after == before)
  }

  predicate Relinked(before: map<EntryId, Entry>, after: map<EntryId, Entry>) {
    after.Keys == before.Keys && forall id :: id in before ==> RelinkedEntry(before[id], after[id])
  }

  /** The dictionary of folders by owner and name. */
  predicate Indexes(known: map<Folder, FolderId>, folders: map<FolderId, Folder>) {
    && (forall f :: f in known ==> known[f] in folders && folders[known[f]] == f)
    && (forall id :: id in folders ==> folders[id] in known)
  }

  class VaultRows {
    var tables: Tables
    /** The migration mark of the vault row; None without a vault row. */
    var linksReady: Option<bool>

    constructor (given: Tables, ready: Option<bool>)
      ensures tables == given && linksReady == ready
    {
      tables, linksReady := given, ready;
    }

    method FolderNamed(owner: Option<UserId>, folder: Option<string>) returns (r: Result<Option<FolderId>, Error>)
      requires UniqueFolders(tables.folders)
      modifies `tables
      ensures match Folders.FolderNamed(old(tables), owner, folder)
              case Err(e) => r == Err(e) && tables == old(tables)
              case Ok((t', link)) => r == Ok(link) && tables == t'
    {
      if !Names(folder) { return Ok(None); }
      if owner.None? { return Err(InvalidRequest); }
      var wanted := Folder(owner.value, folder.value);
      if id :| id in tables.folders && tables.folders[id] == wanted { return Ok(Some(id)); }
      var id := tables.nextFolder;
      tables := AddFolder(tables, wanted);
      return Ok(Some(id));
    }

    method FolderFor(owner: Option<UserId>, draft: Draft) returns (r: Result<(Option<FolderId>, Document), Error>)
      requires UniqueFolders(tables.folders)
      modifies `tables
      ensures match Folders.FolderFor(old(tables), owner, draft)
              case Err(e) => r == Err(e) && tables == old(tables)
              case Ok((t', link, doc)) => r == Ok((link, doc)) && tables == t'
    {
      if draft.folderId.Some? {
        if draft.folderId.value !in tables.folders { return Err(InvalidRequest); }
        var name := tables.folders[draft.folderId.value].name;
        if Names(draft.doc.folder) && draft.doc.folder.value != name { return Err(InvalidRequest); }
        return Ok((draft.folderId, draft.doc.(folder := Some(name))));
      }
      var link := FolderNamed(owner, draft.doc.folder);
      if link.Err? { return Err(link.error); }
      return Ok((link.value, draft.doc));
    }

    /** A failed request rolls its transaction back. */
    method CreatePassword(who: Actor, draft: Draft, now: Time) returns (r: Result<(), Error>)
      requires Sound(tables)
      modifies `tables
      ensures Sound(tables)
      ensures match Folders.CreatePassword(old(tables), who, draft, now)
              case Err(e) => r == Err(e) && tables == old(tables)
              case Ok(t') => r.Ok? && tables == t'
    {
      var before := tables;
      if draft.folderId.Some? {
        var may := MayFile(tables, draft.folderId.value, who.user, now);
        if may.Err? { return Err(may.error); }
      }
      var filed := FolderFor(Some(who.owner), draft);
      if filed.Err? { return Err(filed.error); }
      var (link, doc) := filed.value;
      if NameActive(tables, doc.name) {
        tables := before;
        return Err(InvalidRequest);
      }
      var owner := if draft.folderId.Some? && link.Some? && link.value in tables.folders
                   then tables.folders[link.value].owner else who.owner;
      var share := if who.service && link.None? then map[(tables.nextEntry, who.user) := Grant(Write, None)] else map[];
      tables := AddEntry(tables, Entry(Some(owner), link, DocumentFrom(doc, []), now, now, None, false));
      tables := tables.(grants := tables.grants.(entryUsers := tables.grants.entryUsers + share));
      CreatePasswordKeeps(before, who, draft, now);
      return Ok(());
    }

    method UpdatePassword(who: Actor, name: string, draft: Draft, now: Time, stamp: string)
      returns (r: Result<(), Error>)
      requires Sound(tables)
      modifies `tables
      ensures Sound(tables)
      ensures match Folders.UpdatePassword(old(tables), who, name, draft, now, stamp)
              case Err(e) => r == Err(e) && tables == old(tables)
              case Ok(t') => r.Ok? && tables == t'
    {
      ghost var before := tables;
      if !NameActive(tables, name) { return Err(NotFound); }
      var id :| id in tables.entries && ActiveNamed(tables.entries, id, name);
      var e := tables.entries[id];
      assert FindActive(tables, name) == Some(id);
      var may := Require(tables, id, who.user, now, CanWrite);
      if may.Err? { return Err(may.error); }
      var moved := Carried(e, draft);
      if moved.folderId != e.link {
        var mayMove := MayMove(tables, id, who, moved.folderId, now);
        if mayMove.Err? { return Err(mayMove.error); }
      }
      if e.doc.name != moved.doc.name && NameActive(tables, moved.doc.name) { return Err(InvalidRequest); }
      var filed := FolderFor(Some(who.owner), moved);
      if filed.Err? { return Err(filed.error); }
      var (link, doc) := filed.value;
      var history := HistoryAfter(e.doc, moved.doc, stamp);
      tables := WithEntry(tables, id,
          e.(link := link, doc := DocumentFrom(doc, history), backedUp := false, updated := now));
      UpdatePasswordKeeps(before, who, name, draft, now, stamp);
      return Ok(());
    }

    method RenameFolder(who: Actor, folder: FolderId, name: string, now: Time) returns (r: Result<(), Error>)
      requires Sound(tables) && name != ""
      modifies `tables
      ensures Sound(tables)
      ensures match Folders.RenameFolder(old(tables), who, folder, name, now)
              case Err(e) => r == Err(e) && tables == old(tables)
              case Ok(t') => r.Ok? && tables == t'
    {
      ghost var before := tables;
      if folder !in tables.folders { return Err(NotFound); }
      if tables.folders[folder].owner != who.user { return Err(Forbidden); }
      if exists f :: f in tables.folders && f != folder && tables.folders[f] == Folder(who.user, name) {
        return Err(InvalidRequest);
      }
      tables := tables.(folders := tables.folders[folder := Folder(who.user, name)]);
      RenameEntries(folder, name, now);
      RenameFolderKeeps(before, who, folder, name, now);
      return Ok(());
    }

    /** The documents of the entries in the folder are sealed again. */
    method RenameEntries(folder: FolderId, name: string, now: Time)
      modifies `tables
      ensures tables == old(tables).(entries := RenamedEntries(old(tables).entries, folder, name, now))
    {
      ghost var before := tables;
      var linked := set id | id in tables.entries && tables.entries[id].link == Some(folder);
      var left := linked;
      while left != {}
        invariant left <= linked
        invariant tables == before.(entries := tables.entries) && tables.entries.Keys == before.entries.Keys
        invariant forall id :: id in before.entries ==>
                    tables.entries[id] == if id in linked - left then RenamedEntry(before.entries[id], name, now)
                                          else before.entries[id]
        decreases |left|
      {
        var id :| id in left;
        tables := WithEntry(tables, id, RenamedEntry(tables.entries[id], name, now));
        left := left - {id};
      }
      RenamedAll(before.entries, tables.entries, folder, name, now);
    }

    /** One entry of the migration: its folder, found or made, and its link. */
    method LinkEntry(id: EntryId, known: map<Folder, FolderId>, now: Time) returns (ok: bool,
            known': map<Folder, FolderId>)
      requires Valid(tables) && id in tables.entries && Indexes(known, tables.folders)
      modifies `tables
      ensures ok == Migratable(old(tables).entries[id], old(tables).folders)
      ensures !ok ==> tables == old(tables)
      ensures ok ==> LinkedOne(old(tables), tables, id) && Indexes(known', tables.folders)
    {
      known' := known;
      var e := tables.entries[id];
      if e.owner.None? { return false, known; }
      if !Names(e.doc.folder) {
        if e.link.None? { LinkedAlready(tables, id); }
        return e.link.None?, known;
      }
      var wanted := Folder(e.owner.value, e.doc.folder.value);
      if e.link.Some? && (wanted !in known || e.link.value != known[wanted]) { return false, known; }
      ghost var before := tables;
      if wanted !in known {
        NewFolderValid(tables, wanted, known);
        known' := known[wanted := tables.nextFolder];
        tables := AddFolder(tables, wanted);
      }
      if e.link.None? {
        LinksOne(before, tables, id, known'[wanted], now);
        tables := WithEntry(tables, id, e.(link := Some(known'[wanted]), updated := now));
      } else {
        LinkedAlready(tables, id);
      }
      return true, known';
    }

    /** The loop over the entries; the caller undoes it if one cannot be linked. */
    method LinkEntries(now: Time) returns (ok: bool)
      requires Valid(tables)
      modifies `tables
      ensures ok == AllMigratable(old(tables))
      ensures ok ==> Progress(old(tables), tables, old(tables).nextEntry)
    {
      ghost var before := tables;
      var known: map<Folder, FolderId> := map id | id in tables.folders :: tables.folders[id] := id;
      var id := 0;
      ProgressBegins(before);
      while id < tables.nextEntry
        invariant tables.nextEntry == before.nextEntry && id <= before.nextEntry
        invariant Progress(before, tables, id) && Indexes(known, tables.folders)
      {
        if id in tables.entries {
          ghost var earlier := tables;
          MigratableSoFar(before, tables, id);
          ok, known := LinkEntry(id, known, now);
          if !ok { return false; }
          ProgressStep(before, earlier, tables, id);
        } else {
          ProgressPast(before, tables, id);
        }
        id := id + 1;
      }
      ProgressDone(before, tables);
      return true;
    }

    /** `migrate_folder_links`: all entries are linked, or nothing is changed;
        which of the two can be told from each row before. */
    method MigrateFolderLinks(now: Time) returns (ok: bool)
      requires Valid(tables)
      modifies this
      ensures old(linksReady) != Some(false) ==> ok && tables == old(tables) && linksReady == old(linksReady)
      ensures old(linksReady) == Some(false) ==>
                && ok == AllMigratable(old(tables))
                && linksReady == Some(ok)
                && (!ok ==> tables == old(tables))
                && (ok ==> && Sound(tables)
                           && Relinked(old(tables).entries, tables.entries)
                           && FoldersKept(old(tables).folders, tables.folders)
                           && tables.attachments == old(tables).attachments && tables.grants == old(tables).grants)
    {
      if linksReady != Some(false) { return true; }
      var before := tables;
      ok := LinkEntries(now);
      if !ok {
        tables := before;
        return false;
      }
      ProgressDone(before, tables);
      linksReady := Some(true);
    }
  }

  lemma RenamedAll(before: map<EntryId, Entry>, after: map<EntryId, Entry>, folder: FolderId, name: string, now: Time)
    requires after.Keys == before.Keys
    requires forall id :: id in before ==>
               after[id] == if before[id].link == Some(folder) then RenamedEntry(before[id], name, now) else before[id]
    ensures after == RenamedEntries(before, folder, name, now)
  {
  }

  // ----- The migration's progress ---------------------------------------------------

  lemma NewFolderValid(t: Tables, f: Folder, known: map<Folder, FolderId>)
    requires Valid(t) && f.name != "" && Indexes(known, t.folders) && f !in known
    ensures Valid(AddFolder(t, f)) && FoldersKept(t.folders, AddFolder(t, f).folders)
    ensures Indexes(known[f := t.nextFolder], AddFolder(t, f).folders)
  {
  }

  /** What linking one entry changes. */
  predicate LinkedOne(t: Tables, t': Tables, id: EntryId) {
    && Valid(t') && FoldersKept(t.folders, t'.folders)
    && t' == t.(entries := t'.entries, folders := t'.folders, nextFolder := t'.nextFolder)
    && id in t.entries && id in t'.entries && t'.entries == t.entries[id := t'.entries[id]]
    && RelinkedEntry(t.entries[id], t'.entries[id])
    && EntryLinked(t'.entries[id], t'.folders)
  }

  lemma LinksOne(t: Tables, t1: Tables, id: EntryId, f: FolderId, now: Time)
    requires id in t.entries && t.entries[id].link.None? && Names(t.entries[id].doc.folder)
    requires Valid(t1) && FoldersKept(t.folders, t1.folders)
    requires t1 == t.(folders := t1.folders, nextFolder := t1.nextFolder)
    requires f in t1.folders && t.entries[id].owner == Some(t1.folders[f].owner)
    requires t.entries[id].doc.folder == Some(t1.folders[f].name)
    ensures LinkedOne(t, WithEntry(t1, id, t.entries[id].(link := Some(f), updated := now)), id)
  {
  }

  lemma LinkedAlready(t: Tables, id: EntryId)
    requires Valid(t) && id in t.entries && EntryLinked(t.entries[id], t.folders)
    requires RelinkedEntry(t.entries[id], t.entries[id])
    ensures LinkedOne(t, t, id)
  {
    assert t.entries[id := t.entries[id]] == t.entries;
  }

  /** The entries below `id` are linked, the others as they were. */
  predicate Progress(before: Tables, t: Tables, id: EntryId) {
    && Valid(before) && Valid(t) && FoldersKept(before.folders, t.folders)
    && t == before.(entries := t.entries, folders := t.folders, nextFolder := t.nextFolder)
    && Relinked(before.entries, t.entries)
    && (forall e :: e in before.entries && e < id ==>
          Migratable(before.entries[e], before.folders) && EntryLinked(t.entries[e], t.folders))
    && (forall e :: e in before.entries && e >= id ==> t.entries[e] == before.entries[e])
  }

  lemma ProgressBegins(t: Tables)
    requires Valid(t)
    ensures Progress(t, t, 0)
  {
  }

  /** A row that cannot be linked could not be before. */
  lemma MigratableSoFar(before: Tables, t: Tables, id: EntryId)
    requires Progress(before, t, id) && id in t.entries
    ensures Migratable(t.entries[id], t.folders) == Migratable(before.entries[id], before.folders)
    ensures !Migratable(t.entries[id], t.folders) ==> !AllMigratable(before)
  {
    var e := before.entries[id];
    if e.link.Some? { assert e.link.value in before.folders; }
  }

  lemma LinkedBelow(before: Tables, t: Tables, t': Tables, id: EntryId)
    requires Progress(before, t, id) && LinkedOne(t, t', id) && Migratable(before.entries[id], before.folders)
    ensures forall e :: e in before.entries && e < id + 1 ==>
              Migratable(before.entries[e], before.folders) && EntryLinked(t'.entries[e], t'.folders)
  {
    forall e | e in before.entries && e < id ensures EntryLinked(t'.entries[e], t'.folders) {
      assert EntryLinked(t.entries[e], t.folders);
    }
  }

  lemma ProgressStep(before: Tables, t: Tables, t': Tables, id: EntryId)
    requires Progress(before, t, id) && LinkedOne(t, t', id) && Migratable(before.entries[id], before.folders)
    ensures Progress(before, t', id + 1)
  {
    LinkedBelow(before, t, t', id);
    RelinkedStays(before.entries, t.entries, t'.entries, id);
  }

  lemma RelinkedStays(before: map<EntryId, Entry>, m: map<EntryId, Entry>, m': map<EntryId, Entry>, id: EntryId)
    requires Relinked(before, m) && id in before && id in m' && m' == m[id := m'[id]] && m[id] == before[id]
    requires RelinkedEntry(m[id], m'[id])
    ensures Relinked(before, m')
  {
  }

  /** All that a finished migration promises. */
  lemma ProgressDone(before: Tables, t: Tables)
    requires Progress(before, t, before.nextEntry)
    ensures AllMigratable(before)
    ensures Sound(t) && Relinked(before.entries, t.entries) && FoldersKept(before.folders, t.folders)
    ensures t.attachments == before.attachments && t.grants == before.grants
  {
  }

  lemma ProgressPast(before: Tables, t: Tables, id: EntryId)
    requires Progress(before, t, id) && id !in t.entries
    ensures Progress(before, t, id + 1)
  {
  }
}
