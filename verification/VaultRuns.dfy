/**
Any sequence of requests on entries and folders: what migration establishes,
every later operation keeps (backend/crud/password.py, backend/crud/access.py,
backend/crud/folder.py, backend/crud/backup.py). A request that fails is rolled
back and changes nothing.
*/
module VaultRuns {
  import opened Wrappers
  import opened VaultTables
  import opened Access
  import opened Folders
  import CsvImport
  import opened BackupRestore

  datatype Request =
    | Create(who: Actor, draft: Draft, now: Time)
    | Update(who: Actor, name: string, draft: Draft, now: Time, stamp: string)
    | Favorite(who: Actor, name: string, favorite: bool, now: Time)
    | Delete(who: Actor, name: string, now: Time)
    | Recover(who: Actor, name: string, wanted: Option<EntryId>, now: Time)
    | Purge(who: Actor, name: string, wanted: Option<EntryId>, now: Time)
    | NewFolder(who: Actor, name: string)
    | Rename(who: Actor, folder: FolderId, name: string, now: Time)
    | Remove(who: Actor, folder: FolderId)
    | GiveUpShare(entry: EntryId, user: UserId, now: Time)
    | ImportFile(owner: UserId, rows: seq<Document>, overwrite: bool, now: Time)
    | RestoreFile(index: map<(string, Time), EntryId>, mode: Mode, backup: Backup)

  /** Folder names are validated not to be empty; the index of trashed rows is
      one a query returned. */
  ghost predicate WellPosed(t: Tables, r: Request) {
    match r
    case NewFolder(_, name) => name != ""
    case Rename(_, _, name, _) => name != ""
    case RestoreFile(index, _, _) => TrashedIndex(index, t)
    case _ => true
  }

  ghost function Outcome(t: Tables, r: Request): Result<Tables, Error>
    requires Valid(t)
  {
    match r
    case Create(who, draft, now) => CreatePassword(t, who, draft, now)
    case Update(who, name, draft, now, stamp) => UpdatePassword(t, who, name, draft, now, stamp)
    case Favorite(who, name, favorite, now) => SetFavorite(t, who, name, favorite, now)
    case Delete(who, name, now) => DeletePassword(t, who, name, now)
    case Recover(who, name, wanted, now) => RestorePassword(t, who, name, wanted, now)
    case Purge(who, name, wanted, now) => PurgePassword(t, who, name, wanted, now)
    case NewFolder(who, name) => CreateFolder(t, who, name)
    case Rename(who, folder, name, now) => RenameFolder(t, who, folder, name, now)
    case Remove(who, folder) => RemoveFolder(t, who, folder)
    case GiveUpShare(entry, user, now) =>
      (match Relinquish(t, entry, user, now) case Err(e) => Err(e) case Ok((t', _)) => Ok(t'))
    case ImportFile(owner, rows, overwrite, now) => Ok(CsvImport.ImportRows(t, owner, rows, overwrite, now).t)
    case RestoreFile(index, mode, backup) =>
      (match Restore(t, index, mode, backup) case Err(e) => Err(e) case Ok(m) => Ok(m.t))
  }

  ghost function Apply(t: Tables, r: Request): Tables
    requires Valid(t)
  {
    if WellPosed(t, r) && Outcome(t, r).Ok? then Outcome(t, r).value else t
  }

  lemma FolderRequestKeeps(t: Tables, r: Request)
    requires Sound(t) && WellPosed(t, r) && Outcome(t, r).Ok?
    requires r.NewFolder? || r.Rename? || r.Remove? || r.GiveUpShare? || r.Purge?
    ensures Sound(Outcome(t, r).value)
  {
    match r
    case NewFolder(who, name) => AddFolderKeeps(t, Folder(who.owner, name));
    case Rename(who, folder, name, now) => RenameFolderKeeps(t, who, folder, name, now);
    case Remove(who, folder) => RemoveFolderKeeps(t, who, folder);
    case Purge(who, name, wanted, now) => PurgeKeeps(t, who, name, wanted, now);
    case GiveUpShare(entry, user, now) => RelinquishKeepsValid(t, entry, user, now);
  }

  lemma FileRequestKeeps(t: Tables, r: Request)
    requires Sound(t) && WellPosed(t, r) && Outcome(t, r).Ok? && (r.ImportFile? || r.RestoreFile?)
    ensures Sound(Outcome(t, r).value)
  {
    match r
    case ImportFile(owner, rows, overwrite, now) => CsvImport.NoRowCollapses(t, owner, rows, overwrite, now);
    case RestoreFile(index, mode, backup) => RestoreLosesNothing(t, index, mode, backup);
  }

  lemma RequestKeeps(t: Tables, r: Request)
    requires Sound(t)
    ensures Sound(Apply(t, r))
  {
    if WellPosed(t, r) && Outcome(t, r).Ok? {
      match r
      case Create(who, draft, now) => CreatePasswordKeeps(t, who, draft, now);
      case Update(who, name, draft, now, stamp) => UpdatePasswordKeeps(t, who, name, draft, now, stamp);
      case Favorite(who, name, favorite, now) => FavoriteKeeps(t, who, name, favorite, now);
      case Delete(who, name, now) => DeleteKeeps(t, who, name, now);
      case Recover(who, name, wanted, now) => RestoreKeeps(t, who, name, wanted, now);
      case ImportFile(_, _, _, _) => FileRequestKeeps(t, r);
      case RestoreFile(_, _, _) => FileRequestKeeps(t, r);
      case _ => FolderRequestKeeps(t, r);
    }
  }

  // ----- Folders without a name -------------------------------------------------------

  lemma ImportNormal(t: Tables, owner: UserId, rows: seq<Document>, overwrite: bool, now: Time)
    requires Sound(t) && NormalFolders(t.entries)
    ensures NormalFolders(CsvImport.ImportRows(t, owner, rows, overwrite, now).t.entries)
  {
    CsvImport.NoRowCollapses(t, owner, rows, overwrite, now);
    var s := CsvImport.ImportRows(t, owner, rows, overwrite, now);
    assert forall id :: id in t.entries ==>
             s.t.entries[id] == CsvImport.Spared(t.entries[id], owner, overwrite, s.seen, now);
  }

  lemma SparedNormal(before: Tables, t: Tables, mode: Mode, seen: set<string>)
    requires AllSpared(before, t, mode, seen) && AddedSeen(before, t, mode.owner, seen) && NormalFolders(before.entries)
    ensures NormalFolders(t.entries)
  {
    forall id | id in before.entries ensures t.entries[id].doc == before.entries[id].doc {
      assert t.entries[id] == Spared(before.entries[id], mode, seen);
    }
  }

  lemma RestoreNormal(t: Tables, index: map<(string, Time), EntryId>, mode: Mode, b: Backup)
    requires Sound(t) && NormalFolders(t.entries) && TrashedIndex(index, t) && Restore(t, index, mode, b).Ok?
    ensures NormalFolders(Restore(t, index, mode, b).value.t.entries)
  {
    RestoreLosesNothing(t, index, mode, b);
    var m := Restore(t, index, mode, b).value;
    SparedNormal(t, m.t, mode, m.seen);
  }

  lemma CreateNormal(t: Tables, who: Actor, draft: Draft, now: Time)
    requires Sound(t) && NormalFolders(t.entries) && CreatePassword(t, who, draft, now).Ok?
    ensures NormalFolders(CreatePassword(t, who, draft, now).value.entries)
  {
    FolderForKeeps(t, Some(who.owner), draft, []);
  }

  lemma UpdateNormal(t: Tables, who: Actor, name: string, draft: Draft, now: Time, stamp: string)
    requires Sound(t) && NormalFolders(t.entries) && UpdatePassword(t, who, name, draft, now, stamp).Ok?
    ensures NormalFolders(UpdatePassword(t, who, name, draft, now, stamp).value.entries)
  {
    var e := t.entries[FindActive(t, name).value];
    FolderForKeeps(t, Some(who.owner), Carried(e, draft), HistoryAfter(e.doc, Carried(e, draft).doc, stamp));
  }

  /** The other requests leave the documents' folders, or rename them. */
  lemma FolderRequestNormal(t: Tables, r: Request)
    requires Sound(t) && NormalFolders(t.entries) && WellPosed(t, r) && Outcome(t, r).Ok?
    requires r.NewFolder? || r.Rename? || r.Remove? || r.GiveUpShare? || r.Purge?
    ensures NormalFolders(Outcome(t, r).value.entries)
  {
  }

  lemma FlagRequestNormal(t: Tables, r: Request)
    requires Sound(t) && NormalFolders(t.entries) && Outcome(t, r).Ok? && (r.Favorite? || r.Delete? || r.Recover?)
    ensures NormalFolders(Outcome(t, r).value.entries)
  {
  }

  /** No request puts a document into a folder without a name. */
  lemma RequestKeepsNormal(t: Tables, r: Request)
    requires Sound(t) && NormalFolders(t.entries) && WellPosed(t, r) && Outcome(t, r).Ok?
    ensures NormalFolders(Outcome(t, r).value.entries)
  {
    match r
    case Create(who, draft, now) => CreateNormal(t, who, draft, now);
    case Update(who, name, draft, now, stamp) => UpdateNormal(t, who, name, draft, now, stamp);
    case ImportFile(owner, rows, overwrite, now) => ImportNormal(t, owner, rows, overwrite, now);
    case RestoreFile(index, mode, backup) => RestoreNormal(t, index, mode, backup);
    case _ => if r.Favorite? || r.Delete? || r.Recover? { FlagRequestNormal(t, r); } else { FolderRequestNormal(t, r); }
  }

  // ----- Runs --------------------------------------------------------------------------

  ghost predicate Reaches(start: Tables, requests: seq<Request>, end: Tables)
    decreases |requests|
  {
    if requests == [] then start == end
    else Valid(start) && Reaches(Apply(start, requests[0]), requests[1..], end)
  }

  /** Targets for every folder of the exporting vault, under its name. */
  ghost predicate Covers(targets: map<nat, Target>, t: Tables) {
    forall f :: f in t.folders ==> f in targets && targets[f].name == t.folders[f].name
  }

  lemma {:induction false} RunKeepsLinks(start: Tables, requests: seq<Request>, end: Tables)
    requires Sound(start) && Reaches(start, requests, end)
    ensures Sound(end) && (NormalFolders(start.entries) ==> NormalFolders(end.entries))
    decreases |requests|
  {
    if requests != [] {
      RequestKeeps(start, requests[0]);
      var next := Apply(start, requests[0]);
      if NormalFolders(start.entries) && next != start { RequestKeepsNormal(start, requests[0]); }
      RunKeepsLinks(next, requests[1..], end);
    }
  }

  /** In every state reached from linked tables, every entry, active or trashed,
      has a folder link exactly when its document names a folder, and then that
      folder has this name. So, where no document was in a folder without a name
      to begin with, every entry's frame of an export passes the import's check. */
  lemma EveryEntryStaysLinked(start: Tables, requests: seq<Request>, end: Tables)
    requires Sound(start) && Reaches(start, requests, end)
    ensures Sound(end)
    ensures NormalFolders(start.entries) ==>
              forall id, targets :: id in end.entries && Covers(targets, end) ==>
                LinkOf(targets, 3, ExportEntry(end, id)).Ok?
  {
    RunKeepsLinks(start, requests, end);
    if NormalFolders(start.entries) {
      forall id, targets | id in end.entries && Covers(targets, end)
        ensures LinkOf(targets, 3, ExportEntry(end, id)).Ok?
      {
        assert EntryLinked(end.entries[id], end.folders);
      }
    }
  }
}
