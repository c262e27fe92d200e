/**
Entries and the folders they are linked to (backend/crud/password.py,
backend/crud/access.py, backend/crud/folder.py). The encrypted document repeats
the folder's name, so every operation must keep the link and the name together;
a backup is only importable because they never differ.
*/
module Folders {
  import opened Wrappers
  import opened VaultTables
  import opened Access

  const HISTORY_LIMIT := 10

  /** A validated request body: a document without history, and the folder
      chosen by id, if any. */
  datatype Draft = Draft(doc: Document, folderId: Option<FolderId>)

  // ----- Rows ---------------------------------------------------------------------

  function WithEntry(t: Tables, id: EntryId, e: Entry): Tables { t.(entries := t.entries[id := e]) }

  function AddEntry(t: Tables, e: Entry): Tables {
    t.(entries := t.entries[t.nextEntry := e], nextEntry := t.nextEntry + 1)
  }

  function AddFolder(t: Tables, f: Folder): Tables {
    t.(folders := t.folders[t.nextFolder := f], nextFolder := t.nextFolder + 1)
  }

  ghost function FolderAt(folders: map<FolderId, Folder>, f: Folder): Option<FolderId> {
    if exists id :: id in folders && folders[id] == f then
      var id :| id in folders && folders[id] == f;
      Some(id)
    else None
  }

  predicate NameActive(t: Tables, name: string) {
    exists id :: id in t.entries && ActiveNamed(t.entries, id, name)
  }

  ghost function FindActive(t: Tables, name: string): Option<EntryId> {
    if NameActive(t, name) then
      var id :| id in t.entries && ActiveNamed(t.entries, id, name);
      Some(id)
    else None
  }

  predicate TrashedNamed(t: Tables, id: EntryId, name: string, wanted: Option<EntryId>) {
    && id in t.entries && t.entries[id].deleted.Some? && t.entries[id].doc.name == name
    && (wanted.Some? ==> id == wanted.value)
  }

  /** Trashed later, or at the same time with the higher id. */
  predicate LaterTrashed(t: Tables, a: EntryId, b: EntryId) {
    && a in t.entries && b in t.entries && t.entries[a].deleted.Some? && t.entries[b].deleted.Some?
    && var x, y := t.entries[a].deleted.value, t.entries[b].deleted.value;
    x > y || (x == y && a >= b)
  }

  /** The most recently trashed entry of that name, or the one asked for. */
  ghost predicate LatestTrashed(t: Tables, id: EntryId, name: string, wanted: Option<EntryId>) {
    && TrashedNamed(t, id, name, wanted)
    && forall other :: TrashedNamed(t, other, name, wanted) ==> LaterTrashed(t, id, other)
  }

  ghost function FindTrashed(t: Tables, name: string, wanted: Option<EntryId>): Option<EntryId> {
    if exists id :: LatestTrashed(t, id, name, wanted) then
      var id :| LatestTrashed(t, id, name, wanted);
      Some(id)
    else None
  }

  // ----- Folders of entries ----------------------------------------------------------

  /** `_folder_named`: found or made. */
  ghost function FolderNamed(t: Tables, owner: Option<UserId>,
          folder: Option<string>): Result<(Tables, Option<FolderId>), Error> {
    if !Names(folder) then Ok((t, None))
    else if owner.None? then Err(InvalidRequest)
    else
      match FolderAt(t.folders, Folder(owner.value, folder.value))
      case Some(id) => Ok((t, Some(id)))
      case None => Ok((AddFolder(t, Folder(owner.value, folder.value)), Some(t.nextFolder)))
  }

  /** `_folder_for`: an id decides and must not contradict the name. */
  ghost function FolderFor(t: Tables, owner: Option<UserId>,
          draft: Draft): Result<(Tables, Option<FolderId>, Document), Error> {
    if draft.folderId.Some? then
      if draft.folderId.value !in t.folders then Err(InvalidRequest)
      else
        var name := t.folders[draft.folderId.value].name;
        if Names(draft.doc.folder) && draft.doc.folder.value != name then Err(InvalidRequest)
        else Ok((t, draft.folderId, draft.doc.(folder := Some(name))))
    else
      match FolderNamed(t, owner, draft.doc.folder)
      case Err(e) => Err(e)
      case Ok((t', link)) => Ok((t', link, draft.doc))
  }

  /** `document_from`. */
  function DocumentFrom(doc: Document, history: seq<HistoryItem>): Document {
    doc.(folder := if Names(doc.folder) then doc.folder else None, history := history)
  }

  // ----- Operations --------------------------------------------------------------------

  function MayFile(t: Tables, folder: FolderId, user: UserId, now: Time): Result<(), Error> {
    if folder !in t.folders then Err(NotFound)
    else
      var level := FolderPermission(t, folder, user, now);
      if level == Some(Owns) || level == Some(CanWrite) then Ok(()) else Err(Forbidden)
  }

  ghost function CreatePassword(t: Tables, who: Actor, draft: Draft, now: Time): Result<Tables, Error> {
    if draft.folderId.Some? && MayFile(t, draft.folderId.value, who.user, now).Err?
    then Err(MayFile(t, draft.folderId.value, who.user, now).error)
    else
      match FolderFor(t, Some(who.owner), draft)
      case Err(e) => Err(e)
      case Ok((t', link, doc)) =>
        if NameActive(t', doc.name) then Err(InvalidRequest)
        else
          var owner := if draft.folderId.Some? && link.Some? && link.value in t'.folders
                       then t'.folders[link.value].owner else who.owner;
          var added := AddEntry(t', Entry(Some(owner), link, DocumentFrom(doc, []), now, now, None, false));
          var share := if who.service && link.None? then map[(t'.nextEntry, who.user) := Grant(Write, None)] else map[];
          Ok(added.(grants := added.grants.(entryUsers := added.grants.entryUsers + share)))
  }

  function HistoryAfter(current: Document, next: Document, stamp: string): seq<HistoryItem> {
    if current.value == next.value || next.kind != Login then current.history
    else
      var longer := [HistoryItem(current.value, stamp)] + current.history;
      if |longer| > HISTORY_LIMIT then longer[..HISTORY_LIMIT] else longer
  }

  /** A folder left as it was named keeps its link. */
  function Carried(e: Entry, draft: Draft): Draft {
    if draft.folderId.None? && e.link.Some? && draft.doc.folder == e.doc.folder then draft.(folderId := e.link)
    else draft
  }

  /** Moving an entry is for its owner, into folders of the same owner. */
  function MayMove(t: Tables, id: EntryId, who: Actor, target: Option<FolderId>, now: Time): Result<(), Error>
    requires id in t.entries
  {
    if Require(t, id, who.user, now, Owns).Err? then Err(Require(t, id, who.user, now, Owns).error)
    else if target.None? then Ok(())
    else if MayFile(t, target.value, who.user, now).Err? then MayFile(t, target.value, who.user, now)
    else if t.entries[id].owner != Some(t.folders[target.value].owner) then Err(InvalidRequest)
    else Ok(())
  }

  ghost function UpdatePassword(t: Tables, who: Actor, name: string, draft: Draft, now: Time,
          stamp: string): Result<Tables, Error> {
    match FindActive(t, name)
    case None => Err(NotFound)
    case Some(id) =>
      var e := t.entries[id];
      if Require(t, id, who.user, now, CanWrite).Err? then Err(Require(t, id, who.user, now, CanWrite).error)
      else
        var moved := Carried(e, draft);
        if moved.folderId != e.link && MayMove(t, id, who, moved.folderId, now).Err?
        then Err(MayMove(t, id, who, moved.folderId, now).error)
        else if e.doc.name != moved.doc.name && NameActive(t, moved.doc.name) then Err(InvalidRequest)
        else
          match FolderFor(t, Some(who.owner), moved)
          case Err(error) => Err(error)
          case Ok((t', link, doc)) =>
            var history := HistoryAfter(e.doc, moved.doc, stamp);
            Ok(WithEntry(t', id,
                e.(link := link, doc := DocumentFrom(doc, history), backedUp := false, updated := now)))
  }

  ghost function SetFavorite(t: Tables, who: Actor, name: string, favorite: bool, now: Time): Result<Tables, Error> {
    match FindActive(t, name)
    case None => Err(NotFound)
    case Some(id) =>
      match Require(t, id, who.user, now, CanWrite)
      case Err(e) => Err(e)
      case Ok(_) =>
        Ok(WithEntry(t, id, t.entries[id].(doc := t.entries[id].doc.(favorite := favorite), updated := now)))
  }

  ghost function DeletePassword(t: Tables, who: Actor, name: string, now: Time): Result<Tables, Error> {
    match FindActive(t, name)
    case None => Err(NotFound)
    case Some(id) =>
      match Require(t, id, who.user, now, CanWrite)
      case Err(e) => Err(e)
      case Ok(_) => Ok(WithEntry(t, id, t.entries[id].(deleted := Some(now), updated := now)))
  }

  ghost function RestorePassword(t: Tables, who: Actor, name: string, wanted: Option<EntryId>,
          now: Time): Result<Tables, Error> {
    match FindTrashed(t, name, wanted)
    case None => Err(NotFound)
    case Some(id) =>
      match Require(t, id, who.user, now, CanWrite)
      case Err(e) => Err(e)
      case Ok(_) =>
        if NameActive(t, name) then Err(InvalidRequest)
        else Ok(WithEntry(t, id, t.entries[id].(deleted := None, updated := now)))
  }

  /** Deleting the row takes its attachments and its grants with it. */
  function Purged(t: Tables, id: EntryId): Tables {
    t.(entries := t.entries - {id},
       attachments := map a | a in t.attachments && t.attachments[a].entry != id :: t.attachments[a],
       grants := t.grants.(entryUsers := map k | k in t.grants.entryUsers && k.0 != id :: t.grants.entryUsers[k]))
  }

  ghost function PurgePassword(t: Tables, who: Actor, name: string, wanted: Option<EntryId>,
          now: Time): Result<Tables, Error> {
    match FindTrashed(t, name, wanted)
    case None => Err(NotFound)
    case Some(id) =>
      match Require(t, id, who.user, now, Owns)
      case Err(e) => Err(e)
      case Ok(_) => Ok(Purged(t, id))
  }

  ghost function CreateFolder(t: Tables, who: Actor, name: string): Result<Tables, Error> {
    if FolderAt(t.folders, Folder(who.owner, name)).Some? then Err(InvalidRequest)
    else Ok(AddFolder(t, Folder(who.owner, name)))
  }

  function RenamedEntry(e: Entry, name: string, now: Time): Entry {
    e.(doc := e.doc.(folder := Some(name)), updated := now)
  }

  function RenamedEntries(entries: map<EntryId, Entry>, folder: FolderId, name: string, now: Time)
    : map<EntryId, Entry>
  {
    map id | id in entries ::
      if entries[id].link == Some(folder) then RenamedEntry(entries[id], name, now) else entries[id]
  }

  function RenameFolder(t: Tables, who: Actor, folder: FolderId, name: string, now: Time): Result<Tables, Error> {
    if folder !in t.folders then Err(NotFound)
    else if t.folders[folder].owner != who.user then Err(Forbidden)
    else if exists f :: f in t.folders && f != folder && t.folders[f] == Folder(who.user, name) then Err(InvalidRequest)
    else Ok(t.(folders := t.folders[folder := Folder(who.user, name)],
               entries := RenamedEntries(t.entries, folder, name, now)))
  }

  function RemoveFolder(t: Tables, who: Actor, folder: FolderId): Result<Tables, Error> {
    if folder !in t.folders then Err(NotFound)
    else if t.folders[folder].owner != who.user then Err(Forbidden)
    else if exists e :: e in t.entries && t.entries[e].link == Some(folder) then Err(InvalidRequest)
    else Ok(t.(folders := t.folders - {folder},
               grants := t.grants.(
                 folderUsers := map k | k in t.grants.folderUsers && k.0 != folder :: t.grants.folderUsers[k],
                 folderGroups := map k | k in t.grants.folderGroups && k.0 != folder :: t.grants.folderGroups[k])))
  }

  // ----- What they keep ------------------------------------------------------------------

  lemma AddFolderKeeps(t: Tables, f: Folder)
    requires Sound(t) && f.name != "" && forall id :: id in t.folders ==> t.folders[id] != f
    ensures Sound(AddFolder(t, f))
  {
  }

  /** Replacing the row of an entry, active only if its name is free. */
  lemma WithEntryKeeps(t: Tables, id: EntryId, e: Entry)
    requires Sound(t) && id in t.entries && EntryLinked(e, t.folders)
    requires Active(e) ==>
               forall other :: other in t.entries && ActiveNamed(t.entries, other, e.doc.name) ==> other == id
    ensures Sound(WithEntry(t, id, e))
  {
  }

  lemma AddEntryKeeps(t: Tables, e: Entry)
    requires Sound(t) && EntryLinked(e, t.folders) && (Active(e) ==> !NameActive(t, e.doc.name))
    ensures Sound(AddEntry(t, e))
  {
  }

  /** Only a folder may be added, and it is the one the name asks for. */
  lemma FolderNamedKeeps(t: Tables, owner: Option<UserId>, folder: Option<string>)
    requires Sound(t) && FolderNamed(t, owner, folder).Ok?
    ensures var (t', link) := FolderNamed(t, owner, folder).value;
            && Sound(t')
            && t' == t.(folders := t'.folders, nextFolder := t'.nextFolder)
            && (forall f :: f in t.folders ==> f in t'.folders && t'.folders[f] == t.folders[f])
            && (link.Some? <==> Names(folder))
            && (link.Some? ==>
                 owner.Some? && link.value in t'.folders && t'.folders[link.value] == Folder(owner.value, folder.value))
  {
    if Names(folder) && FolderAt(t.folders, Folder(owner.value, folder.value)).None? {
      AddFolderKeeps(t, Folder(owner.value, folder.value));
    }
  }

  lemma FolderForKeeps(t: Tables, owner: Option<UserId>, draft: Draft, history: seq<HistoryItem>)
    requires Sound(t) && FolderFor(t, owner, draft).Ok?
    ensures var (t', link, doc) := FolderFor(t, owner, draft).value;
            && Sound(t')
            && t' == t.(folders := t'.folders, nextFolder := t'.nextFolder)
            && doc.name == draft.doc.name
            && (draft.folderId.Some? ==> link == draft.folderId)
            && (Names(DocumentFrom(doc, history).folder) <==> link.Some?)
            && (link.Some? ==>
                 link.value in t'.folders && DocumentFrom(doc, history).folder == Some(t'.folders[link.value].name))
  {
    if draft.folderId.None? { FolderNamedKeeps(t, owner, draft.doc.folder); }
  }

  lemma CreatePasswordKeeps(t: Tables, who: Actor, draft: Draft, now: Time)
    requires Sound(t) && CreatePassword(t, who, draft, now).Ok?
    ensures Sound(CreatePassword(t, who, draft, now).value)
  {
    FolderForKeeps(t, Some(who.owner), draft, []);
    var (t', link, doc) := FolderFor(t, Some(who.owner), draft).value;
    var e := CreatePassword(t, who, draft, now).value.entries[t'.nextEntry];
    AddEntryKeeps(t', e);
  }

  lemma UpdatePasswordKeeps(t: Tables, who: Actor, name: string, draft: Draft, now: Time, stamp: string)
    requires Sound(t) && UpdatePassword(t, who, name, draft, now, stamp).Ok?
    ensures Sound(UpdatePassword(t, who, name, draft, now, stamp).value)
  {
    var id := FindActive(t, name).value;
    var e := t.entries[id];
    var moved := Carried(e, draft);
    var history := HistoryAfter(e.doc, moved.doc, stamp);
    FolderForKeeps(t, Some(who.owner), moved, history);
    var (t', link, doc) := FolderFor(t, Some(who.owner), moved).value;
    WithEntryKeeps(t', id, e.(link := link, doc := DocumentFrom(doc, history), backedUp := false, updated := now));
  }

  lemma FavoriteKeeps(t: Tables, who: Actor, name: string, favorite: bool, now: Time)
    requires Sound(t) && SetFavorite(t, who, name, favorite, now).Ok?
    ensures Sound(SetFavorite(t, who, name, favorite, now).value)
  {
    var id := FindActive(t, name).value;
    WithEntryKeeps(t, id, t.entries[id].(doc := t.entries[id].doc.(favorite := favorite), updated := now));
  }

  lemma DeleteKeeps(t: Tables, who: Actor, name: string, now: Time)
    requires Sound(t) && DeletePassword(t, who, name, now).Ok?
    ensures Sound(DeletePassword(t, who, name, now).value)
  {
    var id := FindActive(t, name).value;
    WithEntryKeeps(t, id, t.entries[id].(deleted := Some(now), updated := now));
  }

  lemma RestoreKeeps(t: Tables, who: Actor, name: string, wanted: Option<EntryId>, now: Time)
    requires Sound(t) && RestorePassword(t, who, name, wanted, now).Ok?
    ensures Sound(RestorePassword(t, who, name, wanted, now).value)
  {
    var id := FindTrashed(t, name, wanted).value;
    WithEntryKeeps(t, id, t.entries[id].(deleted := None, updated := now));
  }

  lemma PurgeKeeps(t: Tables, who: Actor, name: string, wanted: Option<EntryId>, now: Time)
    requires Sound(t) && PurgePassword(t, who, name, wanted, now).Ok?
    ensures Sound(PurgePassword(t, who, name, wanted, now).value)
  {
  }

  lemma RenameFolderKeeps(t: Tables, who: Actor, folder: FolderId, name: string, now: Time)
    requires Sound(t) && name != "" && RenameFolder(t, who, folder, name, now).Ok?
    ensures Sound(RenameFolder(t, who, folder, name, now).value)
  {
  }

  lemma RemoveFolderKeeps(t: Tables, who: Actor, folder: FolderId)
    requires Sound(t) && RemoveFolder(t, who, folder).Ok?
    ensures Sound(RemoveFolder(t, who, folder).value)
  {
  }

  // ----- Finding a trashed entry ------------------------------------------------------

  lemma {:induction false} LatestAmong(t: Tables, ids: set<EntryId>, name: string,
          wanted: Option<EntryId>) returns (latest: EntryId)
    requires ids != {} && forall id :: id in ids ==> TrashedNamed(t, id, name, wanted)
    ensures latest in ids && forall id :: id in ids ==> LaterTrashed(t, latest, id)
    decreases |ids|
  {
    latest :| latest in ids;
    assert TrashedNamed(t, latest, name, wanted);
    if ids != {latest} {
      var other := LatestAmong(t, ids - {latest}, name, wanted);
      assert TrashedNamed(t, latest, name, wanted) && TrashedNamed(t, other, name, wanted);
      var found := if LaterTrashed(t, other, latest) then other else latest;
      forall id | id in ids ensures LaterTrashed(t, found, id) {
        assert TrashedNamed(t, id, name, wanted);
        assert id != latest ==> LaterTrashed(t, other, id);
      }
      latest := found;
    }
  }

  /** The search finds something exactly when there is something of that name,
      and what it finds was trashed last. */
  lemma FindsTrashedExactly(t: Tables, name: string, wanted: Option<EntryId>)
    ensures FindTrashed(t, name, wanted).Some? <==> exists id :: id in t.entries && TrashedNamed(t, id, name, wanted)
    ensures FindTrashed(t, name, wanted).Some? ==> LatestTrashed(t, FindTrashed(t, name, wanted).value, name, wanted)
  {
    if any :| any in t.entries && TrashedNamed(t, any, name, wanted) {
      var ids := set id | id in t.entries && TrashedNamed(t, id, name, wanted);
      assert any in ids;
      var latest := LatestAmong(t, ids, name, wanted);
      assert LatestTrashed(t, latest, name, wanted);
    }
  }
}
