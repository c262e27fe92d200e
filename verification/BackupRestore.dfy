/**
Writing the vault into a backup and merging a backup into a vault
(backend/crud/backup.py), over the decrypted frames; BackupFormat has the bytes.
*/
module BackupRestore {
  import opened Wrappers
  import opened VaultTables
  import opened Folders
  import opened FolderRows

  const MAX_ATTACHMENTS := 20
  const MAX_ATTACHMENT_BYTES := 10 * 1024 * 1024
  const MAX_ENTRY_BYTES := 50 * 1024 * 1024

  type Content = seq<nat>

  /** An attachment's description and the frame that follows: `described` is
      what the recorded size and digest stand for. */
  datatype Attached = Attached(filename: string, contentType: Option<string>, described: Content, created: Time,
          content: Content)

  datatype BackupEntry = BackupEntry(
    doc: Document,
    folderUid: Option<nat>,
    created: Time,
    updated: Time,
    deleted: Option<Time>,
    attachments: seq<Attached>)

  datatype BackupFolder = BackupFolder(uid: nat, name: string)

  datatype Backup = Backup(version: nat, folders: seq<BackupFolder>, entries: seq<BackupEntry>)

  /** The normaliser of two-factor secrets. */
  type Tidy = Option<string> -> Option<string>

  // ----- Export ---------------------------------------------------------------------

  /** The ids below `n`, ascending. */
  function Ordered(ids: set<nat>, n: nat): (s: seq<nat>)
    ensures forall k :: 0 <= k < |s| ==> s[k] in ids && s[k] < n
  {
    if n == 0 then [] else Ordered(ids, n - 1) + (if n - 1 in ids then [n - 1] else [])
  }

  function AttachedOf(a: Attachment): Attached { Attached(a.filename, a.contentType, a.content, a.created, a.content) }

  /** The attachments of one entry with ids below `n`, in order. */
  function AttachmentsOf(attachments: map<AttachmentId, Attachment>, entry: EntryId, n: AttachmentId): seq<Attached> {
    if n == 0 then []
    else AttachmentsOf(attachments, entry, n - 1)
         + (if n - 1 in attachments && attachments[n - 1].entry == entry then [AttachedOf(attachments[n - 1])] else [])
  }

  function ExportEntry(t: Tables, id: EntryId): BackupEntry
    requires id in t.entries
  {
    var e := t.entries[id];
    BackupEntry(e.doc, e.link, e.created, e.updated, e.deleted, AttachmentsOf(t.attachments, id, t.nextAttachment))
  }

  /** The owner's folders and those the exported entries are in. */
  function ExportedFolders(t: Tables, ids: set<EntryId>, owner: Option<UserId>): set<FolderId> {
    set f | f in t.folders
            && ((owner.Some? && t.folders[f].owner == owner.value)
                || exists id :: id in ids && id in t.entries && t.entries[id].link == Some(f))
  }

  function ExportFolders(t: Tables, fs: seq<FolderId>): seq<BackupFolder>
    requires forall k :: 0 <= k < |fs| ==> fs[k] in t.folders
  {
    seq(|fs|, k requires 0 <= k < |fs| => BackupFolder(fs[k], t.folders[fs[k]].name))
  }

  function ExportEntries(t: Tables, ids: seq<EntryId>): seq<BackupEntry>
    requires forall k :: 0 <= k < |ids| ==> ids[k] in t.entries
  {
    seq(|ids|, k requires 0 <= k < |ids| => ExportEntry(t, ids[k]))
  }

  function Export(t: Tables, ids: set<EntryId>, owner: Option<UserId>): Backup
    requires ids <= t.entries.Keys
  {
    Backup(3, ExportFolders(t, Ordered(ExportedFolders(t, ids, owner), t.nextFolder)),
           ExportEntries(t, Ordered(ids, t.nextEntry)))
  }

  /** `create_backup`: the folder list, then frame after frame. */
  method CreateBackup(t: Tables, ids: set<EntryId>, owner: Option<UserId>) returns (b: Backup)
    requires ids <= t.entries.Keys
    ensures b == Export(t, ids, owner)
  {
    var order := Ordered(ids, t.nextEntry);
    var written: seq<BackupEntry> := [];
    for k := 0 to |order|
      invariant written == ExportEntries(t, order[..k])
    {
      var e := t.entries[order[k]];
      var attached: seq<Attached> := [];
      for a := 0 to t.nextAttachment
        invariant attached == AttachmentsOf(t.attachments, order[k], a)
      {
        if a in t.attachments && t.attachments[a].entry == order[k] {
          attached := attached + [AttachedOf(t.attachments[a])];
        }
      }
      written := written + [BackupEntry(e.doc, e.link, e.created, e.updated, e.deleted, attached)];
    }
    assert order[..|order|] == order;
    return Backup(3, ExportFolders(t, Ordered(ExportedFolders(t, ids, owner), t.nextFolder)), written);
  }

  // ----- Restore ---------------------------------------------------------------------

  datatype Target = Target(folder: FolderId, name: string)

  datatype Counts = Counts(imported: nat, skipped: nat, overwritten: nat, trashed: nat)

  /** The tables while entries are merged, with the indexes kept beside them:
      active names, trashed (name, time) pairs, and the active names read. */
  datatype Merge = Merge(
    t: Tables,
    active: map<string, EntryId>,
    trashed: map<(string, Time), EntryId>,
    seen: set<string>,
    counts: Counts)

  /** Who imports, how conflicts are handled, and the time overwritten rows get. */
  datatype Mode = Mode(owner: Option<UserId>, overwrite: bool, movedAt: Time, tidy: Tidy)

  /** The folders of the file, by identity: found or made. A name twice or an
      empty one fails the import. */
  ghost function RestoreFolders(t: Tables, owner: Option<UserId>,
          folders: seq<BackupFolder>): Result<(Tables, map<nat, Target>), Error> {
    if folders == [] then Ok((t, map[]))
    else
      var last := folders[|folders| - 1];
      match RestoreFolders(t, owner, folders[..|folders| - 1])
      case Err(e) => Err(e)
      case Ok((t', targets)) =>
        if last.uid in targets || last.name == "" then Err(InvalidRequest)
        else
          match FolderNamed(t', owner, Some(last.name))
          case Err(e) => Err(e)
          case Ok((t'', link)) =>
            if link.None? then Err(InvalidRequest) else Ok((t'', targets[last.uid := Target(link.value, last.name)]))
  }

  /** The link a frame asks for: Err where it contradicts the folder list. */
  function LinkOf(targets: map<nat, Target>, version: nat, entry: BackupEntry): Result<Option<FolderId>, Error> {
    if entry.folderUid.Some? then
      if entry.folderUid.value !in targets || entry.doc.folder != Some(targets[entry.folderUid.value].name)
      then Err(InvalidRequest)
      else Ok(Some(targets[entry.folderUid.value].folder))
    else if version == 3 && entry.doc.folder.Some? then Err(InvalidRequest)
    else Ok(None)
  }

  predicate Storable(text: string) { '\0' !in text }

  predicate StorableOption(text: Option<string>) { text.Some? ==> Storable(text.value) }

  function TotalBytes(attachments: seq<Attached>): nat {
    if attachments == [] then 0
    else TotalBytes(attachments[..|attachments| - 1]) + |attachments[|attachments| - 1].described|
  }

  predicate AttachmentsAllowed(attachments: seq<Attached>) {
    && |attachments| <= MAX_ATTACHMENTS
    && (forall k :: 0 <= k < |attachments| ==> 1 <= |attachments[k].described| <= MAX_ATTACHMENT_BYTES)
    && TotalBytes(attachments) <= MAX_ENTRY_BYTES
  }

  /** What `_check_entry` lets through. */
  predicate Restorable(entry: BackupEntry) {
    && entry.doc.name != "" && entry.doc.value != ""
    && Storable(entry.doc.name) && StorableOption(entry.doc.username) && StorableOption(entry.doc.description)
    && AttachmentsAllowed(entry.attachments)
  }

  predicate ContentsMatch(attachments: seq<Attached>) {
    forall k :: 0 <= k < |attachments| ==> attachments[k].content == attachments[k].described
  }

  /** The document as it is stored again. */
  function RestoredDocument(doc: Document, tidy: Tidy): Document {
    DocumentFrom(doc.(totp := tidy(doc.totp)), doc.history)
  }

  function Moved(t: Tables, id: EntryId, at: Time): Tables
    requires id in t.entries
  {
    WithEntry(t, id, t.entries[id].(deleted := Some(at), updated := at))
  }

  function AddAttachments(t: Tables, id: EntryId, attachments: seq<Attached>): Tables {
    if attachments == [] then t
    else
      var t' := AddAttachments(t, id, attachments[..|attachments| - 1]);
      var a := attachments[|attachments| - 1];
      t'.(attachments :=
          t'.attachments[t'.nextAttachment := Attachment(id, a.filename, a.contentType, a.content, a.created)],
          nextAttachment := t'.nextAttachment + 1)
  }

  /** The new row with its attachments; its id is the next one. */
  ghost function Inserted(t: Tables, owner: Option<UserId>, link: Option<FolderId>, doc: Document,
          entry: BackupEntry): Result<Tables, Error> {
    var filed: Result<(Tables, Option<FolderId>), Error> :=
      if link.Some? then Ok((t, link)) else FolderNamed(t, owner, doc.folder);
    match filed
    case Err(e) => Err(e)
    case Ok((t', link')) =>
      var added := AddEntry(t', Entry(owner, link', doc, entry.created, entry.updated, entry.deleted, true));
      Ok(AddAttachments(added, t'.nextEntry, entry.attachments))
  }

  /** An entry that is skipped still has its frames checked. */
  function Skipped(m: Merge): Merge { m.(counts := m.counts.(skipped := m.counts.skipped + 1)) }

  ghost function MergeTrashed(m: Merge, mode: Mode, link: Option<FolderId>, doc: Document, entry: BackupEntry,
          at: Time): Result<Merge, Error> {
    var key := (doc.name, at);
    if key in m.trashed && m.trashed[key] in m.t.entries
       && (mode.owner.None? || m.t.entries[m.trashed[key]].owner == mode.owner)
    then Ok(Skipped(m))
    else
      match Inserted(m.t, mode.owner, link, doc, entry)
      case Err(e) => Err(e)
      case Ok(t) =>
        Ok(m.(t := t, trashed := m.trashed[key := m.t.nextEntry], counts := m.counts.(trashed := m.counts.trashed + 1)))
  }

  ghost function MergeActive(m: Merge, mode: Mode, link: Option<FolderId>, doc: Document,
          entry: BackupEntry): Result<Merge, Error> {
    var there := doc.name in m.active && m.active[doc.name] in m.t.entries;
    if there && !mode.overwrite then Ok(Skipped(m))
    else if there && mode.owner.Some? && m.t.entries[m.active[doc.name]].owner != mode.owner then Err(Forbidden)
    else
      var t := if there then Moved(m.t, m.active[doc.name], mode.movedAt) else m.t;
      match Inserted(t, mode.owner, link, doc, entry)
      case Err(e) => Err(e)
      case Ok(t') =>
        var counts := if there then m.counts.(overwritten := m.counts.overwritten + 1)
                      else m.counts.(imported := m.counts.imported + 1);
        Ok(m.(t := t', active := m.active[doc.name := m.t.nextEntry], counts := counts))
  }

  /** One entry of the file with its attachment frames. */
  ghost function MergeEntry(m: Merge, mode: Mode, targets: map<nat, Target>, version: nat,
          entry: BackupEntry): Result<Merge, Error> {
    match LinkOf(targets, version, entry)
    case Err(e) => Err(e)
    case Ok(link) =>
      if !Restorable(entry) || (entry.deleted.None? && entry.doc.name in m.seen) then Err(InvalidRequest)
      else
        var doc := RestoredDocument(entry.doc, mode.tidy);
        var merged := if entry.deleted.Some? then MergeTrashed(m, mode, link, doc, entry, entry.deleted.value)
                      else MergeActive(m.(seen := m.seen + {doc.name}), mode, link, doc, entry);
        if merged.Ok? && !ContentsMatch(entry.attachments) then Err(InvalidRequest) else merged
  }

  ghost function MergeEntries(m: Merge, mode: Mode, targets: map<nat, Target>, version: nat,
          entries: seq<BackupEntry>): Result<Merge, Error> {
    if entries == [] then Ok(m)
    else
      match MergeEntries(m, mode, targets, version, entries[..|entries| - 1])
      case Err(e) => Err(e)
      case Ok(m') => MergeEntry(m', mode, targets, version, entries[|entries| - 1])
  }

  function ActiveMap(t: Tables): map<string, EntryId>
    requires UniqueActive(t.entries)
  {
    map id | id in t.entries && Active(t.entries[id]) :: t.entries[id].doc.name := id
  }

  /** A query without an order decides which of two rows with one key is kept. */
  predicate TrashedIndex(trashed: map<(string, Time), EntryId>, t: Tables) {
    && (forall k :: k in trashed ==> trashed[k] in t.entries && TrashedAs(t.entries[trashed[k]], k))
    && (forall id :: id in t.entries && t.entries[id].deleted.Some? ==>
          (t.entries[id].doc.name, t.entries[id].deleted.value) in trashed)
  }

  predicate TrashedAs(e: Entry, key: (string, Time)) { e.doc.name == key.0 && e.deleted == Some(key.1) }

  function BeginMerge(t: Tables, trashed: map<(string, Time), EntryId>): Merge
    requires UniqueActive(t.entries)
  {
    Merge(t, ActiveMap(t), trashed, {}, Counts(0, 0, 0, 0))
  }

  /** `_restore`. */
  ghost function Restore(t: Tables, trashed: map<(string, Time), EntryId>, mode: Mode, b: Backup): Result<Merge, Error>
    requires UniqueActive(t.entries)
  {
    match RestoreFolders(t, mode.owner, b.folders)
    case Err(e) => Err(e)
    case Ok((t', targets)) =>
      if !UniqueActive(t'.entries) then Err(InvalidRequest)
      else MergeEntries(BeginMerge(t', trashed), mode, targets, b.version, b.entries)
  }

  // ----- What merging keeps -------------------------------------------------------------

  /** The rows an import replaces: active, the importer's, of a name the file
      has an active entry for, in an import that overwrites. */
  predicate Overwrites(mode: Mode, seen: set<string>, before: Entry) {
    mode.overwrite && Active(before) && (mode.owner.None? || before.owner == mode.owner) && before.doc.name in seen
  }

  /** What becomes of a row from before: those are moved to the trash, all
      others are left alone. */
  function Spared(before: Entry, mode: Mode, seen: set<string>): Entry {
    if Overwrites(mode, seen, before) then before.(deleted := Some(mode.movedAt), updated := mode.movedAt) else before
  }

  predicate AllSpared(before: Tables, t: Tables, mode: Mode, seen: set<string>) {
    forall id :: id in before.entries ==> id in t.entries && t.entries[id] == Spared(before.entries[id], mode, seen)
  }

  predicate AttachmentsSpared(before: Tables, t: Tables) {
    && (forall a :: a in before.attachments ==> a in t.attachments && t.attachments[a] == before.attachments[a])
    && (forall a :: a in t.attachments && a !in before.attachments ==> t.attachments[a].entry !in before.entries)
  }

  predicate TablesGrow(before: Tables, t: Tables) {
    && t.grants == before.grants && before.nextEntry <= t.nextEntry
    && (forall f :: f in before.folders ==> f in t.folders && t.folders[f] == before.folders[f])
  }

  /** Entries the restore added are the importer's, the active ones under names
      of the file, and never in a folder without a name. */
  predicate AddedSeen(before: Tables, t: Tables, owner: Option<UserId>, seen: set<string>) {
    forall id :: id in t.entries && id !in before.entries ==>
      && t.entries[id].owner == owner && t.entries[id].doc.folder != Some("")
      && (Active(t.entries[id]) ==> t.entries[id].doc.name in seen)
  }

  predicate TargetsOk(targets: map<nat, Target>, folders: map<FolderId, Folder>) {
    forall u :: u in targets ==>
      targets[u].folder in folders && folders[targets[u].folder].name == targets[u].name && targets[u].name != ""
  }

  /** The active map is the table's active names. */
  predicate ActiveOk(active: map<string, EntryId>, entries: map<EntryId, Entry>) {
    && (forall n :: n in active ==> ActiveNamed(entries, active[n], n))
    && (forall id :: id in entries && Active(entries[id]) ==>
         entries[id].doc.name in active && active[entries[id].doc.name] == id)
  }

  predicate TrashedOk(trashed: map<(string, Time), EntryId>, entries: map<EntryId, Entry>) {
    forall k :: k in trashed ==> trashed[k] in entries && TrashedAs(entries[trashed[k]], k)
  }

  function Total(c: Counts): nat { c.imported + c.skipped + c.overwritten + c.trashed }

  /** What has become of the tables since before the import. */
  predicate History(before: Tables, t: Tables, mode: Mode, seen: set<string>) {
    && Valid(before) && Sound(t)
    && AllSpared(before, t, mode, seen) && AttachmentsSpared(before, t)
    && TablesGrow(before, t) && AddedSeen(before, t, mode.owner, seen)
  }

  predicate Merging(before: Tables, m: Merge, mode: Mode, targets: map<nat, Target>) {
    && History(before, m.t, mode, m.seen)
    && TargetsOk(targets, m.t.folders)
    && ActiveOk(m.active, m.t.entries) && TrashedOk(m.trashed, m.t.entries)
    && m.seen <= m.active.Keys
  }

  /** A link and a document that agree. */
  predicate Fits(link: Option<FolderId>, doc: Document, folders: map<FolderId, Folder>) {
    && doc.folder != Some("")
    && (link.Some? ==> link.value in folders && doc.folder == Some(folders[link.value].name))
  }

  lemma {:induction false} AddAttachmentsKeeps(before: Tables, t: Tables, id: EntryId, attachments: seq<Attached>)
    requires Sound(t) && AttachmentsSpared(before, t) && id in t.entries && id !in before.entries
    ensures var t' := AddAttachments(t, id, attachments);
            && Sound(t') && AttachmentsSpared(before, t')
            && t' == t.(attachments := t'.attachments, nextAttachment := t'.nextAttachment)
  {
    if attachments != [] {
      AddAttachmentsKeeps(before, t, id, attachments[..|attachments| - 1]);
    }
  }

  /** The row at the next id is new, the others and the folders are as before. */
  predicate NewRow(t: Tables, t': Tables, owner: Option<UserId>, doc: Document, entry: BackupEntry) {
    var id := t.nextEntry;
    && t'.nextEntry == id + 1 && id in t'.entries
    && t'.entries == t.entries[id := t'.entries[id]]
    && t'.entries[id] == Entry(owner, t'.entries[id].link, doc, entry.created, entry.updated, entry.deleted, true)
    && t'.grants == t.grants
    && forall f :: f in t.folders ==> f in t'.folders && t'.folders[f] == t.folders[f]
  }

  lemma InsertedKeeps(before: Tables, t: Tables, owner: Option<UserId>, link: Option<FolderId>, doc: Document,
          entry: BackupEntry)
    requires KeysBelow(before.entries, before.nextEntry) && Sound(t) && AttachmentsSpared(before, t)
    requires before.nextEntry <= t.nextEntry
    requires Inserted(t, owner, link, doc, entry).Ok? && Fits(link, doc, t.folders)
    requires entry.deleted.None? ==> !NameActive(t, doc.name)
    ensures var t' := Inserted(t, owner, link, doc, entry).value;
            Sound(t') && AttachmentsSpared(before, t') && NewRow(t, t', owner, doc, entry)
  {
    if link.None? { FolderNamedKeeps(t, owner, doc.folder); }
    var (t', link') := if link.Some? then (t, link) else FolderNamed(t, owner, doc.folder).value;
    var e := Entry(owner, link', doc, entry.created, entry.updated, entry.deleted, true);
    AddEntryKeeps(t', e);
    AddAttachmentsKeeps(before, AddEntry(t', e), t'.nextEntry, entry.attachments);
  }

  lemma NewRowHistory(before: Tables, t: Tables, t': Tables, mode: Mode, seen: set<string>, doc: Document,
          entry: BackupEntry)
    requires History(before, t, mode, seen) && NewRow(t, t', mode.owner, doc, entry) && Sound(t')
    requires AttachmentsSpared(before, t')
    requires doc.folder != Some("") && (entry.deleted.None? ==> doc.name in seen)
    ensures History(before, t', mode, seen)
  {
  }

  /** The link of a frame, checked against targets that are in order. */
  lemma LinkFits(targets: map<nat, Target>, folders: map<FolderId, Folder>, version: nat, entry: BackupEntry,
          tidy: Tidy)
    requires TargetsOk(targets, folders) && LinkOf(targets, version, entry).Ok?
    ensures Fits(LinkOf(targets, version, entry).value, RestoredDocument(entry.doc, tidy), folders)
  {
  }

  lemma TargetsStay(targets: map<nat, Target>, folders: map<FolderId, Folder>, folders': map<FolderId, Folder>)
    requires TargetsOk(targets, folders) && forall f :: f in folders ==> f in folders' && folders'[f] == folders[f]
    ensures TargetsOk(targets, folders')
  {
  }

  // ----- Trashed entries ------------------------------------------------------------------

  lemma TrashedGains(m: Merge, t': Tables, owner: Option<UserId>, doc: Document, entry: BackupEntry, at: Time)
    requires KeysBelow(m.t.entries, m.t.nextEntry) && ActiveOk(m.active, m.t.entries)
    requires TrashedOk(m.trashed, m.t.entries)
    requires NewRow(m.t, t', owner, doc, entry) && entry.deleted == Some(at)
    ensures ActiveOk(m.active, t'.entries) && TrashedOk(m.trashed[(doc.name, at) := m.t.nextEntry], t'.entries)
  {
  }

  lemma TrashedMergeKeeps(before: Tables, m: Merge, mode: Mode, targets: map<nat, Target>, link: Option<FolderId>,
          doc: Document, entry: BackupEntry, at: Time)
    requires Merging(before, m, mode, targets) && entry.deleted == Some(at) && Fits(link, doc, m.t.folders)
    requires Inserted(m.t, mode.owner, link, doc, entry).Ok?
    ensures var t' := Inserted(m.t, mode.owner, link, doc, entry).value;
            Merging(before, m.(t := t', trashed := m.trashed[(doc.name, at) := m.t.nextEntry]), mode, targets)
  {
    var t' := Inserted(m.t, mode.owner, link, doc, entry).value;
    InsertedKeeps(before, m.t, mode.owner, link, doc, entry);
    NewRowHistory(before, m.t, t', mode, m.seen, doc, entry);
    TrashedGains(m, t', mode.owner, doc, entry, at);
    TargetsStay(targets, m.t.folders, t'.folders);
  }

  // ----- Active entries --------------------------------------------------------------------

  /** A row from before that is active has not been touched. */
  lemma ActiveIsUntouched(before: Tables, t: Tables, mode: Mode, seen: set<string>, id: EntryId)
    requires AllSpared(before, t, mode, seen) && id in before.entries && Active(t.entries[id])
    ensures t.entries[id] == before.entries[id]
  {
  }

  /** Seeing one name more is no change where no row is to be overwritten. */
  lemma SeenGrows(before: Tables, t: Tables, active: map<string, EntryId>, mode: Mode, seen: set<string>, name: string)
    requires History(before, t, mode, seen) && ActiveOk(active, t.entries) && (mode.overwrite ==> name !in active)
    ensures History(before, t, mode, seen + {name})
  {
    forall id | id in before.entries
      ensures id in t.entries && t.entries[id] == Spared(before.entries[id], mode, seen + {name})
    {
      assert t.entries[id] == Spared(before.entries[id], mode, seen);
      assert Active(t.entries[id]) ==> t.entries[id].doc.name in active;
    }
  }

  /** The entry a new one overwrites is from before, and unchanged so far. */
  lemma OverwritesOld(before: Tables, t: Tables, active: map<string, EntryId>, mode: Mode, seen: set<string>,
          name: string)
    requires AllSpared(before, t, mode, seen) && AddedSeen(before, t, mode.owner, seen) && ActiveOk(active, t.entries)
    requires name !in seen && name in active
    ensures active[name] in before.entries && active[name] in t.entries
    ensures t.entries[active[name]] == before.entries[active[name]]
    ensures ActiveNamed(t.entries, active[name], name)
  {
    var id := active[name];
    if id in before.entries { ActiveIsUntouched(before, t, mode, seen, id); }
  }

  /** The one row from before that changes is the one overwritten. */
  lemma SparesOne(before: Entry, e: Entry, mode: Mode, seen: set<string>, name: string, replaced: bool)
    requires e == Spared(before, mode, seen) && name !in seen && mode.overwrite
    requires replaced == (Active(e) && (mode.owner.None? || e.owner == mode.owner) && e.doc.name == name)
    ensures Spared(before, mode, seen + {name})
         == if replaced then e.(deleted := Some(mode.movedAt), updated := mode.movedAt) else e
  {
  }

  lemma MovedSpares(before: Tables, t: Tables, id: EntryId, mode: Mode, seen: set<string>, name: string)
    requires AllSpared(before, t, mode, seen) && name !in seen && mode.overwrite
    requires id in t.entries && (mode.owner.None? || t.entries[id].owner == mode.owner)
    requires forall other :: ActiveNamed(t.entries, other, name) <==> other == id
    ensures AllSpared(before, Moved(t, id, mode.movedAt), mode, seen + {name})
  {
    var t' := Moved(t, id, mode.movedAt);
    forall other | other in before.entries
      ensures other in t'.entries && t'.entries[other] == Spared(before.entries[other], mode, seen + {name})
    {
      assert ActiveNamed(t.entries, other, name) <==> other == id;
      SparesOne(before.entries[other], t.entries[other], mode, seen, name, other == id);
    }
  }

  lemma MovedAdds(before: Tables, t: Tables, id: EntryId, mode: Mode, seen: set<string>, name: string)
    requires AddedSeen(before, t, mode.owner, seen) && id in before.entries && id in t.entries
    ensures AddedSeen(before, Moved(t, id, mode.movedAt), mode.owner, seen + {name})
  {
  }

  lemma MovedHistory(before: Tables, t: Tables, active: map<string, EntryId>, mode: Mode, seen: set<string>,
          name: string)
    requires History(before, t, mode, seen) && ActiveOk(active, t.entries) && name !in seen && name in active
    requires mode.overwrite
    requires active[name] in t.entries && (mode.owner.None? || t.entries[active[name]].owner == mode.owner)
    ensures History(before, Moved(t, active[name], mode.movedAt), mode, seen + {name})
  {
    OverwritesOld(before, t, active, mode, seen, name);
    var id := active[name];
    MovedSound(t, id, mode.movedAt);
    MovedSpares(before, t, id, mode, seen, name);
    MovedAdds(before, t, id, mode, seen, name);
  }

  lemma MovedSound(t: Tables, id: EntryId, at: Time)
    requires Sound(t) && id in t.entries
    ensures Sound(Moved(t, id, at))
  {
    WithEntryKeeps(t, id, Moved(t, id, at).entries[id]);
  }

  lemma MovedIndexes(m: Merge, name: string, at: Time)
    requires ActiveOk(m.active, m.t.entries) && TrashedOk(m.trashed, m.t.entries) && name in m.active
    requires m.active[name] in m.t.entries
    ensures var t := Moved(m.t, m.active[name], at);
            ActiveOk(m.active - {name}, t.entries) && TrashedOk(m.trashed, t.entries)
  {
  }

  lemma ActiveGains(active: map<string, EntryId>, entries: map<EntryId, Entry>, entries': map<EntryId, Entry>,
          id: EntryId, name: string)
    requires ActiveOk(active, entries) && name !in active && id !in entries
    requires id in entries' && entries' == entries[id := entries'[id]] && ActiveNamed(entries', id, name)
    ensures ActiveOk(active[name := id], entries')
  {
    forall e | e in entries' && Active(entries'[e])
      ensures entries'[e].doc.name in active[name := id] && active[name := id][entries'[e].doc.name] == e
    {
      if e != id { assert e in entries && entries[e].doc.name in active; }
    }
  }

  /** An active entry is added to tables in which its name is free. */
  lemma PlacedKeeps(before: Tables, t: Tables, active: map<string, EntryId>, m': Merge, mode: Mode,
          targets: map<nat, Target>, link: Option<FolderId>, doc: Document, entry: BackupEntry)
    requires History(before, t, mode, m'.seen) && TargetsOk(targets, t.folders)
    requires ActiveOk(active, t.entries) && TrashedOk(m'.trashed, t.entries) && doc.name !in active
    requires doc.name in m'.seen
    requires entry.deleted.None? && Fits(link, doc, t.folders)
    requires Inserted(t, mode.owner, link, doc, entry) == Ok(m'.t) && m'.active == active[doc.name := t.nextEntry]
    requires m'.seen <= m'.active.Keys
    ensures Merging(before, m', mode, targets)
  {
    assert !NameActive(t, doc.name);
    InsertedKeeps(before, t, mode.owner, link, doc, entry);
    TargetsStay(targets, t.folders, m'.t.folders);
    NewRowHistory(before, t, m'.t, mode, m'.seen, doc, entry);
    ActiveGains(active, t.entries, m'.t.entries, t.nextEntry, doc.name);
    assert TrashedOk(m'.trashed, m'.t.entries);
  }

  lemma Rekeyed<K, V>(m: map<K, V>, k: K, v: V)
    ensures (m - {k})[k := v] == m[k := v]
  {
  }

  lemma OverwriteKeeps(before: Tables, m: Merge, m': Merge, mode: Mode, targets: map<nat, Target>,
          link: Option<FolderId>, doc: Document, entry: BackupEntry)
    requires Merging(before, m, mode, targets) && entry.deleted.None? && Fits(link, doc, m.t.folders)
    requires doc.name !in m.seen && doc.name in m.active && m.active[doc.name] in m.t.entries && mode.overwrite
    requires mode.owner.None? || m.t.entries[m.active[doc.name]].owner == mode.owner
    requires Inserted(Moved(m.t, m.active[doc.name], mode.movedAt), mode.owner, link, doc, entry) == Ok(m'.t)
    requires m'.active == m.active[doc.name := m.t.nextEntry] && m'.trashed == m.trashed
    requires m'.seen == m.seen + {doc.name}
    ensures Merging(before, m', mode, targets)
  {
    MovedHistory(before, m.t, m.active, mode, m.seen, doc.name);
    MovedIndexes(m, doc.name, mode.movedAt);
    var active := m.active - {doc.name};
    Rekeyed(m.active, doc.name, m.t.nextEntry);
    PlacedKeeps(before, Moved(m.t, m.active[doc.name], mode.movedAt), active, m', mode, targets, link, doc, entry);
  }

  lemma NewNameKeeps(before: Tables, m: Merge, mode: Mode, targets: map<nat, Target>, link: Option<FolderId>,
          doc: Document, entry: BackupEntry)
    requires Merging(before, m, mode, targets) && entry.deleted.None? && doc.name !in m.active
    requires Fits(link, doc, m.t.folders)
    requires MergeActive(m.(seen := m.seen + {doc.name}), mode, link, doc, entry).Ok?
    ensures Merging(before, MergeActive(m.(seen := m.seen + {doc.name}), mode, link, doc, entry).value, mode, targets)
  {
    var m' := MergeActive(m.(seen := m.seen + {doc.name}), mode, link, doc, entry).value;
    SeenGrows(before, m.t, m.active, mode, m.seen, doc.name);
    PlacedKeeps(before, m.t, m.active, m', mode, targets, link, doc, entry);
  }

  lemma ActiveMergeKeeps(before: Tables, m: Merge, mode: Mode, targets: map<nat, Target>, link: Option<FolderId>,
          doc: Document, entry: BackupEntry)
    requires Merging(before, m, mode, targets) && entry.deleted.None? && doc.name !in m.seen
    requires Fits(link, doc, m.t.folders)
    requires MergeActive(m.(seen := m.seen + {doc.name}), mode, link, doc, entry).Ok?
    ensures Merging(before, MergeActive(m.(seen := m.seen + {doc.name}), mode, link, doc, entry).value, mode, targets)
  {
    if doc.name !in m.active {
      NewNameKeeps(before, m, mode, targets, link, doc, entry);
    } else {
      assert m.active[doc.name] in m.t.entries;
      if mode.overwrite {
        var m' := MergeActive(m.(seen := m.seen + {doc.name}), mode, link, doc, entry).value;
        OverwriteKeeps(before, m, m', mode, targets, link, doc, entry);
      } else {
        SeenGrows(before, m.t, m.active, mode, m.seen, doc.name);
      }
    }
  }

  lemma MergeEntryKeeps(before: Tables, m: Merge, mode: Mode, targets: map<nat, Target>, version: nat,
          entry: BackupEntry)
    requires Merging(before, m, mode, targets) && MergeEntry(m, mode, targets, version, entry).Ok?
    ensures Merging(before, MergeEntry(m, mode, targets, version, entry).value, mode, targets)
  {
    LinkFits(targets, m.t.folders, version, entry, mode.tidy);
    var link := LinkOf(targets, version, entry).value;
    var doc := RestoredDocument(entry.doc, mode.tidy);
    if entry.deleted.Some? {
      if MergeTrashed(m, mode, link, doc, entry, entry.deleted.value).value != Skipped(m) {
        TrashedMergeKeeps(before, m, mode, targets, link, doc, entry, entry.deleted.value);
      }
    } else {
      ActiveMergeKeeps(before, m, mode, targets, link, doc, entry);
    }
  }

  lemma CountsOne(m: Merge, mode: Mode, targets: map<nat, Target>, version: nat, entry: BackupEntry)
    requires MergeEntry(m, mode, targets, version, entry).Ok?
    ensures Total(MergeEntry(m, mode, targets, version, entry).value.counts) == Total(m.counts) + 1
  {
  }

  lemma {:induction false} MergeEntriesKeep(before: Tables, m: Merge, mode: Mode, targets: map<nat, Target>,
          version: nat, entries: seq<BackupEntry>)
    requires Merging(before, m, mode, targets) && MergeEntries(m, mode, targets, version, entries).Ok?
    ensures Merging(before, MergeEntries(m, mode, targets, version, entries).value, mode, targets)
    ensures Total(MergeEntries(m, mode, targets, version, entries).value.counts) == Total(m.counts) + |entries|
  {
    if entries != [] {
      var front := entries[..|entries| - 1];
      var m' := MergeEntries(m, mode, targets, version, front).value;
      MergeEntriesKeep(before, m, mode, targets, version, front);
      MergeEntryKeeps(before, m', mode, targets, version, entries[|entries| - 1]);
      CountsOne(m', mode, targets, version, entries[|entries| - 1]);
    }
  }

  // ----- A whole restore ---------------------------------------------------------------

  lemma {:induction false} RestoreFoldersKeep(t: Tables, owner: Option<UserId>, folders: seq<BackupFolder>)
    requires Sound(t) && RestoreFolders(t, owner, folders).Ok?
    ensures var (t', targets) := RestoreFolders(t, owner, folders).value;
            && Sound(t') && TargetsOk(targets, t'.folders)
            && t' == t.(folders := t'.folders, nextFolder := t'.nextFolder)
            && (forall f :: f in t.folders ==> f in t'.folders && t'.folders[f] == t.folders[f])
  {
    if folders != [] {
      var front, last := folders[..|folders| - 1], folders[|folders| - 1];
      RestoreFoldersKeep(t, owner, front);
      var (t1, targets) := RestoreFolders(t, owner, front).value;
      FolderNamedKeeps(t1, owner, Some(last.name));
      var (t2, link) := FolderNamed(t1, owner, Some(last.name)).value;
      TargetsStay(targets, t1.folders, t2.folders);
    }
  }

  lemma BeginMerging(before: Tables, t: Tables, trashed: map<(string, Time), EntryId>, mode: Mode,
          targets: map<nat, Target>)
    requires Sound(before) && Sound(t) && t == before.(folders := t.folders, nextFolder := t.nextFolder)
    requires forall f :: f in before.folders ==> f in t.folders && t.folders[f] == before.folders[f]
    requires TargetsOk(targets, t.folders) && TrashedIndex(trashed, before)
    ensures Merging(before, BeginMerge(t, trashed), mode, targets)
  {
  }

  /** A restore that commits loses nothing: every row from before is there with
      its document, links, owner and attachments, and `updated` and `deleted`
      too, unless the import overwrites and the row was active, the importer's,
      and of a name the file has an active entry for: exactly those are moved to
      the trash. The map of active names is the table's; the counts sum. */
  lemma RestoreLosesNothing(t: Tables, trashed: map<(string, Time), EntryId>, mode: Mode, b: Backup)
    requires Sound(t) && TrashedIndex(trashed, t) && Restore(t, trashed, mode, b).Ok?
    ensures var m := Restore(t, trashed, mode, b).value;
            && Sound(m.t)
            && ActiveOk(m.active, m.t.entries)
            && AllSpared(t, m.t, mode, m.seen) && AddedSeen(t, m.t, mode.owner, m.seen)
            && AttachmentsSpared(t, m.t)
            && Total(m.counts) == |b.entries|
    ensures Restore(t, trashed, mode, b).value.seen == ActiveNamesOf(b.entries)
  {
    RestoreFoldersKeep(t, mode.owner, b.folders);
    var (t', targets) := RestoreFolders(t, mode.owner, b.folders).value;
    BeginMerging(t, t', trashed, mode, targets);
    MergeEntriesKeep(t, BeginMerge(t', trashed), mode, targets, b.version, b.entries);
    SeenAreActive(BeginMerge(t', trashed), mode, targets, b.version, b.entries);
  }

  function ActiveNamesOf(entries: seq<BackupEntry>): set<string> {
    set k | 0 <= k < |entries| && entries[k].deleted.None? :: entries[k].doc.name
  }

  lemma ActiveNamesAppend(entries: seq<BackupEntry>, last: BackupEntry)
    ensures ActiveNamesOf(entries + [last])
            == ActiveNamesOf(entries) + (if last.deleted.None? then {last.doc.name} else {})
  {
    var all := entries + [last];
    forall n
      ensures n in ActiveNamesOf(all) <==> n in ActiveNamesOf(entries) || (last.deleted.None? && n == last.doc.name)
    {
      if n in ActiveNamesOf(entries) {
        var k :| 0 <= k < |entries| && entries[k].deleted.None? && entries[k].doc.name == n;
        assert all[k] == entries[k];
      }
      if last.deleted.None? && n == last.doc.name { assert all[|entries|] == last; }
    }
  }

  lemma {:induction false} SeenAreActive(m: Merge, mode: Mode, targets: map<nat, Target>, version: nat,
          entries: seq<BackupEntry>)
    requires MergeEntries(m, mode, targets, version, entries).Ok?
    ensures MergeEntries(m, mode, targets, version, entries).value.seen == m.seen + ActiveNamesOf(entries)
  {
    if entries != [] {
      var front, last := entries[..|entries| - 1], entries[|entries| - 1];
      SeenAreActive(m, mode, targets, version, front);
      SeesOne(MergeEntries(m, mode, targets, version, front).value, mode, targets, version, last);
      ActiveNamesAppend(front, last);
      assert front + [last] == entries;
    }
  }

  lemma SeesOne(m: Merge, mode: Mode, targets: map<nat, Target>, version: nat, entry: BackupEntry)
    requires MergeEntry(m, mode, targets, version, entry).Ok?
    ensures MergeEntry(m, mode, targets, version, entry).value.seen
            == m.seen + (if entry.deleted.None? then {entry.doc.name} else {})
  {
  }

  // ----- What the counts mean ----------------------------------------------------------

  function Added(c: Counts): nat { c.imported + c.overwritten + c.trashed }

  lemma NewRowChangesNone(before: Tables, t: Tables, owner: Option<UserId>, link: Option<FolderId>, doc: Document,
          entry: BackupEntry)
    requires Valid(before) && Valid(t) && before.nextEntry <= t.nextEntry && Inserted(t, owner, link, doc, entry).Ok?
    ensures var t' := Inserted(t, owner, link, doc, entry).value;
            Changed(before.entries, t'.entries) == Changed(before.entries, t.entries) && t'.nextEntry == t.nextEntry + 1
  {
    InsertedLeavesRows(t, owner, link, doc, entry);
  }

  lemma MovedChangesOne(before: Tables, t: Tables, id: EntryId, at: Time)
    requires id in before.entries && id in t.entries && t.entries[id] == before.entries[id] && Active(t.entries[id])
    ensures |Changed(before.entries, Moved(t, id, at).entries)| == |Changed(before.entries, t.entries)| + 1
  {
    assert Changed(before.entries, Moved(t, id, at).entries) == Changed(before.entries, t.entries) + {id};
  }

  lemma OverwritingCounts(before: Tables, m: Merge, mode: Mode, targets: map<nat, Target>, link: Option<FolderId>,
          doc: Document, entry: BackupEntry)
    requires Merging(before, m, mode, targets) && doc.name !in m.seen && doc.name in m.active && mode.overwrite
    requires m.active[doc.name] in m.t.entries
    requires (mode.owner.None? || m.t.entries[m.active[doc.name]].owner == mode.owner)
    requires Inserted(Moved(m.t, m.active[doc.name], mode.movedAt), mode.owner, link, doc, entry).Ok?
    ensures var t' := Inserted(Moved(m.t, m.active[doc.name], mode.movedAt), mode.owner, link, doc, entry).value;
            && |Changed(before.entries, t'.entries)| == |Changed(before.entries, m.t.entries)| + 1
            && t'.nextEntry == m.t.nextEntry + 1
  {
    OverwritesOld(before, m.t, m.active, mode, m.seen, doc.name);
    MovedChangesOne(before, m.t, m.active[doc.name], mode.movedAt);
    MovedHistory(before, m.t, m.active, mode, m.seen, doc.name);
    NewRowChangesNone(before, Moved(m.t, m.active[doc.name], mode.movedAt), mode.owner, link, doc, entry);
  }

  lemma CountsOneMeaning(before: Tables, m: Merge, mode: Mode, targets: map<nat, Target>, version: nat,
          entry: BackupEntry)
    requires Merging(before, m, mode, targets) && MergeEntry(m, mode, targets, version, entry).Ok?
    ensures var m' := MergeEntry(m, mode, targets, version, entry).value;
            && |Changed(before.entries, m'.t.entries)| + m.counts.overwritten
               == |Changed(before.entries, m.t.entries)| + m'.counts.overwritten
            && m'.t.nextEntry + Added(m.counts) == m.t.nextEntry + Added(m'.counts)
  {
    var m' := MergeEntry(m, mode, targets, version, entry).value;
    var link := LinkOf(targets, version, entry).value;
    var doc := RestoredDocument(entry.doc, mode.tidy);
    if m'.t == m.t && m'.counts == m.counts.(skipped := m.counts.skipped + 1) {
    } else if entry.deleted.None? && doc.name in m.active {
      OverwritingCounts(before, m, mode, targets, link, doc, entry);
    } else {
      NewRowChangesNone(before, m.t, mode.owner, link, doc, entry);
    }
  }

  lemma {:induction false} CountsMeanings(before: Tables, m: Merge, mode: Mode, targets: map<nat, Target>,
          version: nat, entries: seq<BackupEntry>)
    requires Merging(before, m, mode, targets) && MergeEntries(m, mode, targets, version, entries).Ok?
    ensures var m' := MergeEntries(m, mode, targets, version, entries).value;
            && |Changed(before.entries, m'.t.entries)| + m.counts.overwritten
               == |Changed(before.entries, m.t.entries)| + m'.counts.overwritten
            && m'.t.nextEntry + Added(m.counts) == m.t.nextEntry + Added(m'.counts)
  {
    if entries != [] {
      var front, last := entries[..|entries| - 1], entries[|entries| - 1];
      CountsMeanings(before, m, mode, targets, version, front);
      MergeEntriesKeep(before, m, mode, targets, version, front);
      CountsOneMeaning(before, MergeEntries(m, mode, targets, version, front).value, mode, targets, version, last);
    }
  }

  /** `overwritten` is the number of rows from before that changed; as many rows
      were added as were counted other than as skipped. */
  lemma RestoreCountsMean(t: Tables, trashed: map<(string, Time), EntryId>, mode: Mode, b: Backup)
    requires Sound(t) && TrashedIndex(trashed, t) && Restore(t, trashed, mode, b).Ok?
    ensures var m := Restore(t, trashed, mode, b).value;
            && m.counts.overwritten == |Changed(t.entries, m.t.entries)|
            && m.t.nextEntry == t.nextEntry + m.counts.imported + m.counts.overwritten + m.counts.trashed
  {
    RestoreFoldersKeep(t, mode.owner, b.folders);
    var (t', targets) := RestoreFolders(t, mode.owner, b.folders).value;
    BeginMerging(t, t', trashed, mode, targets);
    CountsMeanings(t, BeginMerge(t', trashed), mode, targets, b.version, b.entries);
    assert Changed(t.entries, t'.entries) == {};
  }

  // ----- Restoring the same file again ----------------------------------------------------

  /** What the importer already has of an entry of the file. */
  predicate Present(t: Tables, owner: Option<UserId>, entry: BackupEntry) {
    if entry.deleted.None? then NameActive(t, entry.doc.name)
    else exists id :: id in t.entries && TrashedAs(t.entries[id], (entry.doc.name, entry.deleted.value))
                      && (owner.None? || t.entries[id].owner == owner)
  }

  /** No other account's entry is in the trash under that name and time. */
  predicate OwnOnly(t: Tables, owner: Option<UserId>, key: (string, Time)) {
    forall id :: id in t.entries && TrashedAs(t.entries[id], key) ==> owner.None? || t.entries[id].owner == owner
  }

  predicate TrashIsOwn(t: Tables, owner: Option<UserId>, entries: seq<BackupEntry>) {
    forall k :: 0 <= k < |entries| && entries[k].deleted.Some? ==>
      OwnOnly(t, owner, (entries[k].doc.name, entries[k].deleted.value))
  }

  lemma {:induction false} AddAttachmentsOnly(t: Tables, id: EntryId, attachments: seq<Attached>)
    ensures var t' := AddAttachments(t, id, attachments);
            t' == t.(attachments := t'.attachments, nextAttachment := t'.nextAttachment)
  {
    if attachments != [] { AddAttachmentsOnly(t, id, attachments[..|attachments| - 1]); }
  }

  lemma InsertedLeavesRows(t: Tables, owner: Option<UserId>, link: Option<FolderId>, doc: Document, entry: BackupEntry)
    requires KeysBelow(t.entries, t.nextEntry)
    ensures Inserted(t, owner, link, doc, entry).Ok? ==>
              var t' := Inserted(t, owner, link, doc, entry).value;
              && t.nextEntry in t'.entries && t'.nextEntry == t.nextEntry + 1
              && t'.entries == t.entries[t.nextEntry := t'.entries[t.nextEntry]]
              && t'.entries[t.nextEntry].doc == doc && t'.entries[t.nextEntry].deleted == entry.deleted
              && t'.entries[t.nextEntry].owner == owner
  {
    if Inserted(t, owner, link, doc, entry).Ok? {
      var (t', link') := if link.Some? then (t, link) else FolderNamed(t, owner, doc.folder).value;
      AddAttachmentsOnly(AddEntry(t', Entry(owner, link', doc, entry.created, entry.updated, entry.deleted, true)),
          t'.nextEntry, entry.attachments);
    }
  }

  lemma TrashedMergeLeaves(m: Merge, mode: Mode, link: Option<FolderId>, doc: Document, entry: BackupEntry,
          at: Time, id: EntryId)
    requires KeysBelow(m.t.entries, m.t.nextEntry) && MergeTrashed(m, mode, link, doc, entry, at).Ok?
    requires id in m.t.entries
    ensures var t' := MergeTrashed(m, mode, link, doc, entry, at).value.t;
            id in t'.entries && t'.entries[id] == m.t.entries[id]
  {
    InsertedLeavesRows(m.t, mode.owner, link, doc, entry);
  }

  lemma ActiveMergeLeaves(m: Merge, mode: Mode, link: Option<FolderId>, doc: Document, entry: BackupEntry, id: EntryId)
    requires KeysBelow(m.t.entries, m.t.nextEntry) && MergeActive(m, mode, link, doc, entry).Ok?
    requires id in m.t.entries && m.t.entries[id].deleted.Some? && ActiveOk(m.active, m.t.entries)
    ensures var t' := MergeActive(m, mode, link, doc, entry).value.t;
            id in t'.entries && t'.entries[id] == m.t.entries[id]
  {
    if doc.name in m.active {
      InsertedLeavesRows(Moved(m.t, m.active[doc.name], mode.movedAt), mode.owner, link, doc, entry);
    } else {
      InsertedLeavesRows(m.t, mode.owner, link, doc, entry);
    }
  }

  /** Trashed rows stay as they are. */
  lemma TrashedStays(before: Tables, m: Merge, mode: Mode, targets: map<nat, Target>, version: nat,
          entry: BackupEntry, id: EntryId)
    requires Merging(before, m, mode, targets) && MergeEntry(m, mode, targets, version, entry).Ok?
    requires id in m.t.entries && m.t.entries[id].deleted.Some?
    ensures var t' := MergeEntry(m, mode, targets, version, entry).value.t;
            id in t'.entries && t'.entries[id] == m.t.entries[id]
  {
    var link := LinkOf(targets, version, entry).value;
    var doc := RestoredDocument(entry.doc, mode.tidy);
    if entry.deleted.Some? {
      TrashedMergeLeaves(m, mode, link, doc, entry, entry.deleted.value, id);
    } else {
      ActiveMergeLeaves(m.(seen := m.seen + {doc.name}), mode, link, doc, entry, id);
    }
  }

  lemma TrashedIsPresent(m: Merge, mode: Mode, link: Option<FolderId>, doc: Document, entry: BackupEntry)
    requires KeysBelow(m.t.entries, m.t.nextEntry) && TrashedOk(m.trashed, m.t.entries)
    requires entry.deleted.Some? && doc.name == entry.doc.name
    requires MergeTrashed(m, mode, link, doc, entry, entry.deleted.value).Ok?
    ensures Present(MergeTrashed(m, mode, link, doc, entry, entry.deleted.value).value.t, mode.owner, entry)
  {
    var m' := MergeTrashed(m, mode, link, doc, entry, entry.deleted.value).value;
    var key := (doc.name, entry.deleted.value);
    InsertedLeavesRows(m.t, mode.owner, link, doc, entry);
    assert key in m'.trashed && TrashedAs(m'.t.entries[m'.trashed[key]], key);
  }

  /** A merged entry is present afterwards. */
  lemma MergedIsPresent(before: Tables, m: Merge, mode: Mode, targets: map<nat, Target>, version: nat,
          entry: BackupEntry)
    requires Merging(before, m, mode, targets) && MergeEntry(m, mode, targets, version, entry).Ok?
    ensures Present(MergeEntry(m, mode, targets, version, entry).value.t, mode.owner, entry)
  {
    if entry.deleted.None? {
      MergeEntryKeeps(before, m, mode, targets, version, entry);
      SeesOne(m, mode, targets, version, entry);
      assert entry.doc.name in MergeEntry(m, mode, targets, version, entry).value.active;
    } else {
      var link := LinkOf(targets, version, entry).value;
      TrashedIsPresent(m, mode, link, RestoredDocument(entry.doc, mode.tidy), entry);
    }
  }

  predicate AllPresent(t: Tables, owner: Option<UserId>, entries: seq<BackupEntry>) {
    forall k :: 0 <= k < |entries| ==> Present(t, owner, entries[k])
  }

  lemma PresentStays(before: Tables, m: Merge, mode: Mode, targets: map<nat, Target>, version: nat,
          entry: BackupEntry, earlier: BackupEntry)
    requires Merging(before, m, mode, targets) && MergeEntry(m, mode, targets, version, entry).Ok?
    requires Present(m.t, mode.owner, earlier) && (earlier.deleted.None? ==> earlier.doc.name in m.seen)
    ensures Present(MergeEntry(m, mode, targets, version, entry).value.t, mode.owner, earlier)
  {
    var m' := MergeEntry(m, mode, targets, version, entry).value;
    MergeEntryKeeps(before, m, mode, targets, version, entry);
    SeesOne(m, mode, targets, version, entry);
    if earlier.deleted.None? {
      assert earlier.doc.name in m'.active;
    } else {
      var id :| id in m.t.entries && TrashedAs(m.t.entries[id], (earlier.doc.name, earlier.deleted.value))
                && (mode.owner.None? || m.t.entries[id].owner == mode.owner);
      TrashedStays(before, m, mode, targets, version, entry, id);
    }
  }

  lemma OneMorePresent(before: Tables, m: Merge, mode: Mode, targets: map<nat, Target>, version: nat,
          front: seq<BackupEntry>, last: BackupEntry)
    requires Merging(before, m, mode, targets) && MergeEntry(m, mode, targets, version, last).Ok?
    requires AllPresent(m.t, mode.owner, front) && ActiveNamesOf(front) <= m.seen
    ensures AllPresent(MergeEntry(m, mode, targets, version, last).value.t, mode.owner, front + [last])
  {
    MergedIsPresent(before, m, mode, targets, version, last);
    var t' := MergeEntry(m, mode, targets, version, last).value.t;
    forall k | 0 <= k < |front| ensures Present(t', mode.owner, front[k]) {
      if front[k].deleted.None? { assert front[k].doc.name in ActiveNamesOf(front); }
      PresentStays(before, m, mode, targets, version, last, front[k]);
    }
    forall k | 0 <= k < |front| + 1 ensures Present(t', mode.owner, (front + [last])[k]) {
    }
  }

  lemma {:induction false} MergedArePresent(before: Tables, m: Merge, mode: Mode, targets: map<nat, Target>,
          version: nat, entries: seq<BackupEntry>)
    requires Merging(before, m, mode, targets) && MergeEntries(m, mode, targets, version, entries).Ok?
    ensures AllPresent(MergeEntries(m, mode, targets, version, entries).value.t, mode.owner, entries)
  {
    if entries != [] {
      var front, last := entries[..|entries| - 1], entries[|entries| - 1];
      assert front + [last] == entries;
      var m' := MergeEntries(m, mode, targets, version, front).value;
      MergeLast(m, m', mode, targets, version, front, last);
      MergedArePresent(before, m, mode, targets, version, front);
      MergeEntriesKeep(before, m, mode, targets, version, front);
      SeenAreActive(m, mode, targets, version, front);
      OneMorePresent(before, m', mode, targets, version, front, last);
    }
  }

  /** An entry that is present, and under whose name and time nobody else's is
      in the trash. */
  predicate Held(t: Tables, owner: Option<UserId>, entry: BackupEntry) {
    Present(t, owner, entry) && (entry.deleted.Some? ==> OwnOnly(t, owner, (entry.doc.name, entry.deleted.value)))
  }

  /** Skipping one entry that is present. */
  lemma HeldIsSkipped(m: Merge, mode: Mode, targets: map<nat, Target>, version: nat, entry: BackupEntry)
    requires Settled(m) && !mode.overwrite && Held(m.t, mode.owner, entry)
    requires LinkOf(targets, version, entry).Ok? && Restorable(entry) && ContentsMatch(entry.attachments)
    requires entry.deleted.None? ==> entry.doc.name !in m.seen
    ensures var seen := if entry.deleted.None? then m.seen + {entry.doc.name} else m.seen;
            MergeEntry(m, mode, targets, version, entry) == Ok(Skipped(m.(seen := seen)))
  {
    if entry.deleted.Some? {
      var key := (entry.doc.name, entry.deleted.value);
      assert key in m.trashed && TrashedAs(m.t.entries[m.trashed[key]], key);
    } else {
      var id :| id in m.t.entries && ActiveNamed(m.t.entries, id, entry.doc.name);
      assert m.active[entry.doc.name] == id;
    }
  }

  /** What a merged entry passed does not depend on the tables. */
  lemma MergedPassed(m: Merge, mode: Mode, targets: map<nat, Target>, version: nat, entry: BackupEntry)
    requires MergeEntry(m, mode, targets, version, entry).Ok?
    ensures LinkOf(targets, version, entry).Ok? && Restorable(entry) && ContentsMatch(entry.attachments)
    ensures entry.deleted.None? ==> entry.doc.name !in m.seen
  {
  }

  /** Tables with their indexes as a restore begins. */
  predicate Settled(m: Merge) {
    Valid(m.t) && ActiveOk(m.active, m.t.entries) && TrashedIndex(m.trashed, m.t)
  }

  function SkippedAll(m: Merge, entries: seq<BackupEntry>): Merge {
    m.(seen := ActiveNamesOf(entries), counts := m.counts.(skipped := m.counts.skipped + |entries|))
  }

  lemma OneMoreSkipped(m: Merge, again: Mode, targets: map<nat, Target>, version: nat, front: seq<BackupEntry>,
          last: BackupEntry)
    requires Settled(m) && !again.overwrite && Held(m.t, again.owner, last)
    requires LinkOf(targets, version, last).Ok? && Restorable(last) && ContentsMatch(last.attachments)
    requires last.deleted.None? ==> last.doc.name !in ActiveNamesOf(front)
    ensures MergeEntry(SkippedAll(m, front), again, targets, version, last) == Ok(SkippedAll(m, front + [last]))
  {
    HeldIsSkipped(SkippedAll(m, front), again, targets, version, last);
    ActiveNamesAppend(front, last);
    assert ActiveNamesOf(front) + {} == ActiveNamesOf(front);
  }

  lemma MergeLast(m: Merge, m': Merge, mode: Mode, targets: map<nat, Target>, version: nat, front: seq<BackupEntry>,
          last: BackupEntry)
    requires MergeEntries(m, mode, targets, version, front) == Ok(m')
    ensures MergeEntries(m, mode, targets, version, front + [last]) == MergeEntry(m', mode, targets, version, last)
  {
    assert (front + [last])[..|front|] == front;
  }

  /** What was merged once is skipped the second time. */
  lemma MergedIsSkipped(first: Merge, m: Merge, mode: Mode, again: Mode, targets: map<nat, Target>, version: nat,
          front: seq<BackupEntry>, last: BackupEntry)
    requires MergeEntries(first, mode, targets, version, front + [last]).Ok? && first.seen == {}
    requires Settled(m) && !again.overwrite && again.owner == mode.owner && Held(m.t, mode.owner, last)
    requires MergeEntries(m, again, targets, version, front) == Ok(SkippedAll(m, front))
    ensures MergeEntries(m, again, targets, version, front + [last]) == Ok(SkippedAll(m, front + [last]))
  {
    assert (front + [last])[..|front|] == front;
    var first' := MergeEntries(first, mode, targets, version, front).value;
    SeenAreActive(first, mode, targets, version, front);
    MergedPassed(first', mode, targets, version, last);
    OneMoreSkipped(m, again, targets, version, front, last);
    MergeLast(m, SkippedAll(m, front), again, targets, version, front, last);
  }

  predicate AllHeld(t: Tables, owner: Option<UserId>, entries: seq<BackupEntry>) {
    forall k :: 0 <= k < |entries| ==> Held(t, owner, entries[k])
  }

  lemma FrontHeld(t: Tables, owner: Option<UserId>, front: seq<BackupEntry>, last: BackupEntry)
    requires AllHeld(t, owner, front + [last])
    ensures AllHeld(t, owner, front) && Held(t, owner, last)
  {
    forall k | 0 <= k < |front| ensures Held(t, owner, front[k]) { assert (front + [last])[k] == front[k]; }
    assert (front + [last])[|front|] == last;
  }

  lemma FrontMerges(first: Merge, mode: Mode, targets: map<nat, Target>, version: nat, front: seq<BackupEntry>,
          last: BackupEntry)
    requires MergeEntries(first, mode, targets, version, front + [last]).Ok?
    ensures MergeEntries(first, mode, targets, version, front).Ok?
  {
    assert (front + [last])[..|front|] == front;
  }

  /** A second merge of the same entries skips them all. */
  lemma {:induction false} AllAreSkipped(first: Merge, m: Merge, mode: Mode, again: Mode, targets: map<nat, Target>,
          version: nat, entries: seq<BackupEntry>)
    requires MergeEntries(first, mode, targets, version, entries).Ok? && first.seen == m.seen == {}
    requires Settled(m) && !again.overwrite && again.owner == mode.owner && AllHeld(m.t, mode.owner, entries)
    ensures MergeEntries(m, again, targets, version, entries) == Ok(SkippedAll(m, entries))
  {
    if entries == [] {
      assert ActiveNamesOf(entries) == {};
    } else {
      var front, last := entries[..|entries| - 1], entries[|entries| - 1];
      assert front + [last] == entries;
      FrontHeld(m.t, mode.owner, front, last);
      FrontMerges(first, mode, targets, version, front, last);
      AllAreSkipped(first, m, mode, again, targets, version, front);
      MergedIsSkipped(first, m, mode, again, targets, version, front, last);
    }
  }

  /** The folders of the file are found again where they were found or made. */
  lemma {:induction false} FoldersAgain(t: Tables, owner: Option<UserId>, folders: seq<BackupFolder>, later: Tables)
    requires Sound(t) && RestoreFolders(t, owner, folders).Ok? && UniqueFolders(later.folders)
    requires var t' := RestoreFolders(t, owner, folders).value.0;
             forall f :: f in t'.folders ==> f in later.folders && later.folders[f] == t'.folders[f]
    ensures RestoreFolders(later, owner, folders) == Ok((later, RestoreFolders(t, owner, folders).value.1))
  {
    if folders != [] {
      var front, last := folders[..|folders| - 1], folders[|folders| - 1];
      RestoreFoldersKeep(t, owner, front);
      var (t1, targets) := RestoreFolders(t, owner, front).value;
      FolderNamedKeeps(t1, owner, Some(last.name));
      FoldersAgain(t, owner, front, later);
    }
  }

  /** Other accounts' rows in the trash are those from before. */
  lemma OwnOnlyStays(before: Tables, t: Tables, mode: Mode, seen: set<string>, key: (string, Time))
    requires AllSpared(before, t, mode, seen) && AddedSeen(before, t, mode.owner, seen)
    ensures OwnOnly(before, mode.owner, key) <==> OwnOnly(t, mode.owner, key)
  {
    forall id | id in before.entries && TrashedAs(before.entries[id], key)
      ensures id in t.entries && t.entries[id] == before.entries[id]
    {
      assert t.entries[id] == Spared(before.entries[id], mode, seen);
    }
    forall id | id in t.entries && id in before.entries
      ensures t.entries[id] == Spared(before.entries[id], mode, seen)
    {
    }
  }

  lemma AddsOne(t: Tables, owner: Option<UserId>, link: Option<FolderId>, doc: Document, entry: BackupEntry)
    requires Inserted(t, owner, link, doc, entry).Ok?
    ensures Inserted(t, owner, link, doc, entry).value.nextEntry == t.nextEntry + 1
  {
    var (t', link') := if link.Some? then (t, link) else FolderNamed(t, owner, doc.folder).value;
    AddAttachmentsOnly(AddEntry(t', Entry(owner, link', doc, entry.created, entry.updated, entry.deleted, true)),
        t'.nextEntry, entry.attachments);
  }

  /** A trashed entry is skipped where the row the index has for it is own. */
  predicate SkippedFor(m: Merge, owner: Option<UserId>, entry: BackupEntry) {
    entry.deleted.Some? ==>
      var key := (entry.doc.name, entry.deleted.value);
      && key in m.trashed && m.trashed[key] in m.t.entries
      && (owner.None? || m.t.entries[m.trashed[key]].owner == owner)
  }

  /** Entries are skipped, or rows are added. */
  lemma SkipsOrAdds(m: Merge, mode: Mode, targets: map<nat, Target>, version: nat, entry: BackupEntry)
    requires MergeEntry(m, mode, targets, version, entry).Ok?
    ensures var m' := MergeEntry(m, mode, targets, version, entry).value;
            || (m'.t == m.t && m'.trashed == m.trashed && SkippedFor(m, mode.owner, entry))
            || m'.t.nextEntry == m.t.nextEntry + 1
  {
    var link := LinkOf(targets, version, entry).value;
    var doc := RestoredDocument(entry.doc, mode.tidy);
    if doc.name in m.active && m.active[doc.name] in m.t.entries {
      var t := Moved(m.t, m.active[doc.name], mode.movedAt);
      if Inserted(t, mode.owner, link, doc, entry).Ok? { AddsOne(t, mode.owner, link, doc, entry); }
    }
    if Inserted(m.t, mode.owner, link, doc, entry).Ok? { AddsOne(m.t, mode.owner, link, doc, entry); }
  }

  predicate SkippedForAll(m: Merge, owner: Option<UserId>, entries: seq<BackupEntry>) {
    forall k :: 0 <= k < |entries| ==> SkippedFor(m, owner, entries[k])
  }

  lemma {:induction false} AllSkippedOrAdded(m: Merge, mode: Mode, targets: map<nat, Target>, version: nat,
          entries: seq<BackupEntry>) returns (m': Merge)
    requires MergeEntries(m, mode, targets, version, entries).Ok?
    ensures MergeEntries(m, mode, targets, version, entries) == Ok(m')
    ensures (m'.t == m.t && m'.trashed == m.trashed && SkippedForAll(m, mode.owner, entries))
            || m'.t.nextEntry > m.t.nextEntry
  {
    m' := MergeEntries(m, mode, targets, version, entries).value;
    if entries != [] {
      var front, last := entries[..|entries| - 1], entries[|entries| - 1];
      var m1 := AllSkippedOrAdded(m, mode, targets, version, front);
      SkipsOrAdds(m1, mode, targets, version, last);
      if SkippedFor(m1, mode.owner, last) && m1.t == m.t && m1.trashed == m.trashed && m1.t.nextEntry == m.t.nextEntry {
        SkippedLast(m, m1, mode.owner, entries);
      }
    }
  }

  lemma SkippedLast(m: Merge, m1: Merge, owner: Option<UserId>, entries: seq<BackupEntry>)
    requires entries != [] && m1.t == m.t && m1.trashed == m.trashed
    requires SkippedForAll(m, owner, entries[..|entries| - 1]) && SkippedFor(m1, owner, entries[|entries| - 1])
    ensures SkippedForAll(m, owner, entries)
  {
  }

  lemma {:induction false} AnIndex(t: Tables, n: EntryId) returns (index: map<(string, Time), EntryId>)
    ensures forall k :: k in index ==> index[k] in t.entries && TrashedAs(t.entries[index[k]], k)
    ensures forall id :: id in t.entries && id < n && t.entries[id].deleted.Some? ==>
              (t.entries[id].doc.name, t.entries[id].deleted.value) in index
  {
    index := map[];
    if n > 0 {
      index := AnIndex(t, n - 1);
      if n - 1 in t.entries && t.entries[n - 1].deleted.Some? {
        index := index[(t.entries[n - 1].doc.name, t.entries[n - 1].deleted.value) := n - 1];
      }
    }
  }

  /** Where a row shares its key with others, a query may return that row. */
  lemma AnIndexWith(t: Tables, id: EntryId, key: (string, Time)) returns (index: map<(string, Time), EntryId>)
    requires Valid(t) && id in t.entries && TrashedAs(t.entries[id], key)
    ensures TrashedIndex(index, t) && key in index && index[key] == id
  {
    index := AnIndex(t, t.nextEntry);
    index := index[key := id];
  }

  /** Restoring `b` leaves the tables and counts every entry as skipped. */
  ghost predicate ChangesNothing(t: Tables, index: map<(string, Time), EntryId>, mode: Mode, b: Backup) {
    && UniqueActive(t.entries)
    && var r := Restore(t, index, mode, b);
    r.Ok? && r.value.t == t && r.value.counts == Counts(0, |b.entries|, 0, 0)
  }

  /** What a restore leaves: its entries are all present, its folders are found
      again, and the trash of others is as before. */
  lemma RestoredOnce(t: Tables, trashed: map<(string, Time), EntryId>, mode: Mode, b: Backup)
    returns (first: Merge, t': Tables, targets: map<nat, Target>)
    requires Sound(t) && TrashedIndex(trashed, t) && Restore(t, trashed, mode, b).Ok?
    ensures t' == Restore(t, trashed, mode, b).value.t && Sound(t') && AllPresent(t', mode.owner, b.entries)
    ensures RestoreFolders(t', mode.owner, b.folders) == Ok((t', targets))
    ensures first.seen == {} && MergeEntries(first, mode, targets, b.version, b.entries).Ok?
    ensures TrashIsOwn(t', mode.owner, b.entries) <==> TrashIsOwn(t, mode.owner, b.entries)
  {
    RestoreLosesNothing(t, trashed, mode, b);
    RestoreFoldersKeep(t, mode.owner, b.folders);
    var (t0, made) := RestoreFolders(t, mode.owner, b.folders).value;
    first, t', targets := BeginMerge(t0, trashed), Restore(t, trashed, mode, b).value.t, made;
    BeginMerging(t, t0, trashed, mode, targets);
    MergedArePresent(t, first, mode, targets, b.version, b.entries);
    BeginMerging(t0, t0, trashed, mode, targets);
    MergeEntriesKeep(t0, first, mode, targets, b.version, b.entries);
    FoldersAgain(t, mode.owner, b.folders, t');
    var seen := Restore(t, trashed, mode, b).value.seen;
    forall k | 0 <= k < |b.entries| && b.entries[k].deleted.Some?
      ensures OwnOnly(t, mode.owner, (b.entries[k].doc.name, b.entries[k].deleted.value))
         <==> OwnOnly(t', mode.owner, (b.entries[k].doc.name, b.entries[k].deleted.value))
    {
      OwnOnlyStays(t, t', mode, seen, (b.entries[k].doc.name, b.entries[k].deleted.value));
    }
  }

  /** A row of another account that the index returns makes the restore add one. */
  lemma ForeignIsNotSkipped(t: Tables, again: Mode, b: Backup, targets: map<nat, Target>, k: nat,
          index: map<(string, Time), EntryId>)
    requires UniqueActive(t.entries) && RestoreFolders(t, again.owner, b.folders) == Ok((t, targets))
    requires k < |b.entries| && !SkippedFor(BeginMerge(t, index), again.owner, b.entries[k])
    ensures !ChangesNothing(t, index, again, b)
  {
    if MergeEntries(BeginMerge(t, index), again, targets, b.version, b.entries).Ok? {
      var m := AllSkippedOrAdded(BeginMerge(t, index), again, targets, b.version, b.entries);
    }
  }

  lemma ForeignTrashReturns(t: Tables, again: Mode, b: Backup, targets: map<nat, Target>)
    requires Valid(t) && RestoreFolders(t, again.owner, b.folders) == Ok((t, targets))
    requires !TrashIsOwn(t, again.owner, b.entries)
    ensures exists index :: TrashedIndex(index, t) && !ChangesNothing(t, index, again, b)
  {
    var k :| 0 <= k < |b.entries| && b.entries[k].deleted.Some?
             && !OwnOnly(t, again.owner, (b.entries[k].doc.name, b.entries[k].deleted.value));
    var key := (b.entries[k].doc.name, b.entries[k].deleted.value);
    var id :| id in t.entries && TrashedAs(t.entries[id], key)
              && !(again.owner.None? || t.entries[id].owner == again.owner);
    var index := AnIndexWith(t, id, key);
    ForeignIsNotSkipped(t, again, b, targets, k, index);
  }

  lemma OwnTrashSkips(first: Merge, t: Tables, targets: map<nat, Target>, mode: Mode, again: Mode, b: Backup,
          index: map<(string, Time), EntryId>)
    requires Valid(t) && AllPresent(t, mode.owner, b.entries) && TrashIsOwn(t, mode.owner, b.entries)
    requires RestoreFolders(t, mode.owner, b.folders) == Ok((t, targets)) && TrashedIndex(index, t)
    requires first.seen == {} && MergeEntries(first, mode, targets, b.version, b.entries).Ok?
    requires !again.overwrite && again.owner == mode.owner
    ensures ChangesNothing(t, index, again, b)
  {
    AllAreSkipped(first, BeginMerge(t, index), mode, again, targets, b.version, b.entries);
  }

  /** Restoring a file again, with conflicts skipped, changes nothing, whichever
      rows the query for the trash returns, exactly if before the first restore
      no other account had an entry in the trash under the name and deletion
      time of one of the file's. */
  lemma RestoreAgainChangesNothing(t: Tables, trashed: map<(string, Time), EntryId>, mode: Mode, b: Backup, again: Mode)
    requires Sound(t) && TrashedIndex(trashed, t) && Restore(t, trashed, mode, b).Ok?
    requires !again.overwrite && again.owner == mode.owner
    ensures var t' := Restore(t, trashed, mode, b).value.t;
            TrashIsOwn(t, mode.owner, b.entries)
            <==> forall index :: TrashedIndex(index, t') ==> ChangesNothing(t', index, again, b)
  {
    var first, t', targets := RestoredOnce(t, trashed, mode, b);
    if TrashIsOwn(t', mode.owner, b.entries) {
      forall index | TrashedIndex(index, t') ensures ChangesNothing(t', index, again, b) {
        OwnTrashSkips(first, t', targets, mode, again, b, index);
      }
    } else {
      ForeignTrashReturns(t', again, b, targets);
    }
  }

  /** A trashed entry and nothing else. */
  function OneTrashed(owner: UserId, doc: Document, at: Time): Tables {
    NoTables().(entries := map[0 := Entry(Some(owner), None, doc, at, at, Some(at), false)], nextEntry := 1)
  }

  function FileOfOne(doc: Document, at: Time): Backup { Backup(3, [], [BackupEntry(doc, None, at, at, Some(at), [])]) }

  predicate ShortDocument(doc: Document) {
    && doc.name == "a" && doc.value == "v" && doc.folder.None? && doc.username.None? && doc.description.None?
  }

  lemma OneIsRestored(doc: Document, mode: Mode)
    requires ShortDocument(doc) && mode.owner == Some(2)
    ensures Restore(OneTrashed(1, doc, 5), map[("a", 5) := 0], mode, FileOfOne(doc, 5)).Ok?
  {
    var t, entries := OneTrashed(1, doc, 5), FileOfOne(doc, 5).entries;
    var begin := BeginMerge(t, map[("a", 5) := 0]);
    assert RestoreFolders(t, mode.owner, []) == Ok((t, map[]));
    assert entries[..0] == [] && MergeEntries(begin, mode, map[], 3, []) == Ok(begin);
    assert MergeEntry(begin, mode, map[], 3, entries[0]).Ok?;
  }

  /** Where it fails: another account's entry in the trash has the name and the
      deletion time of the file's. */
  lemma RestoreAgainMayAdd(doc: Document, mode: Mode, again: Mode)
    requires ShortDocument(doc) && mode.owner == Some(2) && !again.overwrite && again.owner == mode.owner
    ensures var t, b, index := OneTrashed(1, doc, 5), FileOfOne(doc, 5), map[("a", 5) := 0];
            && Sound(t) && TrashedIndex(index, t) && Restore(t, index, mode, b).Ok?
            && var t' := Restore(t, index, mode, b).value.t;
            exists index' :: TrashedIndex(index', t') && !ChangesNothing(t', index', again, b)
  {
    var t, b := OneTrashed(1, doc, 5), FileOfOne(doc, 5);
    OneIsRestored(doc, mode);
    assert TrashedAs(t.entries[0], ("a", 5)) && !OwnOnly(t, mode.owner, ("a", 5));
    assert b.entries[0].deleted.Some? && !TrashIsOwn(t, mode.owner, b.entries);
    RestoreAgainChangesNothing(t, map[("a", 5) := 0], mode, b, again);
  }

  // ----- The restore in place --------------------------------------------------------------

  /** The new row and its attachment frames, each checked against its
      description; `target` is None for a skipped entry, whose frames are
      checked all the same. */
  method ReadAttachments(db: VaultRows, target: Option<EntryId>, attachments: seq<Attached>) returns (ok: bool)
    modifies db`tables
    ensures ok == ContentsMatch(attachments)
    ensures ok ==> db.tables == if target.Some? then AddAttachments(old(db.tables), target.value, attachments)
                                else old(db.tables)
  {
    ghost var before := db.tables;
    for k := 0 to |attachments|
      invariant ContentsMatch(attachments[..k])
      invariant db.tables == if target.Some? then AddAttachments(before, target.value, attachments[..k]) else before
    {
      var a := attachments[k];
      if a.content != a.described { return false; }
      assert attachments[..k + 1][..k] == attachments[..k];
      if target.Some? {
        var t := db.tables;
        var stored := Attachment(target.value, a.filename, a.contentType, a.content, a.created);
        db.tables := t.(attachments := t.attachments[t.nextAttachment := stored],
                        nextAttachment := t.nextAttachment + 1);
      }
    }
    assert attachments[..|attachments|] == attachments;
    return true;
  }

  method Insert(db: VaultRows, owner: Option<UserId>, link: Option<FolderId>, doc: Document, entry: BackupEntry)
    returns (r: Result<EntryId, Error>, ok: bool)
    requires UniqueFolders(db.tables.folders)
    modifies db`tables
    ensures r.Err? ==> Inserted(old(db.tables), owner, link, doc, entry) == Err(r.error)
    ensures r.Ok? ==> Inserted(old(db.tables), owner, link, doc, entry).Ok? && ok == ContentsMatch(entry.attachments)
    ensures r.Ok? && ok ==>
              Inserted(old(db.tables), owner, link, doc, entry) == Ok(db.tables) && r.value == old(db.tables).nextEntry
  {
    var filed := link;
    if link.None? {
      var named := db.FolderNamed(owner, doc.folder);
      if named.Err? { return Err(named.error), false; }
      filed := named.value;
    }
    var id := db.tables.nextEntry;
    db.tables := AddEntry(db.tables, Entry(owner, filed, doc, entry.created, entry.updated, entry.deleted, true));
    ok := ReadAttachments(db, Some(id), entry.attachments);
    return Ok(id), ok;
  }

  /** A trashed entry: `m` are the indexes, the rows are in `db`; `ok` says
      that its frames were as described. */
  method RestoreTrashed(db: VaultRows, m: Merge, mode: Mode, link: Option<FolderId>, doc: Document,
          entry: BackupEntry, at: Time)
    returns (r: Result<Merge, Error>, ok: bool)
    requires m.t == db.tables && Valid(m.t) && TrashedOk(m.trashed, m.t.entries)
    modifies db`tables
    ensures r.Err? ==> MergeTrashed(m, mode, link, doc, entry, at) == r
    ensures r.Ok? ==> MergeTrashed(m, mode, link, doc, entry, at).Ok? && ok == ContentsMatch(entry.attachments)
    ensures r.Ok? && ok ==> MergeTrashed(m, mode, link, doc, entry, at) == r && db.tables == r.value.t
  {
    var key := (doc.name, at);
    if key in m.trashed && (mode.owner.None? || db.tables.entries[m.trashed[key]].owner == mode.owner) {
      ok := ReadAttachments(db, None, entry.attachments);
      return Ok(Skipped(m)), ok;
    }
    var counts := m.counts.(trashed := m.counts.trashed + 1);
    var id;
    id, ok := Insert(db, mode.owner, link, doc, entry);
    if id.Err? { return Err(id.error), false; }
    return Ok(Merge(db.tables, m.active, m.trashed[key := m.t.nextEntry], m.seen, counts)), ok;
  }

  method RestoreActive(db: VaultRows, m: Merge, mode: Mode, link: Option<FolderId>, doc: Document, entry: BackupEntry)
    returns (r: Result<Merge, Error>, ok: bool)
    requires m.t == db.tables && Valid(m.t) && ActiveOk(m.active, m.t.entries)
    modifies db`tables
    ensures r.Err? ==> MergeActive(m, mode, link, doc, entry) == r
    ensures r.Ok? ==> MergeActive(m, mode, link, doc, entry).Ok? && ok == ContentsMatch(entry.attachments)
    ensures r.Ok? && ok ==> MergeActive(m, mode, link, doc, entry) == r && db.tables == r.value.t
  {
    var counts := m.counts;
    if doc.name in m.active {
      if !mode.overwrite {
        ok := ReadAttachments(db, None, entry.attachments);
        return Ok(Skipped(m)), ok;
      }
      var existing := m.active[doc.name];
      if mode.owner.Some? && db.tables.entries[existing].owner != mode.owner { return Err(Forbidden), false; }
      db.tables := Moved(db.tables, existing, mode.movedAt);
      counts := counts.(overwritten := counts.overwritten + 1);
    } else {
      counts := counts.(imported := counts.imported + 1);
    }
    var id;
    id, ok := Insert(db, mode.owner, link, doc, entry);
    if id.Err? { return Err(id.error), false; }
    return Ok(Merge(db.tables, m.active[doc.name := m.t.nextEntry], m.trashed, m.seen, counts)), ok;
  }

  /** One entry with its frames. On an error the caller rolls back. */
  method RestoreEntry(db: VaultRows, m: Merge, mode: Mode, targets: map<nat, Target>, version: nat, entry: BackupEntry)
    returns (r: Result<Merge, Error>)
    requires m.t == db.tables && Valid(m.t) && ActiveOk(m.active, m.t.entries) && TrashedOk(m.trashed, m.t.entries)
    modifies db`tables
    ensures r == MergeEntry(m, mode, targets, version, entry)
    ensures r.Ok? ==> db.tables == r.value.t
  {
    var link := LinkOf(targets, version, entry);
    if link.Err? { return Err(link.error); }
    if !Restorable(entry) { return Err(InvalidRequest); }
    if entry.deleted.None? && entry.doc.name in m.seen { return Err(InvalidRequest); }
    var doc := RestoredDocument(entry.doc, mode.tidy);
    var ok;
    if entry.deleted.Some? {
      r, ok := RestoreTrashed(db, m, mode, link.value, doc, entry, entry.deleted.value);
    } else {
      r, ok := RestoreActive(db, m.(seen := m.seen + {doc.name}), mode, link.value, doc, entry);
    }
    if r.Ok? && !ok { return Err(InvalidRequest); }
  }

  method RestoreFolderList(db: VaultRows, owner: Option<UserId>,
          folders: seq<BackupFolder>) returns (r: Result<map<nat, Target>, Error>)
    requires Sound(db.tables)
    modifies db`tables
    ensures r.Err? ==> RestoreFolders(old(db.tables), owner, folders) == Err(r.error)
    ensures r.Ok? ==> RestoreFolders(old(db.tables), owner, folders) == Ok((db.tables, r.value))
  {
    ghost var before := db.tables;
    var targets: map<nat, Target> := map[];
    for k := 0 to |folders|
      invariant RestoreFolders(before, owner, folders[..k]) == Ok((db.tables, targets))
    {
      RestoreFoldersKeep(before, owner, folders[..k]);
      FoldersStep(before, owner, folders, k);
      if folders[k].uid in targets || folders[k].name == "" {
        FoldersFail(before, owner, folders, k + 1);
        return Err(InvalidRequest);
      }
      var link := db.FolderNamed(owner, Some(folders[k].name));
      if link.Err? {
        FoldersFail(before, owner, folders, k + 1);
        return Err(link.error);
      }
      targets := targets[folders[k].uid := Target(link.value.value, folders[k].name)];
    }
    assert folders[..|folders|] == folders;
    return Ok(targets);
  }

  lemma FoldersStep(t: Tables, owner: Option<UserId>, folders: seq<BackupFolder>, k: nat)
    requires k < |folders|
    ensures folders[..k + 1][..k] == folders[..k] && folders[..k + 1][k] == folders[k]
  {
  }

  lemma {:induction false} FoldersFail(t: Tables, owner: Option<UserId>, folders: seq<BackupFolder>, k: nat)
    requires k <= |folders| && RestoreFolders(t, owner, folders[..k]).Err?
    ensures RestoreFolders(t, owner, folders) == RestoreFolders(t, owner, folders[..k])
    decreases |folders|
  {
    if k < |folders| {
      var front := folders[..|folders| - 1];
      assert front[..k] == folders[..k];
      FoldersFail(t, owner, front, k);
    } else {
      assert folders[..k] == folders;
    }
  }

  lemma {:induction false} EntriesFail(m: Merge, mode: Mode, targets: map<nat, Target>, version: nat,
          entries: seq<BackupEntry>, k: nat)
    requires k <= |entries| && MergeEntries(m, mode, targets, version, entries[..k]).Err?
    ensures MergeEntries(m, mode, targets, version, entries) == MergeEntries(m, mode, targets, version, entries[..k])
    decreases |entries|
  {
    if k < |entries| {
      var front := entries[..|entries| - 1];
      assert front[..k] == entries[..k];
      EntriesFail(m, mode, targets, version, front, k);
    } else {
      assert entries[..k] == entries;
    }
  }

  lemma EntriesStep(m: Merge, m': Merge, mode: Mode, targets: map<nat, Target>, version: nat,
          entries: seq<BackupEntry>, k: nat)
    requires k < |entries| && MergeEntries(m, mode, targets, version, entries[..k]) == Ok(m')
    ensures MergeEntries(m, mode, targets, version, entries[..k + 1])
            == MergeEntry(m', mode, targets, version, entries[k])
  {
    assert entries[..k + 1] == entries[..k] + [entries[k]];
    MergeLast(m, m', mode, targets, version, entries[..k], entries[k]);
  }

  /** The loop over the entries of the file. */
  method RestoreEntries(db: VaultRows, begin: Merge, mode: Mode, targets: map<nat, Target>, version: nat,
          entries: seq<BackupEntry>, ghost before: Tables) returns (r: Result<Merge, Error>)
    requires begin.t == db.tables && Merging(before, begin, mode, targets)
    modifies db`tables
    ensures r == MergeEntries(begin, mode, targets, version, entries)
    ensures r.Ok? ==> db.tables == r.value.t
  {
    var m := begin;
    for k := 0 to |entries|
      invariant m.t == db.tables && Merging(before, m, mode, targets)
      invariant MergeEntries(begin, mode, targets, version, entries[..k]) == Ok(m)
    {
      EntriesStep(begin, m, mode, targets, version, entries, k);
      r := RestoreEntry(db, m, mode, targets, version, entries[k]);
      if r.Err? {
        EntriesFail(begin, mode, targets, version, entries, k + 1);
        return;
      }
      MergeEntryKeeps(before, m, mode, targets, version, entries[k]);
      m := r.value;
    }
    assert entries[..|entries|] == entries;
    return Ok(m);
  }

  /** `_restore` in the import's single transaction: it commits as a whole, and
      loses nothing, or changes nothing. */
  method RestoreBackup(db: VaultRows, index: map<(string, Time), EntryId>, mode: Mode,
          b: Backup) returns (r: Result<Counts, Error>)
    requires Sound(db.tables) && TrashedIndex(index, db.tables)
    modifies db`tables
    ensures Sound(db.tables)
    ensures match Restore(old(db.tables), index, mode, b)
            case Err(e) => r == Err(e) && db.tables == old(db.tables)
            case Ok(m) => r == Ok(m.counts) && db.tables == m.t
  {
    var before := db.tables;
    var folders := RestoreFolderList(db, mode.owner, b.folders);
    if folders.Err? {
      db.tables := before;
      return Err(folders.error);
    }
    RestoreFoldersKeep(before, mode.owner, b.folders);
    BeginMerging(before, db.tables, index, mode, folders.value);
    var merged := RestoreEntries(db, BeginMerge(db.tables, index), mode, folders.value, b.version, b.entries, before);
    if merged.Err? {
      db.tables := before;
      return Err(merged.error);
    }
    RestoreLosesNothing(before, index, mode, b);
    return Ok(merged.value.counts);
  }
}
