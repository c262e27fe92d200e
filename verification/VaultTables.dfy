/**
The rows behind entries, folders, attachments and grants (backend/models.py),
with their decrypted documents (backend/crud/records.py). The name indexes are
keyed digests without collisions, so a row is found by its name here.
*/
module VaultTables {
  import opened Wrappers

  type UserId = nat
  type EntryId = nat
  type FolderId = nat
  type AttachmentId = nat
  type GroupId = nat
  type Time = int

  datatype Field = Field(caption: string, value: string, hidden: bool)

  datatype HistoryItem = HistoryItem(value: string, changedAt: string)

  datatype Kind = Login | Note

  datatype Document = Document(
    name: string,
    kind: Kind,
    username: Option<string>,
    value: string,
    url: Option<string>,
    totp: Option<string>,
    description: Option<string>,
    tags: seq<string>,
    fields: seq<Field>,
    folder: Option<string>,
    favorite: bool,
    history: seq<HistoryItem>)

  datatype Entry = Entry(
    owner: Option<UserId>,
    link: Option<FolderId>,
    doc: Document,
    created: Time,
    updated: Time,
    deleted: Option<Time>,
    backedUp: bool)

  datatype Folder = Folder(owner: UserId, name: string)

  datatype Attachment = Attachment(entry: EntryId, filename: string, contentType: Option<string>, content: seq<nat>,
          created: Time)

  datatype Permission = Read | Write

  datatype Grant = Grant(permission: Permission, expires: Option<Time>)

  datatype Grants = Grants(
    entryUsers: map<(EntryId, UserId), Grant>,
    folderUsers: map<(FolderId, UserId), Grant>,
    folderGroups: map<(FolderId, GroupId), Grant>,
    groups: set<GroupId>,
    members: set<(GroupId, UserId)>)

  datatype Tables = Tables(
    entries: map<EntryId, Entry>,
    folders: map<FolderId, Folder>,
    attachments: map<AttachmentId, Attachment>,
    nextEntry: EntryId,
    nextFolder: FolderId,
    nextAttachment: AttachmentId,
    grants: Grants)

  function NoTables(): Tables { Tables(map[], map[], map[], 0, 0, 0, Grants(map[], map[], map[], {}, {})) }

  datatype Error = NotFound | Forbidden | InvalidRequest

  /** Whom a request acts for: a service acts for the user who owns it. */
  datatype Actor = Actor(user: UserId, owner: UserId, service: bool)

  // ----- What the schema enforces ---------------------------------------------------

  predicate Active(e: Entry) { e.deleted.None? }

  predicate ActiveNamed(entries: map<EntryId, Entry>, id: EntryId, name: string) {
    id in entries && Active(entries[id]) && entries[id].doc.name == name
  }

  /** The partial unique index on active names. */
  predicate UniqueActive(entries: map<EntryId, Entry>) {
    forall a, b ::
      a in entries && b in entries && ActiveNamed(entries, b, entries[a].doc.name) && Active(entries[a]) ==> a == b
  }

  predicate UniqueFolders(folders: map<FolderId, Folder>) {
    forall f, g :: f in folders && g in folders && folders[f] == folders[g] ==> f == g
  }

  predicate KeysBelow<V>(rows: map<nat, V>, next: nat) { forall id :: id in rows ==> id < next }

  predicate GrantsValid(g: Grants, entries: map<EntryId, Entry>, folders: map<FolderId, Folder>) {
    && (forall k :: k in g.entryUsers ==> k.0 in entries)
    && (forall k :: k in g.folderUsers ==> k.0 in folders)
    && (forall k :: k in g.folderGroups ==> k.0 in folders && k.1 in g.groups)
    && (forall m :: m in g.members ==> m.0 in g.groups)
  }

  predicate LinksValid(entries: map<EntryId, Entry>, folders: map<FolderId, Folder>) {
    forall e :: e in entries && entries[e].link.Some? ==> entries[e].link.value in folders
  }

  predicate AttachmentsValid(attachments: map<AttachmentId, Attachment>, entries: map<EntryId, Entry>) {
    forall a :: a in attachments ==> attachments[a].entry in entries
  }

  predicate FoldersNamed(folders: map<FolderId, Folder>) { forall f :: f in folders ==> folders[f].name != "" }

  /** Unique indexes, foreign keys, and keys that are never used twice. */
  predicate Valid(t: Tables) {
    && KeysBelow(t.entries, t.nextEntry) && KeysBelow(t.folders, t.nextFolder)
    && KeysBelow(t.attachments, t.nextAttachment)
    && UniqueActive(t.entries) && UniqueFolders(t.folders) && FoldersNamed(t.folders)
    && LinksValid(t.entries, t.folders) && AttachmentsValid(t.attachments, t.entries)
    && GrantsValid(t.grants, t.entries, t.folders)
  }

  /** The rows from before that are not as they were. */
  function Changed(before: map<EntryId, Entry>, after: map<EntryId, Entry>): set<EntryId> {
    set id | id in before && (id !in after || after[id] != before[id])
  }

  // ----- Folder links ------------------------------------------------------------------

  predicate Names(folder: Option<string>) { folder.Some? && folder.value != "" }

  /** An entry has a link exactly when its document names a folder, and then
      the linked folder has that name. */
  predicate EntryLinked(e: Entry, folders: map<FolderId, Folder>) {
    && (Names(e.doc.folder) <==> e.link.Some?)
    && (e.link.Some? ==> e.link.value in folders && e.doc.folder == Some(folders[e.link.value].name))
  }

  predicate Linked(entries: map<EntryId, Entry>, folders: map<FolderId, Folder>) {
    forall e :: e in entries ==> EntryLinked(entries[e], folders)
  }

  /** No document is in a folder without a name. */
  predicate NormalFolders(entries: map<EntryId, Entry>) {
    forall e :: e in entries ==> entries[e].doc.folder != Some("")
  }

  predicate Sound(t: Tables) { Valid(t) && Linked(t.entries, t.folders) }
}
