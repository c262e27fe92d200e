/**
A vault written into a backup and restored into an empty vault
(backend/crud/backup.py): the same documents, times, histories, attachments and
folder names come back, in the same order.
*/
module BackupRoundTrip {
  import opened Wrappers
  import opened VaultTables
  import opened Folders
  import opened BackupRestore

  // ----- Ordered ids --------------------------------------------------------------

  lemma {:induction false} OrderedHolds(ids: set<nat>, n: nat, id: nat)
    requires id in ids && id < n
    ensures id in Ordered(ids, n)
  {
    if id < n - 1 { OrderedHolds(ids, n - 1, id); }
  }

  predicate Ascending(s: seq<nat>) { forall i, j :: 0 <= i < j < |s| ==> s[i] < s[j] }

  lemma {:induction false} OrderedAscends(ids: set<nat>, n: nat)
    ensures Ascending(Ordered(ids, n))
  {
    if n > 0 { OrderedAscends(ids, n - 1); }
  }

  // ----- Attachments --------------------------------------------------------------

  lemma {:induction false} ShorterList(m: map<AttachmentId, Attachment>, m': map<AttachmentId, Attachment>,
          entry: EntryId, n: AttachmentId)
    requires forall a :: a in m' && m'[a].entry == entry && a < n ==> a in m && m[a] == m'[a]
    requires forall a :: a in m && m[a].entry == entry && a < n ==> a in m' && m'[a] == m[a]
    ensures AttachmentsOf(m', entry, n) == AttachmentsOf(m, entry, n)
  {
    if n > 0 { ShorterList(m, m', entry, n - 1); }
  }

  /** Attachments are added at the end of their entry's list and no other's. */
  lemma {:induction false} AddedAttachments(t: Tables, id: EntryId, attachments: seq<Attached>, other: EntryId)
    requires KeysBelow(t.attachments, t.nextAttachment) && ContentsMatch(attachments)
    ensures var t' := AddAttachments(t, id, attachments);
            && KeysBelow(t'.attachments, t'.nextAttachment) && t.nextAttachment <= t'.nextAttachment
            && AttachmentsOf(t'.attachments, other, t'.nextAttachment)
               == AttachmentsOf(t.attachments, other, t.nextAttachment) + (if other == id then attachments else [])
  {
    if attachments == [] {
    } else {
      var front, last := attachments[..|attachments| - 1], attachments[|attachments| - 1];
      AddedAttachments(t, id, front, other);
      OneMoreAttachment(AddAttachments(t, id, front), id, last, other);
      assert front + [last] == attachments;
    }
  }

  lemma OneMoreAttachment(t: Tables, id: EntryId, a: Attached, other: EntryId)
    requires KeysBelow(t.attachments, t.nextAttachment) && a.content == a.described
    ensures var m' :=
              t.attachments[t.nextAttachment := Attachment(id, a.filename, a.contentType, a.content, a.created)];
            AttachmentsOf(m', other, t.nextAttachment + 1)
            == AttachmentsOf(t.attachments, other, t.nextAttachment) + (if other == id then [a] else [])
  {
    var m' := t.attachments[t.nextAttachment := Attachment(id, a.filename, a.contentType, a.content, a.created)];
    ShorterList(t.attachments, m', other, t.nextAttachment);
  }

  // ----- Folders --------------------------------------------------------------------

  function FolderNames(folders: map<FolderId, Folder>): set<string> { set f | f in folders :: folders[f].name }

  /** What the folder list has become in the importing vault. */
  ghost predicate FoldersMade(t: Tables, fs: seq<FolderId>, t': Tables, targets: map<nat, Target>, owner: UserId)
    requires forall k :: 0 <= k < |fs| ==> fs[k] in t.folders
  {
    && (forall u :: u in targets <==> u in fs)
    && (forall u :: u in targets ==> u in t.folders && targets[u].name == t.folders[u].name)
    && FolderNames(t'.folders) == (set f | f in fs :: t.folders[f].name)
    && (forall f :: f in t'.folders ==> t'.folders[f].owner == owner)
  }

  lemma LastFolder(empty: Tables, owner: UserId, front: seq<BackupFolder>, last: BackupFolder, t1: Tables,
          targets: map<nat, Target>)
    requires RestoreFolders(empty, Some(owner), front) == Ok((t1, targets)) && last.uid !in targets && last.name != ""
    ensures var (t2, link) := FolderNamed(t1, Some(owner), Some(last.name)).value;
            && link.Some?
            && RestoreFolders(empty, Some(owner), front + [last])
               == Ok((t2, targets[last.uid := Target(link.value, last.name)]))
  {
    assert (front + [last])[..|front|] == front;
  }

  /** The folder list of a vault makes the same names in an empty one. */
  lemma {:induction false} FoldersRestored(t: Tables, fs: seq<FolderId>, empty: Tables, owner: UserId)
    requires Sound(t) && Sound(empty) && empty.folders == map[] && Ascending(fs)
    requires forall k :: 0 <= k < |fs| ==> fs[k] in t.folders
    ensures RestoreFolders(empty, Some(owner), ExportFolders(t, fs)).Ok?
    ensures var (t', targets) := RestoreFolders(empty, Some(owner), ExportFolders(t, fs)).value;
            FoldersMade(t, fs, t', targets, owner)
  {
    if fs != [] {
      var front, f := fs[..|fs| - 1], fs[|fs| - 1];
      assert fs == front + [f] && f !in front;
      var last := BackupFolder(f, t.folders[f].name);
      assert ExportFolders(t, fs) == ExportFolders(t, front) + [last];
      FoldersRestored(t, front, empty, owner);
      RestoreFoldersKeep(empty, Some(owner), ExportFolders(t, front));
      var (t1, targets) := RestoreFolders(empty, Some(owner), ExportFolders(t, front)).value;
      LastFolder(empty, owner, ExportFolders(t, front), last, t1, targets);
      OneFolderMore(t, t1, front, f, owner);
    }
  }

  lemma OneFolderMore(t: Tables, t1: Tables, front: seq<FolderId>, f: FolderId, owner: UserId)
    requires Sound(t1) && f in t.folders && t.folders[f].name != ""
    requires forall k :: 0 <= k < |front| ==> front[k] in t.folders
    requires FolderNames(t1.folders) == (set f | f in front :: t.folders[f].name)
    requires forall g :: g in t1.folders ==> t1.folders[g].owner == owner
    ensures var t2 := FolderNamed(t1, Some(owner), Some(t.folders[f].name)).value.0;
            && FolderNames(t2.folders) == (set g | g in front + [f] :: t.folders[g].name)
            && (forall g :: g in t2.folders ==> t2.folders[g].owner == owner)
  {
    var name := t.folders[f].name;
    var (t2, link) := FolderNamed(t1, Some(owner), Some(name)).value;
    FolderNamedKeeps(t1, Some(owner), Some(name));
    assert (set g | g in front + [f] :: t.folders[g].name) == (set g | g in front :: t.folders[g].name) + {name};
    assert t2.folders[link.value].name == name;
    if t2 != t1 {
      assert t2.folders == t1.folders[t1.nextFolder := Folder(owner, name)];
      forall n | n in FolderNames(t1.folders) ensures n in FolderNames(t2.folders) {
        var g :| g in t1.folders && t1.folders[g].name == n;
        assert t2.folders[g].name == n;
      }
    }
  }

  // ----- Entries --------------------------------------------------------------------

  /** A document in normal form, of an entry within the limits of a file. */
  predicate NormalEntry(t: Tables, id: EntryId, tidy: Tidy)
    requires id in t.entries
  {
    RestoredDocument(t.entries[id].doc, tidy) == t.entries[id].doc && Restorable(ExportEntry(t, id))
  }

  predicate CopiedEntry(t: Tables, id: EntryId, t': Tables, id': EntryId, owner: UserId) {
    && id in t.entries && id' in t'.entries
    && var e, e' := t.entries[id], t'.entries[id'];
    && e' == Entry(Some(owner), e'.link, e.doc, e.created, e.updated, e.deleted, true)
    && AttachmentsOf(t'.attachments, id', t'.nextAttachment) == AttachmentsOf(t.attachments, id, t.nextAttachment)
  }

  /** The first `k` entries have been copied, to the ids from `base` on. */
  ghost predicate Copied(t: Tables, ids: seq<EntryId>, k: nat, t': Tables, base: EntryId, owner: UserId) {
    && k <= |ids| && t'.nextEntry == base + k
    && (forall id :: id in t'.entries <==> base <= id < base + k)
    && (forall j :: 0 <= j < k ==> CopiedEntry(t, ids[j], t', base + j, owner))
  }

  /** No two trashed entries have one name and deletion time. */
  ghost predicate TrashedDistinct(t: Tables) {
    forall a, b, key ::
      a in t.entries && b in t.entries && TrashedAs(t.entries[a], key) && TrashedAs(t.entries[b], key) ==> a == b
  }

  /** The entries to copy, and folder targets for all their links. */
  ghost predicate Source(t: Tables, ids: seq<EntryId>, targets: map<nat, Target>) {
    && Sound(t) && Ascending(ids)
    && (forall j :: 0 <= j < |ids| ==> ids[j] in t.entries)
    && (forall f :: f in t.folders ==> f in targets && targets[f].name == t.folders[f].name)
  }

  lemma ActiveIsCopy(t: Tables, ids: seq<EntryId>, k: nat, m: Merge, base: EntryId, owner: UserId,
          name: string) returns (j: nat)
    requires Copied(t, ids, k, m.t, base, owner) && ActiveOk(m.active, m.t.entries) && name in m.active
    ensures j < k && ids[j] in t.entries && ActiveNamed(t.entries, ids[j], name)
  {
    assert m.active[name] in m.t.entries;
    j := m.active[name] - base;
    assert CopiedEntry(t, ids[j], m.t, base + j, owner);
  }

  lemma NameIsNew(t: Tables, ids: seq<EntryId>, k: nat, m: Merge, targets: map<nat, Target>, base: EntryId,
          owner: UserId)
    requires Source(t, ids, targets) && k < |ids| && Copied(t, ids, k, m.t, base, owner) && Active(t.entries[ids[k]])
    requires ActiveOk(m.active, m.t.entries)
    ensures t.entries[ids[k]].doc.name !in m.active
  {
    var name := t.entries[ids[k]].doc.name;
    if name in m.active { var j := ActiveIsCopy(t, ids, k, m, base, owner, name); }
  }

  lemma TrashedIsNew(t: Tables, ids: seq<EntryId>, k: nat, m: Merge, targets: map<nat, Target>, base: EntryId,
          owner: UserId)
    requires Source(t, ids, targets) && k < |ids| && Copied(t, ids, k, m.t, base, owner)
    requires t.entries[ids[k]].deleted.Some?
    requires TrashedDistinct(t) && TrashedOk(m.trashed, m.t.entries)
    ensures (t.entries[ids[k]].doc.name, t.entries[ids[k]].deleted.value) !in m.trashed
  {
    var key := (t.entries[ids[k]].doc.name, t.entries[ids[k]].deleted.value);
    if key in m.trashed {
      var j := m.trashed[key] - base;
      assert CopiedEntry(t, ids[j], m.t, base + j, owner);
      assert TrashedAs(t.entries[ids[j]], key) && TrashedAs(t.entries[ids[k]], key);
    }
  }

  /** The exported link is accepted because link and name agree. */
  lemma LinkAccepted(t: Tables, id: EntryId, targets: map<nat, Target>, tidy: Tidy)
    requires Sound(t) && id in t.entries && NormalEntry(t, id, tidy)
    requires forall f :: f in t.folders ==> f in targets && targets[f].name == t.folders[f].name
    ensures LinkOf(targets, 3, ExportEntry(t, id)).Ok?
    ensures LinkOf(targets, 3, ExportEntry(t, id)).value.None? ==> t.entries[id].doc.folder.None?
  {
    assert EntryLinked(t.entries[id], t.folders);
  }

  lemma {:induction false} AttachmentsMatch(attachments: map<AttachmentId, Attachment>, entry: EntryId, n: AttachmentId)
    ensures ContentsMatch(AttachmentsOf(attachments, entry, n))
  {
    if n > 0 { AttachmentsMatch(attachments, entry, n - 1); }
  }

  lemma {:induction false} NoAttachments(attachments: map<AttachmentId, Attachment>, entry: EntryId, n: AttachmentId)
    requires forall a :: a in attachments ==> attachments[a].entry != entry
    ensures AttachmentsOf(attachments, entry, n) == []
  {
    if n > 0 { NoAttachments(attachments, entry, n - 1); }
  }

  /** The new row is a copy with the copied attachments. */
  lemma InsertedCopies(t: Tables, id: EntryId, t1: Tables, owner: UserId, link: Option<FolderId>)
    requires Valid(t1) && id in t.entries && (link.None? ==> t.entries[id].doc.folder.None?)
    ensures var r := Inserted(t1, Some(owner), link, t.entries[id].doc, ExportEntry(t, id));
            && r.Ok?
            && CopiedEntry(t, id, r.value, t1.nextEntry, owner)
            && r.value.entries == t1.entries[t1.nextEntry := r.value.entries[t1.nextEntry]]
            && r.value.nextEntry == t1.nextEntry + 1
            && r.value.folders == t1.folders
  {
    var entry := ExportEntry(t, id);
    var added := AddEntry(t1, Entry(Some(owner), link, entry.doc, entry.created, entry.updated, entry.deleted, true));
    AttachmentsMatch(t.attachments, id, t.nextAttachment);
    AddAttachmentsOnly(added, t1.nextEntry, entry.attachments);
    AddedAttachments(added, t1.nextEntry, entry.attachments, t1.nextEntry);
    NoAttachments(t1.attachments, t1.nextEntry, t1.nextAttachment);
    assert [] + entry.attachments == entry.attachments;
    assert Inserted(t1, Some(owner), link, entry.doc, entry)
           == Ok(AddAttachments(added, t1.nextEntry, entry.attachments));
  }

  /** Copies made before stay copies. */
  lemma EarlierStays(t: Tables, id: EntryId, t1: Tables, owner: UserId, link: Option<FolderId>, earlier: EntryId,
          copy: EntryId)
    requires Valid(t1) && id in t.entries && (link.None? ==> t.entries[id].doc.folder.None?)
    requires CopiedEntry(t, earlier, t1, copy, owner)
    ensures var r := Inserted(t1, Some(owner), link, t.entries[id].doc, ExportEntry(t, id));
            r.Ok? && CopiedEntry(t, earlier, r.value, copy, owner)
  {
    InsertedCopies(t, id, t1, owner, link);
    var entry := ExportEntry(t, id);
    var added := AddEntry(t1, Entry(Some(owner), link, entry.doc, entry.created, entry.updated, entry.deleted, true));
    AttachmentsMatch(t.attachments, id, t.nextAttachment);
    AddedAttachments(added, t1.nextEntry, entry.attachments, copy);
    assert Inserted(t1, Some(owner), link, entry.doc, entry)
           == Ok(AddAttachments(added, t1.nextEntry, entry.attachments));
  }

  lemma InsertedCopied(t: Tables, ids: seq<EntryId>, k: nat, t1: Tables, base: EntryId, owner: UserId,
          link: Option<FolderId>)
    requires Valid(t1) && k < |ids| && Copied(t, ids, k, t1, base, owner) && ids[k] in t.entries
    requires link.None? ==> t.entries[ids[k]].doc.folder.None?
    ensures var r := Inserted(t1, Some(owner), link, t.entries[ids[k]].doc, ExportEntry(t, ids[k]));
            r.Ok? && Copied(t, ids, k + 1, r.value, base, owner) && r.value.folders == t1.folders
  {
    InsertedCopies(t, ids[k], t1, owner, link);
    var t' := Inserted(t1, Some(owner), link, t.entries[ids[k]].doc, ExportEntry(t, ids[k])).value;
    forall j | 0 <= j < k + 1 ensures CopiedEntry(t, ids[j], t', base + j, owner) {
      if j < k { EarlierStays(t, ids[k], t1, owner, link, ids[j], base + j); }
    }
  }

  lemma CopyStep(t: Tables, ids: seq<EntryId>, k: nat, m: Merge, mode: Mode, targets: map<nat, Target>,
          base: EntryId, owner: UserId)
    requires Source(t, ids, targets) && k < |ids| && Copied(t, ids, k, m.t, base, owner) && mode.owner == Some(owner)
    requires TrashedDistinct(t) && Valid(m.t) && ActiveOk(m.active, m.t.entries)
    requires TrashedOk(m.trashed, m.t.entries) && m.seen <= m.active.Keys
    requires NormalEntry(t, ids[k], mode.tidy)
    ensures var r := MergeEntry(m, mode, targets, 3, ExportEntry(t, ids[k]));
            r.Ok? && Copied(t, ids, k + 1, r.value.t, base, owner) && r.value.t.folders == m.t.folders
  {
    LinkAccepted(t, ids[k], targets, mode.tidy);
    var link := LinkOf(targets, 3, ExportEntry(t, ids[k])).value;
    AttachmentsMatch(t.attachments, ids[k], t.nextAttachment);
    InsertedCopied(t, ids, k, m.t, base, owner, link);
    if Active(t.entries[ids[k]]) {
      NameIsNew(t, ids, k, m, targets, base, owner);
    } else {
      TrashedIsNew(t, ids, k, m, targets, base, owner);
    }
  }

  /** The merged entries so far are copies, and the indexes are in order. */
  ghost predicate CopiedSoFar(t: Tables, ids: seq<EntryId>, k: nat, m: Merge, folders: map<FolderId, Folder>,
          base: EntryId, owner: UserId) {
    && Copied(t, ids, k, m.t, base, owner) && m.t.folders == folders
    && Valid(m.t) && ActiveOk(m.active, m.t.entries) && TrashedOk(m.trashed, m.t.entries) && m.seen <= m.active.Keys
  }

  lemma MergedNext(t: Tables, ids: seq<EntryId>, k: nat, m: Merge, m1: Merge, mode: Mode, targets: map<nat, Target>)
    requires k < |ids| && forall j :: 0 <= j < |ids| ==> ids[j] in t.entries
    requires MergeEntries(m, mode, targets, 3, ExportEntries(t, ids[..k])) == Ok(m1)
    ensures MergeEntries(m, mode, targets, 3, ExportEntries(t, ids[..k + 1]))
            == MergeEntry(m1, mode, targets, 3, ExportEntry(t, ids[k]))
  {
    assert ExportEntries(t, ids[..k + 1]) == ExportEntries(t, ids[..k]) + [ExportEntry(t, ids[k])];
    MergeLast(m, m1, mode, targets, 3, ExportEntries(t, ids[..k]), ExportEntry(t, ids[k]));
  }

  /** The first `k` entries of the export, merged. */
  ghost predicate Merges(t: Tables, ids: seq<EntryId>, k: nat, begin: Merge, mode: Mode, targets: map<nat, Target>,
          m: Merge)
  {
    && k <= |ids| && (forall j :: 0 <= j < |ids| ==> ids[j] in t.entries)
    && MergeEntries(begin, mode, targets, 3, ExportEntries(t, ids[..k])) == Ok(m)
  }

  lemma MergesNone(t: Tables, ids: seq<EntryId>, begin: Merge, mode: Mode, targets: map<nat, Target>)
    requires forall j :: 0 <= j < |ids| ==> ids[j] in t.entries
    ensures Merges(t, ids, 0, begin, mode, targets, begin)
  {
    assert ExportEntries(t, ids[..0]) == [];
  }

  /** The first `k` entries have been merged, and are copies. */
  ghost predicate Copying(empty: Tables, t: Tables, ids: seq<EntryId>, k: nat, begin: Merge, m: Merge, mode: Mode,
          targets: map<nat, Target>, base: EntryId, owner: UserId)
  {
    && Merges(t, ids, k, begin, mode, targets, m)
    && CopiedSoFar(t, ids, k, m, begin.t.folders, base, owner) && Merging(empty, m, mode, targets)
  }

  lemma CopyNext(empty: Tables, t: Tables, ids: seq<EntryId>, k: nat, begin: Merge, m: Merge, mode: Mode,
          targets: map<nat, Target>, base: EntryId, owner: UserId) returns (m': Merge)
    requires Source(t, ids, targets) && k < |ids| && mode.owner == Some(owner) && NormalEntry(t, ids[k], mode.tidy)
    requires TrashedDistinct(t) && Copying(empty, t, ids, k, begin, m, mode, targets, base, owner)
    ensures Copying(empty, t, ids, k + 1, begin, m', mode, targets, base, owner)
  {
    CopyStep(t, ids, k, m, mode, targets, base, owner);
    MergeEntryKeeps(empty, m, mode, targets, 3, ExportEntry(t, ids[k]));
    m' := MergeEntry(m, mode, targets, 3, ExportEntry(t, ids[k])).value;
    MergedNext(t, ids, k, begin, m, mode, targets);
  }

  lemma {:induction false} CopyAll(empty: Tables, t: Tables, ids: seq<EntryId>, k: nat, begin: Merge, mode: Mode,
          targets: map<nat, Target>, base: EntryId, owner: UserId) returns (m: Merge)
    requires Source(t, ids, targets) && TrashedDistinct(t) && k <= |ids| && mode.owner == Some(owner)
    requires Copying(empty, t, ids, 0, begin, begin, mode, targets, base, owner)
    requires forall j :: 0 <= j < |ids| ==> NormalEntry(t, ids[j], mode.tidy)
    ensures Copying(empty, t, ids, k, begin, m, mode, targets, base, owner)
  {
    m := begin;
    if k > 0 {
      m := CopyAll(empty, t, ids, k - 1, begin, mode, targets, base, owner);
      m := CopyNext(empty, t, ids, k - 1, begin, m, mode, targets, base, owner);
    }
  }

  // ----- Acceptance, and what is lost ------------------------------------------------------

  /** The rows in the trash are those of the index, one for each key. */
  predicate Filed(m: Merge) {
    forall id :: id in m.t.entries && m.t.entries[id].deleted.Some? ==>
      var key := (m.t.entries[id].doc.name, m.t.entries[id].deleted.value);
      key in m.trashed && m.trashed[key] == id
  }

  lemma NewRowFiled(m: Merge, t': Tables, trashed: map<(string, Time), EntryId>, owner: Option<UserId>,
          link: Option<FolderId>, doc: Document, entry: BackupEntry)
    requires KeysBelow(m.t.entries, m.t.nextEntry) && Filed(m) && Inserted(m.t, owner, link, doc, entry) == Ok(t')
    requires entry.deleted.None? ==> trashed == m.trashed
    requires entry.deleted.Some? ==>
               var key := (doc.name, entry.deleted.value);
               key !in m.trashed && trashed == m.trashed[key := m.t.nextEntry]
    ensures Filed(m.(t := t', trashed := trashed))
  {
    InsertedLeavesRows(m.t, owner, link, doc, entry);
  }

  lemma TrashedFiled(empty: Tables, m: Merge, mode: Mode, targets: map<nat, Target>, link: Option<FolderId>,
          doc: Document, entry: BackupEntry)
    requires empty.entries == map[] && mode.owner.Some? && Merging(empty, m, mode, targets) && Filed(m)
    requires entry.deleted.Some? && MergeTrashed(m, mode, link, doc, entry, entry.deleted.value).Ok?
    ensures Filed(MergeTrashed(m, mode, link, doc, entry, entry.deleted.value).value)
  {
    var key := (doc.name, entry.deleted.value);
    if key in m.trashed {
      assert m.t.entries[m.trashed[key]].owner == mode.owner;
    } else {
      var t' := Inserted(m.t, mode.owner, link, doc, entry).value;
      NewRowFiled(m, t', m.trashed[key := m.t.nextEntry], mode.owner, link, doc, entry);
    }
  }

  lemma ActiveFiled(empty: Tables, m: Merge, mode: Mode, targets: map<nat, Target>, link: Option<FolderId>,
          doc: Document, entry: BackupEntry)
    requires empty.entries == map[] && Merging(empty, m, mode, targets) && Filed(m) && doc.name !in m.seen
    requires entry.deleted.None? && MergeActive(m.(seen := m.seen + {doc.name}), mode, link, doc, entry).Ok?
    ensures Filed(MergeActive(m.(seen := m.seen + {doc.name}), mode, link, doc, entry).value)
  {
    if doc.name in m.active {
      OverwritesOld(empty, m.t, m.active, mode, m.seen, doc.name);
    } else {
      NewRowFiled(m, Inserted(m.t, mode.owner, link, doc, entry).value, m.trashed, mode.owner, link, doc, entry);
    }
  }

  /** Into a vault that was empty nothing is restored twice. */
  lemma StaysFiled(empty: Tables, m: Merge, mode: Mode, targets: map<nat, Target>, version: nat, entry: BackupEntry)
    requires empty.entries == map[] && mode.owner.Some? && Merging(empty, m, mode, targets) && Filed(m)
    requires MergeEntry(m, mode, targets, version, entry).Ok?
    ensures Filed(MergeEntry(m, mode, targets, version, entry).value)
  {
    var doc := RestoredDocument(entry.doc, mode.tidy);
    var link := LinkOf(targets, version, entry).value;
    if entry.deleted.Some? {
      TrashedFiled(empty, m, mode, targets, link, doc, entry);
    } else {
      ActiveFiled(empty, m, mode, targets, link, doc, entry);
    }
  }

  lemma ActiveAccepted(empty: Tables, m: Merge, mode: Mode, targets: map<nat, Target>, link: Option<FolderId>,
          doc: Document, entry: BackupEntry)
    requires empty.entries == map[] && mode.owner.Some? && Merging(empty, m, mode, targets) && doc.name !in m.seen
    ensures MergeActive(m.(seen := m.seen + {doc.name}), mode, link, doc, entry).Ok?
  {
    if doc.name in m.active { OverwritesOld(empty, m.t, m.active, mode, m.seen, doc.name); }
  }

  /** An exported entry of a new name is accepted. */
  lemma NextAccepted(empty: Tables, t: Tables, id: EntryId, m: Merge, mode: Mode, targets: map<nat, Target>)
    requires empty.entries == map[] && mode.owner.Some? && Merging(empty, m, mode, targets)
    requires Sound(t) && id in t.entries && NormalEntry(t, id, mode.tidy)
    requires forall f :: f in t.folders ==> f in targets && targets[f].name == t.folders[f].name
    requires Active(t.entries[id]) ==> t.entries[id].doc.name !in m.seen
    ensures MergeEntry(m, mode, targets, 3, ExportEntry(t, id)).Ok?
  {
    LinkAccepted(t, id, targets, mode.tidy);
    AttachmentsMatch(t.attachments, id, t.nextAttachment);
    if Active(t.entries[id]) {
      var entry := ExportEntry(t, id);
      ActiveAccepted(empty, m, mode, targets, LinkOf(targets, 3, entry).value, t.entries[id].doc, entry);
    }
  }

  lemma NameUnseen(t: Tables, ids: seq<EntryId>, k: nat, begin: Merge, mode: Mode, targets: map<nat, Target>, m: Merge)
    requires UniqueActive(t.entries) && Ascending(ids) && k < |ids| && Merges(t, ids, k, begin, mode, targets, m)
    requires Active(t.entries[ids[k]]) && begin.seen == {}
    ensures t.entries[ids[k]].doc.name !in m.seen
  {
    SeenAreActive(begin, mode, targets, 3, ExportEntries(t, ids[..k]));
  }

  /** The first `k` entries have been merged into a vault that was empty. */
  ghost predicate Accepting(empty: Tables, t: Tables, ids: seq<EntryId>, k: nat, begin: Merge, m: Merge, mode: Mode,
          targets: map<nat, Target>)
  {
    && Merges(t, ids, k, begin, mode, targets, m) && begin.seen == {}
    && empty.entries == map[] && mode.owner.Some? && Merging(empty, m, mode, targets) && Filed(m)
  }

  lemma AcceptNext(empty: Tables, t: Tables, ids: seq<EntryId>, k: nat, begin: Merge, m: Merge, mode: Mode,
          targets: map<nat, Target>) returns (m': Merge)
    requires Source(t, ids, targets) && k < |ids| && NormalEntry(t, ids[k], mode.tidy)
    requires Accepting(empty, t, ids, k, begin, m, mode, targets)
    ensures Accepting(empty, t, ids, k + 1, begin, m', mode, targets)
  {
    if Active(t.entries[ids[k]]) { NameUnseen(t, ids, k, begin, mode, targets, m); }
    NextAccepted(empty, t, ids[k], m, mode, targets);
    MergeEntryKeeps(empty, m, mode, targets, 3, ExportEntry(t, ids[k]));
    StaysFiled(empty, m, mode, targets, 3, ExportEntry(t, ids[k]));
    m' := MergeEntry(m, mode, targets, 3, ExportEntry(t, ids[k])).value;
    MergedNext(t, ids, k, begin, m, mode, targets);
  }

  lemma {:induction false} AllAccepted(empty: Tables, t: Tables, ids: seq<EntryId>, k: nat, begin: Merge,
          mode: Mode, targets: map<nat, Target>) returns (m: Merge)
    requires Source(t, ids, targets) && k <= |ids| && Accepting(empty, t, ids, 0, begin, begin, mode, targets)
    requires forall j :: 0 <= j < |ids| ==> NormalEntry(t, ids[j], mode.tidy)
    ensures Accepting(empty, t, ids, k, begin, m, mode, targets)
  {
    m := begin;
    if k > 0 {
      m := AllAccepted(empty, t, ids, k - 1, begin, mode, targets);
      m := AcceptNext(empty, t, ids, k - 1, begin, m, mode, targets);
    }
  }

  /** Copies of two trashed entries of one name and time would be filed alike. */
  lemma CopiesAreDistinct(t: Tables, ids: seq<EntryId>, m: Merge, base: EntryId, owner: UserId)
    requires Filed(m) && Copied(t, ids, |ids|, m.t, base, owner)
    requires (forall id :: id in t.entries ==> id in ids)
    ensures TrashedDistinct(t)
  {
    forall a, b, key | a in t.entries && b in t.entries && TrashedAs(t.entries[a], key) && TrashedAs(t.entries[b], key)
      ensures a == b
    {
      var i :| 0 <= i < |ids| && ids[i] == a;
      var j :| 0 <= j < |ids| && ids[j] == b;
      assert CopiedEntry(t, ids[i], m.t, base + i, owner) && CopiedEntry(t, ids[j], m.t, base + j, owner);
      assert m.trashed[key] == base + i && m.trashed[key] == base + j;
    }
  }

  // ----- The round trip ----------------------------------------------------------------

  predicate IsEmpty(t: Tables) { t.entries == map[] && t.folders == map[] && t.attachments == map[] }

  /** A vault of one account, with normal documents. */
  ghost predicate Simple(t: Tables, owner: UserId, tidy: Tidy) {
    && Sound(t)
    && (forall f :: f in t.folders ==> t.folders[f].owner == owner)
    && (forall id :: id in t.entries ==> t.entries[id].owner == Some(owner) && NormalEntry(t, id, tidy))
  }

  lemma AllFoldersExported(t: Tables, owner: UserId)
    requires Sound(t) && forall f :: f in t.folders ==> t.folders[f].owner == owner
    ensures var fs := Ordered(ExportedFolders(t, t.entries.Keys, Some(owner)), t.nextFolder);
            && Ascending(fs)
            && (forall k :: 0 <= k < |fs| ==> fs[k] in t.folders)
            && (forall f :: f in t.folders ==> f in fs)
  {
    var exported := ExportedFolders(t, t.entries.Keys, Some(owner));
    OrderedAscends(exported, t.nextFolder);
    forall f | f in t.folders ensures f in Ordered(exported, t.nextFolder) { OrderedHolds(exported, t.nextFolder, f); }
  }

  lemma AllNames(t: Tables, fs: seq<FolderId>)
    requires (forall k :: 0 <= k < |fs| ==> fs[k] in t.folders) && forall f :: f in t.folders ==> f in fs
    ensures (set f | f in fs :: t.folders[f].name) == FolderNames(t.folders)
  {
  }

  lemma AllEntriesExported(t: Tables)
    requires Sound(t)
    ensures var ids := Ordered(t.entries.Keys, t.nextEntry);
            && Ascending(ids)
            && (forall j :: 0 <= j < |ids| ==> ids[j] in t.entries)
            && (forall id :: id in t.entries ==> id in ids)
  {
    OrderedAscends(t.entries.Keys, t.nextEntry);
    forall id | id in t.entries
      ensures id in Ordered(t.entries.Keys, t.nextEntry)
    {
      OrderedHolds(t.entries.Keys, t.nextEntry, id);
    }
  }

  /** The restored vault: the entries in their order, each with its document,
      history, times and attachments, and the folders by name. */
  ghost predicate Reproduces(t: Tables, t': Tables, base: EntryId, owner: UserId) {
    var ids := Ordered(t.entries.Keys, t.nextEntry);
    && (forall id :: id in t.entries ==> id in ids)
    && Copied(t, ids, |ids|, t', base, owner)
    && FolderNames(t'.folders) == FolderNames(t.folders)
    && Sound(t')
  }

  lemma BeginsEmpty(empty: Tables, t0: Tables, t: Tables, ids: seq<EntryId>, owner: UserId)
    requires Valid(t0) && t0 == empty.(folders := t0.folders, nextFolder := t0.nextFolder) && IsEmpty(empty)
    ensures CopiedSoFar(t, ids, 0, BeginMerge(t0, map[]), t0.folders, t0.nextEntry, owner)
  {
  }

  /** The folder list of the backup, restored first. */
  lemma FoldersFirst(t: Tables, owner: UserId, empty: Tables, mode: Mode, importer: UserId, fs: seq<FolderId>,
          ids: seq<EntryId>)
    returns (t0: Tables, targets: map<nat, Target>)
    requires Simple(t, owner, mode.tidy) && Sound(empty) && IsEmpty(empty) && mode.owner == Some(importer)
    requires fs == Ordered(ExportedFolders(t, t.entries.Keys, Some(owner)), t.nextFolder)
    requires ids == Ordered(t.entries.Keys, t.nextEntry)
    ensures RestoreFolders(empty, mode.owner, ExportFolders(t, fs)) == Ok((t0, targets))
    ensures Source(t, ids, targets) && FolderNames(t0.folders) == FolderNames(t.folders)
    ensures t0.nextEntry == empty.nextEntry
    ensures UniqueActive(t0.entries) && Merging(empty, BeginMerge(t0, map[]), mode, targets)
    ensures CopiedSoFar(t, ids, 0, BeginMerge(t0, map[]), t0.folders, t0.nextEntry, importer)
  {
    AllFoldersExported(t, owner);
    AllEntriesExported(t);
    AllNames(t, fs);
    FoldersRestored(t, fs, empty, importer);
    RestoreFoldersKeep(empty, Some(importer), ExportFolders(t, fs));
    var r := RestoreFolders(empty, Some(importer), ExportFolders(t, fs)).value;
    t0, targets := r.0, r.1;
    BeginMerging(empty, t0, map[], mode, targets);
    BeginsEmpty(empty, t0, t, ids, importer);
  }

  lemma AllNormal(t: Tables, owner: UserId, tidy: Tidy, ids: seq<EntryId>)
    requires Simple(t, owner, tidy) && ids == Ordered(t.entries.Keys, t.nextEntry)
    ensures forall j :: 0 <= j < |ids| ==> ids[j] in t.entries && NormalEntry(t, ids[j], tidy)
  {
  }

  /** Restored into an empty vault, the backup of such a vault is accepted; and
      it reproduces the vault exactly if no two trashed entries had one name and
      deletion time, for of those only the first is restored. */
  lemma BackupReproducesVault(t: Tables, owner: UserId, empty: Tables, mode: Mode, importer: UserId)
    requires Simple(t, owner, mode.tidy) && Sound(empty) && IsEmpty(empty) && mode.owner == Some(importer)
    ensures var r := Restore(empty, map[], mode, Export(t, t.entries.Keys, Some(owner)));
            r.Ok? && (Reproduces(t, r.value.t, empty.nextEntry, importer) <==> TrashedDistinct(t))
  {
    var fs := Ordered(ExportedFolders(t, t.entries.Keys, Some(owner)), t.nextFolder);
    var ids := Ordered(t.entries.Keys, t.nextEntry);
    var t0, targets := FoldersFirst(t, owner, empty, mode, importer, fs, ids);
    AllNormal(t, owner, mode.tidy, ids);
    AllEntriesExported(t);
    assert ids[..|ids|] == ids;
    MergesNone(t, ids, BeginMerge(t0, map[]), mode, targets);
    var m := AllAccepted(empty, t, ids, |ids|, BeginMerge(t0, map[]), mode, targets);
    if TrashedDistinct(t) {
      var m' := CopyAll(empty, t, ids, |ids|, BeginMerge(t0, map[]), mode, targets, t0.nextEntry, importer);
    }
    if Reproduces(t, m.t, empty.nextEntry, importer) { CopiesAreDistinct(t, ids, m, empty.nextEntry, importer); }
  }

  /** Where it fails: two entries of one name were trashed at one time. */
  lemma BackupMayLoseTrashed(doc: Document, mode: Mode)
    requires ShortDocument(doc) && RestoredDocument(doc, mode.tidy) == doc && mode.owner == Some(2)
    ensures var t, r := TwoTrashed(doc), Restore(NoTables(), map[], mode, Export(TwoTrashed(doc), {0, 1}, Some(1)));
            Simple(t, 1, mode.tidy) && r.Ok? && !Reproduces(t, r.value.t, 0, 2)
  {
    var t := TwoTrashed(doc);
    assert TrashedAs(t.entries[0], ("a", 5)) && TrashedAs(t.entries[1], ("a", 5));
    assert AttachmentsOf(t.attachments, 0, 0) == [] && AttachmentsOf(t.attachments, 1, 0) == [];
    assert t.entries.Keys == {0, 1};
    BackupReproducesVault(t, 1, NoTables(), mode, 2);
  }

  function TwoTrashed(doc: Document): Tables {
    var e := Entry(Some(1), None, doc, 5, 5, Some(5), false);
    NoTables().(entries := map[0 := e, 1 := e], nextEntry := 2)
  }

  /** Restoring the same file into the vault it made, with conflicts skipped,
      changes nothing. */
  lemma RestoredTwiceIsRestoredOnce(t: Tables, owner: UserId, empty: Tables, mode: Mode, importer: UserId, again: Mode)
    requires Simple(t, owner, mode.tidy) && Sound(empty) && IsEmpty(empty) && mode.owner == Some(importer)
    requires !again.overwrite && again.owner == mode.owner
    ensures var b := Export(t, t.entries.Keys, Some(owner));
            var r := Restore(empty, map[], mode, b);
            r.Ok? && forall index :: TrashedIndex(index, r.value.t) ==> ChangesNothing(r.value.t, index, again, b)
  {
    BackupReproducesVault(t, owner, empty, mode, importer);
    var b := Export(t, t.entries.Keys, Some(owner));
    assert TrashIsOwn(empty, mode.owner, b.entries);
    RestoreAgainChangesNothing(empty, map[], mode, b, again);
  }

  /** A file with an entry whose document names a folder is accepted exactly
      because link and name agree: for a normal document, the check of the link
      passes if and only if they do. */
  lemma AcceptedIffLinked(t: Tables, id: EntryId, targets: map<nat, Target>)
    requires Valid(t) && id in t.entries && t.entries[id].doc.folder != Some("")
    requires forall f :: f in t.folders ==> f in targets && targets[f].name == t.folders[f].name
    ensures LinkOf(targets, 3, ExportEntry(t, id)).Ok? <==> EntryLinked(t.entries[id], t.folders)
  {
  }
}
