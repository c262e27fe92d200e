/**
The vault's files and the two operations that move them (backend/storage.py).
Every file-system step may succeed, raise an error or be the last one before
the process is killed: the environment `fate` decides, so a contract that holds
for every `fate` holds for every crash point. Renames are atomic, a copy may be
torn, and SQLite may rewrite the live files only so that they denote the same
vault. Taking the exclusive lock changes no bytes.
*/
module Storage {
  import opened Wrappers
  import opened ByteStrings

  datatype Suffix = Db | Wal | Shm | Journal

  /** The files present under the vault's name, by suffix. */
  type Files = map<Suffix, Bytes>

  /** A folder in the snapshot folder: byte copies, and journals moved there. */
  datatype Folder = Folder(raw: Files, unfolded: Files)

  datatype Fate = Proceed | OsError | Kill

  datatype Status = Going | Failed | Killed {
    predicate IsFailure() { !Going? }
    function PropagateFailure(): Status
      requires IsFailure()
    {
      this
    }
  }

  const SIDECARS: seq<Suffix> := [Wal, Shm, Journal]
  const FILES: seq<Suffix> := [Db, Wal, Shm, Journal]

  predicate HasVault(f: Files) { Db in f && f[Db] != [] }

  predicate SameFile(f: Files, g: Files, suffix: Suffix) {
    (suffix in f <==> suffix in g) && (suffix in f ==> f[suffix] == g[suffix])
  }

  /** The database file and its write-ahead log, byte for byte. */
  predicate SameVault(f: Files, g: Files) { SameFile(f, g, Db) && SameFile(f, g, Wal) }

  function Optional(f: Files, suffix: Suffix): Option<Bytes> {
    if suffix in f then Some(f[suffix]) else None
  }

  predicate KeptRaw(kept: seq<Folder>, vault: Files) {
    exists k :: 0 <= k < |kept| && SameVault(kept[k].raw, vault)
  }

  predicate KeptJournal(kept: seq<Folder>, suffix: Suffix, bytes: Bytes) {
    exists k :: 0 <= k < |kept| && suffix in kept[k].unfolded && kept[k].unfolded[suffix] == bytes
  }

  /** Nothing of `vault` is lost: its bytes are at the live name or in a kept
      folder; what is at the live name still denotes it unless it is kept; a
      rollback journal, and any journal next to a missing or empty vault file,
      is still there or was moved to a kept folder. */
  predicate Preserved(denote: (Bytes, Option<Bytes>) -> nat, vault: Files, live: Files, kept: seq<Folder>) {
    && (HasVault(vault) ==>
          && (SameVault(live, vault) || KeptRaw(kept, vault))
          && (KeptRaw(kept, vault)
              || (Db in live && denote(live[Db], Optional(live, Wal)) == denote(vault[Db], Optional(vault, Wal)))))
    && (Journal in vault ==> SameFile(live, vault, Journal) || KeptJournal(kept, Journal, vault[Journal]))
    && (!HasVault(vault) && Wal in vault ==>
          (!HasVault(live) && SameFile(live, vault, Wal)) || KeptJournal(kept, Wal, vault[Wal]))
  }

  /** Wholly in kept folders, so the live name may be given another vault. */
  predicate Secured(vault: Files, kept: seq<Folder>) {
    && (HasVault(vault) ==> KeptRaw(kept, vault))
    && (Journal in vault ==> KeptJournal(kept, Journal, vault[Journal]))
    && (!HasVault(vault) && Wal in vault ==> KeptJournal(kept, Wal, vault[Wal]))
  }

  /** A kept folder is never removed or rewritten. */
  predicate Extends(before: seq<Folder>, after: seq<Folder>) { before <= after }

  lemma ExtendsKeeps(before: seq<Folder>, after: seq<Folder>, vault: Files)
    requires Extends(before, after)
    ensures KeptRaw(before, vault) ==> KeptRaw(after, vault)
    ensures forall s, b :: KeptJournal(before, s, b) ==> KeptJournal(after, s, b)
  {
    if KeptRaw(before, vault) {
      var k :| 0 <= k < |before| && SameVault(before[k].raw, vault);
      assert after[k] == before[k];
    }
    forall s, b | KeptJournal(before, s, b) ensures KeptJournal(after, s, b) {
      var k :| 0 <= k < |before| && s in before[k].unfolded && before[k].unfolded[s] == b;
      assert after[k] == before[k];
    }
  }

  lemma PreservedExtends(denote: (Bytes, Option<Bytes>) -> nat, vault: Files, live: Files, before: seq<Folder>,
          after: seq<Folder>)
    requires Preserved(denote, vault, live, before) && Extends(before, after)
    ensures Preserved(denote, vault, live, after)
  {
    ExtendsKeeps(before, after, vault);
  }

  /** Once the live vault is kept byte for byte, SQLite may fold its log. */
  lemma PreservedFolded(denote: (Bytes, Option<Bytes>) -> nat, vault: Files, live: Files, folded: Files,
          kept: seq<Folder>)
    requires Preserved(denote, vault, live, kept) && HasVault(live) && KeptRaw(kept, live)
    requires Db in folded && denote(folded[Db], Optional(folded, Wal)) == denote(live[Db], Optional(live, Wal))
    requires SameFile(folded, live, Journal)
    ensures Preserved(denote, vault, folded, kept)
    ensures HasVault(vault) ==> KeptRaw(kept, vault)
  {
  }

  /** Moving one journal into the last kept folder. */
  lemma PreservedMoved(denote: (Bytes, Option<Bytes>) -> nat, vault: Files, live: Files, before: seq<Folder>,
          suffix: Suffix)
    requires Preserved(denote, vault, live, before) && |before| > 0 && suffix in live && suffix != Db
    requires suffix !in before[|before| - 1].unfolded
    requires HasVault(vault) ==> KeptRaw(before, vault)
    ensures Preserved(denote, vault, live - {suffix}, WithUnfolded(before, suffix, live[suffix]))
    ensures HasVault(vault) ==> KeptRaw(WithUnfolded(before, suffix, live[suffix]), vault)
  {
    UnfoldedKeeps(before, suffix, live[suffix], vault);
    assert KeptJournal(WithUnfolded(before, suffix, live[suffix]), suffix, live[suffix]);
  }

  function WithUnfolded(kept: seq<Folder>, suffix: Suffix, bytes: Bytes): seq<Folder>
    requires |kept| > 0
  {
    var last := |kept| - 1;
    kept[last := kept[last].(unfolded := kept[last].unfolded[suffix := bytes])]
  }

  lemma UnfoldedKeeps(kept: seq<Folder>, suffix: Suffix, bytes: Bytes, vault: Files)
    requires |kept| > 0 && suffix !in kept[|kept| - 1].unfolded
    ensures KeptRaw(kept, vault) ==> KeptRaw(WithUnfolded(kept, suffix, bytes), vault)
    ensures forall s, b :: KeptJournal(kept, s, b) ==> KeptJournal(WithUnfolded(kept, suffix, bytes), s, b)
    ensures KeptJournal(WithUnfolded(kept, suffix, bytes), suffix, bytes)
  {
    var after := WithUnfolded(kept, suffix, bytes);
    if KeptRaw(kept, vault) {
      var k :| 0 <= k < |kept| && SameVault(kept[k].raw, vault);
      assert after[k].raw == kept[k].raw;
    }
    forall s, b | KeptJournal(kept, s, b) ensures KeptJournal(after, s, b) {
      var k :| 0 <= k < |kept| && s in kept[k].unfolded && kept[k].unfolded[s] == b;
      assert s in after[k].unfolded && after[k].unfolded[s] == b;
    }
    assert after[|kept| - 1].unfolded[suffix] == bytes;
  }

  lemma NoneLeft(f: Files)
    requires forall j :: 0 <= j < |FILES| ==> FILES[j] !in f
    ensures f == map[]
  {
    assert FILES[0] !in f && FILES[1] !in f && FILES[2] !in f && FILES[3] !in f;
    forall x: Suffix ensures x !in f {
      match x case Db => case Wal => case Shm => case Journal =>
    }
  }

  /** With the marker there, each of the four files is at exactly one of the two
      places, unchanged; without it, they are still at the live name. */
  predicate Whole(files: Files, live: Files, pending: Option<Files>) {
    Apart(live, pending) && Union(live, pending) == files
  }

  predicate Apart(live: Files, pending: Option<Files>) {
    pending.Some? ==> live.Keys !! pending.value.Keys
  }

  function Union(live: Files, pending: Option<Files>): Files {
    if pending.Some? then live + pending.value else live
  }

  /** Moving one file from the live name to the marker folder. */
  lemma MoveKeepsWhole(files: Files, live: Files, moved: Files, suffix: Suffix)
    requires Whole(files, live, Some(moved)) && suffix in live
    ensures Whole(files, live - {suffix}, Some(moved[suffix := live[suffix]]))
  {
    assert (live - {suffix}) + moved[suffix := live[suffix]] == files;
  }

  /** Either that, or together in one folder of their own. */
  predicate Split(files: Files, live: Files, pending: Option<Files>, aside: seq<Files>) {
    || Whole(files, live, pending)
    || (pending.None? && live == map[] && |aside| > 0 && aside[|aside| - 1] == files)
  }

  predicate NonEmpty(f: Files, suffix: Suffix) { suffix in f && f[suffix] != [] }

  /** `refuse_orphaned_journals` */
  predicate OrphanedJournal(f: Files) {
    !HasVault(f) && (NonEmpty(f, Wal) || NonEmpty(f, Journal))
  }

  /** `migrate_users_if_needed`: a database of an older schema is rewritten
      where it stands, before anything looks for the marker. */
  predicate OldSchemaAt(f: Files, oldSchema: Files -> bool) { HasVault(f) && oldSchema(f) }

  function AfterMigration(f: Files, oldSchema: Files -> bool, migrated: Files -> Files): Files {
    if OldSchemaAt(f, oldSchema) then migrated(f) else f
  }

  /** A migration writes a database where there was one; as its connection
      closes, SQLite may fold the journals into it and remove them. */
  ghost predicate InPlace(oldSchema: Files -> bool, migrated: Files -> Files) {
    forall f :: OldSchemaAt(f, oldSchema) ==> HasVault(migrated(f)) && migrated(f).Keys <= f.Keys
  }

  /** A migration ends in a schema that needs none. */
  ghost predicate Migrates(oldSchema: Files -> bool, migrated: Files -> Files) {
    forall f :: OldSchemaAt(f, oldSchema) ==> !oldSchema(migrated(f))
  }

  predicate StartsDesktop(script: seq<Command>) { exists i :: 0 <= i < |script| && script[i].RunDesktop? }

  /** What `rewrites` desktop starts have made of the files, of which `start`
      were at the live name and `moved` in the marker folder. */
  ghost predicate Rewritten(start: Files, moved: Files, files: Files, rewrites: nat, oldSchema: Files -> bool,
          migrated: Files -> Files) {
    && (rewrites == 0 ==> files == start + moved)
    && (rewrites > 0 ==> OldSchemaAt(start, oldSchema) && Db in files)
    && (forall x :: x !in start ==> SameFile(files, start + moved, x))
    && (rewrites > 0 && Migrates(oldSchema, migrated) ==> files == migrated(start) + moved != start + moved)
  }

  /** What is at one place is known from the whole and the other place. */
  lemma SamePlace(a: Files, b: Files, moved: Files)
    requires a.Keys !! moved.Keys && b.Keys !! moved.Keys && a + moved == b + moved
    ensures a == b
  {
    forall x | x in a ensures x in b && b[x] == a[x] { assert (a + moved)[x] == (b + moved)[x] == a[x]; }
    forall x | x in b ensures x in a { assert x in b + moved && x in a + moved; }
  }

  /** A migration at the live name is one of the files meant. */
  lemma MigrationMovesOn(start: Files, moved: Files, files: Files, rewrites: nat, live: Files,
          oldSchema: Files -> bool, migrated: Files -> Files)
    requires InPlace(oldSchema, migrated) && Rewritten(start, moved, files, rewrites, oldSchema, migrated)
    requires Whole(start + moved, start, Some(moved)) && Whole(files, live, Some(moved))
    requires live.Keys <= start.Keys && OldSchemaAt(live, oldSchema)
    ensures var live' := migrated(live);
            && Whole(live' + moved, live', Some(moved)) && live'.Keys <= live.Keys
            && Rewritten(start, moved, live' + moved, rewrites + 1, oldSchema, migrated)
  {
    if rewrites == 0 {
      SamePlace(live, start, moved);
      if Migrates(oldSchema, migrated) && migrated(start) + moved == start + moved {
        SamePlace(migrated(start), start, moved);
      }
    } else if Migrates(oldSchema, migrated) {
      assert migrated(start).Keys <= start.Keys;
      SamePlace(live, migrated(start), moved);
      assert false;
    }
  }

  /** So a desktop start during an interrupted set-aside leaves every file as it
      was exactly when no database of an older schema is still at the live name. */
  lemma DesktopStartKeepsExactly(files: Files, live: Files, moved: Files, oldSchema: Files -> bool,
          migrated: Files -> Files)
    requires Whole(files, live, Some(moved)) && InPlace(oldSchema, migrated)
    requires forall f :: OldSchemaAt(f, oldSchema) ==> migrated(f) != f
    ensures Whole(files, AfterMigration(live, oldSchema, migrated), Some(moved)) <==> !OldSchemaAt(live, oldSchema)
  {
    if OldSchemaAt(live, oldSchema) && Whole(files, migrated(live), Some(moved)) {
      SamePlace(live, migrated(live), moved);
    }
  }

  /** Such a state is reached: the marker is made before the first file moves. */
  lemma DesktopStartMayRewrite(oldSchema: Files -> bool, migrated: Files -> Files, db: Bytes)
    requires db != [] && oldSchema(map[Db := db]) && migrated(map[Db := db]) != map[Db := db]
    ensures var live := map[Db := db];
            Whole(live, live, Some(map[])) && !Whole(live, AfterMigration(live, oldSchema, migrated), Some(map[]))
  {
    var live := map[Db := db];
    var after := AfterMigration(live, oldSchema, migrated);
    assert live + map[] == live;
    assert after + map[] == after;
  }

  datatype Command =
    | RunSetAside
    | RunRestore(valid: bool, image: Bytes)
    | RunStart(usable: bool)
    | RunDesktop(usable: bool)

  class DataDir {
    /** What a database file with an optional write-ahead log means to SQLite. */
    const denote: (Bytes, Option<Bytes>) -> nat
    const fate: nat -> Fate
    /** What SQLite leaves at the live name, or a torn copy, at each step. */
    const files: nat -> Files
    const torn: nat -> Bytes

    var clock: nat
    var live: Files
    var staged: Option<Bytes>
    var partial: Option<Bytes>
    var kept: seq<Folder>
    var pending: Option<Files>
    var aside: seq<Files>

    constructor (denote: (Bytes, Option<Bytes>) -> nat, fate: nat -> Fate, files: nat -> Files, torn: nat -> Bytes,
            live: Files)
      ensures this.denote == denote && this.fate == fate
      ensures this.live == live && kept == [] && pending == None && aside == []
    {
      this.denote, this.fate, this.files, this.torn := denote, fate, files, torn;
      this.live, kept, pending, aside := live, [], None, [];
      clock, staged, partial := 0, None, None;
    }

    predicate Safe(vault: Files)
      reads this
    {
      Preserved(denote, vault, live, kept)
    }

    /** One step of the process, as the environment decides. */
    method Tick() returns (s: Status)
      modifies this`clock
    {
      s := match fate(clock) case Proceed => Going case OsError => Failed case Kill => Killed;
      clock := clock + 1;
    }

    /** `_copy` into the staging name: written, checked, then renamed. */
    method Stage(image: Bytes) returns (s: Status)
      modifies this`clock, this`staged, this`partial
      ensures s == Going ==> staged == Some(image)
    {
      partial := None;
      :- Tick();
      partial := Some(torn(clock));
      s := Tick();
      if s == Going {
        partial := Some(image);
        s := Tick();
      }
      if s == Going {
        staged := partial;
        partial := None;
        s := Tick();
      }
      if s == Failed { partial := None; }
    }

    /** `_keep_raw`: a killed or failed copy may be torn. */
    method KeepRaw() returns (s: Status)
      requires |kept| > 0 && kept[|kept| - 1].raw == map[]
      modifies this`clock, this`kept
      ensures |kept| == |old(kept)| && kept[..|kept| - 1] == old(kept)[..|kept| - 1]
      ensures kept[|kept| - 1].unfolded == old(kept[|kept| - 1].unfolded)
      ensures s == Going ==> SameVault(kept[|kept| - 1].raw, live)
    {
      var last := |kept| - 1;
      for i := 0 to 2
        invariant |kept| == last + 1 == |old(kept)| && kept[..last] == old(kept)[..last]
        invariant kept[last].unfolded == old(kept[|kept| - 1].unfolded)
        invariant forall j :: 0 <= j < i ==> SameFile(kept[last].raw, live, FILES[j])
        invariant forall j :: i <= j < 4 ==> FILES[j] !in kept[last].raw
      {
        var suffix := FILES[i];
        if suffix in live {
          :- Tick();
          kept := kept[last := kept[last].(raw := kept[last].raw[suffix := torn(clock)])];
          :- Tick();
          kept := kept[last := kept[last].(raw := kept[last].raw[suffix := live[suffix]])];
          :- Tick();
        }
      }
      assert SameFile(kept[last].raw, live, FILES[0]) && SameFile(kept[last].raw, live, FILES[1]);
      s := Tick();
    }

    /** SQLite folds its log into the database file, as far as it gets. */
    method Checkpoint() returns (s: Status)
      requires Db in live
      modifies this`clock, this`live
      ensures Db in live && denote(live[Db], Optional(live, Wal)) == denote(old(live)[Db], Optional(old(live), Wal))
      ensures SameFile(live, old(live), Journal)
      ensures s != Failed
    {
      for i := 0 to 2
        invariant Db in live && denote(live[Db], Optional(live, Wal)) == denote(old(live)[Db], Optional(old(live), Wal))
        invariant SameFile(live, old(live), Journal)
      {
        s := Tick();
        if s == Killed { return; }
        var next := files(clock);
        if s == Going && Db in next && SameFile(next, live, Journal)
           && denote(next[Db], Optional(next, Wal)) == denote(live[Db], Optional(live, Wal)) {
          live := next;
        }
      }
      s := Going;                      // database errors are suppressed
    }

    /** `_move_sidecars`, into the folder just made: moved, never deleted. */
    method MoveSidecars(ghost vaults: iset<Files>) returns (s: Status)
      requires |kept| > 0 && kept[|kept| - 1].unfolded == map[]
      requires forall vault :: vault in vaults ==> Safe(vault) && (HasVault(vault) ==> KeptRaw(kept, vault))
      modifies this`clock, this`live, this`kept
      ensures |kept| == |old(kept)| && kept[..|kept| - 1] == old(kept)[..|kept| - 1]
      ensures SameFile(live, old(live), Db)
      ensures forall vault :: vault in vaults ==> Safe(vault)
      ensures s == Going ==> live.Keys <= {Db}
      ensures s == Going ==> forall vault :: vault in vaults ==> Secured(vault, kept)
    {
      for i := 0 to 3
        invariant |kept| == |old(kept)| && kept[..|kept| - 1] == old(kept)[..|kept| - 1]
        invariant SameFile(live, old(live), Db)
        invariant forall vault :: vault in vaults ==> Safe(vault)
        invariant forall vault :: vault in vaults && HasVault(vault) ==> KeptRaw(kept, vault)
        invariant forall j :: 0 <= j < i ==> SIDECARS[j] !in live
        invariant forall j :: i <= j < 3 ==> SIDECARS[j] !in kept[|kept| - 1].unfolded
      {
        var suffix := SIDECARS[i];
        if suffix in live {
          :- Tick();
          forall vault | vault in vaults
            ensures Preserved(denote, vault, live - {suffix}, WithUnfolded(kept, suffix, live[suffix]))
            ensures HasVault(vault) ==> KeptRaw(WithUnfolded(kept, suffix, live[suffix]), vault)
          {
            PreservedMoved(denote, vault, live, kept, suffix);
          }
          kept := WithUnfolded(kept, suffix, live[suffix]);
          live := live - {suffix};
        }
      }
      assert forall x :: x in live ==> x == Db by {
        assert SIDECARS[0] !in live && SIDECARS[1] !in live && SIDECARS[2] !in live;
      }
      s := Tick();
    }

    /** `_retire`: the vault at the live name is kept byte for byte, folded if
        SQLite can, and what journals remain are moved away. */
    method Retire() returns (s: Status)
      modifies this`clock, this`live, this`kept
      ensures Extends(old(kept), kept)
      ensures forall vault :: Preserved(denote, vault, old(live), old(kept)) ==> Preserved(denote, vault, live, kept)
      ensures s == Going ==> live.Keys <= {Db}
      ensures s == Going ==> forall vault :: Preserved(denote, vault, old(live), old(kept)) ==> Secured(vault, kept)
    {
      var hasVault := HasVault(live);
      ghost var vaults := iset vault | Safe(vault);
      assert forall vault :: Preserved(denote, vault, live, kept) ==> vault in vaults;
      if !hasVault && Wal !in live && Shm !in live && Journal !in live {
        assert forall x :: x in live ==> x == Db;
        return Going;
      }
      var readable := false;
      if hasVault {
        :- Tick();                                        // _take_exclusively
        readable := fate(clock) == Proceed;               // None: not a database
        clock := clock + 1;
      }
      :- Tick();
      var before := kept;
      kept := kept + [Folder(map[], map[])];
      if hasVault {
        s := KeepRaw();
        if s == Failed { kept := kept[..|kept| - 1]; }    // rmtree
        assert Extends(before, kept) by { assert kept[..|before|] == before; }
        if s != Going {
          forall vault | vault in vaults ensures Safe(vault) {
            PreservedExtends(denote, vault, live, before, kept);
          }
          return;
        }
        assert kept[|kept| - 1] == kept[|before|];
        assert KeptRaw(kept, live);
      }
      forall vault | vault in vaults ensures Safe(vault) && (HasVault(vault) ==> KeptRaw(kept, vault)) {
        PreservedExtends(denote, vault, live, before, kept);
        if hasVault { PreservedFolded(denote, vault, live, live, kept); }
      }
      if readable {
        ghost var raw := live;
        s := Checkpoint();
        forall vault | vault in vaults ensures Safe(vault) && (HasVault(vault) ==> KeptRaw(kept, vault)) {
          PreservedFolded(denote, vault, raw, live, kept);
        }
        if s != Going { return; }
      }
      s := MoveSidecars(vaults);
      assert Extends(before, kept) by { assert kept[..|before|] == before; }
    }

    /** `restore`. `installed` says whether the snapshot took the live name:
        then it stands there alone, without any journal of the vault it
        replaced, and everything there was before is in kept folders. */
    method Restore(valid: bool, image: Bytes) returns (s: Status, ghost installed: bool)
      requires image != []
      modifies this`clock, this`live, this`kept, this`staged, this`partial
      ensures Extends(old(kept), kept)
      ensures !installed ==>
                forall vault :: Preserved(denote, vault, old(live), old(kept)) ==> Preserved(denote, vault, live, kept)
      ensures installed ==> live == map[Db := image]
      ensures installed ==> forall vault :: Preserved(denote, vault, old(live), old(kept)) ==> Secured(vault, kept)
      ensures s == Going ==> installed
      ensures old(pending).Some? ==> live == old(live) && kept == old(kept)
    {
      installed := false;
      if !valid { return Failed, false; }
      s := Tick();                                        // VaultLock
      if s == Going && pending.Some? { s := Failed; }
      if s == Going { s := Tick(); }                      // mkdir
      if s == Going { s := Stage(image); }
      if s == Going { s := Retire(); }
      if s == Going { s := Tick(); }
      if s == Going {
        live := live[Db := image];
        staged := None;
        installed := true;
        s := Tick();
      }
      if s == Failed { staged := None; }                  // _discard
    }

    /** Any number of restores, each interrupted or not: every vault that was at
        the live name when one of them began is still there or in a kept
        folder, and a restored file last put there stands alone. */
    method RestoreRuns(script: seq<(bool, Bytes)>) returns (ghost begun: seq<Files>)
      requires forall i :: 0 <= i < |script| ==> script[i].1 != []
      modifies this`clock, this`live, this`kept, this`staged, this`partial
      ensures |begun| == |script| && (|begun| > 0 ==> begun[0] == old(live))
      ensures forall i :: 0 <= i < |begun| ==> Safe(begun[i])
      ensures Extends(old(kept), kept)
    {
      begun := [];
      for i := 0 to |script|
        invariant |begun| == i && (i > 0 ==> begun[0] == old(live)) && (i == 0 ==> live == old(live))
        invariant forall j :: 0 <= j < i ==> Safe(begun[j])
        invariant Extends(old(kept), kept)
      {
        ghost var vaults := begun + [live];
        ghost var before, beforeKept := live, kept;
        assert forall j :: 0 <= j <= i ==> Preserved(denote, vaults[j], before, beforeKept);
        var s; ghost var installed;
        s, installed := Restore(script[i].0, script[i].1);
        forall j | 0 <= j <= i ensures Safe(vaults[j]) {
          assert Preserved(denote, vaults[j], before, beforeKept);
          assert installed ==> Secured(vaults[j], kept);
        }
        begun := vaults;
      }
    }

    // ----- set_aside --------------------------------------------------------------

    /** The renames into the marker folder; a name present at both places stops
        them. */
    method MoveFiles() returns (s: Status)
      requires pending.Some?
      modifies this`clock, this`live, this`pending
      ensures pending.Some?
      ensures Apart(old(live), old(pending)) ==> Whole(Union(old(live), old(pending)), live, pending)
      ensures live.Keys <= old(live).Keys
      ensures Db in live ==> live == old(live) && pending == old(pending)
      ensures s == Going ==> live == map[]
    {
      ghost var all := Union(live, pending);
      ghost var apart := Apart(live, pending);
      for i := 0 to 4
        invariant pending.Some?
        invariant apart ==> Whole(all, live, pending)
        invariant forall j :: 0 <= j < i ==> FILES[j] !in live
        invariant live.Keys <= old(live).Keys
        invariant Db in live ==> live == old(live) && pending == old(pending)
      {
        var suffix := FILES[i];
        assert i > 0 ==> FILES[0] !in live;
        if suffix in live {
          if suffix in pending.value { return Failed; }
          :- Tick();
          if apart { MoveKeepsWhole(all, live, pending.value, suffix); }
          pending := Some(pending.value[suffix := live[suffix]]);
          live := live - {suffix};
        }
      }
      NoneLeft(live);
      s := Going;
    }

    /** `set_aside`. `_take_exclusively` may refuse; it changes nothing. */
    method SetAside() returns (s: Status)
      modifies this`clock, this`live, this`pending, this`aside
      ensures aside == old(aside) || (|aside| == |old(aside)| + 1 && aside[..|old(aside)|] == old(aside))
      ensures Apart(old(live), old(pending)) ==> Split(Union(old(live), old(pending)), live, pending, aside)
      ensures |aside| > |old(aside)| && Apart(old(live), old(pending)) ==>
                aside[|old(aside)|] == Union(old(live), old(pending))
      ensures aside == old(aside) ==> live.Keys <= old(live).Keys
      ensures old(pending).Some? && Db in live ==> live == old(live) && pending == old(pending)
      ensures s == Going && (old(pending).Some? || old(live) != map[]) ==>
                |aside| == |old(aside)| + 1 && pending.None? && live == map[]
      ensures old(pending).Some? && pending.None? ==> |aside| == |old(aside)| + 1
    {
      s := Tick();                                        // VaultLock
      if s != Going { return; }
      if pending.None? && live == map[] { return Going; }
      if HasVault(live) {
        s := Tick();
        if s != Going { return; }
      }
      :- Tick();                                          // mkdir
      ghost var all := Union(live, pending);
      if pending.None? { pending := Some(map[]); }
      assert Union(live, pending) == all;
      :- Tick();                                          // the marker is durable
      :- MoveFiles();
      :- Tick();
      assert Union(map[], pending) == pending.value;
      aside := aside + [pending.value];
      pending := None;
      s := Tick();
    }

    /** `prepare_data_dir`, and then a server that may do anything to its vault. */
    method ServerStart(usable: bool) returns (s: Status)
      modifies this`clock, this`live
      ensures old(pending).Some? || OrphanedJournal(old(live)) ==> live == old(live) && s != Going
    {
      if pending.Some? || OrphanedJournal(live) { return Failed; }
      if HasVault(live) && !usable { return Failed; }
      :- Tick();
      if Db !in live { live := live[Db := []]; }
      :- Tick();
      live := files(clock);
      s := Going;
    }

    /** The desktop core migrates an older schema first (desktop_core/entry.py). */
    method DesktopStart(usable: bool, oldSchema: Files -> bool, migrated: Files -> Files) returns (s: Status)
      modifies this`clock, this`live
      ensures old(pending).Some? ==>
                live == old(live) || live == AfterMigration(old(live), oldSchema, migrated)
    {
      if OldSchemaAt(live, oldSchema) {
        :- Tick();
        live := AfterMigration(live, oldSchema, migrated);
      }
      s := ServerStart(usable);
    }

    /** An interrupted set-aside followed by any starts, restores and retries:
        while the marker exists each file is in exactly one place, nothing new
        is at the live names, and the retry that removes the marker leaves them
        all together in one folder, where they stay. `files'` are the four
        files meant: the ones of `vault`, unchanged, unless a desktop start
        migrated a database of an older schema that it found at the live name;
        then those at the live name are what the migration left of them. */
    method AfterMarker(script: seq<Command>, vault: Files, oldSchema: Files -> bool, migrated: Files -> Files)
      returns (ghost files': Files, ghost rewrites: nat)
      requires pending.Some? && Whole(vault, live, pending) && InPlace(oldSchema, migrated)
      requires forall i :: 0 <= i < |script| && script[i].RunRestore? ==> script[i].image != []
      modifies this`clock, this`live, this`kept, this`staged, this`partial, this`pending, this`aside
      ensures |aside| == |old(aside)| ==>
                pending.Some? && Whole(files', live, pending) && live.Keys <= old(live).Keys
      ensures |aside| > |old(aside)| ==> aside[|old(aside)|] == files'
      ensures (StartsDesktop(script) ==> !OldSchemaAt(old(live), oldSchema)) ==> files' == vault
      ensures rewrites == 0 ==> files' == vault
      ensures rewrites > 0 ==> OldSchemaAt(old(live), oldSchema) && StartsDesktop(script)
      ensures rewrites > 0 ==> Db in files'
      ensures forall x :: x !in old(live) ==> SameFile(files', vault, x)
      ensures rewrites > 0 && Migrates(oldSchema, migrated) ==>
                files' == Union(migrated(old(live)), old(pending)) != vault
    {
      ghost var n, start, moved := |aside|, live, pending.value;
      files', rewrites := vault, 0;
      for i := 0 to |script|
        invariant |aside| >= n
        invariant |aside| == n ==> pending.Some? && Whole(files', live, pending) && live.Keys <= old(live).Keys
        invariant |aside| > n ==> aside[n] == files'
        invariant |aside| == n && Db in live ==> pending == Some(moved)
        invariant Rewritten(start, moved, files', rewrites, oldSchema, migrated)
        invariant rewrites > 0 ==> StartsDesktop(script)
      {
        ghost var before, beforeAside := live, aside;
        match script[i]
        case RunSetAside =>
          assert |aside| == n ==> Whole(files', before, pending);
          var _ := SetAside();
          if |beforeAside| > n { assert aside[n] == beforeAside[n]; }
        case RunRestore(valid, image) =>
          var s; ghost var installed;
          s, installed := Restore(valid, image);
        case RunStart(usable) =>
          var _ := ServerStart(usable);
        case RunDesktop(usable) =>
          var _ := DesktopStart(usable, oldSchema, migrated);
          if |aside| == n && live != before {
            MigrationMovesOn(start, moved, files', rewrites, before, oldSchema, migrated);
            files', rewrites := Union(live, pending), rewrites + 1;
          }
      }
    }
  }
}
