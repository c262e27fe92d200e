/**
Storing the validated rows of an imported file (backend/crud/password.py). Rows
of one file never collapse and never trash each other: a name that is used
again, or that another account's entry has, is made unique first.
*/
module CsvImport {
  import opened Wrappers
  import opened VaultTables
  import opened Folders
  import opened FolderRows

  const MAX_NAME_LENGTH := 255

  // ----- Unique names -----------------------------------------------------------

  function Digit(d: nat): char
    requires d < 10
  {
    "0123456789"[d]
  }

  function Digits(n: nat): (s: string)
    ensures |s| > 0
  {
    if n < 10 then [Digit(n)] else Digits(n / 10) + [Digit(n % 10)]
  }

  /** `s[:end]`, also for a negative end. */
  function Slice(s: string, end: int): string {
    if end >= |s| then s
    else if end >= 0 then s[..end]
    else if |s| + end <= 0 then ""
    else s[..|s| + end]
  }

  function Suffix(n: nat): string { " (" + Digits(n) + ")" }

  function Candidate(name: string, n: nat): string {
    var limit := if |name| > MAX_NAME_LENGTH then |name| else MAX_NAME_LENGTH;
    Slice(name, limit - |Suffix(n)|) + Suffix(n)
  }

  lemma {:induction false} DigitsAreDigits(n: nat, k: nat)
    requires k < |Digits(n)|
    ensures '0' <= Digits(n)[k] <= '9'
  {
    if n >= 10 && k < |Digits(n)| - 1 { DigitsAreDigits(n / 10, k); }
  }

  lemma DigitInjective(a: nat, b: nat)
    requires a < 10 && b < 10 && Digit(a) == Digit(b)
    ensures a == b
  {
  }

  lemma {:induction false} DigitsInjective(n: nat, m: nat)
    requires Digits(n) == Digits(m)
    ensures n == m
  {
    var s, l := Digits(n), |Digits(n)| - 1;
    DigitInjective(n % 10, m % 10) by {
      assert s[l] == Digit(n % 10) == Digit(m % 10);
    }
    if n >= 10 {
      assert s[..l] == Digits(n / 10);
      if m >= 10 {
        assert s[..l] == Digits(m / 10);
        DigitsInjective(n / 10, m / 10);
      }
    }
  }

  predicate AllDigits(s: string) { forall k :: 0 <= k < |s| ==> '0' <= s[k] <= '9' }

  function Bracketed(p: string, d: string): string { p + (" (" + d + ")") }

  lemma BracketAt(p: string, d: string)
    ensures Bracketed(p, d)[|Bracketed(p, d)| - 2 - |d|] == '('
  {
  }

  lemma DigitAt(p: string, d: string, i: nat)
    requires AllDigits(d) && |p| + 2 <= i < |p| + 2 + |d|
    ensures '0' <= Bracketed(p, d)[i] <= '9'
  {
    assert Bracketed(p, d)[i] == d[i - |p| - 2];
  }

  /** What stands behind the last bracket decides. */
  lemma BracketsDiffer(p: string, d: string, q: string, e: string)
    requires AllDigits(d) && AllDigits(e) && |d| <= |e| && Bracketed(p, d) == Bracketed(q, e)
    ensures d == e
  {
    var n := |Bracketed(p, d)|;
    if |d| < |e| {
      DigitAt(q, e, n - 2 - |d|);
      BracketAt(p, d);
    } else {
      assert d == Bracketed(p, d)[n - 1 - |d|..n - 1] == Bracketed(q, e)[n - 1 - |d|..n - 1] == e;
    }
  }

  ghost predicate Injective(f: nat -> string) { forall n, m :: f(n) == f(m) ==> n == m }

  function Candidates(name: string): nat -> string { (n: nat) => Candidate(name, n) }

  /** No two candidates are alike, however short the name had to be cut. */
  lemma CandidatesDiffer(name: string)
    ensures Injective(Candidates(name))
  {
    forall n: nat, m: nat | Candidates(name)(n) == Candidates(name)(m) ensures n == m {
      SameCandidate(name, n, m);
    }
  }

  lemma CandidateEnds(name: string, n: nat) returns (p: string)
    ensures Candidate(name, n) == Bracketed(p, Digits(n)) && AllDigits(Digits(n))
  {
    var limit := if |name| > MAX_NAME_LENGTH then |name| else MAX_NAME_LENGTH;
    p := Slice(name, limit - |Suffix(n)|);
    var d := Digits(n);
    forall k | 0 <= k < |d| ensures '0' <= d[k] <= '9' { DigitsAreDigits(n, k); }
  }

  lemma SameCandidate(name: string, n: nat, m: nat)
    requires Candidate(name, n) == Candidate(name, m)
    ensures n == m
  {
    var p := CandidateEnds(name, n);
    var q := CandidateEnds(name, m);
    var d, e := Digits(n), Digits(m);
    if |d| <= |e| { BracketsDiffer(p, d, q, e); } else { BracketsDiffer(q, e, p, d); }
    DigitsInjective(n, m);
  }

  /** The first number from 2 on whose candidate is free. */
  predicate FirstFree(f: nat -> string, taken: set<string>, n: nat) {
    n >= 2 && f(n) !in taken && forall m :: 2 <= m < n ==> f(m) in taken
  }

  /** The names tried so far: one for each number, all taken. */
  predicate Tried(f: nat -> string, taken: set<string>, n: nat, tried: set<string>) {
    && n >= 2 && |tried| == n - 2 && tried <= taken
    && (forall m :: 2 <= m < n ==> f(m) in tried)
    && (forall c :: c in tried ==> exists m :: 2 <= m < n && f(m) == c)
  }

  lemma TriesOneMore(f: nat -> string, taken: set<string>, n: nat, tried: set<string>)
    requires Injective(f) && Tried(f, taken, n, tried) && f(n) in taken
    ensures Tried(f, taken, n + 1, tried + {f(n)})
    ensures n - 2 < |taken|
  {
    Within(tried + {f(n)}, taken);
  }

  lemma {:induction false} Within(a: set<string>, b: set<string>)
    requires a <= b
    ensures |a| <= |b|
  {
    if a != {} {
      var x :| x in a;
      Within(a - {x}, b - {x});
    }
  }

  lemma {:induction false} FreeFrom(f: nat -> string, taken: set<string>, n: nat, tried: set<string>)
    requires Injective(f) && Tried(f, taken, n, tried)
    ensures exists m :: FirstFree(f, taken, m)
    decreases |taken| + 2 - n
  {
    if f(n) in taken {
      TriesOneMore(f, taken, n, tried);
      FreeFrom(f, taken, n + 1, tried + {f(n)});
    } else {
      assert FirstFree(f, taken, n);
    }
  }

  ghost function FreeNumber(f: nat -> string, taken: set<string>): (n: nat)
    requires Injective(f)
    ensures FirstFree(f, taken, n)
  {
    FreeFrom(f, taken, 2, {});
    var n :| FirstFree(f, taken, n);
    n
  }

  /** The search loop: it ends within |taken| + 1 tries. */
  method SearchFree(f: nat -> string, taken: set<string>) returns (candidate: string)
    requires Injective(f)
    ensures candidate == f(FreeNumber(f, taken)) && candidate !in taken
    ensures FreeNumber(f, taken) - 2 < |taken| + 1
  {
    var number: nat := 2;
    ghost var tried: set<string> := {};
    while f(number) in taken
      invariant Tried(f, taken, number, tried) && number - 2 <= |taken|
      decreases |taken| + 2 - number
    {
      TriesOneMore(f, taken, number, tried);
      tried := tried + {f(number)};
      number := number + 1;
    }
    assert FirstFree(f, taken, number);
    return f(number);
  }

  ghost function Unique(name: string, taken: set<string>): (u: string)
    ensures u !in taken
  {
    CandidatesDiffer(name);
    Candidates(name)(FreeNumber(Candidates(name), taken))
  }

  method UniqueName(name: string, taken: set<string>) returns (candidate: string)
    ensures candidate == Unique(name, taken) && candidate !in taken
  {
    CandidatesDiffer(name);
    candidate := SearchFree(Candidates(name), taken);
  }

  // ----- The rows of one file -----------------------------------------------------------

  /** The import's indexes beside the table: the importer's own active entries
      by name, all active names, and the names this file has used; for each row
      done the name it is stored under and the entry it made, None where it was
      skipped. */
  datatype Import = Import(
    t: Tables,
    existing: map<string, EntryId>,
    taken: set<string>,
    seen: set<string>,
    imported: nat,
    skipped: nat,
    overwritten: nat,
    names: seq<string>,
    made: seq<Option<EntryId>>)

  predicate Own(t: Tables, id: EntryId, owner: UserId) {
    id in t.entries && Active(t.entries[id]) && t.entries[id].owner == Some(owner)
  }

  function ActiveNames(t: Tables): set<string> {
    set id | id in t.entries && Active(t.entries[id]) :: t.entries[id].doc.name
  }

  function OwnByName(t: Tables, owner: UserId): map<string, EntryId>
    requires UniqueActive(t.entries)
  {
    map id | id in t.entries && Own(t, id, owner) :: t.entries[id].doc.name := id
  }

  function Begin(t: Tables, owner: UserId): Import
    requires UniqueActive(t.entries)
  {
    Import(t, OwnByName(t, owner), ActiveNames(t), {}, 0, 0, 0, [], [])
  }

  /** The row under the name it is stored under. */
  ghost function Renamed(s: Import, row: Document): Document {
    var foreign := row.name in s.taken && row.name !in s.existing;
    if row.name in s.seen || foreign then row.(name := Unique(row.name, s.taken)) else row
  }

  function Trashed(t: Tables, id: EntryId, now: Time): Tables
    requires id in t.entries
  {
    WithEntry(t, id, t.entries[id].(deleted := Some(now), updated := now))
  }

  /** `_upsert_entry`: the new entry takes the name, the old one goes to the trash. */
  ghost function Stored(t: Tables, owner: UserId, doc: Document, now: Time): Tables {
    match FolderNamed(t, Some(owner), doc.folder)
    case Err(_) => t
    case Ok((t', link)) => AddEntry(t', Entry(Some(owner), link, DocumentFrom(doc, []), now, now, None, false))
  }

  ghost function RowStep(s: Import, owner: UserId, row: Document, overwrite: bool, now: Time): Import {
    var doc := Renamed(s, row);
    var noted := s.(seen := s.seen + {doc.name}, taken := s.taken + {doc.name}, names := s.names + [doc.name]);
    var there := doc.name in s.existing && s.existing[doc.name] in s.t.entries;
    if there && !overwrite then noted.(skipped := s.skipped + 1, made := s.made + [None])
    else
      var t := if there then Trashed(s.t, s.existing[doc.name], now) else s.t;
      noted.(t := Stored(t, owner, doc, now),
             existing := s.existing[doc.name := s.t.nextEntry],
             imported := if there then s.imported else s.imported + 1,
             overwritten := if there then s.overwritten + 1 else s.overwritten,
             made := s.made + [Some(s.t.nextEntry)])
  }

  ghost function ImportRows(t: Tables, owner: UserId, rows: seq<Document>, overwrite: bool, now: Time): Import
    requires UniqueActive(t.entries)
  {
    if rows == [] then Begin(t, owner)
    else RowStep(ImportRows(t, owner, rows[..|rows| - 1], overwrite, now), owner, rows[|rows| - 1], overwrite, now)
  }

  // ----- What every row keeps --------------------------------------------------------------

  /** The indexes agree with the table. */
  predicate IndexesAgree(s: Import, owner: UserId) {
    && s.taken == ActiveNames(s.t)
    && (forall n :: n in s.existing ==> Own(s.t, s.existing[n], owner) && s.t.entries[s.existing[n]].doc.name == n)
    && (forall id :: id in s.t.entries && Own(s.t, id, owner) ==>
          s.t.entries[id].doc.name in s.existing && s.existing[s.t.entries[id].doc.name] == id)
    && s.seen <= s.taken
  }

  /** The entries an import replaces: active, the importer's, of a name this
      file has used, in an import that overwrites. */
  predicate Overwrites(owner: UserId, overwrite: bool, seen: set<string>, before: Entry) {
    overwrite && Active(before) && before.owner == Some(owner) && before.doc.name in seen
  }

  /** What becomes of an entry from before: those are moved to the trash, all
      others are left alone. */
  function Spared(before: Entry, owner: UserId, overwrite: bool, seen: set<string>, now: Time): Entry {
    if Overwrites(owner, overwrite, seen, before) then before.(deleted := Some(now), updated := now) else before
  }

  predicate AllSpared(t: Tables, t': Tables, owner: UserId, overwrite: bool, seen: set<string>, now: Time) {
    && t'.attachments == t.attachments && t'.grants == t.grants && t.nextEntry <= t'.nextEntry
    && (forall f :: f in t.folders ==> f in t'.folders && t'.folders[f] == t.folders[f])
    && forall id :: id in t.entries ==>
         id in t'.entries && t'.entries[id] == Spared(t.entries[id], owner, overwrite, seen, now)
  }

  /** A row that made an entry: it is there, active, the importer's, with the
      row's content, under the name chosen for it. */
  predicate RowMade(t: Tables, owner: UserId, row: Document, name: string, id: EntryId) {
    && id in t.entries && Active(t.entries[id]) && t.entries[id].owner == Some(owner)
    && t.entries[id].doc == DocumentFrom(row.(name := name), [])
  }

  /** A row that was skipped: the importer already had an entry of its name. */
  predicate RowSkipped(before: Tables, t: Tables, owner: UserId, row: Document) {
    exists id :: id in before.entries && Own(before, id, owner) && before.entries[id].doc.name == row.name
                 && id in t.entries && t.entries[id] == before.entries[id]
  }

  predicate RowDone(before: Tables, s: Import, owner: UserId, row: Document, name: string, made: Option<EntryId>,
          overwrite: bool) {
    match made
    case Some(id) => before.nextEntry <= id && RowMade(s.t, owner, row, name, id)
    case None => !overwrite && name == row.name && RowSkipped(before, s.t, owner, row)
  }

  /** The names of this file are used once each. */
  ghost predicate NamesUsed(names: seq<string>, seen: set<string>) {
    && (forall n :: n in names <==> n in seen)
    && (forall i, j :: 0 <= i < j < |names| ==> names[i] != names[j])
  }

  ghost predicate RowsDone(before: Tables, s: Import, owner: UserId, rows: seq<Document>, overwrite: bool) {
    && |s.names| == |s.made| == |rows| == s.imported + s.skipped + s.overwritten
    && NamesUsed(s.names, s.seen)
    && (forall i :: 0 <= i < |rows| ==> RowDone(before, s, owner, rows[i], s.names[i], s.made[i], overwrite))
    && (forall i, j :: 0 <= i < j < |rows| && s.made[i].Some? ==> s.made[i] != s.made[j])
  }

  /** Entries the import added are active, under names of this file, and never
      in a folder without a name. */
  predicate AddedSeen(before: Tables, t: Tables, seen: set<string>) {
    forall id :: id in t.entries && id !in before.entries ==>
      Active(t.entries[id]) && t.entries[id].doc.name in seen && t.entries[id].doc.folder != Some("")
  }

  ghost predicate Importing(before: Tables, s: Import, owner: UserId, rows: seq<Document>, overwrite: bool, now: Time) {
    && Valid(before)
    && Sound(s.t)
    && IndexesAgree(s, owner)
    && AllSpared(before, s.t, owner, overwrite, s.seen, now)
    && AddedSeen(before, s.t, s.seen)
    && RowsDone(before, s, owner, rows, overwrite)
  }

  lemma BeginImporting(t: Tables, owner: UserId, overwrite: bool, now: Time)
    requires Sound(t)
    ensures Importing(t, Begin(t, owner), owner, [], overwrite, now)
  {
  }

  /** The name a row is stored under is new to this file; if it is active
      anywhere, it is an own entry's from before the import. */
  lemma RenamedIsNew(before: Tables, s: Import, owner: UserId, rows: seq<Document>, overwrite: bool, now: Time,
          row: Document)
    requires Importing(before, s, owner, rows, overwrite, now)
    ensures var doc := Renamed(s, row);
            && doc.name !in s.seen
            && doc == row.(name := doc.name)
            && (doc.name in s.taken ==> doc.name in s.existing && doc == row)
            && (doc.name in s.existing ==>
                  var id := s.existing[doc.name];
                  && id in before.entries && id in s.t.entries && Own(s.t, id, owner)
                  && s.t.entries[id] == before.entries[id])
  {
    var doc := Renamed(s, row);
    if doc.name in s.existing {
      var id := s.existing[doc.name];
      assert doc.name in s.taken;
      if id in before.entries { assert s.t.entries[id] == Spared(before.entries[id], owner, overwrite, s.seen, now); }
    }
  }

  lemma RowsStayDone(before: Tables, s: Import, s': Import, owner: UserId, rows: seq<Document>, overwrite: bool, i: nat)
    requires RowsDone(before, s, owner, rows, overwrite) && i < |rows|
    requires forall id :: id in s.t.entries && (id !in before.entries || s.made[i].None?) ==>
               id in s'.t.entries && s'.t.entries[id] == s.t.entries[id]
    requires Valid(before)
    ensures RowDone(before, s', owner, rows[i], s.names[i], s.made[i], overwrite)
  {
    assert RowDone(before, s, owner, rows[i], s.names[i], s.made[i], overwrite);
    match s.made[i]
    case Some(id) => assert id !in before.entries;
    case None =>
      var id :| id in before.entries && Own(before, id, owner) && before.entries[id].doc.name == rows[i].name
                && id in s.t.entries && s.t.entries[id] == before.entries[id];
      assert s'.t.entries[id] == before.entries[id];
  }

  lemma SkippedIsThere(before: Tables, s: Import, owner: UserId, rows: seq<Document>, now: Time, row: Document)
    requires Importing(before, s, owner, rows, false, now)
    requires Renamed(s, row).name in s.existing
    ensures RowSkipped(before, s.t, owner, row) && Renamed(s, row) == row && row.name in s.taken
  {
    RenamedIsNew(before, s, owner, rows, false, now, row);
    var id := s.existing[row.name];
    assert s.t.entries[id].doc.name in ActiveNames(s.t);
    assert before.entries[id].doc.name == row.name && Own(before, id, owner);
  }

  lemma SkipKeeps(before: Tables, s: Import, owner: UserId, rows: seq<Document>, now: Time, row: Document)
    requires Importing(before, s, owner, rows, false, now)
    requires Renamed(s, row).name in s.existing
    ensures Importing(before, RowStep(s, owner, row, false, now), owner, rows + [row], false, now)
  {
    RenamedIsNew(before, s, owner, rows, false, now, row);
    SkippedIsThere(before, s, owner, rows, now, row);
    SkippedFields(s, owner, row, now);
    SkippedIndexes(before, s, owner, row.name, now);
    SkippedRows(before, s, RowStep(s, owner, row, false, now), owner, rows, row);
  }

  function SkippedRow(s: Import, name: string): Import {
    s.(seen := s.seen + {name}, names := s.names + [name], skipped := s.skipped + 1, made := s.made + [None])
  }

  lemma SkippedFields(s: Import, owner: UserId, row: Document, now: Time)
    requires row.name in s.existing ==> s.existing[row.name] in s.t.entries
    requires Renamed(s, row) == row && row.name in s.existing && row.name in s.taken
    ensures RowStep(s, owner, row, false, now) == SkippedRow(s, row.name)
  {
    assert s.taken + {row.name} == s.taken;
  }

  lemma SkippedIndexes(before: Tables, s: Import, owner: UserId, name: string, now: Time)
    requires IndexesAgree(s, owner) && AllSpared(before, s.t, owner, false, s.seen, now)
    requires AddedSeen(before, s.t, s.seen)
    requires name in s.taken
    ensures var s' := SkippedRow(s, name);
            && IndexesAgree(s', owner)
            && AllSpared(before, s'.t, owner, false, s'.seen, now) && AddedSeen(before, s'.t, s'.seen)
  {
  }

  lemma SkippedRows(before: Tables, s: Import, s': Import, owner: UserId, rows: seq<Document>, row: Document)
    requires Valid(before) && RowsDone(before, s, owner, rows, false) && RowSkipped(before, s.t, owner, row)
    requires row.name !in s.seen
    requires s' == SkippedRow(s, row.name)
    ensures RowsDone(before, s', owner, rows + [row], false)
  {
    forall i | 0 <= i < |rows| + 1
      ensures RowDone(before, s', owner, (rows + [row])[i], s'.names[i], s'.made[i], false)
    {
      if i < |rows| { RowsStayDone(before, s, s', owner, rows, false, i); }
    }
  }

  lemma TrashedKeeps(t: Tables, id: EntryId, now: Time)
    requires Sound(t) && id in t.entries && Active(t.entries[id])
    ensures Sound(Trashed(t, id, now)) && !NameActive(Trashed(t, id, now), t.entries[id].doc.name)
  {
    WithEntryKeeps(t, id, t.entries[id].(deleted := Some(now), updated := now));
  }

  lemma StoredKeeps(t: Tables, owner: UserId, doc: Document, now: Time)
    requires Sound(t) && !NameActive(t, doc.name)
    ensures var t' := Stored(t, owner, doc, now);
            && Sound(t')
            && t.nextEntry in t'.entries && t'.nextEntry == t.nextEntry + 1
            && t'.entries == t.entries[t.nextEntry := t'.entries[t.nextEntry]]
            && var e := t'.entries[t.nextEntry];
            && e == Entry(Some(owner), e.link, DocumentFrom(doc, []), now, now, None, false)
            && t'.attachments == t.attachments && t'.grants == t.grants
            && forall f :: f in t.folders ==> f in t'.folders && t'.folders[f] == t.folders[f]
  {
    FolderNamedKeeps(t, Some(owner), doc.folder);
    var (t', link) := FolderNamed(t, Some(owner), doc.folder).value;
    AddEntryKeeps(t', Entry(Some(owner), link, DocumentFrom(doc, []), now, now, None, false));
  }

  function Without(entries: map<EntryId, Entry>, gone: Option<EntryId>, now: Time): map<EntryId, Entry> {
    if gone.Some? && gone.value in entries
    then entries[gone.value := entries[gone.value].(deleted := Some(now), updated := now)] else entries
  }

  /** What storing one row changes: `gone` is the own entry it overwrites. */
  predicate Inserted(s: Import, s': Import, owner: UserId, doc: Document, gone: Option<EntryId>, now: Time) {
    var id := s.t.nextEntry;
    && id in s'.t.entries
    && s'.t.entries == Without(s.t.entries, gone, now)[id := s'.t.entries[id]]
    && s'.t.entries[id] == Entry(Some(owner), s'.t.entries[id].link, DocumentFrom(doc, []), now, now, None, false)
    && gone == (if doc.name in s.existing then Some(s.existing[doc.name]) else None)
    && s'.t.nextEntry == id + 1 && s'.t.attachments == s.t.attachments && s'.t.grants == s.t.grants
    && (forall f :: f in s.t.folders ==> f in s'.t.folders && s'.t.folders[f] == s.t.folders[f])
    && s'.existing == s.existing[doc.name := id]
    && s'.taken == s.taken + {doc.name} && s'.seen == s.seen + {doc.name}
    && s'.names == s.names + [doc.name] && s'.made == s.made + [Some(id)]
    && s'.skipped == s.skipped && s'.imported + s'.overwritten == s.imported + s.overwritten + 1
  }

  lemma StepReplaces(s: Import, owner: UserId, row: Document, now: Time)
    requires Sound(s.t) && IndexesAgree(s, owner) && Renamed(s, row).name in s.existing
    ensures var doc := Renamed(s, row);
            var s' := RowStep(s, owner, row, true, now);
            Sound(s'.t) && Inserted(s, s', owner, doc, Some(s.existing[doc.name]), now)
  {
    var doc := Renamed(s, row);
    TrashedKeeps(s.t, s.existing[doc.name], now);
    StoredKeeps(Trashed(s.t, s.existing[doc.name], now), owner, doc, now);
  }

  lemma StepAdds(s: Import, owner: UserId, row: Document, overwrite: bool, now: Time)
    requires Sound(s.t) && IndexesAgree(s, owner)
    requires Renamed(s, row).name !in s.existing && Renamed(s, row).name !in s.taken
    ensures var s' := RowStep(s, owner, row, overwrite, now);
            Sound(s'.t) && Inserted(s, s', owner, Renamed(s, row), None, now)
  {
    assert Renamed(s, row).name !in ActiveNames(s.t);
    StoredKeeps(s.t, owner, Renamed(s, row), now);
  }

  lemma StepInserts(before: Tables, s: Import, owner: UserId, rows: seq<Document>, overwrite: bool, now: Time,
          row: Document)
    requires Importing(before, s, owner, rows, overwrite, now)
    requires overwrite || Renamed(s, row).name !in s.existing
    ensures var doc := Renamed(s, row);
            var gone := if doc.name in s.existing then Some(s.existing[doc.name]) else None;
            var s' := RowStep(s, owner, row, overwrite, now);
            Sound(s'.t) && Inserted(s, s', owner, doc, gone, now)
  {
    RenamedIsNew(before, s, owner, rows, overwrite, now, row);
    if Renamed(s, row).name in s.existing {
      StepReplaces(s, owner, row, now);
    } else {
      StepAdds(s, owner, row, overwrite, now);
    }
  }

  predicate NamedActive(entries: map<EntryId, Entry>, n: string) {
    exists e :: e in entries && ActiveNamed(entries, e, n)
  }

  lemma TakenNames(t: Tables, n: string)
    ensures n in ActiveNames(t) <==> NamedActive(t.entries, n)
  {
    if e :| e in t.entries && ActiveNamed(t.entries, e, n) { assert t.entries[e].doc.name == n; }
  }

  /** Other names are as active as before. */
  lemma OtherNameStays(m: map<EntryId, Entry>, m': map<EntryId, Entry>, gone: Option<EntryId>, now: Time,
          id: EntryId, n: string)
    requires id !in m && id in m' && m' == Without(m, gone, now)[id := m'[id]] && m'[id].doc.name != n
    requires gone.Some? && gone.value in m ==> m[gone.value].doc.name != n
    ensures NamedActive(m', n) <==> NamedActive(m, n)
  {
    if e :| e in m && ActiveNamed(m, e, n) { assert ActiveNamed(m', e, n); }
    if e :| e in m' && ActiveNamed(m', e, n) { assert ActiveNamed(m, e, n); }
  }

  lemma InsertedTaken(s: Import, s': Import, owner: UserId, doc: Document, gone: Option<EntryId>, now: Time)
    requires Valid(s.t) && IndexesAgree(s, owner) && Inserted(s, s', owner, doc, gone, now)
    ensures s'.taken == ActiveNames(s'.t)
  {
    forall n ensures n in s'.taken <==> n in ActiveNames(s'.t) {
      TakenNames(s.t, n);
      TakenNames(s'.t, n);
      if n == doc.name {
        assert ActiveNamed(s'.t.entries, s.t.nextEntry, n);
      } else {
        OtherNameStays(s.t.entries, s'.t.entries, gone, now, s.t.nextEntry, n);
      }
    }
  }

  lemma InsertedOwn(s: Import, s': Import, owner: UserId, doc: Document, gone: Option<EntryId>, now: Time, e: EntryId)
    requires Valid(s.t) && IndexesAgree(s, owner) && Inserted(s, s', owner, doc, gone, now)
    requires e in s'.t.entries && Own(s'.t, e, owner) && (doc.name in s.taken ==> doc.name in s.existing)
    ensures s'.t.entries[e].doc.name in s'.existing && s'.existing[s'.t.entries[e].doc.name] == e
  {
    if e != s.t.nextEntry {
      assert Own(s.t, e, owner) && s.t.entries[e] == s'.t.entries[e];
    }
  }

  lemma InsertedExisting(s: Import, s': Import, owner: UserId, doc: Document, gone: Option<EntryId>, now: Time,
          n: string)
    requires Valid(s.t) && IndexesAgree(s, owner) && Inserted(s, s', owner, doc, gone, now) && n in s'.existing
    ensures Own(s'.t, s'.existing[n], owner) && s'.t.entries[s'.existing[n]].doc.name == n
  {
    if n != doc.name {
      var e := s.existing[n];
      assert gone != Some(e) && s'.t.entries[e] == s.t.entries[e];
    }
  }

  lemma InsertedAgrees(s: Import, s': Import, owner: UserId, doc: Document, gone: Option<EntryId>, now: Time)
    requires Sound(s.t) && Sound(s'.t) && IndexesAgree(s, owner) && Inserted(s, s', owner, doc, gone, now)
    requires doc.name in s.taken ==> doc.name in s.existing
    ensures IndexesAgree(s', owner)
  {
    InsertedTaken(s, s', owner, doc, gone, now);
    forall e | e in s'.t.entries && Own(s'.t, e, owner)
      ensures s'.t.entries[e].doc.name in s'.existing && s'.existing[s'.t.entries[e].doc.name] == e
    {
      InsertedOwn(s, s', owner, doc, gone, now, e);
    }
    forall n | n in s'.existing ensures Own(s'.t, s'.existing[n], owner) && s'.t.entries[s'.existing[n]].doc.name == n {
      InsertedExisting(s, s', owner, doc, gone, now, n);
    }
  }

  /** The one row from before that changes is the one overwritten. */
  lemma SparesOne(before: Entry, e: Entry, e': Entry, owner: UserId, overwrite: bool, seen: set<string>,
          name: string, replaced: bool, now: Time)
    requires e == Spared(before, owner, overwrite, seen, now) && name !in seen
    requires replaced == (Active(e) && e.owner == Some(owner) && e.doc.name == name) && (replaced ==> overwrite)
    requires e' == if replaced then e.(deleted := Some(now), updated := now) else e
    ensures e' == Spared(before, owner, overwrite, seen + {name}, now)
  {
  }

  lemma InsertedSpares(before: Tables, s: Import, s': Import, owner: UserId, doc: Document, gone: Option<EntryId>,
          overwrite: bool, now: Time)
    requires Valid(before) && AllSpared(before, s.t, owner, overwrite, s.seen, now)
    requires IndexesAgree(s, owner) && Inserted(s, s', owner, doc, gone, now) && doc.name !in s.seen
    requires gone.Some? ==> overwrite && gone.value in before.entries && gone.value in s.t.entries
    ensures AllSpared(before, s'.t, owner, overwrite, s'.seen, now)
  {
    forall id | id in before.entries
      ensures id in s'.t.entries && s'.t.entries[id] == Spared(before.entries[id], owner, overwrite, s'.seen, now)
    {
      assert Own(s.t, id, owner) && s.t.entries[id].doc.name == doc.name <==> gone == Some(id);
      SparesOne(before.entries[id], s.t.entries[id], s'.t.entries[id], owner, overwrite, s.seen, doc.name,
                gone == Some(id), now);
    }
  }

  lemma InsertedAdds(before: Tables, s: Import, s': Import, owner: UserId, doc: Document, gone: Option<EntryId>,
          now: Time)
    requires AddedSeen(before, s.t, s.seen) && Inserted(s, s', owner, doc, gone, now)
    requires gone.Some? ==> gone.value in before.entries
    ensures AddedSeen(before, s'.t, s'.seen)
  {
  }

  lemma InsertedRows(before: Tables, s: Import, s': Import, owner: UserId, rows: seq<Document>, row: Document,
          doc: Document, gone: Option<EntryId>, overwrite: bool, now: Time)
    requires Valid(before) && Valid(s.t) && before.nextEntry <= s.t.nextEntry
    requires RowsDone(before, s, owner, rows, overwrite) && Inserted(s, s', owner, doc, gone, now)
    requires doc.name !in s.seen
    requires doc == row.(name := doc.name) && (gone.Some? ==> overwrite && gone.value in before.entries)
    ensures RowsDone(before, s', owner, rows + [row], overwrite)
  {
    forall i | 0 <= i < |rows| + 1
      ensures RowDone(before, s', owner, (rows + [row])[i], s'.names[i], s'.made[i], overwrite)
    {
      if i < |rows| {
        assert RowDone(before, s, owner, rows[i], s.names[i], s.made[i], overwrite);
        RowsStayDone(before, s, s', owner, rows, overwrite, i);
      }
    }
    forall i | 0 <= i < |rows| && s.made[i].Some? ensures s.made[i] != Some(s.t.nextEntry) {
      assert RowDone(before, s, owner, rows[i], s.names[i], s.made[i], overwrite);
    }
  }

  lemma InsertKeeps(before: Tables, s: Import, owner: UserId, rows: seq<Document>, overwrite: bool, now: Time,
          row: Document)
    requires Importing(before, s, owner, rows, overwrite, now)
    requires overwrite || Renamed(s, row).name !in s.existing
    ensures Importing(before, RowStep(s, owner, row, overwrite, now), owner, rows + [row], overwrite, now)
  {
    var doc := Renamed(s, row);
    var gone := if doc.name in s.existing then Some(s.existing[doc.name]) else None;
    var s' := RowStep(s, owner, row, overwrite, now);
    RenamedIsNew(before, s, owner, rows, overwrite, now, row);
    StepInserts(before, s, owner, rows, overwrite, now, row);
    InsertedAgrees(s, s', owner, doc, gone, now);
    InsertedSpares(before, s, s', owner, doc, gone, overwrite, now);
    InsertedAdds(before, s, s', owner, doc, gone, now);
    InsertedRows(before, s, s', owner, rows, row, doc, gone, overwrite, now);
  }

  lemma RowKeeps(before: Tables, s: Import, owner: UserId, rows: seq<Document>, overwrite: bool, now: Time,
          row: Document)
    requires Importing(before, s, owner, rows, overwrite, now)
    ensures Importing(before, RowStep(s, owner, row, overwrite, now), owner, rows + [row], overwrite, now)
  {
    if overwrite || Renamed(s, row).name !in s.existing {
      InsertKeeps(before, s, owner, rows, overwrite, now, row);
    } else {
      SkipKeeps(before, s, owner, rows, now, row);
    }
  }

  lemma ImportLast(t: Tables, owner: UserId, front: seq<Document>, row: Document, overwrite: bool, now: Time)
    requires UniqueActive(t.entries)
    ensures ImportRows(t, owner, front + [row], overwrite, now)
         == RowStep(ImportRows(t, owner, front, overwrite, now), owner, row, overwrite, now)
  {
    assert (front + [row])[..|front|] == front;
  }

  lemma {:induction false} Imports(t: Tables, owner: UserId, rows: seq<Document>, overwrite: bool,
          now: Time) returns (s: Import)
    requires Sound(t)
    ensures s == ImportRows(t, owner, rows, overwrite, now) && Importing(t, s, owner, rows, overwrite, now)
  {
    if rows == [] {
      BeginImporting(t, owner, overwrite, now);
      s := Begin(t, owner);
    } else {
      var front, row := rows[..|rows| - 1], rows[|rows| - 1];
      assert rows == front + [row];
      var s1 := Imports(t, owner, front, overwrite, now);
      RowKeeps(t, s1, owner, front, overwrite, now, row);
      ImportLast(t, owner, front, row, overwrite, now);
      s := RowStep(s1, owner, row, overwrite, now);
    }
  }

  lemma ImportKeeps(t: Tables, owner: UserId, rows: seq<Document>, overwrite: bool, now: Time)
    requires Sound(t)
    ensures Importing(t, ImportRows(t, owner, rows, overwrite, now), owner, rows, overwrite, now)
  {
    var s := Imports(t, owner, rows, overwrite, now);
  }

  /** Every row is an active entry of its own, under a name no other row has,
      or was skipped because the importer already had one of its name, which is
      still there. Of the entries from before exactly those are moved to the
      trash that are active, the importer's and of a name a row is stored under,
      and only if the import overwrites. The counts sum to the rows. */
  lemma NoRowCollapses(t: Tables, owner: UserId, rows: seq<Document>, overwrite: bool, now: Time)
    requires Sound(t)
    ensures var s := ImportRows(t, owner, rows, overwrite, now);
            && Sound(s.t)
            && s.imported + s.skipped + s.overwritten == |rows| == |s.made| == |s.names|
            && (forall i, j :: 0 <= i < j < |rows| ==> s.names[i] != s.names[j])
            && (forall i, j :: 0 <= i < j < |rows| && s.made[i].Some? ==> s.made[i] != s.made[j])
            && (forall i :: 0 <= i < |rows| ==>
                  match s.made[i]
                  case Some(id) => id !in t.entries && RowMade(s.t, owner, rows[i], s.names[i], id)
                  case None => !overwrite && RowSkipped(t, s.t, owner, rows[i]))
            && AllSpared(t, s.t, owner, overwrite, s.seen, now)
            && (forall n :: n in s.seen <==> n in s.names)
            && AddedSeen(t, s.t, s.seen)
  {
    ImportKeeps(t, owner, rows, overwrite, now);
    var s := ImportRows(t, owner, rows, overwrite, now);
    forall i | 0 <= i < |rows| ensures RowDone(t, s, owner, rows[i], s.names[i], s.made[i], overwrite) {
    }
  }

  // ----- Which name a row is stored under ------------------------------------------------

  /** Another account's active entry bears the name. */
  predicate NameForeign(t: Tables, owner: UserId, name: string) {
    exists id :: id in t.entries && ActiveNamed(t.entries, id, name) && t.entries[id].owner != Some(owner)
  }

  /** The first candidate of a name that nothing active bears. */
  ghost predicate FirstCandidate(before: set<string>, after: set<string>, wanted: string, given: string) {
    && given != wanted && given !in before
    && exists n :: n >= 2 && given == Candidate(wanted, n) && forall m :: 2 <= m < n ==> Candidate(wanted, m) in after
  }

  /** A row keeps its name unless an earlier row of the file is stored under it,
      or another account's active entry had it before the import. */
  ghost predicate NameRule(before: Tables, owner: UserId, earlier: seq<string>, after: set<string>, wanted: string,
          given: string) {
    if wanted in earlier || NameForeign(before, owner, wanted)
    then FirstCandidate(ActiveNames(before), after, wanted, given)
    else given == wanted
  }

  /** What is active under a name the file has not used was so before. */
  lemma UnusedIsOld(before: Tables, s: Import, owner: UserId, overwrite: bool, now: Time, id: EntryId)
    requires AllSpared(before, s.t, owner, overwrite, s.seen, now) && AddedSeen(before, s.t, s.seen)
    requires id in s.t.entries && Active(s.t.entries[id]) && s.t.entries[id].doc.name !in s.seen
    ensures id in before.entries && s.t.entries[id] == before.entries[id]
  {
    if id in before.entries {
      assert s.t.entries[id] == Spared(before.entries[id], owner, overwrite, s.seen, now);
    }
  }

  /** Another account's entries stay as they are. */
  lemma ForeignStays(before: Tables, t: Tables, owner: UserId, overwrite: bool, seen: set<string>, now: Time,
          id: EntryId)
    requires AllSpared(before, t, owner, overwrite, seen, now) && id in before.entries
    requires before.entries[id].owner != Some(owner)
    ensures id in t.entries && t.entries[id] == before.entries[id]
  {
    assert t.entries[id] == Spared(before.entries[id], owner, overwrite, seen, now);
  }

  lemma ForeignExactly(before: Tables, s: Import, owner: UserId, overwrite: bool, now: Time, name: string)
    requires Valid(s.t) && IndexesAgree(s, owner) && AllSpared(before, s.t, owner, overwrite, s.seen, now)
    requires AddedSeen(before, s.t, s.seen) && name !in s.seen
    ensures name in s.taken && name !in s.existing <==> NameForeign(before, owner, name)
  {
    TakenNames(s.t, name);
    if name in s.taken && name !in s.existing {
      var id :| id in s.t.entries && ActiveNamed(s.t.entries, id, name);
      UnusedIsOld(before, s, owner, overwrite, now, id);
      assert ActiveNamed(before.entries, id, name) && !Own(s.t, id, owner);
    }
    if NameForeign(before, owner, name) {
      var id :| id in before.entries && ActiveNamed(before.entries, id, name)
          && before.entries[id].owner != Some(owner);
      ForeignStays(before, s.t, owner, overwrite, s.seen, now, id);
      assert ActiveNamed(s.t.entries, id, name);
    }
  }

  lemma RenamedByRule(before: Tables, s: Import, owner: UserId, rows: seq<Document>, overwrite: bool, now: Time,
          row: Document)
    requires Importing(before, s, owner, rows, overwrite, now) && ActiveNames(before) <= s.taken
    ensures NameRule(before, owner, s.names, s.taken, row.name, Renamed(s, row).name)
  {
    if row.name !in s.seen { ForeignExactly(before, s, owner, overwrite, now, row.name); }
    if row.name in s.names || NameForeign(before, owner, row.name) {
      CandidatesDiffer(row.name);
      var n := FreeNumber(Candidates(row.name), s.taken);
      assert Renamed(s, row).name == Candidate(row.name, n);
      forall m | 2 <= m < n ensures Candidate(row.name, m) in s.taken {
        assert Candidates(row.name)(m) in s.taken;
      }
    }
  }

  lemma RuleStays(before: Tables, owner: UserId, earlier: seq<string>, after: set<string>, after': set<string>,
          wanted: string, given: string)
    requires NameRule(before, owner, earlier, after, wanted, given) && after <= after'
    ensures NameRule(before, owner, earlier, after', wanted, given)
  {
  }

  ghost predicate NamesRuled(t: Tables, owner: UserId, rows: seq<Document>, names: seq<string>, after: set<string>) {
    && |names| == |rows|
    && forall i :: 0 <= i < |rows| ==> NameRule(t, owner, names[..i], after, rows[i].name, names[i])
  }

  lemma OneMoreRuled(t: Tables, owner: UserId, rows: seq<Document>, names: seq<string>, after: set<string>,
          after': set<string>, row: Document, name: string)
    requires NamesRuled(t, owner, rows, names, after) && NameRule(t, owner, names, after, row.name, name)
    requires after <= after'
    ensures NamesRuled(t, owner, rows + [row], names + [name], after')
  {
    forall i | 0 <= i < |rows| + 1
      ensures NameRule(t, owner, (names + [name])[..i], after', (rows + [row])[i].name, (names + [name])[i])
    {
      assert (names + [name])[..i] == names[..i];
      RuleStays(t, owner, names[..i], after, after', (rows + [row])[i].name, (names + [name])[i]);
    }
  }

  lemma {:induction false} NamesSoFar(t: Tables, owner: UserId, rows: seq<Document>, overwrite: bool,
          now: Time) returns (s: Import)
    requires Sound(t)
    ensures s == ImportRows(t, owner, rows, overwrite, now)
    ensures ActiveNames(t) <= s.taken && NamesRuled(t, owner, rows, s.names, s.taken)
  {
    s := ImportRows(t, owner, rows, overwrite, now);
    if rows != [] {
      var front, row := rows[..|rows| - 1], rows[|rows| - 1];
      assert rows == front + [row];
      var s1 := NamesSoFar(t, owner, front, overwrite, now);
      ImportKeeps(t, owner, front, overwrite, now);
      RenamedByRule(t, s1, owner, front, overwrite, now, row);
      var name := Renamed(s1, row).name;
      OneMoreRuled(t, owner, front, s1.names, s1.taken, s1.taken + {name}, row, name);
    }
  }

  /** Every row bears its own name, or the first candidate of its own name that
      is free: the latter exactly when an earlier row took the name or another
      account's active entry has it. */
  lemma NamesFollowTheRule(t: Tables, owner: UserId, rows: seq<Document>, overwrite: bool, now: Time)
    requires Sound(t)
    ensures var s := ImportRows(t, owner, rows, overwrite, now);
            NamesRuled(t, owner, rows, s.names, ActiveNames(s.t))
  {
    var s := NamesSoFar(t, owner, rows, overwrite, now);
    ImportKeeps(t, owner, rows, overwrite, now);
  }

  // ----- What the counts mean --------------------------------------------------------------

  lemma InsertedChanges(before: map<EntryId, Entry>, m: map<EntryId, Entry>, m': map<EntryId, Entry>, id: EntryId,
          gone: Option<EntryId>, now: Time)
    requires id !in before && id in m' && m' == Without(m, gone, now)[id := m'[id]]
    requires gone.Some? ==>
               gone.value in before && gone.value in m && Active(m[gone.value]) && m[gone.value] == before[gone.value]
    ensures |Changed(before, m')| == |Changed(before, m)| + (if gone.Some? then 1 else 0)
  {
    if gone.Some? {
      assert Changed(before, m') == Changed(before, m) + {gone.value};
    } else {
      assert Changed(before, m') == Changed(before, m);
    }
  }

  lemma RowCounts(before: Tables, s: Import, owner: UserId, rows: seq<Document>, overwrite: bool, now: Time,
          row: Document)
    requires Importing(before, s, owner, rows, overwrite, now)
    ensures var s' := RowStep(s, owner, row, overwrite, now);
            && |Changed(before.entries, s'.t.entries)| + s.overwritten
               == |Changed(before.entries, s.t.entries)| + s'.overwritten
            && s'.t.nextEntry + s.imported + s.overwritten == s.t.nextEntry + s'.imported + s'.overwritten
  {
    var doc := Renamed(s, row);
    var gone := if doc.name in s.existing then Some(s.existing[doc.name]) else None;
    if overwrite || gone.None? {
      RenamedIsNew(before, s, owner, rows, overwrite, now, row);
      StepInserts(before, s, owner, rows, overwrite, now, row);
      InsertedChanges(before.entries, s.t.entries, RowStep(s, owner, row, overwrite, now).t.entries, s.t.nextEntry,
          gone, now);
    } else {
      SkippedIsThere(before, s, owner, rows, now, row);
      SkippedFields(s, owner, row, now);
    }
  }

  /** `overwritten` is the number of rows from before that changed; as many rows
      were added as were counted as imported or overwritten. */
  lemma {:induction false} CountsMean(t: Tables, owner: UserId, rows: seq<Document>, overwrite: bool, now: Time)
    requires Sound(t)
    ensures var s := ImportRows(t, owner, rows, overwrite, now);
            && s.overwritten == |Changed(t.entries, s.t.entries)|
            && s.t.nextEntry == t.nextEntry + s.imported + s.overwritten
  {
    if rows == [] {
      assert Changed(t.entries, t.entries) == {};
    } else {
      var n := |rows| - 1;
      CountsMean(t, owner, rows[..n], overwrite, now);
      ImportKeeps(t, owner, rows[..n], overwrite, now);
      RowCounts(t, ImportRows(t, owner, rows[..n], overwrite, now), owner, rows[..n], overwrite, now, rows[n]);
    }
  }

  // ----- The import in place --------------------------------------------------------------

  /** `_upsert_entry`. */
  method UpsertEntry(db: VaultRows, existing: map<string, EntryId>, owner: UserId, doc: Document, overwrite: bool,
          now: Time)
    returns (existing': map<string, EntryId>, stored: bool, replaced: bool)
    requires Sound(db.tables) && (doc.name in existing ==> existing[doc.name] in db.tables.entries)
    modifies db`tables
    ensures replaced == (doc.name in existing) && stored == (overwrite || !replaced)
    ensures !stored ==> db.tables == old(db.tables) && existing' == existing
    ensures stored ==>
              var t := if replaced then Trashed(old(db.tables), existing[doc.name], now) else old(db.tables);
              db.tables == Stored(t, owner, doc, now) && existing' == existing[doc.name := old(db.tables).nextEntry]
  {
    existing', stored, replaced := existing, true, false;
    if doc.name in existing {
      replaced := true;
      if !overwrite { return existing, false, true; }
      var current := existing[doc.name];
      db.tables := WithEntry(db.tables, current, db.tables.entries[current].(deleted := Some(now), updated := now));
    }
    var link := db.FolderNamed(Some(owner), doc.folder);
    var id := db.tables.nextEntry;
    db.tables := AddEntry(db.tables, Entry(Some(owner), link.value, DocumentFrom(doc, []), now, now, None, false));
    existing' := existing[doc.name := id];
  }

  lemma ImportStays(t: Tables, owner: UserId, rows: seq<Document>, overwrite: bool, now: Time)
    requires Sound(t)
    ensures var s := ImportRows(t, owner, rows, overwrite, now);
            Sound(s.t) && forall n :: n in s.existing ==> s.existing[n] in s.t.entries
  {
    ImportKeeps(t, owner, rows, overwrite, now);
  }

  lemma NextRow(t: Tables, owner: UserId, rows: seq<Document>, i: nat, overwrite: bool, now: Time)
    requires Sound(t) && i < |rows|
    ensures var s := ImportRows(t, owner, rows[..i], overwrite, now);
            && Sound(s.t)
            && (forall n :: n in s.existing ==> s.existing[n] in s.t.entries)
            && ImportRows(t, owner, rows[..i + 1], overwrite, now) == RowStep(s, owner, rows[i], overwrite, now)
            && Sound(ImportRows(t, owner, rows[..i + 1], overwrite, now).t)
  {
    ImportStays(t, owner, rows[..i], overwrite, now);
    ImportStays(t, owner, rows[..i + 1], overwrite, now);
    assert rows[..i + 1][..i] == rows[..i];
  }

  /** Storing one row in place is its step. */
  lemma StoredIsStep(s: Import, owner: UserId, row: Document, overwrite: bool, now: Time, t': Tables,
          existing': map<string, EntryId>, stored: bool, replaced: bool)
    requires forall n :: n in s.existing ==> s.existing[n] in s.t.entries
    requires var doc := Renamed(s, row); replaced == (doc.name in s.existing) && stored == (overwrite || !replaced)
    requires !stored ==> t' == s.t && existing' == s.existing
    requires stored ==>
               var doc := Renamed(s, row);
               var t := if replaced then Trashed(s.t, s.existing[doc.name], now) else s.t;
               t' == Stored(t, owner, doc, now) && existing' == s.existing[doc.name := s.t.nextEntry]
    ensures var s', doc := RowStep(s, owner, row, overwrite, now), Renamed(s, row);
            && s'.t == t' && s'.existing == existing' && s'.seen == s.seen + {doc.name}
            && s'.taken == s.taken + {doc.name}
            && s'.imported == (if stored && !replaced then s.imported + 1 else s.imported)
            && s'.overwritten == (if stored && replaced then s.overwritten + 1 else s.overwritten)
            && s'.skipped == (if stored then s.skipped else s.skipped + 1)
  {
  }

  /** `_store_import`: the unique index on active names never refuses the file,
      and the counts sum to its rows. */
  method StoreImport(db: VaultRows, owner: UserId, rows: seq<Document>, overwrite: bool, now: Time)
    returns (imported: nat, skipped: nat, overwritten: nat)
    requires Sound(db.tables)
    modifies db`tables
    ensures Sound(db.tables) && db.tables == ImportRows(old(db.tables), owner, rows, overwrite, now).t
    ensures imported + skipped + overwritten == |rows|
    ensures var s := ImportRows(old(db.tables), owner, rows, overwrite, now);
            imported == s.imported && skipped == s.skipped && overwritten == s.overwritten
  {
    ghost var before := db.tables;
    var existing := OwnByName(db.tables, owner);
    var taken := ActiveNames(db.tables);
    var seen: set<string> := {};
    imported, skipped, overwritten := 0, 0, 0;
    ghost var s := Begin(before, owner);
    for i := 0 to |rows|
      invariant Sound(before) && Sound(db.tables) && s == ImportRows(before, owner, rows[..i], overwrite, now)
      invariant db.tables == s.t && existing == s.existing && taken == s.taken && seen == s.seen
      invariant imported == s.imported && skipped == s.skipped && overwritten == s.overwritten
    {
      ImportStays(before, owner, rows[..i], overwrite, now);
      var doc := rows[i];
      if doc.name in seen || (doc.name in taken && doc.name !in existing) {
        var unique := UniqueName(doc.name, taken);
        doc := doc.(name := unique);
      }
      assert doc == Renamed(s, rows[i]);
      seen := seen + {doc.name};
      taken := taken + {doc.name};
      var stored, replaced;
      existing, stored, replaced := UpsertEntry(db, existing, owner, doc, overwrite, now);
      StoredIsStep(s, owner, rows[i], overwrite, now, db.tables, existing, stored, replaced);
      if !stored { skipped := skipped + 1; }
      else if replaced { overwritten := overwritten + 1; }
      else { imported := imported + 1; }
      NextRow(before, owner, rows, i, overwrite, now);
      s := RowStep(s, owner, rows[i], overwrite, now);
    }
    assert rows[..|rows|] == rows;
    ImportKeeps(before, owner, rows, overwrite, now);
  }
}
