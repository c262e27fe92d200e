/**
Account requests running side by side (backend/crud/auth.py over
backend/crud/engine.py and the session table). Write requests take SQLite's one
write lock before their first read; the unlock route and plain reads work on a
snapshot, and may write only if nothing was committed since. A request commits
before its key derivation and continues in a second transaction. Sessions are
opened in memory before the commit; hooks run after it. Any list of steps is an
interleaving: a step that is not possible leaves the state alone.
*/
module AuthProtocol {
  import opened Wrappers
  import opened KeyMaterials
  import opened Accounts

  type Token = nat
  type RequestId = nat

  /** What a transaction reads, and how many commits it has behind it. */
  datatype Txn = Txn(view: Db, version: nat)

  datatype Pc =
    | Arrived
    | Deriving(plan: Plan)
    | Prepared(ready: Ready)
    | Staged(write: Write, token: Option<Token>)
    | Committed(hook: Hook, token: Option<Token>)
    | Aborted(token: Option<Token>)
    | Finished

  datatype Request = Request(op: Op, session: Option<(Token, Session)>, txn: Option<Txn>, pc: Pc)

  /** `log` is every committed content of the account tables, the current one
      last; `spent` the salts ever committed or in the vault from the start;
      `credential` the password of each account's last committed key record. */
  datatype State = State(
    log: seq<Db>,
    lock: Option<RequestId>,
    table: map<Token, Session>,
    requests: seq<Request>,
    nextToken: Token,
    nextSalt: Salt,
    spent: set<Salt>,
    credential: map<UserId, string>,
    founded: nat)

  /** What one request does next. */
  datatype Action =
    | Resolve(token: Token)
    | Begin
    | RunFirst
    | Derive(raw: RawKey)
    | RunSecond
    | Commit
    | Abort
    | RunHooks

  datatype Step =
    | Arrive(op: Op)
    | Act(id: RequestId, action: Action)
    | Drop(token: Token)                              // expiry, eviction, lock, logout
    | OtherWrite(holders: set<UserId>, orphans: bool) // any other request's commit
    | Restart

  /** The routes that read on a snapshot (backend/api/endpoints/deps.py). */
  predicate Deferred(op: Op) { op.Unlock? || (op.Use? && op.readOnly) }

  function Last(log: seq<Db>): Db
    requires |log| > 0
  {
    log[|log| - 1]
  }

  function Current(s: State): Db
    requires |s.log| > 0
  {
    Last(s.log)
  }

  function Set(s: State, id: RequestId, r: Request): State
    requires id < |s.requests|
  {
    s.(requests := s.requests[id := r])
  }

  function Unlocked(s: State, id: RequestId): State {
    if s.lock == Some(id) then s.(lock := None) else s
  }

  function Released(s: State, id: RequestId, pc: Pc): State
    requires id < |s.requests|
  {
    Unlocked(Set(s, id, s.requests[id].(txn := None, pc := pc)), id)
  }

  // ----- Steps ----------------------------------------------------------------

  function ResolveStep(s: State, id: RequestId, token: Token): State
    requires id < |s.requests|
  {
    var r := s.requests[id];
    if r.pc.Arrived? && r.session.None? && token in s.table
    then Set(s, id, r.(session := Some((token, s.table[token])))) else s
  }

  function BeginStep(s: State, id: RequestId): State
    requires id < |s.requests| && |s.log| > 0
  {
    var r := s.requests[id];
    if r.txn.Some? || !(r.pc.Arrived? || r.pc.Prepared?) then s
    else
      var begun := Set(s, id, r.(txn := Some(Txn(Current(s), |s.log|))));
      if Deferred(r.op) then begun
      else if s.lock.Some? then s
      else begun.(lock := Some(id))
  }

  /** A refused session is revoked before the request fails. */
  function Evicted(s: State, r: Request, error: Reject): State {
    if error == SessionRequired && r.session.Some? then s.(table := s.table - {r.session.value.0}) else s
  }

  ghost function FirstStep(s: State, id: RequestId): State
    requires id < |s.requests|
  {
    var r := s.requests[id];
    if !r.pc.Arrived? || r.txn.None? || (!Anonymous(r.op) && r.session.None?) then s
    else
      var session := if r.session.Some? then Some(r.session.value.1) else None;
      match FirstSegment(r.txn.value.view, r.op, session)
      case Refused(error) => Released(Evicted(s, r, error), id, Aborted(None))
      case Finished(write) => Set(s, id, r.(pc := Staged(write, None)))
      case Continue(plan) => Released(s, id, Deriving(plan))
  }

  function DeriveStep(s: State, id: RequestId, raw: RawKey): State
    requires id < |s.requests|
  {
    var r := s.requests[id];
    if !r.pc.Deriving? then s
    else
      var drawn := s.(nextSalt := s.nextSalt + 1);
      match DeriveKeys(r.pc.plan, s.nextSalt, raw)
      case Ok(ready) => Set(drawn, id, r.(pc := Prepared(ready)))
      case Err(_) => Set(drawn, id, r.(pc := Pc.Finished))
  }

  /** A snapshot may be written through only if it is still the last commit and
      nobody holds the write lock. */
  predicate MayWrite(s: State, id: RequestId)
    requires id < |s.requests| && s.requests[id].txn.Some?
  {
    s.lock == Some(id) || (s.lock.None? && s.requests[id].txn.value.version == |s.log|)
  }

  function Opening(s: State, write: Write): State {
    if write.open.None? then s
    else s.(table := s.table[s.nextToken := write.open.value], nextToken := s.nextToken + 1)
  }

  ghost function SecondStep(s: State, id: RequestId): State
    requires id < |s.requests|
  {
    var r := s.requests[id];
    if !r.pc.Prepared? || r.txn.None? then s
    else
      match SecondSegment(r.txn.value.view, r.pc.ready)
      case Err(_) => Released(s, id, Aborted(None))
      case Ok(write) =>
        if write.db != r.txn.value.view && !MayWrite(s, id) then Released(s, id, Aborted(None))
        else
          var token := if write.open.Some? then Some(s.nextToken) else None;
          var staged := Set(Opening(s, write), id, r.(pc := Staged(write, token)));
          if write.db != r.txn.value.view then staged.(lock := Some(id)) else staged
  }

  function SpentAfter(spent: set<Salt>, write: Write): set<Salt> {
    if write.issue.Some? then spent + {write.issue.value.material.salt} else spent
  }

  function CredentialsAfter(s: State, write: Write): map<UserId, string> {
    var kept := map u | u in s.credential && u in write.db.users :: s.credential[u];
    if write.issue.Some? then kept[write.issue.value.user := write.issue.value.password] else kept
  }

  function CommitStep(s: State, id: RequestId): State
    requires id < |s.requests| && |s.log| > 0
  {
    var r := s.requests[id];
    if !r.pc.Staged? || r.txn.None? then s
    else
      var write := r.pc.write;
      var done := Released(s, id, Committed(write.hook, r.pc.token));
      if write.db == r.txn.value.view then done
      else
        done.(log := s.log + [write.db],
              spent := SpentAfter(s.spent, write),
              credential := CredentialsAfter(s, write),
              founded := if Founds(write, r.txn.value.view) then s.founded + 1 else s.founded)
  }

  /** A request may fail or be cancelled anywhere before its commit. */
  function AbortStep(s: State, id: RequestId): State
    requires id < |s.requests|
  {
    var r := s.requests[id];
    if r.pc.Staged? then Released(s, id, Aborted(r.pc.token))
    else if r.pc.Arrived? || r.pc.Deriving? || r.pc.Prepared? then Released(s, id, Aborted(None))
    else s
  }

  /** The session table after the hooks of a finished transaction. */
  function HookedTable(table: map<Token, Session>, pc: Pc): map<Token, Session> {
    match pc
    case Committed(RevokeUser(user), _) => map t | t in table && table[t].user != user :: table[t]
    case Committed(RevokeOthers(user), token) =>
      map t | t in table && (table[t].user != user || Some(t) == token) :: table[t]
    case Aborted(Some(token)) => table - {token}
    case _ => table
  }

  function HooksStep(s: State, id: RequestId): State
    requires id < |s.requests|
  {
    var r := s.requests[id];
    if r.pc.Committed? || r.pc.Aborted?
    then Set(s.(table := HookedTable(s.table, r.pc)), id, r.(pc := Pc.Finished)) else s
  }

  function OtherWriteStep(s: State, holders: set<UserId>, orphans: bool): State
    requires |s.log| > 0
  {
    if s.lock.Some? then s
    else s.(log := s.log + [Current(s).(holders := holders, orphans := orphans)])
  }

  ghost function ActionStep(s: State, id: RequestId, action: Action): State
    requires |s.log| > 0 && id < |s.requests|
  {
    match action
    case Resolve(token) => ResolveStep(s, id, token)
    case Begin => BeginStep(s, id)
    case RunFirst => FirstStep(s, id)
    case Derive(raw) => DeriveStep(s, id, raw)
    case RunSecond => SecondStep(s, id)
    case Commit => CommitStep(s, id)
    case Abort => AbortStep(s, id)
    case RunHooks => HooksStep(s, id)
  }

  ghost function Apply(s: State, step: Step): (end: State)
    requires |s.log| > 0
    ensures s.log <= end.log
  {
    match step
    case Arrive(op) => s.(requests := s.requests + [Request(op, None, None, Arrived)])
    case Act(id, action) => if id < |s.requests| then ActionStep(s, id, action) else s
    case Drop(token) => s.(table := s.table - {token})
    case OtherWrite(holders, orphans) => OtherWriteStep(s, holders, orphans)
    case Restart => s.(requests := [], lock := None, table := map[])
  }

  /** The log only grows. */
  ghost function Run(s: State, steps: seq<Step>): (end: State)
    requires |s.log| > 0
    ensures s.log <= end.log
    decreases |steps|
  {
    if steps == [] then s else Run(Apply(s, steps[0]), steps[1..])
  }

  /** A new vault file, or one migrated from the single-account schema: a key
      record under its master password, and no account yet. */
  ghost predicate Initial(s: State) {
    && |s.log| == 1
    && var d := s.log[0];
    && d.users == map[]
    && (d.vault.Some? ==>
          && d.vault.value.owner.None?
          && WellSealed(d.vault.value.material)
          && s.spent == {d.vault.value.material.salt}
          && d.vault.value.material.salt < s.nextSalt)
    && (d.vault.None? ==> s.spent == {})
    && s.lock.None? && s.table == map[] && s.requests == [] && s.credential == map[] && s.founded == 0
  }

  // ----- Invariant ------------------------------------------------------------

  /** A salt drawn by a request and not yet committed. */
  function DrawnSalt(r: Request): Option<Salt> {
    match r.pc
    case Prepared(ready) => if DrawsSalt(ready.plan) then Some(ready.material.salt) else None
    case Staged(write, _) =>
      if write.issue.Some? && write.issue.value.drawn then Some(write.issue.value.material.salt) else None
    case _ => None
  }

  /** Drawn salts are unused and pairwise different. */
  predicate DrawnOk(requests: seq<Request>, spent: set<Salt>, nextSalt: Salt) {
    && (forall i :: 0 <= i < |requests| && DrawnSalt(requests[i]).Some? ==>
          DrawnSalt(requests[i]).value < nextSalt && DrawnSalt(requests[i]).value !in spent)
    && (forall i, j :: 0 <= i < |requests| && 0 <= j < |requests| && i != j && DrawnSalt(requests[i]).Some? ==>
          DrawnSalt(requests[i]) != DrawnSalt(requests[j]))
  }

  predicate SessionOk(session: Session) { KeyOf(session.fingerprint) == session.key }

  predicate TableOk(table: map<Token, Session>) {
    forall t :: t in table ==> SessionOk(table[t])
  }

  /** A transaction reads the committed content of its version; a write request
      holds the lock for as long as it is open, so its version is the last. */
  predicate TxnOk(log: seq<Db>, lock: Option<RequestId>, i: RequestId, r: Request) {
    && (r.txn.Some? ==>
          && 0 < r.txn.value.version <= |log|
          && r.txn.value.view == log[r.txn.value.version - 1]
          && (!Deferred(r.op) ==> lock == Some(i)))
    && (lock == Some(i) ==> r.txn.Some? && r.txn.value.version == |log|)
    && (r.session.Some? ==> SessionOk(r.session.value.1))
  }

  ghost predicate PcOk(lock: Option<RequestId>, i: RequestId, r: Request) {
    && (r.pc.Prepared? ==> ReadyOk(r.pc.ready))
    && (r.pc.Staged? ==> r.txn.Some?)
    && (r.pc.Staged? && r.txn.Some? ==>
          var view := r.txn.value.view;
          && Keeps(view, r.pc.write)
          && (r.pc.write.db != view ==> lock == Some(i)))
  }

  ghost predicate RequestOk(log: seq<Db>, lock: Option<RequestId>, i: RequestId, r: Request) {
    TxnOk(log, lock, i, r) && PcOk(lock, i, r)
  }

  ghost predicate RequestsOk(log: seq<Db>, lock: Option<RequestId>, requests: seq<Request>) {
    && (forall i :: 0 <= i < |requests| ==> RequestOk(log, lock, i, requests[i]))
    && (lock.Some? ==> lock.value < |requests|)
  }

  predicate Holds(d: Db, user: UserId, material: KeyMaterial) {
    user in d.users && d.users[user].material == material
  }

  /** A key record an account has lost never becomes its key record again. */
  ghost predicate NoRevival(log: seq<Db>) {
    forall i, j, k, user, material ::
      0 <= i <= j <= k < |log| && Holds(log[i], user, material) && !Holds(log[j], user, material)
      ==> !Holds(log[k], user, material)
  }

  predicate SameVaultKey(before: Db, after: Db)
    requires before.vault.Some?
  {
    after.vault.Some? && KeyOf(after.vault.value.material) == KeyOf(before.vault.value.material)
  }

  predicate SaltSpent(d: Db, u: UserId, last: Db, spent: set<Salt>)
    requires u in d.users
  {
    u < last.nextUser && d.users[u].material.salt in spent
  }

  ghost predicate LogOk(log: seq<Db>, spent: set<Salt>) {
    && |log| > 0
    && (forall i :: 0 <= i < |log| ==> Sound(log[i]))
    && (forall i, u :: 0 <= i < |log| && u in log[i].users ==> SaltSpent(log[i], u, Last(log), spent))
    && (Last(log).vault.Some? ==> Last(log).vault.value.material.salt in spent)
    && (forall i :: 0 <= i < |log| && log[i].vault.Some? ==> SameVaultKey(log[i], Last(log)))
    && NoRevival(log)
  }

  predicate SpentOk(spent: set<Salt>, nextSalt: Salt) { forall salt :: salt in spent ==> salt < nextSalt }

  /** The password last issued to an account opens its key record. */
  ghost predicate CredentialsOk(d: Db, credential: map<UserId, string>) {
    && credential.Keys == d.users.Keys
    && (forall u :: u in d.users ==>
         UnlockKeyMaterial(credential[u], d.users[u].material) == Opened(KeyOf(d.users[u].material)))
  }

  ghost predicate CommittedOk(s: State) {
    && LogOk(s.log, s.spent)
    && CredentialsOk(Last(s.log), s.credential)
    && s.founded == (if Last(s.log).users == map[] then 0 else 1)
  }

  ghost predicate Inv(s: State) {
    && CommittedOk(s)
    && SpentOk(s.spent, s.nextSalt)
    && RequestsOk(s.log, s.lock, s.requests)
    && DrawnOk(s.requests, s.spent, s.nextSalt)
    && TableOk(s.table)
  }

  // ----- Preservation ---------------------------------------------------------

  predicate LockMoves(before: Option<RequestId>, after: Option<RequestId>, id: RequestId) {
    after == before || (before.None? && after == Some(id)) || (before == Some(id) && after.None?)
  }

  /** Requests other than the one that takes or gives up the lock do not mind. */
  lemma OthersUnmoved(log: seq<Db>, before: Option<RequestId>, after: Option<RequestId>, id: RequestId,
          i: RequestId, r: Request)
    requires RequestOk(log, before, i, r) && LockMoves(before, after, id) && i != id
    ensures RequestOk(log, after, i, r)
  {
  }

  lemma OneRequestKeeps(log: seq<Db>, before: Option<RequestId>, after: Option<RequestId>, requests: seq<Request>,
          id: RequestId, r: Request)
    requires RequestsOk(log, before, requests) && id < |requests|
    requires LockMoves(before, after, id) && RequestOk(log, after, id, r)
    ensures RequestsOk(log, after, requests[id := r])
  {
    var changed := requests[id := r];
    forall i | 0 <= i < |requests| && i != id ensures RequestOk(log, after, i, changed[i]) {
      OthersUnmoved(log, before, after, id, i, requests[i]);
    }
  }

  lemma OneDrawKeeps(requests: seq<Request>, spent: set<Salt>, nextSalt: Salt, nextSalt': Salt, id: RequestId,
          r: Request)
    requires DrawnOk(requests, spent, nextSalt) && SpentOk(spent, nextSalt) && id < |requests| && nextSalt <= nextSalt'
    requires DrawnSalt(r).Some? ==>
               DrawnSalt(r) == DrawnSalt(requests[id]) || (DrawnSalt(r) == Some(nextSalt) && nextSalt < nextSalt')
    ensures DrawnOk(requests[id := r], spent, nextSalt') && SpentOk(spent, nextSalt')
  {
  }

  /** Changing one request without touching the committed content. */
  lemma LocalKeeps(s: State, s': State, id: RequestId, r: Request)
    requires Inv(s) && id < |s.requests|
    requires s'.log == s.log && s'.credential == s.credential && s'.founded == s.founded && s'.spent == s.spent
    requires s'.nextSalt >= s.nextSalt && s'.requests == s.requests[id := r] && TableOk(s'.table)
    requires LockMoves(s.lock, s'.lock, id) && RequestOk(s.log, s'.lock, id, r)
    requires DrawnSalt(r).Some? ==>
               DrawnSalt(r) == DrawnSalt(s.requests[id])
                   || (DrawnSalt(r) == Some(s.nextSalt) && s.nextSalt < s'.nextSalt)
    ensures Inv(s')
  {
    OneRequestKeeps(s.log, s.lock, s'.lock, s.requests, id, r);
    OneDrawKeeps(s.requests, s.spent, s.nextSalt, s'.nextSalt, id, r);
    assert CommittedOk(s');
  }

  lemma TheRequestOk(s: State, id: RequestId)
    requires Inv(s) && id < |s.requests|
    ensures RequestOk(s.log, s.lock, id, s.requests[id])
  {
  }

  lemma ResolveKeeps(s: State, id: RequestId, token: Token)
    requires Inv(s) && id < |s.requests|
    ensures Inv(ResolveStep(s, id, token))
  {
    TheRequestOk(s, id);
    LocalKeeps(s, ResolveStep(s, id, token), id, ResolveStep(s, id, token).requests[id]);
  }

  /** A transaction that begins reads the last commit. */
  lemma BegunOk(log: seq<Db>, before: Option<RequestId>, id: RequestId, r: Request)
    requires |log| > 0 && RequestOk(log, before, id, r) && r.txn.None?
    requires r.pc.Arrived? || r.pc.Prepared?
    ensures var begun := r.(txn := Some(Txn(Last(log), |log|)));
            && RequestOk(log, Some(id), id, begun)
            && (Deferred(r.op) ==> RequestOk(log, before, id, begun))
  {
  }

  lemma BeginKeeps(s: State, id: RequestId)
    requires Inv(s) && id < |s.requests|
    ensures Inv(BeginStep(s, id))
  {
    TheRequestOk(s, id);
    var r := s.requests[id];
    if r.txn.None? && (r.pc.Arrived? || r.pc.Prepared?) && (Deferred(r.op) || s.lock.None?) {
      BegunOk(s.log, s.lock, id, r);
      LocalKeeps(s, BeginStep(s, id), id, r.(txn := Some(Txn(Current(s), |s.log|))));
    }
  }

  /** Ending a transaction without a commit. */
  lemma ReleaseKeeps(s: State, id: RequestId, pc: Pc)
    requires Inv(s) && id < |s.requests|
    requires pc.Deriving? || pc.Aborted? || pc.Committed?
    ensures Inv(Released(s, id, pc))
  {
    TheRequestOk(s, id);
    LocalKeeps(s, Released(s, id, pc), id, s.requests[id].(txn := None, pc := pc));
  }

  lemma FewerSessionsKeep(s: State, table: map<Token, Session>)
    requires Inv(s) && forall t :: t in table ==> t in s.table && table[t] == s.table[t]
    ensures Inv(s.(table := table))
  {
    assert TableOk(table);
  }

  lemma FirstRefusedKeeps(s: State, id: RequestId, error: Reject)
    requires Inv(s) && id < |s.requests|
    ensures Inv(Released(Evicted(s, s.requests[id], error), id, Aborted(None)))
  {
    var evicted := Evicted(s, s.requests[id], error);
    FewerSessionsKeep(s, evicted.table);
    ReleaseKeeps(evicted, id, Aborted(None));
  }

  lemma StageKeeps(s: State, id: RequestId, write: Write)
    requires Inv(s) && id < |s.requests| && s.requests[id].txn.Some? && s.requests[id].pc.Arrived?
    requires Keeps(s.requests[id].txn.value.view, write) && write.issue.None?
    requires Deferred(s.requests[id].op) ==> write.db == s.requests[id].txn.value.view
    ensures Inv(Set(s, id, s.requests[id].(pc := Staged(write, None))))
  {
    TheRequestOk(s, id);
    var staged := s.requests[id].(pc := Staged(write, None));
    LocalKeeps(s, Set(s, id, staged), id, staged);
  }

  lemma FirstFinishedKeeps(s: State, id: RequestId, session: Option<Session>, write: Write)
    requires Inv(s) && id < |s.requests| && s.requests[id].pc.Arrived? && s.requests[id].txn.Some?
    requires FirstSegment(s.requests[id].txn.value.view, s.requests[id].op, session) == First.Finished(write)
    ensures Inv(Set(s, id, s.requests[id].(pc := Staged(write, None))))
  {
    var view, op := s.requests[id].txn.value.view, s.requests[id].op;
    ViewSound(s, id);
    FirstSegmentKeeps(view, op, session);
    if Deferred(op) { DeferredFirstReads(view, op, session); }
    StageKeeps(s, id, write);
  }

  lemma FirstKeeps(s: State, id: RequestId)
    requires Inv(s) && id < |s.requests|
    ensures Inv(FirstStep(s, id))
  {
    var r := s.requests[id];
    if r.pc.Arrived? && r.txn.Some? && (Anonymous(r.op) || r.session.Some?) {
      var session := if r.session.Some? then Some(r.session.value.1) else None;
      match FirstSegment(r.txn.value.view, r.op, session)
      case Refused(error) => FirstRefusedKeeps(s, id, error);
      case Continue(plan) => ReleaseKeeps(s, id, Deriving(plan));
      case Finished(write) => FirstFinishedKeeps(s, id, session, write);
    }
  }

  lemma ViewSound(s: State, id: RequestId)
    requires Inv(s) && id < |s.requests| && s.requests[id].txn.Some?
    ensures Sound(s.requests[id].txn.value.view)
  {
    TheRequestOk(s, id);
  }

  /** No snapshot request writes in its first transaction. */
  lemma DeferredFirstReads(d: Db, op: Op, session: Option<Session>)
    requires Deferred(op) && FirstSegment(d, op, session).Finished?
    ensures FirstSegment(d, op, session).write.db == d
  {
  }

  /** A request moves on inside or outside its transaction. */
  lemma MovesOn(log: seq<Db>, lock: Option<RequestId>, id: RequestId, r: Request, pc: Pc)
    requires RequestOk(log, lock, id, r) && !pc.Staged? && (pc.Prepared? ==> ReadyOk(pc.ready))
    ensures RequestOk(log, lock, id, r.(pc := pc))
  {
  }

  lemma DerivedKeeps(s: State, id: RequestId, ready: Ready)
    requires Inv(s) && id < |s.requests| && s.requests[id].pc.Deriving? && ReadyOk(ready)
    requires DrawsSalt(ready.plan) ==> ready.material.salt == s.nextSalt
    ensures Inv(Set(s.(nextSalt := s.nextSalt + 1), id, s.requests[id].(pc := Prepared(ready))))
  {
    var r := s.requests[id].(pc := Prepared(ready));
    TheRequestOk(s, id);
    MovesOn(s.log, s.lock, id, s.requests[id], Prepared(ready));
    LocalKeeps(s, Set(s.(nextSalt := s.nextSalt + 1), id, r), id, r);
  }

  lemma DeriveFailsKeeps(s: State, id: RequestId)
    requires Inv(s) && id < |s.requests| && s.requests[id].pc.Deriving?
    ensures Inv(Set(s.(nextSalt := s.nextSalt + 1), id, s.requests[id].(pc := Pc.Finished)))
  {
    var r := s.requests[id].(pc := Pc.Finished);
    TheRequestOk(s, id);
    MovesOn(s.log, s.lock, id, s.requests[id], Pc.Finished);
    LocalKeeps(s, Set(s.(nextSalt := s.nextSalt + 1), id, r), id, r);
  }

  lemma DeriveKeeps(s: State, id: RequestId, raw: RawKey)
    requires Inv(s) && id < |s.requests|
    ensures Inv(DeriveStep(s, id, raw))
  {
    if s.requests[id].pc.Deriving? {
      var plan := s.requests[id].pc.plan;
      match DeriveKeys(plan, s.nextSalt, raw)
      case Ok(ready) =>
        DerivedIsReady(plan, s.nextSalt, raw);
        DerivedKeeps(s, id, ready);
      case Err(_) => DeriveFailsKeeps(s, id);
    }
  }

  lemma OpeningKeeps(s: State, write: Write)
    requires Inv(s) && (write.open.Some? ==> SessionOk(write.open.value))
    ensures Inv(Opening(s, write))
  {
    assert TableOk(Opening(s, write).table);
  }

  lemma StagedOk(log: seq<Db>, lock: Option<RequestId>, id: RequestId, r: Request, write: Write, token: Option<Token>)
    requires RequestOk(log, lock, id, r) && r.txn.Some? && Keeps(r.txn.value.view, write)
    requires write.db != r.txn.value.view ==> lock == Some(id) || (lock.None? && r.txn.value.version == |log|)
    ensures RequestOk(log, if write.db != r.txn.value.view then Some(id) else lock, id, r.(pc := Staged(write, token)))
  {
  }

  /** A second segment that changes the rows is staged under the write lock. */
  lemma StageChangeKeeps(s: State, id: RequestId, write: Write, token: Option<Token>)
    requires Inv(s) && id < |s.requests| && s.requests[id].txn.Some? && s.requests[id].pc.Prepared?
    requires Keeps(s.requests[id].txn.value.view, write) && write.db != s.requests[id].txn.value.view && MayWrite(s, id)
    requires StagesDraw(s.requests[id], write)
    ensures Inv(Set(s, id, s.requests[id].(pc := Staged(write, token))).(lock := Some(id)))
  {
    var r := s.requests[id].(pc := Staged(write, token));
    TheRequestOk(s, id);
    StagedOk(s.log, s.lock, id, s.requests[id], write, token);
    LocalKeeps(s, Set(s, id, r).(lock := Some(id)), id, r);
  }

  lemma StageNothingKeeps(s: State, id: RequestId, write: Write, token: Option<Token>)
    requires Inv(s) && id < |s.requests| && s.requests[id].txn.Some? && s.requests[id].pc.Prepared?
    requires Keeps(s.requests[id].txn.value.view, write) && write.db == s.requests[id].txn.value.view
    requires StagesDraw(s.requests[id], write)
    ensures Inv(Set(s, id, s.requests[id].(pc := Staged(write, token))))
  {
    var r := s.requests[id].(pc := Staged(write, token));
    TheRequestOk(s, id);
    StagedOk(s.log, s.lock, id, s.requests[id], write, token);
    LocalKeeps(s, Set(s, id, r), id, r);
  }

  /** A staged fresh record is sealed with the salt the request drew. */
  predicate StagesDraw(r: Request, write: Write) {
    write.issue.Some? && write.issue.value.drawn ==> DrawnSalt(r) == Some(write.issue.value.material.salt)
  }

  lemma SecondWriteOk(log: seq<Db>, lock: Option<RequestId>, id: RequestId, r: Request, write: Write)
    requires RequestOk(log, lock, id, r) && r.pc.Prepared? && r.txn.Some? && Sound(r.txn.value.view)
    requires SecondSegment(r.txn.value.view, r.pc.ready) == Ok(write)
    ensures Keeps(r.txn.value.view, write) && StagesDraw(r, write)
    ensures write.open.Some? ==> SessionOk(write.open.value)
  {
    SecondSegmentKeeps(r.txn.value.view, r.pc.ready);
    IssuesFreshly(r.txn.value.view, r.pc.ready);
  }

  lemma SecondWritesKeeps(s: State, id: RequestId, write: Write)
    requires Inv(s) && id < |s.requests| && s.requests[id].pc.Prepared? && s.requests[id].txn.Some?
    requires SecondSegment(s.requests[id].txn.value.view, s.requests[id].pc.ready) == Ok(write)
    requires write.db != s.requests[id].txn.value.view ==> MayWrite(s, id)
    ensures var view := s.requests[id].txn.value.view;
            var token := if write.open.Some? then Some(s.nextToken) else None;
            Inv(Set(Opening(s, write), id, s.requests[id].(pc := Staged(write, token)))
                .(lock := if write.db != view then Some(id) else s.lock))
  {
    TheRequestOk(s, id);
    ViewSound(s, id);
    SecondWriteOk(s.log, s.lock, id, s.requests[id], write);
    OpeningKeeps(s, write);
    var token := if write.open.Some? then Some(s.nextToken) else None;
    if write.db != s.requests[id].txn.value.view {
      StageChangeKeeps(Opening(s, write), id, write, token);
    } else {
      StageNothingKeeps(Opening(s, write), id, write, token);
    }
  }

  lemma SecondKeeps(s: State, id: RequestId)
    requires Inv(s) && id < |s.requests|
    ensures Inv(SecondStep(s, id))
  {
    var r := s.requests[id];
    if r.pc.Prepared? && r.txn.Some? {
      match SecondSegment(r.txn.value.view, r.pc.ready)
      case Err(_) => ReleaseKeeps(s, id, Aborted(None));
      case Ok(write) =>
        if write.db != r.txn.value.view && !MayWrite(s, id) {
          ReleaseKeeps(s, id, Aborted(None));
        } else {
          SecondWritesKeeps(s, id, write);
        }
    }
  }

  lemma AbortKeeps(s: State, id: RequestId)
    requires Inv(s) && id < |s.requests|
    ensures Inv(AbortStep(s, id))
  {
    var r := s.requests[id];
    if r.pc.Staged? { ReleaseKeeps(s, id, Aborted(r.pc.token)); }
    else if r.pc.Arrived? || r.pc.Deriving? || r.pc.Prepared? { ReleaseKeeps(s, id, Aborted(None)); }
  }

  lemma FinishKeeps(s: State, id: RequestId)
    requires Inv(s) && id < |s.requests| && (s.requests[id].pc.Committed? || s.requests[id].pc.Aborted?)
    ensures Inv(Set(s, id, s.requests[id].(pc := Pc.Finished)))
  {
    TheRequestOk(s, id);
    LocalKeeps(s, Set(s, id, s.requests[id].(pc := Pc.Finished)), id, s.requests[id].(pc := Pc.Finished));
  }

  lemma HooksKeep(s: State, id: RequestId)
    requires Inv(s) && id < |s.requests|
    ensures Inv(HooksStep(s, id))
  {
    if s.requests[id].pc.Committed? || s.requests[id].pc.Aborted? {
      var table := HookedTable(s.table, s.requests[id].pc);
      FewerSessionsKeep(s, table);
      FinishKeeps(s.(table := table), id);
    }
  }

  // ----- Commits ----------------------------------------------------------------

  /** A drawn key record uses a salt nobody used before. */
  predicate FreshIssue(spent: set<Salt>, write: Write) {
    write.issue.Some? && write.issue.value.drawn ==> write.issue.value.material.salt !in spent
  }

  /** A write that gives an account a key record it does not have now gives it
      one it never had. */
  lemma NoReturn(log: seq<Db>, spent: set<Salt>, write: Write, i: nat, user: UserId, material: KeyMaterial)
    requires LogOk(log, spent) && Evolves(Last(log), write) && FreshIssue(spent, write)
    requires i < |log| && Holds(log[i], user, material) && !Holds(Last(log), user, material)
    ensures !Holds(write.db, user, material)
  {
    assert SaltSpent(log[i], user, Last(log), spent);
  }

  lemma AppendNoRevival(log: seq<Db>, spent: set<Salt>, write: Write)
    requires LogOk(log, spent) && Evolves(Last(log), write) && FreshIssue(spent, write)
    ensures NoRevival(log + [write.db])
  {
    var after := log + [write.db];
    forall i, j, k, user, material |
      0 <= i <= j <= k < |after| && Holds(after[i], user, material) && !Holds(after[j], user, material)
      ensures !Holds(after[k], user, material)
    {
      if j < |log| {
        assert after[i] == log[i] && after[j] == log[j];
        if k < |log| {
          assert after[k] == log[k];
        } else {
          assert !Holds(log[|log| - 1], user, material);
          NoReturn(log, spent, write, i, user, material);
        }
      }
    }
  }

  lemma AppendSalts(log: seq<Db>, spent: set<Salt>, write: Write, i: nat, u: UserId)
    requires LogOk(log, spent) && Keeps(Last(log), write) && i <= |log| && u in (log + [write.db])[i].users
    ensures SaltSpent((log + [write.db])[i], u, write.db, SpentAfter(spent, write))
  {
    if i < |log| {
      assert SaltSpent(log[i], u, Last(log), spent);
    } else if u in Last(log).users {
      assert SaltSpent(log[|log| - 1], u, Last(log), spent);
    }
  }

  lemma AppendVaultKey(log: seq<Db>, spent: set<Salt>, write: Write, i: nat)
    requires LogOk(log, spent) && Keeps(Last(log), write) && i <= |log| && (log + [write.db])[i].vault.Some?
    ensures SameVaultKey((log + [write.db])[i], write.db)
  {
    if i < |log| { assert SameVaultKey(log[i], Last(log)); }
  }

  lemma AppendVaultSalt(log: seq<Db>, spent: set<Salt>, write: Write)
    requires LogOk(log, spent) && Keeps(Last(log), write) && write.db.vault.Some?
    ensures write.db.vault.value.material.salt in SpentAfter(spent, write)
  {
  }

  lemma AppendKeepsLog(log: seq<Db>, spent: set<Salt>, write: Write)
    requires LogOk(log, spent) && Keeps(Last(log), write) && FreshIssue(spent, write)
    ensures LogOk(log + [write.db], SpentAfter(spent, write))
  {
    var after := log + [write.db];
    assert Last(after) == write.db;
    AppendNoRevival(log, spent, write);
    forall i, u | 0 <= i < |after| && u in after[i].users
      ensures SaltSpent(after[i], u, write.db, SpentAfter(spent, write))
    {
      AppendSalts(log, spent, write, i, u);
    }
    forall i | 0 <= i < |after| && after[i].vault.Some? ensures SameVaultKey(after[i], write.db) {
      AppendVaultKey(log, spent, write, i);
    }
    if write.db.vault.Some? { AppendVaultSalt(log, spent, write); }
  }

  lemma CommitCredentials(s: State, write: Write)
    requires |s.log| > 0 && Sound(Current(s)) && CredentialsOk(Current(s), s.credential) && Keeps(Current(s), write)
    ensures CredentialsOk(write.db, CredentialsAfter(s, write))
  {
  }

  /** The content a request commits was computed from the current one. */
  lemma CommitIsCurrent(s: State, id: RequestId)
    requires Inv(s) && id < |s.requests| && s.requests[id].pc.Staged?
    requires s.requests[id].txn.Some? && s.requests[id].pc.write.db != s.requests[id].txn.value.view
    ensures s.lock == Some(id) && s.requests[id].txn.value.view == Current(s)
    ensures Keeps(Current(s), s.requests[id].pc.write) && FreshIssue(s.spent, s.requests[id].pc.write)
  {
    TheRequestOk(s, id);
    assert DrawnSalt(s.requests[id]).Some? ==> DrawnSalt(s.requests[id]).value !in s.spent;
  }

  /** After one more commit, released transactions and snapshots are as before. */
  lemma CommitRequests(log: seq<Db>, requests: seq<Request>, id: RequestId, d: Db, pc: Pc)
    requires RequestsOk(log, Some(id), requests) && pc.Committed?
    ensures RequestsOk(log + [d], None, requests[id := requests[id].(txn := None, pc := pc)])
  {
    var after := requests[id := requests[id].(txn := None, pc := pc)];
    forall i | 0 <= i < |after| ensures RequestOk(log + [d], None, i, after[i]) {
      assert RequestOk(log, Some(id), i, requests[i]);
    }
  }

  /** The salt one request commits was drawn by no other. */
  lemma CommitDraws(requests: seq<Request>, spent: set<Salt>, nextSalt: Salt, id: RequestId, r: Request, write: Write)
    requires DrawnOk(requests, spent, nextSalt) && SpentOk(SpentAfter(spent, write), nextSalt) && id < |requests|
    requires DrawnSalt(r).None?
    requires forall i :: 0 <= i < |requests| && i != id && DrawnSalt(requests[i]).Some? && write.issue.Some? ==>
               DrawnSalt(requests[i]).value != write.issue.value.material.salt
    ensures DrawnOk(requests[id := r], SpentAfter(spent, write), nextSalt)
  {
  }

  /** A committed record carries the request's own drawn salt or a spent one. */
  lemma CommitSalt(s: State, id: RequestId)
    requires Inv(s) && id < |s.requests| && s.requests[id].pc.Staged? && s.requests[id].txn.Some?
    requires s.requests[id].pc.write.db != s.requests[id].txn.value.view
    ensures SpentOk(SpentAfter(s.spent, s.requests[id].pc.write), s.nextSalt)
    ensures s.requests[id].pc.write.issue.Some? ==>
              forall i :: 0 <= i < |s.requests| && i != id && DrawnSalt(s.requests[i]).Some? ==>
                DrawnSalt(s.requests[i]).value != s.requests[id].pc.write.issue.value.material.salt
  {
    CommitIsCurrent(s, id);
    var write := s.requests[id].pc.write;
    if write.issue.Some? {
      if write.issue.value.drawn {
        assert DrawnSalt(s.requests[id]) == Some(write.issue.value.material.salt);
      } else {
        assert write.issue.value.material.salt in s.spent;
      }
    }
  }

  lemma CommittedContentOk(s: State, write: Write, s': State)
    requires CommittedOk(s) && Keeps(Current(s), write) && FreshIssue(s.spent, write)
    requires s'.log == s.log + [write.db] && s'.spent == SpentAfter(s.spent, write)
    requires s'.credential == CredentialsAfter(s, write)
    requires s'.founded == if Founds(write, Current(s)) then s.founded + 1 else s.founded
    ensures CommittedOk(s')
  {
    AppendKeepsLog(s.log, s.spent, write);
    assert Sound(s.log[|s.log| - 1]);
    CommitCredentials(s, write);
    assert Last(s'.log) == write.db;
  }

  /** The requests and the salts after a commit. */
  lemma CommitOthersKeep(s: State, id: RequestId, write: Write, pc: Pc)
    requires Inv(s) && id < |s.requests| && s.requests[id].pc.Staged? && s.requests[id].txn.Some?
    requires write == s.requests[id].pc.write && write.db != s.requests[id].txn.value.view && pc.Committed?
    ensures var requests := s.requests[id := s.requests[id].(txn := None, pc := pc)];
            && RequestsOk(s.log + [write.db], None, requests)
            && DrawnOk(requests, SpentAfter(s.spent, write), s.nextSalt)
            && SpentOk(SpentAfter(s.spent, write), s.nextSalt)
  {
    CommitIsCurrent(s, id);
    CommitRequests(s.log, s.requests, id, write.db, pc);
    CommitSalt(s, id);
    CommitDraws(s.requests, s.spent, s.nextSalt, id, s.requests[id].(txn := None, pc := pc), write);
  }

  lemma CommitChangesKeep(s: State, id: RequestId)
    requires Inv(s) && id < |s.requests| && s.requests[id].pc.Staged? && s.requests[id].txn.Some?
    requires s.requests[id].pc.write.db != s.requests[id].txn.value.view
    ensures Inv(CommitStep(s, id))
  {
    var write := s.requests[id].pc.write;
    CommitIsCurrent(s, id);
    CommitOthersKeep(s, id, write, Committed(write.hook, s.requests[id].pc.token));
    CommittedContentOk(s, write, CommitStep(s, id));
  }

  lemma CommitKeeps(s: State, id: RequestId)
    requires Inv(s) && id < |s.requests|
    ensures Inv(CommitStep(s, id))
  {
    var r := s.requests[id];
    if r.pc.Staged? && r.txn.Some? {
      if r.pc.write.db == r.txn.value.view {
        ReleaseKeeps(s, id, Committed(r.pc.write.hook, r.pc.token));
      } else {
        CommitChangesKeep(s, id);
      }
    }
  }

  lemma OtherWriteKeeps(s: State, holders: set<UserId>, orphans: bool)
    requires Inv(s)
    ensures Inv(Apply(s, OtherWrite(holders, orphans)))
  {
    if s.lock.None? {
      var d := Current(s).(holders := holders, orphans := orphans);
      assert Sound(d);
      AppendKeepsLog(s.log, s.spent, Nothing(d));
      var s' := OtherWriteStep(s, holders, orphans);
      assert s'.log == s.log + [d] && Last(s'.log) == d;
      forall i | 0 <= i < |s.requests| ensures RequestOk(s'.log, None, i, s.requests[i]) {
        TheRequestOk(s, i);
      }
    }
  }

  predicate Early(action: Action) { action.Resolve? || action.Begin? || action.RunFirst? || action.Derive? }

  lemma EarlyActionKeeps(s: State, id: RequestId, action: Action)
    requires Inv(s) && id < |s.requests| && Early(action)
    ensures Inv(ActionStep(s, id, action))
  {
    match action
    case Resolve(token) => ResolveKeeps(s, id, token);
    case Begin => BeginKeeps(s, id);
    case RunFirst => FirstKeeps(s, id);
    case Derive(raw) => DeriveKeeps(s, id, raw);
  }

  lemma LateActionKeeps(s: State, id: RequestId, action: Action)
    requires Inv(s) && id < |s.requests| && !Early(action)
    ensures Inv(ActionStep(s, id, action))
  {
    match action
    case RunSecond => SecondKeeps(s, id);
    case Commit => CommitKeeps(s, id);
    case Abort => AbortKeeps(s, id);
    case RunHooks => HooksKeep(s, id);
  }

  lemma ActionKeeps(s: State, id: RequestId, action: Action)
    requires Inv(s) && id < |s.requests|
    ensures Inv(ActionStep(s, id, action))
  {
    if Early(action) { EarlyActionKeeps(s, id, action); } else { LateActionKeeps(s, id, action); }
  }

  lemma ArrivedOk(log: seq<Db>, lock: Option<RequestId>, requests: seq<Request>, spent: set<Salt>, nextSalt: Salt,
          r: Request)
    requires RequestsOk(log, lock, requests) && DrawnOk(requests, spent, nextSalt)
    requires r.txn.None? && r.session.None? && r.pc.Arrived?
    ensures RequestsOk(log, lock, requests + [r]) && DrawnOk(requests + [r], spent, nextSalt)
  {
    var after := requests + [r];
    forall i | 0 <= i < |after| ensures RequestOk(log, lock, i, after[i]) {
      if i < |requests| { assert RequestOk(log, lock, i, requests[i]); }
    }
  }

  lemma ArriveKeeps(s: State, op: Op)
    requires Inv(s)
    ensures Inv(Apply(s, Arrive(op)))
  {
    ArrivedOk(s.log, s.lock, s.requests, s.spent, s.nextSalt, Request(op, None, None, Arrived));
    assert CommittedOk(s.(requests := s.requests + [Request(op, None, None, Arrived)]));
  }

  lemma ActKeeps(s: State, id: RequestId, action: Action)
    requires Inv(s)
    ensures Inv(Apply(s, Act(id, action)))
  {
    if id < |s.requests| { ActionKeeps(s, id, action); }
  }

  lemma DropKeeps(s: State, token: Token)
    requires Inv(s)
    ensures Inv(Apply(s, Drop(token)))
  {
    FewerSessionsKeep(s, s.table - {token});
  }

  lemma RestartKeeps(s: State)
    requires Inv(s)
    ensures Inv(Apply(s, Restart))
  {
  }

  lemma ApplyKeeps(s: State, step: Step)
    requires Inv(s)
    ensures Inv(Apply(s, step))
  {
    match step
    case Arrive(op) => ArriveKeeps(s, op);
    case Act(id, action) => ActKeeps(s, id, action);
    case Drop(token) => DropKeeps(s, token);
    case OtherWrite(holders, orphans) => OtherWriteKeeps(s, holders, orphans);
    case Restart => RestartKeeps(s);
  }

  lemma {:induction false} RunKeeps(s: State, steps: seq<Step>)
    requires Inv(s)
    ensures Inv(Run(s, steps))
    decreases |steps|
  {
    if steps != [] {
      ApplyKeeps(s, steps[0]);
      RunKeeps(Apply(s, steps[0]), steps[1..]);
    }
  }

  lemma InitialInv(s: State)
    requires Initial(s)
    ensures Inv(s)
  {
  }

  // ----- Theorems ---------------------------------------------------------------

  ghost predicate Reachable(s: State) {
    exists start, steps :: Initial(start) && s == Run(start, steps)
  }

  lemma ReachableInv(s: State)
    requires Reachable(s)
    ensures Inv(s)
  {
    var start, steps :| Initial(start) && s == Run(start, steps);
    InitialInv(start);
    RunKeeps(start, steps);
  }

  /** The other checks of `context` never decide: the vault row mirrors its owner
      and the session key is the vault key whenever the fingerprint matches. */
  lemma SoundContext(d: Db, session: Session, allowChange: bool)
    requires Sound(d) && SessionOk(session)
    ensures ContextOf(d, session, allowChange).Ok?
        <==> && Holds(d, session.user, session.fingerprint)
             && d.users[session.user].active
             && Human(d.users[session.user])
             && (d.users[session.user].mustChange ==> allowChange)
  {
    if Holds(d, session.user, session.fingerprint) {
      assert CanonicalMaterial(d) == Some(d.vault.value.material);
      assert KeyMatches(session.key, d.vault.value.material);
    }
  }

  /** In every reachable state a request's session is accepted on what its
      transaction reads exactly when the account is an active human one whose
      key record is the one the token was opened under. */
  lemma ContextAcceptsExactly(s: State, id: RequestId, allowChange: bool)
    requires Reachable(s) && id < |s.requests|
    requires s.requests[id].txn.Some? && s.requests[id].session.Some?
    ensures var session := s.requests[id].session.value.1;
            var view := s.requests[id].txn.value.view;
            ContextOf(view, session, allowChange).Ok?
            <==> && Holds(view, session.user, session.fingerprint)
                 && view.users[session.user].active
                 && Human(view.users[session.user])
                 && (view.users[session.user].mustChange ==> allowChange)
  {
    ReachableInv(s);
    ViewSound(s, id);
    TheRequestOk(s, id);
    SoundContext(s.requests[id].txn.value.view, s.requests[id].session.value.1, allowChange);
  }

  /** A drawn key record differs from every one already committed. */
  lemma DrawnReplaces(log: seq<Db>, spent: set<Salt>, requests: seq<Request>, nextSalt: Salt, id: RequestId,
          user: UserId, previous: KeyMaterial)
    requires LogOk(log, spent) && DrawnOk(requests, spent, nextSalt) && id < |requests| && requests[id].pc.Staged?
    requires requests[id].pc.write.issue.Some? && requests[id].pc.write.issue.value.drawn
    ensures var salt := requests[id].pc.write.issue.value.material.salt;
            && (forall i, u :: 0 <= i < |log| && u in log[i].users ==> log[i].users[u].material.salt != salt)
            && (Holds(Last(log), user, previous) ==> previous.salt != salt)
  {
    assert DrawnSalt(requests[id]) == Some(requests[id].pc.write.issue.value.material.salt);
    forall i, u | 0 <= i < |log| && u in log[i].users
      ensures log[i].users[u].material.salt != requests[id].pc.write.issue.value.material.salt
    {
      assert SaltSpent(log[i], u, Last(log), spent);
    }
    assert Last(log) == log[|log| - 1];
  }

  /** A committed change, reset or rotation replaces the key record. */
  lemma CommitRetires(s: State, id: RequestId, user: UserId, previous: KeyMaterial)
    requires Reachable(s) && id < |s.requests| && s.requests[id].pc.Staged?
    requires s.requests[id].pc.write.issue.Some? && s.requests[id].pc.write.issue.value.user == user
    requires s.requests[id].pc.write.issue.value.drawn
    requires Holds(Current(s), user, previous)
    ensures var s' := CommitStep(s, id);
            && |s'.log| == |s.log| + 1
            && Holds(Current(s'), user, s.requests[id].pc.write.issue.value.material)
            && !Holds(Current(s'), user, previous)
  {
    ReachableInv(s);
    TheRequestOk(s, id);
    DrawnReplaces(s.log, s.spent, s.requests, s.nextSalt, id, user, previous);
    CommitIsCurrent(s, id);
  }

  lemma LostInLog(log: seq<Db>, i: nat, j: nat, k: nat, user: UserId, material: KeyMaterial)
    requires NoRevival(log) && i <= j <= k < |log|
    requires Holds(log[i], user, material) && !Holds(log[j], user, material)
    ensures !Holds(log[k], user, material)
  {
  }

  lemma StaysLost(s: State, steps: seq<Step>, i: nat, user: UserId, material: KeyMaterial)
    requires Reachable(s) && i < |s.log|
    requires Holds(s.log[i], user, material) && !Holds(Current(s), user, material)
    ensures Inv(Run(s, steps))
    ensures forall k :: |s.log| - 1 <= k < |Run(s, steps).log| ==> !Holds(Run(s, steps).log[k], user, material)
  {
    ReachableInv(s);
    RunKeeps(s, steps);
    var log := Run(s, steps).log;
    var j := |s.log| - 1;
    assert log[i] == s.log[i] && log[j] == s.log[j];
    forall k | j <= k < |log| ensures !Holds(log[k], user, material) {
      LostInLog(log, i, j, k, user, material);
    }
  }

  lemma RefusedWithout(d: Db, session: Session, allowChange: bool)
    requires !Holds(d, session.user, session.fingerprint)
    ensures ContextOf(d, session, allowChange) == Err(SessionRequired)
  {
  }

  /** Once an account has lost a key record, no session opened under it is
      accepted by any transaction that begins from then on, whatever else was
      in flight: not by one that verified the old password, opened its session
      late, or committed or aborted in between. */
  lemma OldTokensStayRefused(s: State, steps: seq<Step>, i: nat, session: Session, allowChange: bool)
    requires Reachable(s) && i < |s.log|
    requires Holds(s.log[i], session.user, session.fingerprint)
    requires !Holds(Current(s), session.user, session.fingerprint)
    ensures var end := Run(s, steps);
            && (forall k :: |s.log| - 1 <= k < |end.log| ==>
                  ContextOf(end.log[k], session, allowChange) == Err(SessionRequired))
            && (forall id :: 0 <= id < |end.requests| && end.requests[id].txn.Some?
                             && end.requests[id].txn.value.version >= |s.log| ==>
                  ContextOf(end.requests[id].txn.value.view, session, allowChange) == Err(SessionRequired))
  {
    StaysLost(s, steps, i, session.user, session.fingerprint);
    var end := Run(s, steps);
    forall k | |s.log| - 1 <= k < |end.log|
      ensures ContextOf(end.log[k], session, allowChange) == Err(SessionRequired)
    {
      RefusedWithout(end.log[k], session, allowChange);
    }
    forall id | 0 <= id < |end.requests| && end.requests[id].txn.Some? && end.requests[id].txn.value.version >= |s.log|
      ensures ContextOf(end.requests[id].txn.value.view, session, allowChange) == Err(SessionRequired)
    {
      TheRequestOk(end, id);
      RefusedWithout(end.requests[id].txn.value.view, session, allowChange);
    }
  }

  /** Every account's last issued credential opens its key record, no other
      password does, all records open to the vault's one key, which never
      changes, and the vault row is its owner's record. */
  lemma OneVaultKeyForAll(s: State, steps: seq<Step>, user: UserId, attempt: string)
    requires Reachable(s) && user in Current(s).users
    ensures var d := Current(s);
            && d.vault.Some? && user in s.credential
            && UnlockKeyMaterial(attempt, d.users[user].material)
               == (if attempt == s.credential[user] then Opened(KeyOf(d.vault.value.material)) else WrongPassword)
            && CanonicalMaterial(d) == Some(d.vault.value.material)
            && SameVaultKey(d, Current(Run(s, steps)))
  {
    ReachableInv(s);
    RunKeeps(s, steps);
    assert Run(s, steps).log[|s.log| - 1] == Current(s);
    OpensOnlyIfSealed(s.credential[user], Current(s).users[user].material);
  }

  /** At most one first account is ever committed, through the bootstrap or the
      unlock route, and from then on there is an active administrator. */
  lemma OneBootstrap(s: State, steps: seq<Step>)
    requires Reachable(s)
    ensures s.founded <= Run(s, steps).founded <= 1
    ensures s.founded == 1 ==> Run(s, steps).founded == 1 && HasActiveAdmin(Current(Run(s, steps)).users)
    ensures s.founded == 1 <==> Current(s).users != map[]
  {
    ReachableInv(s);
    RunKeeps(s, steps);
    FoundedGrows(s, steps);
  }

  lemma {:induction false} FoundedGrows(s: State, steps: seq<Step>)
    requires |s.log| > 0
    ensures s.founded <= Run(s, steps).founded
    decreases |steps|
  {
    if steps != [] {
      assert s.founded <= Apply(s, steps[0]).founded;
      FoundedGrows(Apply(s, steps[0]), steps[1..]);
    }
  }

  /** The three stages of a login with nothing else committed in between. */
  ghost predicate LoginOpens(d: Db, username: string, password: string, salt: Salt, user: UserId) {
    match LoginFirst(d, username, password)
    case Continue(plan) =>
      (match DeriveKeys(plan, salt, 0)
       case Ok(ready) =>
         (match SecondSegment(d, ready)
          case Ok(write) => write.open.Some? && write.open.value.user == user
          case Err(_) => false)
       case Err(_) => false)
    case _ => false
  }

  /** A login that nothing interrupts opens a session for the active human
      account of that name exactly when its key record opens under the password. */
  lemma LoginOpensIf(d: Db, username: string, password: string, salt: Salt, user: UserId, u: UserId)
    requires Sound(d) && u in d.users
    requires d.users[u].username == username && d.users[u].active && Human(d.users[u])
    ensures LoginOpens(d, username, password, salt, user)
        <==> user == u && UnlockKeyMaterial(password, d.users[u].material) == Opened(KeyOf(d.users[u].material))
  {
    assert LoginFirst(d, username, password) == Continue(SignIn(u, password, d.users[u].material));
    assert WellSealed(d.users[u].material);
  }

  lemma CredentialOpens(d: Db, credential: map<UserId, string>, u: UserId, password: string)
    requires CredentialsOk(d, credential) && u in d.users
    ensures UnlockKeyMaterial(password, d.users[u].material) == Opened(KeyOf(d.users[u].material))
        <==> password == credential[u]
  {
    var m := d.users[u].material;
    OpensOnlyIfSealed(credential[u], m);
    UnlockExactly(credential[u], password, KeyOf(m), m.salt);
  }

  lemma LoginOpensExactly(s: State, username: string, password: string, salt: Salt, user: UserId)
    requires Reachable(s)
    ensures LoginOpens(Current(s), username, password, salt, user)
        <==> && user in Current(s).users
             && Current(s).users[user].username == username
             && Current(s).users[user].active
             && Human(Current(s).users[user])
             && user in s.credential && s.credential[user] == password
  {
    ReachableInv(s);
    var d := Current(s);
    if u :| u in d.users && d.users[u].username == username && d.users[u].active && Human(d.users[u]) {
      LoginOpensIf(d, username, password, salt, user, u);
      CredentialOpens(d, s.credential, u, password);
      assert UniqueNames(d.users);
    } else {
      assert LoginFirst(d, username, password) == Continue(NoSuchUser);
    }
  }
}
