/**
The in-memory session table of the server process (backend/vault_sessions.py).
The clock reading and the random token of each call are parameters; a token
stands for its digest. The ordered dictionary is a sequence, oldest use first.
*/
module VaultSessions {
  import opened Wrappers

  datatype Instant = Instant(monotonic: real, wall: real)

  function Max(a: real, b: real): real { if a >= b then a else b }

  function Min(a: real, b: real): real { if a <= b then a else b }

  /** The larger of the two clocks' elapsed times. */
  function MsSince(now: Instant, earlier: Instant): real {
    1000.0 * Max(now.monotonic - earlier.monotonic, now.wall - earlier.wall)
  }

  /** Neither clock was set back between the two readings. */
  predicate NotBefore(later: Instant, earlier: Instant) {
    earlier.monotonic <= later.monotonic && earlier.wall <= later.wall
  }

  type Token = string
  type VaultKey = nat
  type Fingerprint = nat

  datatype Session = Session(
    key: VaultKey,
    user: nat,
    fingerprint: Option<Fingerprint>,
    created: Instant,
    lastUsed: Instant)

  datatype Slot = Slot(token: Token, session: Session)

  datatype Limits = Limits(toleranceMs: int, maxLifetimeMs: int, maxSessions: nat)

  const TOKEN_LENGTH := 43

  predicate TokenChar(c: char) {
    'A' <= c <= 'Z' || 'a' <= c <= 'z' || '0' <= c <= '9' || c == '-' || c == '_'
  }

  predicate WellFormed(token: Token) {
    |token| == TOKEN_LENGTH && forall i :: 0 <= i < |token| ==> TokenChar(token[i])
  }

  function Remaining(l: Limits, idleMs: int, session: Session, now: Instant, tolerance: bool): real {
    var idleLimit := idleMs + if tolerance then l.toleranceMs else 0;
    Min(idleLimit as real - MsSince(now, session.lastUsed),
        l.maxLifetimeMs as real - MsSince(now, session.created))
  }

  predicate Alive(l: Limits, idleMs: int, session: Session, now: Instant) {
    Remaining(l, idleMs, session, now, true) > 0.0
  }

  // ----- The table as a value -------------------------------------------------

  predicate HasToken(slots: seq<Slot>, token: Token) {
    exists i :: 0 <= i < |slots| && slots[i].token == token
  }

  predicate Distinct(slots: seq<Slot>) {
    forall i, j :: 0 <= i < j < |slots| ==> slots[i].token != slots[j].token
  }

  function Lookup(slots: seq<Slot>, token: Token): (found: Option<Session>)
    ensures found.Some? <==> HasToken(slots, token)
    ensures found.Some? ==> exists i :: 0 <= i < |slots| && slots[i] == Slot(token, found.value)
    ensures forall i :: Distinct(slots) && 0 <= i < |slots| && slots[i].token == token ==>
              found == Some(slots[i].session)
  {
    if slots == [] then None
    else if slots[0].token == token then
      assert slots[0] == Slot(token, slots[0].session);
      Some(slots[0].session)
    else
      var rest := Lookup(slots[1..], token);
      assert forall i :: 0 < i < |slots| ==> slots[i] == slots[1..][i - 1];
      assert forall i :: 0 <= i < |slots| - 1 ==> slots[1..][i] == slots[i + 1];
      rest
  }

  /** The slots `keep` holds of, in their order. */
  function Filter(slots: seq<Slot>, keep: Slot -> bool): (kept: seq<Slot>)
    ensures |kept| <= |slots|
    ensures forall x :: x in kept <==> x in slots && keep(x)
    ensures Distinct(slots) ==> Distinct(kept)
  {
    if slots == [] then []
    else
      var rest := Filter(slots[1..], keep);
      assert Distinct(slots) ==> Distinct(slots[1..]);
      assert forall i :: 0 <= i < |rest| ==> rest[i] in slots[1..];
      if keep(slots[0]) then [slots[0]] + rest else rest
  }

  function LiveOnly(l: Limits, idleMs: int, slots: seq<Slot>, now: Instant): seq<Slot> {
    Filter(slots, (x: Slot) => Alive(l, idleMs, x.session, now))
  }

  function Without(slots: seq<Slot>, token: Token): seq<Slot> {
    Filter(slots, (x: Slot) => x.token != token)
  }

  datatype Table = Table(limits: Limits, idleMs: int, slots: seq<Slot>)

  datatype Event =
    | SetTimeout(ms: int)
    | Open(token: Token, key: VaultKey, user: nat, fingerprint: Option<Fingerprint>)
    | Resolve(token: Token, refresh: bool)
    | Peek(token: Token)            // info, user_id, credential_fingerprint
    | Revoke(token: Token)
    | RevokeAll
    | RevokeUser(user: nat)
    | RevokeUserExcept(user: nat, token: Token)
    | Sweep

  /** Room for one more: the oldest slots go while the table is full. */
  function Evict(slots: seq<Slot>, max: nat): seq<Slot>
    requires max >= 1
  {
    if |slots| < max then slots else slots[|slots| - (max - 1)..]
  }

  /** `_live`: the session, and the table without it if it had expired. */
  function LiveSession(t: Table, now: Instant, token: Token): (r: (Option<Session>, seq<Slot>)) {
    if !WellFormed(token) then (None, t.slots)
    else match Lookup(t.slots, token)
      case None => (None, t.slots)
      case Some(session) =>
        if Alive(t.limits, t.idleMs, session, now) then (Some(session), t.slots) else (None, Without(t.slots, token))
  }

  function Touch(slots: seq<Slot>, token: Token, session: Session, now: Instant): seq<Slot> {
    Without(slots, token) + [Slot(token, session.(lastUsed := now))]
  }

  function Next(t: Table, now: Instant, e: Event): Table
    requires t.limits.maxSessions >= 1
  {
    match e
    case SetTimeout(ms) => t.(slots := LiveOnly(t.limits, t.idleMs, t.slots, now), idleMs := ms)
    case Open(token, key, user, fingerprint) =>
      t.(slots := Evict(LiveOnly(t.limits, t.idleMs, t.slots, now), t.limits.maxSessions)
                  + [Slot(token, Session(key, user, fingerprint, now, now))])
    case Resolve(token, refresh) =>
      var (session, slots) := LiveSession(t, now, token);
      if session.Some? && refresh then t.(slots := Touch(slots, token, session.value, now)) else t.(slots := slots)
    case Peek(token) => t.(slots := LiveSession(t, now, token).1)
    case Revoke(token) => if WellFormed(token) then t.(slots := Without(t.slots, token)) else t
    case RevokeAll => t.(slots := [])
    case RevokeUser(user) => t.(slots := Filter(t.slots, (x: Slot) => x.session.user != user))
    case RevokeUserExcept(user, token) =>
      t.(slots := Filter(t.slots, (x: Slot) => x.session.user != user || x.token == token))
    case Sweep => t.(slots := LiveOnly(t.limits, t.idleMs, t.slots, now))
  }

  /** The session a call returns the key (or the account) of. */
  function Reply(t: Table, now: Instant, e: Event): Option<Session> {
    match e
    case Resolve(token, _) => LiveSession(t, now, token).0
    case Peek(token) => LiveSession(t, now, token).0
    case _ => None
  }

  // ----- Lemmas about the table -------------------------------------------------

  lemma {:induction false} LookupFilter(slots: seq<Slot>, keep: Slot -> bool, token: Token)
    requires Distinct(slots)
    ensures Lookup(Filter(slots, keep), token)
         == match Lookup(slots, token)
            case None => None
            case Some(session) => if keep(Slot(token, session)) then Some(session) else None
  {
    if slots != [] {
      LookupFilter(slots[1..], keep, token);
      var kept := Filter(slots, keep);
      if keep(slots[0]) { assert kept[1..] == Filter(slots[1..], keep); }
    }
  }

  lemma {:induction false} LookupAppend(slots: seq<Slot>, last: Slot, token: Token)
    ensures Lookup(slots + [last], token)
         == if Lookup(slots, token).Some? then Lookup(slots, token)
            else if last.token == token then Some(last.session) else None
  {
    if slots != [] {
      assert (slots + [last])[1..] == slots[1..] + [last];
      LookupAppend(slots[1..], last, token);
    }
  }

  lemma {:induction false} LookupSuffix(slots: seq<Slot>, from: nat, token: Token)
    requires Distinct(slots) && from <= |slots|
    ensures Lookup(slots[from..], token).Some? ==> Lookup(slots[from..], token) == Lookup(slots, token)
  {
    if from > 0 {
      assert slots[1..][from - 1..] == slots[from..];
      assert Distinct(slots[1..]);
      LookupSuffix(slots[1..], from - 1, token);
    }
  }

  /** Elapsed time only grows while no clock is set back. */
  lemma ElapsedGrows(later: Instant, now: Instant, earlier: Instant)
    requires NotBefore(later, now)
    ensures MsSince(now, earlier) <= MsSince(later, earlier)
  {
  }

  lemma ExpiredStays(l: Limits, idleMs: int, session: Session, now: Instant, later: Instant)
    requires NotBefore(later, now) && !Alive(l, idleMs, session, now)
    ensures !Alive(l, idleMs, session, later)
  {
    ElapsedGrows(later, now, session.lastUsed);
    ElapsedGrows(later, now, session.created);
  }

  // ----- Whole runs ---------------------------------------------------------------

  datatype Call = Call(now: Instant, event: Event)

  function RunCalls(t: Table, calls: seq<Call>): Table
    requires t.limits.maxSessions >= 1
    decreases |calls|
  {
    if calls == [] then t else RunCalls(Next(t, calls[0].now, calls[0].event), calls[1..])
  }

  /** Readings of clocks that are never set back, none before `start`. */
  predicate Chronological(start: Instant, calls: seq<Call>) {
    && (forall i :: 0 <= i < |calls| ==> NotBefore(calls[i].now, start))
    && (forall i, j :: 0 <= i < j < |calls| ==> NotBefore(calls[j].now, calls[i].now))
  }

  predicate TableOk(t: Table) {
    t.limits.maxSessions >= 1 && Distinct(t.slots) && |t.slots| <= t.limits.maxSessions
  }

  /** Open draws tokens that are not in the table. */
  predicate DrawsFresh(t: Table, e: Event) { e.Open? ==> !HasToken(t.slots, e.token) }

  ghost predicate RunDrawsFresh(t: Table, calls: seq<Call>)
    requires t.limits.maxSessions >= 1
    decreases |calls|
  {
    calls != [] ==>
      DrawsFresh(t, calls[0].event) && RunDrawsFresh(Next(t, calls[0].now, calls[0].event), calls[1..])
  }

  /** Ended: not in the table, or out of time under the timeout in force. */
  predicate Ended(t: Table, now: Instant, token: Token) {
    match Lookup(t.slots, token)
    case None => true
    case Some(session) => !Alive(t.limits, t.idleMs, session, now)
  }

  lemma NextOk(t: Table, now: Instant, e: Event)
    requires TableOk(t) && DrawsFresh(t, e)
    ensures TableOk(Next(t, now, e))
  {
    match e
    case Open(token, _, _, _) =>
      var live := LiveOnly(t.limits, t.idleMs, t.slots, now);
      var kept := Evict(live, t.limits.maxSessions);
      forall i | 0 <= i < |kept| ensures kept[i].token != token {
        assert kept[i] in live && kept[i] in t.slots;
      }
    case Resolve(token, refresh) =>
      var (session, slots) := LiveSession(t, now, token);
      if session.Some? && refresh { TouchOk(t.slots, token, session.value, now); }
    case _ =>
  }

  lemma TouchOk(slots: seq<Slot>, token: Token, session: Session, now: Instant)
    requires Distinct(slots) && Lookup(slots, token) == Some(session)
    ensures Distinct(Touch(slots, token, session, now)) && |Touch(slots, token, session, now)| <= |slots|
  {
    var rest := Without(slots, token);
    forall i | 0 <= i < |rest| ensures rest[i].token != token { assert rest[i] in rest; }
    var at :| 0 <= at < |slots| && slots[at].token == token;
    assert slots[at] in slots && slots[at] !in rest;
    FilterShorter(slots, (x: Slot) => x.token != token, at);
  }

  lemma {:induction false} FilterShorter(slots: seq<Slot>, keep: Slot -> bool, at: nat)
    requires at < |slots| && !keep(slots[at])
    ensures |Filter(slots, keep)| < |slots|
  {
    if at > 0 { FilterShorter(slots[1..], keep, at - 1); }
  }

  /** Removing slots does not revive a session. */
  lemma EndedUnderFilter(t: Table, keep: Slot -> bool, now: Instant, token: Token)
    requires TableOk(t) && Ended(t, now, token)
    ensures Ended(t.(slots := Filter(t.slots, keep)), now, token)
  {
    LookupFilter(t.slots, keep, token);
  }

  lemma EndedIsDropped(t: Table, now: Instant, token: Token)
    requires TableOk(t) && Ended(t, now, token)
    ensures Lookup(LiveOnly(t.limits, t.idleMs, t.slots, now), token) == None
  {
    LookupFilter(t.slots, (x: Slot) => Alive(t.limits, t.idleMs, x.session, now), token);
  }

  lemma EndedUnderOpen(t: Table, now: Instant, e: Event, token: Token)
    requires TableOk(t) && Ended(t, now, token) && e.Open? && e.token != token
    ensures Ended(Next(t, now, e), now, token)
  {
    EndedIsDropped(t, now, token);
    var live := LiveOnly(t.limits, t.idleMs, t.slots, now);
    var kept := Evict(live, t.limits.maxSessions);
    if |live| >= t.limits.maxSessions { LookupSuffix(live, |live| - (t.limits.maxSessions - 1), token); }
    LookupAppend(kept, Slot(e.token, Session(e.key, e.user, e.fingerprint, now, now)), token);
  }

  lemma EndedUnderResolve(t: Table, now: Instant, other: Token, refresh: bool, token: Token)
    requires TableOk(t) && Ended(t, now, token)
    ensures Ended(Next(t, now, Resolve(other, refresh)), now, token)
  {
    var (session, slots) := LiveSession(t, now, other);
    EndedUnderFilter(t, (x: Slot) => x.token != other, now, token);
    if session.Some? {
      LookupFilter(slots, (x: Slot) => x.token != other, token);
      LookupAppend(Without(slots, other), Slot(other, session.value.(lastUsed := now)), token);
    }
  }

  lemma EndedStays(t: Table, now: Instant, later: Instant, e: Event, token: Token)
    requires TableOk(t) && NotBefore(later, now) && Ended(t, now, token)
    requires e.Open? ==> e.token != token
    ensures Ended(Next(t, later, e), later, token)
  {
    if Lookup(t.slots, token).Some? { ExpiredStays(t.limits, t.idleMs, Lookup(t.slots, token).value, now, later); }
    match e
    case SetTimeout(_) => EndedIsDropped(t, later, token);
    case Sweep => EndedIsDropped(t, later, token);
    case Open(_, _, _, _) => EndedUnderOpen(t, later, e, token);
    case Resolve(other, refresh) => EndedUnderResolve(t, later, other, refresh, token);
    case Peek(other) => EndedUnderFilter(t, (x: Slot) => x.token != other, later, token);
    case Revoke(other) => EndedUnderFilter(t, (x: Slot) => x.token != other, later, token);
    case RevokeAll =>
    case RevokeUser(user) => EndedUnderFilter(t, (x: Slot) => x.session.user != user, later, token);
    case RevokeUserExcept(user, other) =>
      EndedUnderFilter(t, (x: Slot) => x.session.user != user || x.token == other, later, token);
  }

  /** Once a session has run out of time under the timeout then in force, no
      later call returns it, whatever timeouts are set afterwards. */
  lemma {:induction false} EndedForever(t: Table, now: Instant, calls: seq<Call>, k: nat, token: Token)
    requires TableOk(t) && Chronological(now, calls) && RunDrawsFresh(t, calls)
    requires Ended(t, now, token)
    requires forall i :: 0 <= i < |calls| && calls[i].event.Open? ==> calls[i].event.token != token
    requires k < |calls| && (calls[k].event.Resolve? || calls[k].event.Peek?) && calls[k].event.token == token
    ensures Reply(RunCalls(t, calls[..k]), calls[k].now, calls[k].event) == None
    decreases k
  {
    EndedStays(t, now, calls[0].now, calls[0].event, token);
    if k == 0 {
      if Lookup(t.slots, token).Some? {
        ExpiredStays(t.limits, t.idleMs, Lookup(t.slots, token).value, now, calls[0].now);
      }
    } else {
      var next := Next(t, calls[0].now, calls[0].event);
      NextOk(t, calls[0].now, calls[0].event);
      forall i | 0 <= i < |calls| - 1 ensures calls[1..][i] == calls[i + 1] {}
      EndedForever(next, calls[0].now, calls[1..], k - 1, token);
      assert calls[..k][1..] == calls[1..][..k - 1];
    }
  }

  /** The table is ordered by last use, and holds no future use. */
  predicate Ordered(slots: seq<Slot>, now: Instant) {
    && (forall i, j :: 0 <= i < j < |slots| ==> NotBefore(slots[j].session.lastUsed, slots[i].session.lastUsed))
    && (forall i :: 0 <= i < |slots| ==> NotBefore(now, slots[i].session.lastUsed))
  }

  lemma OrderedTail(slots: seq<Slot>, now: Instant)
    requires slots != [] && Ordered(slots, now)
    ensures Ordered(slots[1..], now) && NotBefore(now, slots[0].session.lastUsed)
    ensures forall x :: x in slots[1..] ==> NotBefore(x.session.lastUsed, slots[0].session.lastUsed)
  {
    forall x | x in slots[1..] ensures NotBefore(x.session.lastUsed, slots[0].session.lastUsed) {
      var j :| 0 <= j < |slots[1..]| && slots[1..][j] == x;
      assert slots[j + 1] == x;
    }
  }

  lemma OrderedCons(first: Slot, rest: seq<Slot>, now: Instant)
    requires Ordered(rest, now) && NotBefore(now, first.session.lastUsed)
    requires forall x :: x in rest ==> NotBefore(x.session.lastUsed, first.session.lastUsed)
    ensures Ordered([first] + rest, now)
  {
    forall j | 0 <= j < |rest| ensures NotBefore(rest[j].session.lastUsed, first.session.lastUsed) {
      assert rest[j] in rest;
    }
  }

  lemma {:induction false} FilterOrdered(slots: seq<Slot>, keep: Slot -> bool, now: Instant)
    requires Ordered(slots, now)
    ensures Ordered(Filter(slots, keep), now)
  {
    if slots != [] {
      OrderedTail(slots, now);
      FilterOrdered(slots[1..], keep, now);
      OrderedCons(slots[0], Filter(slots[1..], keep), now);
    }
  }

  lemma WithoutOrdered(slots: seq<Slot>, token: Token, now: Instant)
    requires Ordered(slots, now)
    ensures Ordered(Without(slots, token), now)
  {
    FilterOrdered(slots, (x: Slot) => x.token != token, now);
  }

  lemma {:induction false} FilterAppend(slots: seq<Slot>, last: Slot, keep: Slot -> bool)
    ensures Filter(slots + [last], keep) == Filter(slots, keep) + (if keep(last) then [last] else [])
  {
    if slots == [] {
      assert slots + [last] == [last];
    } else {
      assert (slots + [last])[1..] == slots[1..] + [last];
      FilterAppend(slots[1..], last, keep);
    }
  }

  /** One slot more is one live session more, or none. */
  lemma LiveFront(l: Limits, idleMs: int, slots: seq<Slot>, i: nat, now: Instant)
    requires i < |slots|
    ensures |LiveOnly(l, idleMs, slots[..i + 1], now)|
         == |LiveOnly(l, idleMs, slots[..i], now)| + (if Alive(l, idleMs, slots[i].session, now) then 1 else 0)
  {
    assert slots[..i + 1] == slots[..i] + [slots[i]];
    FilterAppend(slots[..i], slots[i], (x: Slot) => Alive(l, idleMs, x.session, now));
  }

  lemma LiveOrdered(t: Table, now: Instant)
    requires Ordered(t.slots, now)
    ensures Ordered(LiveOnly(t.limits, t.idleMs, t.slots, now), now)
  {
    FilterOrdered(t.slots, (x: Slot) => Alive(t.limits, t.idleMs, x.session, now), now);
  }

  lemma NextOrdered(t: Table, now: Instant, later: Instant, e: Event)
    requires TableOk(t) && Ordered(t.slots, now) && NotBefore(later, now)
    ensures Ordered(Next(t, later, e).slots, later)
  {
    assert Ordered(t.slots, later);
    match e
    case SetTimeout(_) => LiveOrdered(t, later);
    case Open(_, _, _, _) => LiveOrdered(t, later);
    case Sweep => LiveOrdered(t, later);
    case Resolve(token, _) => WithoutOrdered(t.slots, token, later);
    case Peek(token) => WithoutOrdered(t.slots, token, later);
    case Revoke(token) => WithoutOrdered(t.slots, token, later);
    case RevokeUser(user) => FilterOrdered(t.slots, (x: Slot) => x.session.user != user, later);
    case RevokeUserExcept(user, token) =>
      FilterOrdered(t.slots, (x: Slot) => x.session.user != user || x.token == token, later);
    case RevokeAll =>
  }

  /** Over every run the table keeps within `max_sessions`, holds each token
      once and is ordered by last use. */
  lemma {:induction false} RunBoundedAndOrdered(t: Table, now: Instant, calls: seq<Call>)
    requires TableOk(t) && Ordered(t.slots, now) && Chronological(now, calls) && RunDrawsFresh(t, calls)
    ensures var end := RunCalls(t, calls);
            TableOk(end) && Ordered(end.slots, if calls == [] then now else calls[|calls| - 1].now)
    decreases |calls|
  {
    if calls != [] {
      NextOk(t, calls[0].now, calls[0].event);
      NextOrdered(t, now, calls[0].now, calls[0].event);
      RunBoundedAndOrdered(Next(t, calls[0].now, calls[0].event), calls[0].now, calls[1..]);
    }
  }

  /** `Open` loses expired sessions, and a live one only when the table is full
      of live ones: then exactly the least recently used. */
  lemma OpenEvictsLeastRecent(t: Table, now: Instant, token: Token, key: VaultKey, user: nat, fp: Option<Fingerprint>)
    requires TableOk(t) && Ordered(t.slots, now)
    ensures var live := LiveOnly(t.limits, t.idleMs, t.slots, now);
            var opened' := Slot(token, Session(key, user, fp, now, now));
            var after := Next(t, now, Open(token, key, user, fp)).slots;
            && |live| <= t.limits.maxSessions
            && (|live| < t.limits.maxSessions ==> after == live + [opened'])
            && (|live| == t.limits.maxSessions ==>
                  && after == live[1..] + [opened']
                  && forall i :: 0 <= i < |live| ==>
                       NotBefore(live[i].session.lastUsed, live[0].session.lastUsed))
  {
    FilterOrdered(t.slots, (x: Slot) => Alive(t.limits, t.idleMs, x.session, now), now);
  }

  /** An idle timeout longer than the monotonic time that passed, and a session
      whose wall-clock age at `now` is exactly that timeout. */
  function IdleFor(now: Instant, later: Instant): int {
    (1000.0 * (later.monotonic - now.monotonic)).Floor + 1
  }

  function AgedSlot(now: Instant, later: Instant, token: Token): Slot {
    var start := Instant(now.monotonic, now.wall - IdleFor(now, later) as real / 1000.0);
    Slot(token, Session(7, 1, None, start, start))
  }

  lemma AgedRevives(now: Instant, later: Instant, token: Token)
    requires now.monotonic <= later.monotonic && later.wall < now.wall && WellFormed(token)
    ensures var k := IdleFor(now, later);
            var t := Table(Limits(0, k, 1), k, [AgedSlot(now, later, token)]);
            && TableOk(t) && Ordered(t.slots, now) && Ended(t, now, token)
            && Reply(t, later, Resolve(token, true)).Some?
  {
    var k := IdleFor(now, later);
    var slot := AgedSlot(now, later, token);
    var t := Table(Limits(0, k, 1), k, [slot]);
    assert Lookup(t.slots, token) == Some(slot.session);
    assert MsSince(now, slot.session.lastUsed) == k as real;
    assert MsSince(later, slot.session.lastUsed) < k as real;
  }

  lemma EndedStaysEnded(t: Table, now: Instant, later: Instant, token: Token)
    requires TableOk(t) && Ended(t, now, token) && NotBefore(later, now)
    ensures Reply(t, later, Resolve(token, true)).None?
  {
    EndedForever(t, now, [Call(later, Resolve(token, true))], 0, token);
  }

  /** When the assumption on the clocks is needed: as the monotonic clock goes
      on, some ended session is returned by a later reading if and only if the
      wall clock was set back in between. */
  lemma WallClockSetBackRevives(now: Instant, later: Instant)
    requires now.monotonic <= later.monotonic
    ensures (exists t, token ::
               && TableOk(t) && Ordered(t.slots, now) && Ended(t, now, token)
               && Reply(t, later, Resolve(token, true)).Some?)
        <==> later.wall < now.wall
  {
    if later.wall < now.wall {
      AgedRevives(now, later, seq(TOKEN_LENGTH, i => 'a'));
    } else {
      forall t, token | TableOk(t) && Ordered(t.slots, now) && Ended(t, now, token)
        ensures Reply(t, later, Resolve(token, true)).None?
      {
        EndedStaysEnded(t, now, later, token);
      }
    }
  }

  // ----- The table in place -------------------------------------------------------

  /** Filtering twice, and filtering by what the slots satisfy anyway. */
  lemma {:induction false} FilterTwice(slots: seq<Slot>, first: Slot -> bool, second: Slot -> bool)
    ensures Filter(Filter(slots, first), second) == Filter(slots, (x: Slot) => first(x) && second(x))
  {
    if slots != [] {
      FilterTwice(slots[1..], first, second);
      var kept := Filter(slots, first);
      if first(slots[0]) { assert kept[1..] == Filter(slots[1..], first); }
    }
  }

  lemma {:induction false} FilterSame(slots: seq<Slot>, first: Slot -> bool, second: Slot -> bool)
    requires forall i :: 0 <= i < |slots| ==> first(slots[i]) == second(slots[i])
    ensures Filter(slots, first) == Filter(slots, second)
  {
    if slots != [] {
      forall i | 0 <= i < |slots[1..]| ensures first(slots[1..][i]) == second(slots[1..][i]) {
        assert slots[1..][i] == slots[i + 1];
      }
      FilterSame(slots[1..], first, second);
    }
  }

  lemma {:induction false} FilterAll(slots: seq<Slot>, keep: Slot -> bool)
    requires forall i :: 0 <= i < |slots| ==> keep(slots[i])
    ensures Filter(slots, keep) == slots
  {
    if slots != [] {
      forall i | 0 <= i < |slots[1..]| ensures keep(slots[1..][i]) { assert slots[1..][i] == slots[i + 1]; }
      FilterAll(slots[1..], keep);
    }
  }

  function Surviving(slots: seq<Slot>, doomed: seq<Token>): seq<Slot> {
    Filter(slots, (x: Slot) => x.token !in doomed)
  }

  lemma OneMoreDoomed(slots: seq<Slot>, doomed: seq<Token>, last: Token)
    ensures Without(Surviving(slots, doomed), last) == Surviving(slots, doomed + [last])
  {
    var first := (x: Slot) => x.token !in doomed;
    var second := (x: Slot) => x.token != last;
    FilterTwice(slots, first, second);
    FilterSame(slots, (x: Slot) => first(x) && second(x), (x: Slot) => x.token !in doomed + [last]);
  }

  lemma SurvivingStep(slots: seq<Slot>, doomed: seq<Token>, i: nat)
    requires i < |doomed|
    ensures Without(Surviving(slots, doomed[..i]), doomed[i]) == Surviving(slots, doomed[..i + 1])
  {
    OneMoreDoomed(slots, doomed[..i], doomed[i]);
    assert doomed[..i + 1] == doomed[..i] + [doomed[i]];
  }

  /** `matching` are the tokens of the user among the first `i`, save the spared. */
  predicate Matches(slots: seq<Slot>, i: nat, user: nat, spare: Option<Token>, matching: seq<Token>) {
    && i <= |slots|
    && (forall j :: 0 <= j < i ==>
          (slots[j].token in matching <==> slots[j].session.user == user && Some(slots[j].token) != spare))
    && (forall x :: x in matching ==> exists j :: 0 <= j < i && slots[j].token == x)
  }

  lemma SparedSurvive(t: Table, now: Instant, user: nat, spare: Token, matching: seq<Token>)
    requires TableOk(t) && Matches(t.slots, |t.slots|, user, Some(spare), matching)
    ensures Next(t, now, RevokeUserExcept(user, spare)) == t.(slots := Surviving(t.slots, matching))
  {
    FilterSame(t.slots, (x: Slot) => x.token !in matching, (x: Slot) => x.session.user != user || x.token == spare);
  }

  lemma OthersSurvive(t: Table, now: Instant, user: nat, matching: seq<Token>)
    requires TableOk(t) && Matches(t.slots, |t.slots|, user, None, matching)
    ensures Next(t, now, RevokeUser(user)) == t.(slots := Surviving(t.slots, matching))
  {
    FilterSame(t.slots, (x: Slot) => x.token !in matching, (x: Slot) => x.session.user != user);
  }

  /** `expired` are the tokens of the sessions ended among the first `i`. */
  predicate EndedAmong(t: Table, i: nat, now: Instant, expired: seq<Token>) {
    && i <= |t.slots|
    && (forall j :: 0 <= j < i ==>
          (t.slots[j].token in expired <==> !Alive(t.limits, t.idleMs, t.slots[j].session, now)))
    && (forall x :: x in expired ==> exists j :: 0 <= j < i && t.slots[j].token == x)
    && |expired| == i - |LiveOnly(t.limits, t.idleMs, t.slots[..i], now)|
  }

  lemma EndedOneMore(t: Table, i: nat, now: Instant, before: seq<Token>)
    requires TableOk(t) && i < |t.slots| && EndedAmong(t, i, now, before)
    ensures var slot := t.slots[i];
            EndedAmong(t, i + 1, now,
                       if Alive(t.limits, t.idleMs, slot.session, now) then before else before + [slot.token])
  {
    LiveFront(t.limits, t.idleMs, t.slots, i, now);
  }

  /** Without them the table is what a sweep leaves, and as much shorter. */
  lemma EndedGo(t: Table, now: Instant, expired: seq<Token>)
    requires TableOk(t) && EndedAmong(t, |t.slots|, now, expired)
    ensures Next(t, now, Sweep) == t.(slots := Surviving(t.slots, expired))
    ensures |expired| == |t.slots| - |Surviving(t.slots, expired)|
  {
    assert t.slots[..|t.slots|] == t.slots;
    FilterSame(t.slots, (x: Slot) => x.token !in expired, (x: Slot) => Alive(t.limits, t.idleMs, x.session, now));
  }

  class SessionTable {
    const limits: Limits
    var idleTimeoutMs: int
    var sessions: seq<Slot>

    function Contents(): Table
      reads this
    {
      Table(limits, idleTimeoutMs, sessions)
    }

    predicate Valid()
      reads this
    {
      TableOk(Contents())
    }

    constructor (idleTimeoutMs: int, limits: Limits)
      requires limits.maxSessions >= 1
      ensures Valid() && Contents() == Table(limits, idleTimeoutMs, [])
    {
      this.limits := limits;
      this.idleTimeoutMs := idleTimeoutMs;
      sessions := [];
    }

    method Delete(token: Token)
      modifies this`sessions
      ensures sessions == Without(old(sessions), token)
    {
      sessions := Without(sessions, token);
    }

    /** Delete each token of `doomed` in turn. */
    method DeleteAll(doomed: seq<Token>)
      modifies this`sessions
      ensures sessions == Surviving(old(sessions), doomed)
    {
      FilterAll(sessions, (x: Slot) => x.token !in []);
      assert doomed[..0] == [];
      FilterSame(sessions, (x: Slot) => x.token !in [], (x: Slot) => x.token !in doomed[..0]);
      var i := 0;
      while i < |doomed|
        invariant 0 <= i <= |doomed|
        invariant sessions == Surviving(old(sessions), doomed[..i])
      {
        SurvivingStep(old(sessions), doomed, i);
        Delete(doomed[i]);
        i := i + 1;
      }
      assert doomed[..i] == doomed;
    }

    method DropExpired(now: Instant) returns (dropped: nat)
      requires Valid()
      modifies this`sessions
      ensures Contents() == Next(old(Contents()), now, Sweep)
      ensures dropped == |old(sessions)| - |sessions|
      ensures Valid()
    {
      var expired: seq<Token> := [];
      for i := 0 to |sessions|
        invariant sessions == old(sessions) && EndedAmong(Contents(), i, now, expired)
      {
        EndedOneMore(Contents(), i, now, expired);
        if !Alive(limits, idleTimeoutMs, sessions[i].session, now) {
          expired := expired + [sessions[i].token];
        }
      }
      NextOk(Contents(), now, Sweep);
      EndedGo(Contents(), now, expired);
      DeleteAll(expired);
      dropped := |expired|;
    }

    method SetIdleTimeout(now: Instant, ms: int)
      requires Valid()
      modifies this
      ensures Contents() == Next(old(Contents()), now, SetTimeout(ms))
      ensures Valid()
    {
      var _ := DropExpired(now);
      idleTimeoutMs := ms;
    }

    method Open(now: Instant, token: Token, key: VaultKey, user: nat, fingerprint: Option<Fingerprint>)
      requires Valid() && !HasToken(sessions, token)
      modifies this`sessions
      ensures Contents() == Next(old(Contents()), now, Event.Open(token, key, user, fingerprint))
      ensures Valid()
    {
      NextOk(Contents(), now, Event.Open(token, key, user, fingerprint));
      var _ := DropExpired(now);
      ghost var live := sessions;
      ghost var popped := 0;
      while |sessions| >= limits.maxSessions
        invariant popped <= |live| && sessions == live[popped..]
        invariant |live| < limits.maxSessions ==> popped == 0
        invariant |live| >= limits.maxSessions ==> popped <= |live| - (limits.maxSessions - 1)
        decreases |sessions|
      {
        sessions := sessions[1..];
        popped := popped + 1;
      }
      assert sessions == Evict(live, limits.maxSessions);
      assert live == LiveOnly(limits, old(idleTimeoutMs), old(sessions), now);
      sessions := sessions + [Slot(token, Session(key, user, fingerprint, now, now))];
    }

    /** `_live`: an expired session is deleted, never returned. */
    method Live(now: Instant, token: Token) returns (r: Option<Session>)
      requires Valid()
      modifies this`sessions
      ensures (r, sessions) == LiveSession(old(Contents()), now, token)
      ensures Valid()
    {
      if !WellFormed(token) { return None; }
      var session := Lookup(sessions, token);
      if session.None? { return None; }
      if Remaining(limits, idleTimeoutMs, session.value, now, true) <= 0.0 {
        Delete(token);
        return None;
      }
      r := session;
    }

    method Resolve(now: Instant, token: Token, refresh: bool) returns (key: Option<VaultKey>)
      requires Valid()
      modifies this`sessions
      ensures Contents() == Next(old(Contents()), now, Event.Resolve(token, refresh))
      ensures Valid()
      ensures match Reply(old(Contents()), now, Event.Resolve(token, refresh))
              case None => key == None
              case Some(session) => key == Some(session.key)
    {
      NextOk(Contents(), now, Event.Resolve(token, refresh));
      var session := Live(now, token);
      if session.None? { return None; }
      if refresh {
        Delete(token);                                              // move_to_end
        sessions := sessions + [Slot(token, session.value.(lastUsed := now))];
      }
      key := Some(session.value.key);
    }

    /** `info`, `user_id` and `credential_fingerprint`: looking is not activity. */
    method Info(now: Instant, token: Token) returns (session: Option<Session>, expiresInMs: int)
      requires Valid()
      modifies this`sessions
      ensures Contents() == Next(old(Contents()), now, Peek(token))
      ensures session == Reply(old(Contents()), now, Peek(token))
      ensures session.Some? ==>
                var left := Max(0.0, Remaining(limits, idleTimeoutMs, session.value, now, false));
                0 <= expiresInMs && expiresInMs as real <= left < expiresInMs as real + 1.0
      ensures Valid()
    {
      session := Live(now, token);
      expiresInMs := 0;
      if session.Some? {
        var remaining := Remaining(limits, idleTimeoutMs, session.value, now, false);
        expiresInMs := if remaining <= 0.0 then 0 else remaining.Floor;
      }
    }

    method RevokeToken(now: Instant, token: Token) returns (found: bool)
      requires Valid()
      modifies this`sessions
      ensures Contents() == Next(old(Contents()), now, Revoke(token))
      ensures found <==> WellFormed(token) && HasToken(old(sessions), token)
      ensures Valid()
    {
      NextOk(Contents(), now, Revoke(token));
      if !WellFormed(token) { return false; }
      found := Lookup(sessions, token).Some?;
      Delete(token);
    }

    method RevokeAllSessions(now: Instant)
      requires Valid()
      modifies this`sessions
      ensures Contents() == Next(old(Contents()), now, RevokeAll)
      ensures Valid()
    {
      sessions := [];
    }

    /** `revoke_user` and, with `spare`, `revoke_user_except`. */
    method RevokeUserSessions(now: Instant, user: nat, spare: Option<Token>)
      requires Valid()
      modifies this`sessions
      ensures Contents() == Next(old(Contents()), now,
                                 if spare.Some? then RevokeUserExcept(user, spare.value) else RevokeUser(user))
      ensures Valid()
    {
      NextOk(Contents(), now, if spare.Some? then RevokeUserExcept(user, spare.value) else RevokeUser(user));
      var matching: seq<Token> := [];
      for i := 0 to |sessions|
        invariant Matches(sessions, i, user, spare, matching)
      {
        if sessions[i].session.user == user && Some(sessions[i].token) != spare {
          matching := matching + [sessions[i].token];
        }
      }
      if spare.Some? {
        SparedSurvive(Contents(), now, user, spare.value, matching);
      } else {
        OthersSurvive(Contents(), now, user, matching);
      }
      DeleteAll(matching);
    }
  }
}
