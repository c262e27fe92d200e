/**
Requests to one core process (desktop/src-tauri/src/sidecar.rs): calling
threads, the pipe writer and the pipe reader share a map of waiting calls and a
bounded queue of frames. Every lock region and every send is one step; any list
of steps is an interleaving, and a step that is not possible changes nothing.
*/
module Sidecar {
  import opened Arithmetic
  import opened Wrappers
  import opened ByteStrings

  const MAX_WAITING := 16
  const MAX_QUEUED := 16

  type CallId = nat
  type FrameId = nat
  type Client = string

  /** A queued frame: a request names its call, so the writer can look whether
      it still waits; the others are written in any case. */
  datatype Entry = Request(call: CallId, id: FrameId) | Cancel(id: FrameId) | Shutdown

  /** The one-shot channel of a call: `Dropped` when its sender went away. */
  datatype Answer = Unanswered | Reply | Stopped | Dropped

  datatype Outcome = Replied | CoreExited | Busy | TimedOut | TooLarge

  datatype Pc =
    | Fetching(again: bool)
    | Drawn
    | Registered
    | Named
    | Unsent(full: bool)
    | Waiting
    | Expired
    | Withdrawn
    | Returned(outcome: Outcome)

  /** `ticket` counts the draws before this one, `id` is what the wrapping
      32-bit counter then gave; `slot` is the place of its frame in the queue. */
  datatype Call = Call(client: Option<Client>, ticket: nat, id: FrameId, slot: Option<nat>, pc: Pc, answer: Answer)

  /** What was sent to the supervisor, and by which call if by one. */
  datatype Control = Lock(sender: Option<CallId>)

  /** `sent` is everything ever queued. The writer took the first `taken`; the
      rest is in the queue. `passed` tells for each frame it then looked at
      whether it wrote it to the pipe. */
  datatype State = State(
    running: bool,
    closed: bool,
    waiting: map<FrameId, CallId>,
    clients: map<Client, FrameId>,
    calls: seq<Call>,
    fetches: nat,
    sent: seq<Entry>,
    taken: nat,
    passed: seq<bool>,
    writerAlive: bool,
    control: seq<Control>)

  datatype Step =
    | Begin(client: Option<Client>)
    | Fetch(call: CallId)
    | Refuse(call: CallId)
    | Register(call: CallId)
    | Name(call: CallId)
    | TrySend(call: CallId)
    | GiveBack(call: CallId)
    | Receive(call: CallId)
    | Expire(call: CallId)
    | Withdraw(call: CallId)
    | SendCancel(call: CallId)
    | CancelClient(named: Client)
    | SendShutdown
    | Take
    | Look
    | WriterFails
    | Deliver(id: FrameId)
    | ReaderEnds
    | StopRunning
    | FetchElsewhere  // a call to another core process

  function Start(): State {
    State(true, false, map[], map[], [], 0, [], 0, [], true, [])
  }

  // ----- Steps ------------------------------------------------------------------

  /** The counter starts at 1 and wraps at 32 bits. */
  function IdOf(ticket: nat): FrameId { (1 + ticket) % UINT32_LIMIT }

  function Set(s: State, c: CallId, call: Call): State
    requires c < |s.calls|
  {
    s.(calls := s.calls[c := call])
  }

  /** An entry leaves the map with its sender: whoever waits on it is told. */
  function Forgotten(s: State, id: FrameId, answer: Answer): (s': State)
    ensures |s'.calls| == |s.calls|
  {
    if id !in s.waiting || s.waiting[id] >= |s.calls| then s
    else
      var c := s.waiting[id];
      s.(waiting := s.waiting - {id}, calls := s.calls[c := s.calls[c].(answer := answer)])
  }

  function Unnamed(clients: map<Client, FrameId>, client: Option<Client>): map<Client, FrameId> {
    if client.Some? then clients - {client.value} else clients
  }

  predicate CanSend(s: State) { s.writerAlive && |s.sent| < s.taken + MAX_QUEUED }

  /** `try_send` of a frame no call waits on; else the supervisor is told to
      lock, so that nothing queued before it is carried out. */
  function SendOrLock(s: State, entry: Entry, sender: Option<CallId>): State {
    if CanSend(s) then s.(sent := s.sent + [entry]) else s.(control := s.control + [Lock(sender)])
  }

  function FetchStep(s: State, c: CallId): State
    requires c < |s.calls|
  {
    var call := s.calls[c];
    if !call.pc.Fetching? then s
    else
      var id := IdOf(s.fetches);
      var next := if id == 0 && !call.pc.again then Fetching(true) else Drawn;
      Set(s, c, call.(ticket := s.fetches, id := id, pc := next)).(fetches := s.fetches + 1)
  }

  function RegisterStep(s: State, c: CallId): State
    requires c < |s.calls|
  {
    var call := s.calls[c];
    if !call.pc.Drawn? then s
    else if s.closed then Set(s, c, call.(pc := Returned(CoreExited)))
    else if |s.waiting| >= MAX_WAITING then Set(s, c, call.(pc := Returned(Busy)))
    else
      var s' := Forgotten(s, call.id, Dropped);
      Set(s', c, s'.calls[c].(pc := Registered, answer := Unanswered)).(waiting := s'.waiting[call.id := c])
  }

  function NameStep(s: State, c: CallId): State
    requires c < |s.calls|
  {
    var call := s.calls[c];
    if !call.pc.Registered? then s
    else
      var clients := if call.client.Some? then s.clients[call.client.value := call.id] else s.clients;
      Set(s, c, call.(pc := Named)).(clients := clients)
  }

  function TrySendStep(s: State, c: CallId): State
    requires c < |s.calls|
  {
    var call := s.calls[c];
    if !call.pc.Named? then s
    else if CanSend(s) then
      Set(s, c, call.(pc := Waiting, slot := Some(|s.sent|))).(sent := s.sent + [Request(c, call.id)])
    else Set(s, c, call.(pc := Unsent(s.writerAlive)))
  }

  function GiveBackStep(s: State, c: CallId): State
    requires c < |s.calls|
  {
    var call := s.calls[c];
    if !call.pc.Unsent? then s
    else
      var s' := Forgotten(s, call.id, Dropped);
      Set(s', c, s'.calls[c].(pc := Returned(if call.pc.full then Busy else CoreExited)))
        .(clients := Unnamed(s.clients, call.client))
  }

  function ReceiveStep(s: State, c: CallId): State
    requires c < |s.calls|
  {
    var call := s.calls[c];
    if !call.pc.Waiting? || call.answer.Unanswered? then s
    else Set(s, c, call.(pc := Returned(if call.answer.Reply? then Replied else CoreExited)))
           .(clients := Unnamed(s.clients, call.client))
  }

  function ExpireStep(s: State, c: CallId): State
    requires c < |s.calls|
  {
    var call := s.calls[c];
    if !call.pc.Waiting? then s
    else Set(s, c, call.(pc := Expired)).(clients := Unnamed(s.clients, call.client))
  }

  function WithdrawStep(s: State, c: CallId): State
    requires c < |s.calls|
  {
    if !s.calls[c].pc.Expired? then s
    else
      var s' := Forgotten(s, s.calls[c].id, Dropped);
      Set(s', c, s'.calls[c].(pc := Withdrawn))
  }

  function SendCancelStep(s: State, c: CallId): State
    requires c < |s.calls|
  {
    var call := s.calls[c];
    if !call.pc.Withdrawn? then s
    else SendOrLock(Set(s, c, call.(pc := Returned(TimedOut))), Cancel(call.id), Some(c))
  }

  /** The writer takes a frame out of the queue. */
  function TakeStep(s: State): State {
    if !s.writerAlive || s.taken > |s.passed| || s.taken >= |s.sent| then s else s.(taken := s.taken + 1)
  }

  /** Then it looks whether the call of a request still waits, and writes the
      frame only if so; the call may have given up since the frame was taken. */
  function LookStep(s: State): State {
    if !s.writerAlive || s.taken <= |s.passed| || s.taken > |s.sent| then s
    else
      var entry := s.sent[|s.passed|];
      s.(passed := s.passed + [entry.Request? ==> entry.id in s.waiting])
  }

  /** `fail_all`: no call is left in the map, and no call may enter it. */
  function ReaderEndsStep(s: State): State
  {
    var told := seq(|s.calls|, c requires 0 <= c < |s.calls| =>
      if s.calls[c].id in s.waiting && s.waiting[s.calls[c].id] == c then s.calls[c].(answer := Stopped)
      else s.calls[c]);
    s.(closed := true, waiting := map[], calls := told)
  }

  predicate OfCall(step: Step) {
    step.Fetch? || step.Refuse? || step.Register? || step.Name? || step.TrySend? || step.GiveBack? || step.Receive?
    || step.Expire? || step.Withdraw? || step.SendCancel?
  }

  function CallStep(s: State, step: Step): State
    requires OfCall(step) && step.call < |s.calls|
  {
    var c := step.call;
    match step
    case Fetch(_) => FetchStep(s, c)
    case Refuse(_) => if s.calls[c].pc.Drawn? then Set(s, c, s.calls[c].(pc := Returned(TooLarge))) else s
    case Register(_) => RegisterStep(s, c)
    case Name(_) => NameStep(s, c)
    case TrySend(_) => TrySendStep(s, c)
    case GiveBack(_) => GiveBackStep(s, c)
    case Receive(_) => ReceiveStep(s, c)
    case Expire(_) => ExpireStep(s, c)
    case Withdraw(_) => WithdrawStep(s, c)
    case SendCancel(_) => SendCancelStep(s, c)
  }

  function Apply(s: State, step: Step): State
  {
    match step
    case Begin(client) =>
      if s.running then s.(calls := s.calls + [Call(client, 0, 0, None, Fetching(false), Unanswered)]) else s
    case CancelClient(client) =>
      if s.running && client in s.clients then SendOrLock(s, Cancel(s.clients[client]), None) else s
    case SendShutdown => if CanSend(s) then s.(running := false, sent := s.sent + [Shutdown]) else s.(running := false)
    case Take => TakeStep(s)
    case Look => LookStep(s)
    case WriterFails => s.(writerAlive := false)
    case Deliver(id) => if s.closed then s else Forgotten(s, id, Reply)
    case ReaderEnds => ReaderEndsStep(s)
    case StopRunning => s.(running := false)
    case FetchElsewhere => s.(fetches := s.fetches + 1)
    case _ => if step.call < |s.calls| then CallStep(s, step) else s
  }

  // ----- Invariant ------------------------------------------------------------------

  /** The call has an entry in the map, and nobody answered it yet. */
  predicate Listed(call: Call) {
    && (call.pc.Registered? || call.pc.Named? || call.pc.Unsent? || call.pc.Waiting? || call.pc.Expired?)
    && call.answer.Unanswered?
  }

  /** The map holds exactly the calls that are listed. */
  predicate MapOk(waiting: map<FrameId, CallId>, calls: seq<Call>) {
    && (forall id :: id in waiting ==>
         waiting[id] < |calls| && Listed(calls[waiting[id]]) && calls[waiting[id]].id == id)
    && (forall c :: 0 <= c < |calls| && Listed(calls[c]) ==> calls[c].id in waiting && waiting[calls[c].id] == c)
  }

  predicate Cancelled(sent: seq<Entry>, slot: nat, id: FrameId) {
    exists k :: slot < k < |sent| && sent[k] == Cancel(id)
  }

  predicate CallOk(sent: seq<Entry>, control: seq<Control>, fetches: nat, c: CallId, call: Call) {
    && (call.slot.Some? ==> call.slot.value < |sent| && sent[call.slot.value] == Request(c, call.id))
    && (call.pc.Waiting? || call.pc.Expired? || call.pc.Withdrawn? || call.pc == Returned(TimedOut) ==> call.slot.Some?)
    && (call.pc == Returned(TimedOut) ==>
          call.slot.Some? && (Cancelled(sent, call.slot.value, call.id) || Lock(Some(c)) in control))
    && (call.pc.Fetching? || (call.ticket < fetches && call.id == IdOf(call.ticket)))
    && (call.pc.Fetching? || call.pc.Drawn? || call.pc.Registered? || call.pc.Named? ==> call.slot.None?)
  }

  /** No two calls hold the same draw. */
  predicate TicketsOk(calls: seq<Call>) {
    forall c, d :: 0 <= c < |calls| && 0 <= d < |calls| && c != d && !calls[c].pc.Fetching? && !calls[d].pc.Fetching?
      ==> calls[c].ticket != calls[d].ticket
  }

  /** Every queued request belongs to a call, at that call's slot. */
  predicate EntryOk(sent: seq<Entry>, calls: seq<Call>, k: nat)
    requires k < |sent|
  {
    sent[k].Request? ==>
      sent[k].call < |calls| && calls[sent[k].call].slot == Some(k) && calls[sent[k].call].id == sent[k].id
  }

  predicate QueueOk(sent: seq<Entry>, taken: nat, passed: seq<bool>) {
    |passed| <= taken <= |passed| + 1 && taken <= |sent| <= taken + MAX_QUEUED
  }

  predicate CallsOk(sent: seq<Entry>, control: seq<Control>, fetches: nat, calls: seq<Call>) {
    forall c :: 0 <= c < |calls| ==> CallOk(sent, control, fetches, c, calls[c])
  }

  predicate EntriesOk(sent: seq<Entry>, calls: seq<Call>) { forall k :: 0 <= k < |sent| ==> EntryOk(sent, calls, k) }

  predicate Inv(s: State) {
    && MapOk(s.waiting, s.calls)
    && |s.waiting| <= MAX_WAITING
    && (s.closed ==> s.waiting == map[])
    && CallsOk(s.sent, s.control, s.fetches, s.calls)
    && TicketsOk(s.calls)
    && EntriesOk(s.sent, s.calls)
    && QueueOk(s.sent, s.taken, s.passed)
  }

  // ----- Preservation ---------------------------------------------------------------

  lemma MoreSent(sent: seq<Entry>, sent': seq<Entry>, slot: nat, id: FrameId)
    requires sent <= sent' && Cancelled(sent, slot, id)
    ensures Cancelled(sent', slot, id)
  {
    var k :| slot < k < |sent| && sent[k] == Cancel(id);
    assert sent'[k] == Cancel(id);
  }

  /** What is sent stays sent, so a call that was in order stays so. */
  lemma CallStaysOk(sent: seq<Entry>, sent': seq<Entry>, control: seq<Control>, control': seq<Control>,
          fetches: nat, fetches': nat, c: CallId, call: Call)
    requires CallOk(sent, control, fetches, c, call) && sent <= sent' && control <= control' && fetches <= fetches'
    ensures CallOk(sent', control', fetches', c, call)
  {
    if call.pc == Returned(TimedOut) {
      if Cancelled(sent, call.slot.value, call.id) { MoreSent(sent, sent', call.slot.value, call.id); }
    }
  }

  lemma CallsStayOk(sent: seq<Entry>, sent': seq<Entry>, control: seq<Control>, control': seq<Control>,
          fetches: nat, fetches': nat, calls: seq<Call>, c: CallId, call: Call)
    requires CallsOk(sent, control, fetches, calls) && sent <= sent' && control <= control' && fetches <= fetches'
    requires c < |calls| && CallOk(sent', control', fetches', c, call)
    ensures CallsOk(sent', control', fetches', calls[c := call])
  {
    var calls' := calls[c := call];
    forall d | 0 <= d < |calls'| ensures CallOk(sent', control', fetches', d, calls'[d]) {
      if d != c { CallStaysOk(sent, sent', control, control', fetches, fetches', d, calls[d]); }
    }
  }

  /** Changing one call: it enters or leaves no map, and its slot and id stay
      once it has a slot. */
  lemma OneCallKeeps(s: State, s': State, c: CallId, call: Call)
    requires Inv(s) && c < |s.calls| && s'.calls == s.calls[c := call]
    requires s'.waiting == s.waiting && (s'.closed == s.closed)
    requires s.sent == s'.sent && s.control <= s'.control && s.fetches <= s'.fetches
    requires QueueOk(s'.sent, s'.taken, s'.passed)
    requires Listed(call) == Listed(s.calls[c]) && (Listed(call) ==> call.id == s.calls[c].id)
    requires CallOk(s'.sent, s'.control, s'.fetches, c, call)
    requires call.slot == s.calls[c].slot && (call.slot.Some? ==> call.id == s.calls[c].id)
    requires (call.ticket == s.calls[c].ticket && (s.calls[c].pc.Fetching? ==> call.pc.Fetching?))
             || call.ticket == s.fetches
    ensures Inv(s')
  {
    CallsStayOk(s.sent, s'.sent, s.control, s'.control, s.fetches, s'.fetches, s.calls, c, call);
    TicketStays(s.sent, s.control, s.fetches, s.calls, c, call);
    forall k | 0 <= k < |s.sent| ensures EntryOk(s.sent, s'.calls, k) {
      assert EntryOk(s.sent, s.calls, k);
    }
  }

  lemma TicketStays(sent: seq<Entry>, control: seq<Control>, fetches: nat, calls: seq<Call>, c: CallId, call: Call)
    requires TicketsOk(calls) && CallsOk(sent, control, fetches, calls) && c < |calls|
    requires (call.ticket == calls[c].ticket && (calls[c].pc.Fetching? ==> call.pc.Fetching?)) || call.ticket == fetches
    ensures TicketsOk(calls[c := call])
  {
    forall d | 0 <= d < |calls| && !calls[d].pc.Fetching? ensures calls[d].ticket < fetches {
      assert CallOk(sent, control, fetches, d, calls[d]);
    }
  }

  lemma TheCallOk(s: State, c: CallId)
    requires Inv(s) && c < |s.calls|
    ensures CallOk(s.sent, s.control, s.fetches, c, s.calls[c])
  {
  }

  lemma MapLoses(waiting: map<FrameId, CallId>, calls: seq<Call>, id: FrameId, answer: Answer)
    requires MapOk(waiting, calls) && id in waiting && !answer.Unanswered?
    ensures MapOk(waiting - {id}, calls[waiting[id] := calls[waiting[id]].(answer := answer)])
    ensures |waiting - {id}| < |waiting|
  {
    assert (waiting - {id}).Keys == waiting.Keys - {id};
  }

  /** An entry leaves the map together with the answer to its call. */
  lemma ForgottenKeeps(s: State, id: FrameId, answer: Answer)
    requires Inv(s) && !answer.Unanswered?
    ensures Inv(Forgotten(s, id, answer)) && id !in Forgotten(s, id, answer).waiting
    ensures |Forgotten(s, id, answer).calls| == |s.calls|
    ensures forall c :: 0 <= c < |s.calls| ==>
              Forgotten(s, id, answer).calls[c] == s.calls[c].(answer := Forgotten(s, id, answer).calls[c].answer)
    ensures forall c :: 0 <= c < |s.calls| && s.calls[c].id == id ==> !Listed(Forgotten(s, id, answer).calls[c])
  {
    if id in s.waiting {
      var c := s.waiting[id];
      var call := s.calls[c].(answer := answer);
      TheCallOk(s, c);
      CallsStayOk(s.sent, s.sent, s.control, s.control, s.fetches, s.fetches, s.calls, c, call);
      TicketStays(s.sent, s.control, s.fetches, s.calls, c, call);
      EntriesStay(s.sent, s.calls, c, call);
      MapLoses(s.waiting, s.calls, id, answer);
    }
  }

  lemma EntriesStay(sent: seq<Entry>, calls: seq<Call>, c: CallId, call: Call)
    requires EntriesOk(sent, calls) && c < |calls| && call.slot == calls[c].slot && call.id == calls[c].id
    ensures EntriesOk(sent, calls[c := call])
  {
    var calls' := calls[c := call];
    forall k | 0 <= k < |sent| ensures EntryOk(sent, calls', k) {
      assert EntryOk(sent, calls, k);
    }
  }

  /** Only the counter, the flags and the other threads' traffic change. */
  lemma TrafficKeeps(s: State, s': State)
    requires Inv(s) && s'.calls == s.calls && s'.waiting == s.waiting && s'.closed == s.closed
    requires s.sent <= s'.sent && (forall k :: |s.sent| <= k < |s'.sent| ==> !s'.sent[k].Request?)
    requires s.control <= s'.control && s.fetches <= s'.fetches && QueueOk(s'.sent, s'.taken, s'.passed)
    ensures Inv(s')
  {
    forall c | 0 <= c < |s.calls| ensures CallOk(s'.sent, s'.control, s'.fetches, c, s.calls[c]) {
      CallStaysOk(s.sent, s'.sent, s.control, s'.control, s.fetches, s'.fetches, c, s.calls[c]);
    }
    forall k | 0 <= k < |s'.sent| ensures EntryOk(s'.sent, s.calls, k) {
      if k < |s.sent| { assert EntryOk(s.sent, s.calls, k) && s'.sent[k] == s.sent[k]; }
    }
  }

  lemma FetchKeeps(s: State, c: CallId)
    requires Inv(s) && c < |s.calls|
    ensures Inv(FetchStep(s, c))
  {
    TheCallOk(s, c);
    if s.calls[c].pc.Fetching? { OneCallKeeps(s, FetchStep(s, c), c, FetchStep(s, c).calls[c]); }
  }

  /** A call that only moves on. */
  lemma MovesOn(s: State, c: CallId, pc: Pc, clients: map<Client, FrameId>)
    requires Inv(s) && c < |s.calls| && !s.calls[c].pc.Fetching? && !pc.Fetching?
    requires Listed(s.calls[c].(pc := pc)) == Listed(s.calls[c])
    requires CallOk(s.sent, s.control, s.fetches, c, s.calls[c].(pc := pc))
    ensures Inv(Set(s, c, s.calls[c].(pc := pc)).(clients := clients))
  {
    OneCallKeeps(s, Set(s, c, s.calls[c].(pc := pc)).(clients := clients), c, s.calls[c].(pc := pc));
  }

  lemma MapGains(waiting: map<FrameId, CallId>, calls: seq<Call>, c: CallId, call: Call)
    requires MapOk(waiting, calls) && c < |calls| && !Listed(calls[c]) && Listed(call) && call.id !in waiting
    ensures MapOk(waiting[call.id := c], calls[c := call])
    ensures |waiting[call.id := c]| == |waiting| + 1
  {
    assert waiting[call.id := c].Keys == waiting.Keys + {call.id};
  }

  lemma ListedKeeps(s: State, c: CallId)
    requires Inv(s) && c < |s.calls| && s.calls[c].pc.Drawn? && !s.closed && |s.waiting| < MAX_WAITING
    requires s.calls[c].id !in s.waiting
    ensures Inv(Set(s, c, s.calls[c].(pc := Registered, answer := Unanswered))
                  .(waiting := s.waiting[s.calls[c].id := c]))
  {
    var call := s.calls[c].(pc := Registered, answer := Unanswered);
    TheCallOk(s, c);
    CallsStayOk(s.sent, s.sent, s.control, s.control, s.fetches, s.fetches, s.calls, c, call);
    TicketStays(s.sent, s.control, s.fetches, s.calls, c, call);
    EntriesStay(s.sent, s.calls, c, call);
    MapGains(s.waiting, s.calls, c, call);
  }

  lemma RegisterKeeps(s: State, c: CallId)
    requires Inv(s) && c < |s.calls|
    ensures Inv(RegisterStep(s, c))
  {
    TheCallOk(s, c);
    if s.calls[c].pc.Drawn? {
      if s.closed {
        MovesOn(s, c, Returned(CoreExited), s.clients);
      } else if |s.waiting| >= MAX_WAITING {
        MovesOn(s, c, Returned(Busy), s.clients);
      } else {
        ForgottenKeeps(s, s.calls[c].id, Dropped);
        ListedKeeps(Forgotten(s, s.calls[c].id, Dropped), c);
      }
    }
  }

  lemma SentKeeps(s: State, c: CallId)
    requires Inv(s) && c < |s.calls| && s.calls[c].pc.Named? && CanSend(s)
    ensures Inv(TrySendStep(s, c))
  {
    TheCallOk(s, c);
    var s' := TrySendStep(s, c);
    var call := s'.calls[c];
    CallsStayOk(s.sent, s'.sent, s.control, s'.control, s.fetches, s'.fetches, s.calls, c, call);
    TicketStays(s.sent, s.control, s.fetches, s.calls, c, call);
    forall k | 0 <= k < |s'.sent| ensures EntryOk(s'.sent, s'.calls, k) {
      if k < |s.sent| { assert EntryOk(s.sent, s.calls, k); }
    }
  }

  lemma TrySendKeeps(s: State, c: CallId)
    requires Inv(s) && c < |s.calls|
    ensures Inv(TrySendStep(s, c))
  {
    TheCallOk(s, c);
    if s.calls[c].pc.Named? {
      if CanSend(s) { SentKeeps(s, c); } else { MovesOn(s, c, Unsent(s.writerAlive), s.clients); }
    }
  }

  /** A call gives its entry up and moves on. */
  lemma GivesUp(s: State, c: CallId, pc: Pc, clients: map<Client, FrameId>)
    requires Inv(s) && c < |s.calls| && !s.calls[c].pc.Fetching?
    requires pc.Withdrawn? || (pc.Returned? && pc.outcome != TimedOut)
    requires pc.Withdrawn? ==> s.calls[c].slot.Some?
    ensures var s' := Forgotten(s, s.calls[c].id, Dropped);
            c < |s'.calls| && Inv(Set(s', c, s'.calls[c].(pc := pc)).(clients := clients))
  {
    ForgottenKeeps(s, s.calls[c].id, Dropped);
    var s' := Forgotten(s, s.calls[c].id, Dropped);
    TheCallOk(s', c);
    MovesOn(s', c, pc, clients);
  }

  lemma GiveBackKeeps(s: State, c: CallId)
    requires Inv(s) && c < |s.calls|
    ensures Inv(GiveBackStep(s, c))
  {
    var call := s.calls[c];
    if call.pc.Unsent? {
      GivesUp(s, c, Returned(if call.pc.full then Busy else CoreExited), Unnamed(s.clients, call.client));
    }
  }

  lemma WithdrawKeeps(s: State, c: CallId)
    requires Inv(s) && c < |s.calls|
    ensures Inv(WithdrawStep(s, c))
  {
    TheCallOk(s, c);
    if s.calls[c].pc.Expired? { GivesUp(s, c, Withdrawn, s.clients); }
  }

  lemma SendCancelKeeps(s: State, c: CallId)
    requires Inv(s) && c < |s.calls|
    ensures Inv(SendCancelStep(s, c))
  {
    TheCallOk(s, c);
    var call := s.calls[c];
    if call.pc.Withdrawn? {
      var sent := SendOrLock(s, Cancel(call.id), Some(c));
      TrafficKeeps(s, sent);
      if CanSend(s) {
        assert sent.sent[|s.sent|] == Cancel(call.id);
        assert Cancelled(sent.sent, call.slot.value, call.id);
      } else {
        assert sent.control[|s.control|] == Lock(Some(c));
      }
      TheCallOk(sent, c);
      MovesOn(sent, c, Returned(TimedOut), sent.clients);
      assert SendCancelStep(s, c) == Set(sent, c, call.(pc := Returned(TimedOut))).(clients := sent.clients);
    }
  }

  lemma ReaderEndsKeeps(s: State)
    requires Inv(s)
    ensures Inv(ReaderEndsStep(s))
  {
    var s' := ReaderEndsStep(s);
    forall c | 0 <= c < |s'.calls| ensures CallOk(s'.sent, s'.control, s'.fetches, c, s'.calls[c]) {
      TheCallOk(s, c);
    }
    forall k | 0 <= k < |s'.sent| ensures EntryOk(s'.sent, s'.calls, k) {
      assert EntryOk(s.sent, s.calls, k);
    }
  }

  lemma CallStepKeeps(s: State, step: Step)
    requires Inv(s)
    requires OfCall(step) && step.call < |s.calls|
    ensures Inv(CallStep(s, step))
  {
    var c := step.call;
    TheCallOk(s, c);
    match step
    case Fetch(_) => FetchKeeps(s, c);
    case Refuse(_) => if s.calls[c].pc.Drawn? { MovesOn(s, c, Returned(TooLarge), s.clients); }
    case Register(_) => RegisterKeeps(s, c);
    case Name(_) => if s.calls[c].pc.Registered? { MovesOn(s, c, Named, NameStep(s, c).clients); }
    case TrySend(_) => TrySendKeeps(s, c);
    case GiveBack(_) => GiveBackKeeps(s, c);
    case Receive(_) =>
      if s.calls[c].pc.Waiting? && !s.calls[c].answer.Unanswered? {
        MovesOn(s, c, ReceiveStep(s, c).calls[c].pc, ReceiveStep(s, c).clients);
      }
    case Expire(_) => if s.calls[c].pc.Waiting? { MovesOn(s, c, Expired, ExpireStep(s, c).clients); }
    case Withdraw(_) => WithdrawKeeps(s, c);
    case SendCancel(_) => SendCancelKeeps(s, c);
  }

  /** A call that has not drawn an id yet is nowhere to be found. */
  lemma OneMoreCall(sent: seq<Entry>, control: seq<Control>, fetches: nat, waiting: map<FrameId, CallId>,
          calls: seq<Call>, begun: Call)
    requires CallsOk(sent, control, fetches, calls) && EntriesOk(sent, calls) && TicketsOk(calls)
    requires MapOk(waiting, calls)
    requires begun.pc.Fetching? && begun.slot.None?
    ensures CallsOk(sent, control, fetches, calls + [begun]) && EntriesOk(sent, calls + [begun])
    ensures TicketsOk(calls + [begun]) && MapOk(waiting, calls + [begun])
  {
    forall c | 0 <= c < |calls| ensures CallOk(sent, control, fetches, c, calls[c]) {}
    forall k | 0 <= k < |sent| ensures EntryOk(sent, calls + [begun], k) {
      assert EntryOk(sent, calls, k);
    }
  }

  lemma BeginKeeps(s: State, client: Option<Client>)
    requires Inv(s)
    ensures Inv(Apply(s, Begin(client)))
  {
    var begun := Call(client, 0, 0, None, Fetching(false), Unanswered);
    OneMoreCall(s.sent, s.control, s.fetches, s.waiting, s.calls, begun);
  }

  lemma SendOrLockKeeps(s: State, entry: Entry, sender: Option<CallId>)
    requires Inv(s) && !entry.Request?
    ensures Inv(SendOrLock(s, entry, sender))
  {
    TrafficKeeps(s, SendOrLock(s, entry, sender));
  }

  lemma WriterKeeps(s: State)
    requires Inv(s)
    ensures Inv(TakeStep(s)) && Inv(LookStep(s))
  {
    TrafficKeeps(s, TakeStep(s));
    TrafficKeeps(s, LookStep(s));
  }

  lemma ShutdownKeeps(s: State)
    requires Inv(s)
    ensures Inv(Apply(s, SendShutdown))
  {
    TrafficKeeps(s, Apply(s, SendShutdown));
  }

  lemma FlagsKeep(s: State, step: Step)
    requires Inv(s) && (step.WriterFails? || step.StopRunning? || step.FetchElsewhere?)
    ensures Inv(Apply(s, step))
  {
    TrafficKeeps(s, Apply(s, step));
  }

  lemma OfCallKeeps(s: State, step: Step)
    requires Inv(s) && OfCall(step)
    ensures Inv(Apply(s, step))
  {
    if step.call < |s.calls| { CallStepKeeps(s, step); }
  }

  lemma CancelClientKeeps(s: State, client: Client)
    requires Inv(s)
    ensures Inv(Apply(s, CancelClient(client)))
  {
    if s.running && client in s.clients { SendOrLockKeeps(s, Cancel(s.clients[client]), None); }
  }

  lemma DeliverKeeps(s: State, id: FrameId)
    requires Inv(s)
    ensures Inv(Apply(s, Deliver(id)))
  {
    if !s.closed { ForgottenKeeps(s, id, Reply); }
  }

  lemma OtherKeeps(s: State, step: Step)
    requires Inv(s) && !OfCall(step)
    ensures Inv(Apply(s, step))
  {
    match step
    case Begin(client) => BeginKeeps(s, client);
    case Deliver(id) => DeliverKeeps(s, id);
    case ReaderEnds => ReaderEndsKeeps(s);
    case CancelClient(client) => CancelClientKeeps(s, client);
    case SendShutdown => ShutdownKeeps(s);
    case Take => WriterKeeps(s);
    case Look => WriterKeeps(s);
    case _ => FlagsKeep(s, step);
  }

  lemma ApplyKeeps(s: State, step: Step)
    requires Inv(s)
    ensures Inv(Apply(s, step))
  {
    if OfCall(step) { OfCallKeeps(s, step); } else { OtherKeeps(s, step); }
  }

  // ----- Theorems -------------------------------------------------------------------

  /** Every interleaving from the start of the process. */
  function Run(s: State, steps: seq<Step>): State
    decreases |steps|
  {
    if steps == [] then s else Run(Apply(s, steps[0]), steps[1..])
  }

  lemma {:induction false} RunKeeps(s: State, steps: seq<Step>)
    requires Inv(s)
    ensures Inv(Run(s, steps))
    decreases |steps|
  {
    if steps != [] {
      ApplyKeeps(s, steps[0]);
      RunKeeps(Apply(s, steps[0]), steps[1..]);
    }
  }

  ghost predicate Reachable(s: State) { exists steps :: s == Run(Start(), steps) }

  lemma ReachableInv(s: State)
    requires Reachable(s)
    ensures Inv(s)
  {
    var steps :| s == Run(Start(), steps);
    RunKeeps(Start(), steps);
  }

  /** At most sixteen calls wait and at most sixteen frames are queued; once the
      pipe has ended every call that waits has its answer, and so has every
      call that comes to wait later. */
  lemma WaitingIsBounded(s: State)
    requires Reachable(s)
    ensures |s.waiting| <= 16 && |s.sent| - s.taken <= 16
    ensures s.closed ==> s.waiting == map[]
                         && forall c :: 0 <= c < |s.calls| && s.calls[c].pc.Waiting? ==> !s.calls[c].answer.Unanswered?
  {
    ReachableInv(s);
    if s.closed {
      forall c | 0 <= c < |s.calls| && s.calls[c].pc.Waiting? ensures !s.calls[c].answer.Unanswered? {
        assert !Listed(s.calls[c]);
      }
    }
  }

  /** A call that timed out has its CANCEL behind its frame in the same queue,
      or told the supervisor to lock. */
  lemma TimedOutIsCancelled(s: State, c: CallId)
    requires Reachable(s) && c < |s.calls| && s.calls[c].pc == Returned(TimedOut)
    ensures var call := s.calls[c];
            && call.slot.Some?
            && call.slot.value < |s.sent|
            && s.sent[call.slot.value] == Request(c, call.id)
            && (Cancelled(s.sent, call.slot.value, call.id) || Lock(Some(c)) in s.control)
  {
    ReachableInv(s);
    TheCallOk(s, c);
  }

  predicate GaveUp(call: Call) { call.pc.Withdrawn? || call.pc.Returned? }

  /** A call keeps its draw, and once it gave up it stays so, with its slot. */
  predicate Later(a: Call, b: Call) {
    && (!a.pc.Fetching? ==> !b.pc.Fetching? && b.id == a.id && b.ticket == a.ticket)
    && (GaveUp(a) ==> GaveUp(b) && b.slot == a.slot)
  }

  predicate AllLater(calls: seq<Call>, calls': seq<Call>) {
    |calls| <= |calls'| && forall d :: 0 <= d < |calls| ==> Later(calls[d], calls'[d])
  }

  lemma SetStays(calls: seq<Call>, c: CallId, call: Call)
    requires c < |calls| && Later(calls[c], call)
    ensures AllLater(calls, calls[c := call])
  {
  }

  lemma ForgottenStays(s: State, id: FrameId, answer: Answer)
    requires Inv(s)
    ensures AllLater(s.calls, Forgotten(s, id, answer).calls)
    ensures Forgotten(s, id, answer).passed == s.passed
    ensures forall c :: 0 <= c < |s.calls| ==> Forgotten(s, id, answer).calls[c].pc == s.calls[c].pc
  {
  }

  lemma ForgettingStepStays(s: State, c: CallId, pc: Pc, answer: Answer, s': State)
    requires Inv(s) && c < |s.calls| && !GaveUp(s.calls[c]) && !s.calls[c].pc.Fetching? && !pc.Fetching?
    requires var f := Forgotten(s, s.calls[c].id, Dropped);
             s'.calls == f.calls[c := f.calls[c].(pc := pc, answer := answer)]
    ensures AllLater(s.calls, s'.calls)
  {
    ForgottenStays(s, s.calls[c].id, Dropped);
    var f := Forgotten(s, s.calls[c].id, Dropped);
    forall d | 0 <= d < |s.calls| ensures Later(s.calls[d], s'.calls[d]) {
      assert Later(s.calls[d], f.calls[d]);
    }
  }

  predicate Stays(s: State, s': State) {
    AllLater(s.calls, s'.calls) && s'.passed == s.passed
  }

  lemma RegisterStays(s: State, c: CallId)
    requires Inv(s) && c < |s.calls|
    ensures Stays(s, RegisterStep(s, c))
  {
    if s.calls[c].pc.Drawn? && !s.closed && |s.waiting| < MAX_WAITING {
      ForgettingStepStays(s, c, Registered, Unanswered, RegisterStep(s, c));
    }
  }

  lemma GiveBackStays(s: State, c: CallId)
    requires Inv(s) && c < |s.calls|
    ensures Stays(s, GiveBackStep(s, c))
  {
    if s.calls[c].pc.Unsent? {
      var call := GiveBackStep(s, c).calls[c];
      ForgettingStepStays(s, c, call.pc, call.answer, GiveBackStep(s, c));
    }
  }

  lemma WithdrawStays(s: State, c: CallId)
    requires Inv(s) && c < |s.calls|
    ensures Stays(s, WithdrawStep(s, c))
  {
    if s.calls[c].pc.Expired? {
      ForgettingStepStays(s, c, Withdrawn, WithdrawStep(s, c).calls[c].answer, WithdrawStep(s, c));
    }
  }

  lemma EarlyStepStays(s: State, c: CallId)
    requires c < |s.calls|
    ensures Stays(s, FetchStep(s, c)) && Stays(s, NameStep(s, c)) && Stays(s, TrySendStep(s, c))
  {
    SetStays(s.calls, c, FetchStep(s, c).calls[c]);
    SetStays(s.calls, c, NameStep(s, c).calls[c]);
    SetStays(s.calls, c, TrySendStep(s, c).calls[c]);
  }

  lemma LateStepStays(s: State, c: CallId)
    requires c < |s.calls|
    ensures Stays(s, ReceiveStep(s, c)) && Stays(s, ExpireStep(s, c))
  {
    SetStays(s.calls, c, ReceiveStep(s, c).calls[c]);
    SetStays(s.calls, c, ExpireStep(s, c).calls[c]);
  }

  lemma SendCancelStays(s: State, c: CallId)
    requires c < |s.calls|
    ensures Stays(s, SendCancelStep(s, c))
  {
    if s.calls[c].pc.Withdrawn? { SetStays(s.calls, c, s.calls[c].(pc := Returned(TimedOut))); }
  }

  lemma CallStepStays(s: State, step: Step)
    requires Inv(s) && OfCall(step) && step.call < |s.calls|
    ensures Stays(s, CallStep(s, step))
  {
    var c := step.call;
    match step
    case Register(_) => RegisterStays(s, c);
    case GiveBack(_) => GiveBackStays(s, c);
    case Withdraw(_) => WithdrawStays(s, c);
    case Refuse(_) => SetStays(s.calls, c, CallStep(s, step).calls[c]);
    case SendCancel(_) => SendCancelStays(s, c);
    case _ => { EarlyStepStays(s, c); LateStepStays(s, c); }
  }

  lemma ReaderEndsStays(s: State)
    ensures Stays(s, ReaderEndsStep(s))
  {
  }

  lemma BeginStays(s: State, client: Option<Client>)
    ensures Stays(s, Apply(s, Begin(client)))
  {
  }

  lemma LookStays(s: State)
    ensures LookStep(s).calls == s.calls && s.passed <= LookStep(s).passed
  {
  }

  /** The writer's and the other threads' traffic. */
  lemma TrafficStays(s: State, step: Step)
    requires !OfCall(step) && !step.Begin? && !step.Look? && !step.Deliver? && !step.ReaderEnds?
    ensures Apply(s, step).calls == s.calls && Apply(s, step).passed == s.passed
  {
  }

  lemma OtherStepStays(s: State, step: Step)
    requires Inv(s) && !OfCall(step)
    ensures AllLater(s.calls, Apply(s, step).calls) && s.passed <= Apply(s, step).passed
    ensures !step.Look? ==> Apply(s, step).passed == s.passed
  {
    match step
    case Begin(client) => BeginStays(s, client);
    case Look => LookStays(s);
    case Deliver(id) => ForgottenStays(s, id, Reply);
    case ReaderEnds => ReaderEndsStays(s);
    case _ => TrafficStays(s, step);
  }

  lemma StepStays(s: State, step: Step)
    requires Inv(s)
    ensures AllLater(s.calls, Apply(s, step).calls) && s.passed <= Apply(s, step).passed
    ensures !step.Look? ==> Apply(s, step).passed == s.passed
  {
    if OfCall(step) {
      if step.call < |s.calls| { CallStepStays(s, step); }
    } else {
      OtherStepStays(s, step);
    }
  }

  lemma {:induction false} RunStays(s: State, steps: seq<Step>)
    requires Inv(s)
    ensures AllLater(s.calls, Run(s, steps).calls) && s.passed <= Run(s, steps).passed
    decreases |steps|
  {
    if steps != [] {
      var s' := Apply(s, steps[0]);
      StepStays(s, steps[0]);
      ApplyKeeps(s, steps[0]);
      RunStays(s', steps[1..]);
      var end := Run(s', steps[1..]);
      forall d | 0 <= d < |s.calls| ensures Later(s.calls[d], end.calls[d]) {
        assert Later(s.calls[d], s'.calls[d]) && Later(s'.calls[d], end.calls[d]);
      }
    }
  }

  /** Another call whose draw gave the same id. */
  predicate Shares(s: State, c: CallId, d: CallId, id: FrameId) {
    d < |s.calls| && d != c && !s.calls[d].pc.Fetching? && s.calls[d].id == id
  }

  /** A frame written after its call gave up went out for another of its id. */
  lemma WritesListed(s: State, c: CallId, k: nat)
    requires MapOk(s.waiting, s.calls) && c < |s.calls| && k < |s.sent| && s.sent[k] == Request(c, s.calls[c].id)
    requires GaveUp(s.calls[c]) && s.calls[c].id in s.waiting
    ensures exists d :: Shares(s, c, d, s.calls[c].id)
  {
    assert Shares(s, c, s.waiting[s.calls[c].id], s.calls[c].id);
  }

  lemma PassedNow(s: State, end: State, c: CallId, k: nat)
    requires Inv(s) && c < |s.calls| && GaveUp(s.calls[c]) && s.calls[c].slot == Some(k) && k == |s.passed|
    requires |LookStep(s).passed| > k && AllLater(s.calls, end.calls) && LookStep(s).passed <= end.passed
    ensures end.passed[k] ==> exists d :: Shares(end, c, d, s.calls[c].id)
  {
    TheCallOk(s, c);
    if LookStep(s).passed[k] {
      WritesListed(s, c, k);
      var d :| Shares(s, c, d, s.calls[c].id);
      SharesStays(s, end, c, d, s.calls[c].id);
    }
  }

  lemma GivenUpStays(s: State, step: Step, c: CallId, k: nat)
    requires Inv(s) && c < |s.calls| && GaveUp(s.calls[c]) && s.calls[c].slot == Some(k) && |s.passed| <= k
    ensures var s' := Apply(s, step);
            && c < |s'.calls| && GaveUp(s'.calls[c]) && s'.calls[c].slot == Some(k) && s'.calls[c].id == s.calls[c].id
            && (|s'.passed| > k ==> s' == LookStep(s) && |s.passed| == k)
  {
    StepStays(s, step);
    assert Later(s.calls[c], Apply(s, step).calls[c]);
  }

  lemma {:induction false} PassedLate(s: State, steps: seq<Step>, c: CallId, k: nat)
    requires Inv(s) && c < |s.calls| && GaveUp(s.calls[c]) && s.calls[c].slot == Some(k) && |s.passed| <= k
    ensures k < |Run(s, steps).passed| && Run(s, steps).passed[k] ==>
              exists d :: Shares(Run(s, steps), c, d, s.calls[c].id)
    decreases |steps|
  {
    if steps != [] {
      var s' := Apply(s, steps[0]);
      GivenUpStays(s, steps[0], c, k);
      ApplyKeeps(s, steps[0]);
      if |s'.passed| <= k {
        PassedLate(s', steps[1..], c, k);
      } else {
        RunStays(s', steps[1..]);
        PassedNow(s, Run(s', steps[1..]), c, k);
      }
    }
  }

  lemma SharesStays(s: State, end: State, c: CallId, d: CallId, id: FrameId)
    requires Shares(s, c, d, id) && AllLater(s.calls, end.calls)
    ensures Shares(end, c, d, id)
  {
    assert Later(s.calls[d], end.calls[d]);
  }

  /** Two calls with one id are a whole wrap of the counter apart. */
  lemma SharedIdsAreAWrapApart(s: State, c: CallId, d: CallId)
    requires Inv(s) && c < |s.calls| && !s.calls[c].pc.Fetching? && Shares(s, c, d, s.calls[c].id)
    ensures s.calls[d].ticket >= s.calls[c].ticket + UINT32_LIMIT
            || s.calls[c].ticket >= s.calls[d].ticket + UINT32_LIMIT
    ensures s.fetches > UINT32_LIMIT
  {
    TheCallOk(s, c);
    TheCallOk(s, d);
    var t, u := s.calls[c].ticket, s.calls[d].ticket;
    assert t != u;
    if u <= t < u + UINT32_LIMIT { SameResidue(1 + t, 1 + u, UINT32_LIMIT); }
    if t <= u < t + UINT32_LIMIT { SameResidue(1 + u, 1 + t, UINT32_LIMIT); }
  }

  /** The frame of a call that gave up before the writer looked at it, be it
      still queued or already taken, is never written, unless the counter
      wrapped all the way round to the same id: never within the first 2^32
      draws. */
  lemma NeverWrittenAfterGivingUp(s: State, steps: seq<Step>, c: CallId, k: nat)
    requires Reachable(s) && c < |s.calls| && GaveUp(s.calls[c]) && s.calls[c].slot == Some(k) && |s.passed| <= k
    ensures var end := Run(s, steps);
            k < |end.passed| && end.passed[k] ==>
              end.fetches > UINT32_LIMIT && exists d :: Shares(end, c, d, s.calls[c].id)
  {
    ReachableInv(s);
    var end := Run(s, steps);
    RunKeeps(s, steps);
    PassedLate(s, steps, c, k);
    RunStays(s, steps);
    assert Later(s.calls[c], end.calls[c]);
    if k < |end.passed| && end.passed[k] {
      var d :| Shares(end, c, d, s.calls[c].id);
      SharedIdsAreAWrapApart(end, c, d);
    }
  }

  /** A reply is handed to the one call that waits under the id it carries. */
  lemma ReplyGoesToItsCall(s: State, id: FrameId, c: CallId)
    requires Reachable(s) && c < |s.calls| && Apply(s, Deliver(id)).calls[c] != s.calls[c]
    ensures s.calls[c].id == id && Listed(s.calls[c])
    ensures Apply(s, Deliver(id)).calls == s.calls[c := s.calls[c].(answer := Reply)]
  {
    ReachableInv(s);
  }
}
