/** Concurrent PUT_VALUE requests: each is checked, takes the lock of its key's stripe, reads
    the stored record, compares, and writes, in any interleaving with the others. */
module PutRecords {
  import opened Base
  import opened ProviderCodec

  type Key = seq<byte>
  type Data = seq<byte>

  /** What the datastore may hold under a name: bytes that are no record, or a record. */
  datatype Stored = Unreadable | Record(key: Key, value: Data)

  /** A validator: which records are valid, which of two values is at least as good, and for which
      pairs of a new and a stored value its selection fails. Otherwise the selection may return any
      of the two values that is at least as good as the other. */
  datatype Validator = Validator(
    valid: (Key, Data) -> bool,
    geq: (Key, Data, Data) -> bool,
    fails: (Key, Data, Data) -> bool)
  {
    ghost predicate TotalPreorder() {
      && (forall k, a, b :: geq(k, a, b) || geq(k, b, a))
      && (forall k, a, b, c :: geq(k, a, b) && geq(k, b, c) ==> geq(k, a, c))
    }
  }

  /** The key of the message, and the record in it if there is one. */
  datatype Message = Message(key: Key, rec: Option<(Key, Data)>)

  datatype Reply = NoKey | NilRecord | KeyMismatch | InvalidRecord | SelectFailed | OldRecord | Accepted

  /** Where a request is: not looked at, waiting for its lock, holding it, having read the
      stored record, about to write, or answered. */
  datatype Phase =
    | New
    | Waiting
    | Locked
    | HasRead(existing: Option<Data>)
    | Writing
    | Done(reply: Reply)

  datatype Request = Request(msg: Message, phase: Phase)

  type Requests = map<nat, Request>

  /** locks tells which request holds the lock of a stripe. */
  datatype State = State(store: map<string, Stored>, locks: map<byte, nat>, requests: Requests)

  /** The datastore name of a key. */
  function DsKey(k: Key): string {
    "/" + Encode(k)
  }

  lemma DsKeyInjective(k: Key, k': Key)
    requires DsKey(k) == DsKey(k')
    ensures k == k'
  {
    assert DsKey(k)[1..] == Encode(k) && DsKey(k')[1..] == Encode(k');
    DecodeEncode(k);
    DecodeEncode(k');
  }

  function Stripe(k: Key): byte {
    if k == [] then 0 else k[|k| - 1]
  }

  /** The answer to a message that is refused before its lock is taken. */
  function Refusal(v: Validator, msg: Message): Option<Reply> {
    if msg.key == [] then Some(NoKey)
    else
      match msg.rec
      case None => Some(NilRecord)
      case Some((k, value)) =>
        if k != msg.key then Some(KeyMismatch)
        else if !v.valid(k, value) then Some(InvalidRecord)
        else None
  }

  /** The stored value of a key, if it is readable and still valid. */
  function Current(v: Validator, store: map<string, Stored>, k: Key): Option<Data> {
    if DsKey(k) !in store then None
    else
      match store[DsKey(k)]
      case Unreadable => None
      case Record(k', value) => if v.valid(k', value) then Some(value) else None
  }

  datatype Event =
    | Check(id: nat)
    | Lock(id: nat)
    | Read(id: nat)
    | Choose(id: nat, i: Option<nat>)   // the index that the validator's selection returns, if it does not fail
    | Write(id: nat)

  function Value(r: Request): Data
    requires r.msg.rec.Some?
  {
    r.msg.rec.value.1
  }

  /** What the selection between a new and a stored value may answer. */
  predicate Selects(v: Validator, k: Key, submitted: Data, stored: Data, i: Option<nat>) {
    if v.fails(k, submitted, stored) then i == None
    else (i == Some(0) && v.geq(k, submitted, stored)) || (i == Some(1) && v.geq(k, stored, submitted))
  }

  predicate Enabled(v: Validator, s: State, e: Event) {
    && e.id in s.requests
    && var r := s.requests[e.id];
       match e
       case Check(_) => r.phase == New
       case Lock(_) => r.phase == Waiting && Stripe(r.msg.key) !in s.locks
       case Read(_) => r.phase == Locked
       case Choose(_, i) =>
         && r.phase.HasRead?
         && (match r.phase.existing
             case None => true
             case Some(stored) => r.msg.rec.Some? && Selects(v, r.msg.key, Value(r), stored, i))
       case Write(_) => r.phase == Writing && r.msg.rec.Some?
  }

  function Go(s: State, id: nat, phase: Phase): State
    requires id in s.requests
  {
    s.(requests := s.requests[id := s.requests[id].(phase := phase)])
  }

  /** Answer and give the lock back. */
  function Leave(s: State, id: nat, reply: Reply): State
    requires id in s.requests
  {
    Go(s, id, Done(reply)).(locks := s.locks - {Stripe(s.requests[id].msg.key)})
  }

  function Next(v: Validator, s: State, e: Event): State
    requires Enabled(v, s, e)
  {
    var r := s.requests[e.id];
    match e
    case Check(id) =>
      (match Refusal(v, r.msg)
       case Some(reply) => Go(s, id, Done(reply))
       case None => Go(s, id, Waiting))
    case Lock(id) => Go(s, id, Locked).(locks := s.locks[Stripe(r.msg.key) := id])
    case Read(id) => Go(s, id, HasRead(Current(v, s.store, r.msg.key)))
    case Choose(id, i) =>
      if r.phase.existing == None || i == Some(0) then Go(s, id, Writing)
      else Leave(s, id, if i == None then SelectFailed else OldRecord)
    case Write(id) => Leave(s, id, Accepted).(store := s.store[DsKey(r.msg.key) := Record(r.msg.key, Value(r))])
  }

  predicate Step(v: Validator, s: State, e: Event, t: State) {
    Enabled(v, s, e) && t == Next(v, s, e)
  }

  /** Any datastore whose records are kept under the names of their keys, and any requests. */
  ghost predicate Initial(s: State) {
    && s.locks == map[]
    && (forall id | id in s.requests :: s.requests[id].phase == New)
    && OwnNames(s.store)
  }

  ghost predicate OwnNames(store: map<string, Stored>) {
    forall k: Key | DsKey(k) in store && store[DsKey(k)].Record? :: store[DsKey(k)].key == k
  }

  ghost predicate IsRun(v: Validator, states: seq<State>, events: seq<Event>) {
    && |states| == |events| + 1
    && Initial(states[0])
    && forall i | 0 <= i < |events| :: Step(v, states[i], events[i], states[i + 1])
  }

  // ---------- The invariant ----------

  predicate Critical(phase: Phase) {
    phase == Locked || phase.HasRead? || phase == Writing
  }

  predicate PastCheck(phase: Phase) {
    phase == Waiting || Critical(phase) || (phase.Done? && AfterSelection(phase.reply))
  }

  /** The replies that come after the check. */
  predicate AfterSelection(reply: Reply) {
    reply == SelectFailed || reply == OldRecord || reply == Accepted
  }

  /** A lock is held exactly by the one request inside its stripe's critical section. */
  ghost predicate LocksSound(s: State) {
    && (forall id | id in s.requests && Critical(s.requests[id].phase) ::
          Stripe(s.requests[id].msg.key) in s.locks && s.locks[Stripe(s.requests[id].msg.key)] == id)
    && (forall b | b in s.locks ::
          && s.locks[b] in s.requests
          && Critical(s.requests[s.locks[b]].phase)
          && Stripe(s.requests[s.locks[b]].msg.key) == b)
  }

  /** The stored value of k is at least as good as value. */
  ghost predicate AtLeast(v: Validator, store: map<string, Stored>, k: Key, value: Data) {
    Current(v, store, k).Some? && v.geq(k, Current(v, store, k).value, value)
  }

  /** What a request knows about the datastore in its phase. */
  ghost predicate Knows(v: Validator, store: map<string, Stored>, r: Request) {
    && (PastCheck(r.phase) ==> Refusal(v, r.msg) == None)
    && (match r.phase
        case HasRead(existing) => existing == Current(v, store, r.msg.key)
        case Writing =>
          && r.msg.rec.Some?
          && (var now := Current(v, store, r.msg.key); now.Some? ==> v.geq(r.msg.key, Value(r), now.value))
        case Done(reply) =>
          (reply == OldRecord || reply == Accepted) ==> r.msg.rec.Some? && AtLeast(v, store, r.msg.key, Value(r))
        case _ => true)
  }

  ghost predicate Inv(v: Validator, s: State) {
    && LocksSound(s)
    && OwnNames(s.store)
    && forall id | id in s.requests :: Knows(v, s.store, s.requests[id])
  }

  /** What a write does to the stored values. */
  lemma WriteCurrent(v: Validator, store: map<string, Stored>, k: Key, value: Data)
    requires v.valid(k, value)
    ensures Current(v, store[DsKey(k) := Record(k, value)], k) == Some(value)
    ensures forall k' | k' != k :: Current(v, store[DsKey(k) := Record(k, value)], k') == Current(v, store, k')
  {
    forall k' | k' != k
      ensures Current(v, store[DsKey(k) := Record(k, value)], k') == Current(v, store, k')
    {
      if DsKey(k) == DsKey(k') {
        DsKeyInjective(k, k');
      }
    }
  }

  lemma WriteOwnNames(store: map<string, Stored>, k: Key, value: Data)
    requires OwnNames(store)
    ensures OwnNames(store[DsKey(k) := Record(k, value)])
  {
    forall k': Key | DsKey(k') == DsKey(k)
      ensures k' == k
    {
      DsKeyInjective(k, k');
    }
  }

  lemma GoKeepsLocks(s: State, id: nat, phase: Phase)
    requires LocksSound(s) && id in s.requests && (Critical(phase) <==> Critical(s.requests[id].phase))
    ensures LocksSound(Go(s, id, phase))
  {
  }

  lemma LeaveKeepsLocks(s: State, id: nat, reply: Reply)
    requires LocksSound(s) && id in s.requests && Critical(s.requests[id].phase)
    ensures LocksSound(Leave(s, id, reply))
  {
  }

  lemma LockKeepsLocks(v: Validator, s: State, id: nat)
    requires LocksSound(s) && Enabled(v, s, Lock(id))
    ensures LocksSound(Next(v, s, Lock(id)))
  {
  }

  lemma StepKeepsLocks(v: Validator, s: State, e: Event)
    requires LocksSound(s) && Enabled(v, s, e)
    ensures LocksSound(Next(v, s, e))
  {
    var r := s.requests[e.id];
    match e
    case Check(id) =>
      GoKeepsLocks(s, id, if Refusal(v, r.msg).Some? then Done(Refusal(v, r.msg).value) else Waiting);
    case Lock(id) => LockKeepsLocks(v, s, id);
    case Read(id) => GoKeepsLocks(s, id, HasRead(Current(v, s.store, r.msg.key)));
    case Choose(id, i) =>
      if r.phase.existing == None || i == Some(0) {
        GoKeepsLocks(s, id, Writing);
      } else {
        LeaveKeepsLocks(s, id, if i == None then SelectFailed else OldRecord);
      }
    case Write(id) => LeaveKeepsLocks(s, id, Accepted);
  }

  /** Everything a request knows stays true when another one writes a better value. */
  lemma KnowsKept(v: Validator, s: State, id: nat, writer: nat, value: Data)
    requires v.TotalPreorder() && Inv(v, s)
    requires writer in s.requests && s.requests[writer].phase == Writing
    requires s.requests[writer].msg.rec == Some((s.requests[writer].msg.key, value))
    requires id in s.requests && id != writer
    ensures var k := s.requests[writer].msg.key;
            Knows(v, s.store[DsKey(k) := Record(k, value)], s.requests[id])
  {
    var k := s.requests[writer].msg.key;
    assert Knows(v, s.store, s.requests[writer]) && Knows(v, s.store, s.requests[id]);
    WriteCurrent(v, s.store, k, value);
    if s.requests[id].msg.key == k {
      assert !Critical(s.requests[id].phase);
    }
  }

  lemma WriteKeepsKnowledge(v: Validator, s: State, id: nat)
    requires v.TotalPreorder() && Inv(v, s) && Enabled(v, s, Write(id))
    ensures OwnNames(Next(v, s, Write(id)).store)
    ensures forall r | r in s.requests :: Knows(v, Next(v, s, Write(id)).store, Next(v, s, Write(id)).requests[r])
  {
    var r := s.requests[id];
    assert Knows(v, s.store, r);
    WriteCurrent(v, s.store, r.msg.key, Value(r));
    WriteOwnNames(s.store, r.msg.key, Value(r));
    forall other | other in s.requests && other != id
      ensures Knows(v, Next(v, s, Write(id)).store, s.requests[other])
    {
      KnowsKept(v, s, other, id, Value(r));
    }
  }

  /** Steps other than a write only teach the request that takes them. */
  lemma StepLearns(v: Validator, s: State, e: Event)
    requires v.TotalPreorder() && Enabled(v, s, e) && !e.Write? && Knows(v, s.store, s.requests[e.id])
    ensures Knows(v, s.store, Next(v, s, e).requests[e.id])
    ensures Next(v, s, e).store == s.store
    ensures Next(v, s, e).requests == s.requests[e.id := Next(v, s, e).requests[e.id]]
  {
  }

  lemma NextKeepsInv(v: Validator, s: State, e: Event)
    requires v.TotalPreorder() && Inv(v, s) && Enabled(v, s, e)
    ensures Inv(v, Next(v, s, e))
  {
    assert LocksSound(Next(v, s, e)) by {
      StepKeepsLocks(v, s, e);
    }
    if e.Write? {
      WriteKeepsKnowledge(v, s, e.id);
    } else {
      StepLearns(v, s, e);
    }
  }

  lemma InitialInv(v: Validator, s: State)
    requires Initial(s)
    ensures Inv(v, s)
  {
  }

  lemma {:induction false} RunKeepsInv(v: Validator, states: seq<State>, events: seq<Event>, i: nat)
    requires v.TotalPreorder() && IsRun(v, states, events) && i < |states|
    ensures Inv(v, states[i])
  {
    if i == 0 {
      InitialInv(v, states[0]);
    } else {
      RunKeepsInv(v, states, events, i - 1);
      assert Step(v, states[i - 1], events[i - 1], states[i]);
      NextKeepsInv(v, states[i - 1], events[i - 1]);
    }
  }

  // ---------- What every run guarantees ----------

  /** A stored value is only replaced by one that is at least as good. */
  lemma StepImproves(v: Validator, s: State, e: Event, k: Key)
    requires v.TotalPreorder() && Inv(v, s) && Enabled(v, s, e) && Current(v, s.store, k).Some?
    ensures AtLeast(v, Next(v, s, e).store, k, Current(v, s.store, k).value)
  {
  }

  /** Over any run, the stored value of a key never gets worse. */
  lemma {:induction false} NeverRegresses(v: Validator, states: seq<State>, events: seq<Event>, i: nat, j: nat, k: Key)
    requires v.TotalPreorder() && IsRun(v, states, events) && i <= j < |states|
    requires Current(v, states[i].store, k).Some?
    ensures AtLeast(v, states[j].store, k, Current(v, states[i].store, k).value)
    decreases j
  {
    if i < j {
      NeverRegresses(v, states, events, i, j - 1, k);
      RunKeepsInv(v, states, events, j - 1);
      assert Step(v, states[j - 1], events[j - 1], states[j]);
      StepImproves(v, states[j - 1], events[j - 1], k);
    }
  }

  lemma {:induction false} SameRequests(v: Validator, states: seq<State>, events: seq<Event>, i: nat, id: nat)
    requires IsRun(v, states, events) && i < |states|
    ensures id in states[i].requests <==> id in states[0].requests
    ensures id in states[0].requests ==> states[i].requests[id].msg == states[0].requests[id].msg
  {
    if i > 0 {
      SameRequests(v, states, events, i - 1, id);
      assert Step(v, states[i - 1], events[i - 1], states[i]);
    }
  }

  /** When all requests are answered, the stored value of a key is at least as good as the one stored
      at first and as every valid value submitted for it whose selection did not fail. */
  lemma BestSubmittedWins(v: Validator, states: seq<State>, events: seq<Event>, id: nat)
    requires v.TotalPreorder() && IsRun(v, states, events) && id in states[0].requests
    requires forall r | r in states[|events|].requests :: states[|events|].requests[r].phase.Done?
    requires Refusal(v, states[0].requests[id].msg) == None
    ensures var msg := states[0].requests[id].msg;
            && id in states[|events|].requests
            && (|| states[|events|].requests[id].phase == Done(SelectFailed)
                || AtLeast(v, states[|events|].store, msg.key, msg.rec.value.1))
            && (Current(v, states[0].store, msg.key).Some? ==>
                  AtLeast(v, states[|events|].store, msg.key, Current(v, states[0].store, msg.key).value))
  {
    var n := |events|;
    var msg := states[0].requests[id].msg;
    SameRequests(v, states, events, n, id);
    RunKeepsInv(v, states, events, n);
    ProperlyAnswered(v, states, events, n, id);
    assert Knows(v, states[n].store, states[n].requests[id]);
    if Current(v, states[0].store, msg.key).Some? {
      NeverRegresses(v, states, events, 0, n, msg.key);
    }
  }

  ghost predicate SelectionCanFail(v: Validator, msg: Message) {
    msg.rec.Some? && exists stored :: v.fails(msg.key, msg.rec.value.1, stored)
  }

  /** A selection only fails on a pair of values for which the validator fails. */
  lemma {:induction false} SelectionFailsFor(v: Validator, states: seq<State>, events: seq<Event>, i: nat, id: nat)
    requires IsRun(v, states, events) && i < |states| && id in states[i].requests
    requires states[i].requests[id].phase == Done(SelectFailed)
    ensures SelectionCanFail(v, states[i].requests[id].msg)
  {
    if i > 0 {
      var s, e := states[i - 1], events[i - 1];
      assert Step(v, s, e, states[i]);
      if s.requests[id].phase == Done(SelectFailed) {
        SelectionFailsFor(v, states, events, i - 1, id);
      } else {
        var r := s.requests[id];
        assert e == Choose(id, None) && r.phase.existing.Some?;
        assert v.fails(r.msg.key, Value(r), r.phase.existing.value);
      }
    }
  }

  /** A request is refused only for the reasons its check gives. */
  lemma {:induction false} ProperlyAnswered(v: Validator, states: seq<State>, events: seq<Event>, i: nat, id: nat)
    requires IsRun(v, states, events) && i < |states| && id in states[0].requests
    ensures id in states[i].requests
    ensures var r := states[i].requests[id];
            r.phase.Done? && !AfterSelection(r.phase.reply) ==> Refusal(v, r.msg) == Some(r.phase.reply)
  {
    if i > 0 {
      ProperlyAnswered(v, states, events, i - 1, id);
      assert Step(v, states[i - 1], events[i - 1], states[i]);
    }
  }

  /** As long as a request is unanswered, some request can go on: the locks cannot deadlock. */
  lemma NeverStuck(v: Validator, s: State, id: nat) returns (e: Event)
    requires v.TotalPreorder() && Inv(v, s) && id in s.requests && !s.requests[id].phase.Done?
    ensures Enabled(v, s, e)
    decreases s.requests[id].phase == Waiting
  {
    var r := s.requests[id];
    assert Knows(v, s.store, r);
    if r.phase == Waiting && Stripe(r.msg.key) in s.locks {
      e := NeverStuck(v, s, s.locks[Stripe(r.msg.key)]);
    } else {
      match r.phase
      case New => e := Check(id);
      case Waiting => e := Lock(id);
      case Locked => e := Read(id);
      case HasRead(existing) =>
        e := Choose(id, Selection(v, r.msg.key, r.msg.rec, existing));
      case Writing => e := Write(id);
    }
  }

  // ---------- One request by itself ----------

  /** A selection that prefers the first of two equally good values. */
  function Selection(v: Validator, k: Key, rec: Option<(Key, Data)>, existing: Option<Data>): Option<nat> {
    match (rec, existing)
    case (Some((_, submitted)), Some(stored)) =>
      if v.fails(k, submitted, stored) then None
      else if v.geq(k, submitted, stored) then Some(0)
      else Some(1)
    case _ => Some(0)
  }

  /** Steps of one request that nothing interrupts. */
  ghost predicate Uninterrupted(v: Validator, states: seq<State>, events: seq<Event>, id: nat) {
    && |states| == |events| + 1
    && forall i | 0 <= i < |events| :: Step(v, states[i], events[i], states[i + 1]) && events[i].id == id
  }

  /** What a request that nothing interrupts is answered, and what it leaves in the datastore. */
  function Answer(v: Validator, store: map<string, Stored>, msg: Message): Reply {
    match Refusal(v, msg)
    case Some(reply) => reply
    case None =>
      match Selection(v, msg.key, msg.rec, Current(v, store, msg.key))
      case None => SelectFailed
      case Some(i) => if i == 0 then Accepted else OldRecord
  }

  function Written(v: Validator, store: map<string, Stored>, msg: Message): map<string, Stored> {
    if Answer(v, store, msg) == Accepted && msg.rec.Some? then store[DsKey(msg.key) := Record(msg.key, msg.rec.value.1)]
    else store
  }

  /** A new request whose lock is free and that nothing interrupts goes, by steps of its own, to this
      answer and datastore, and gives the lock back. */
  lemma UninterruptedRequest(v: Validator, s: State, id: nat) returns (states: seq<State>, events: seq<Event>)
    requires v.TotalPreorder() && id in s.requests && s.requests[id].phase == New
    requires Refusal(v, s.requests[id].msg) == None ==> Stripe(s.requests[id].msg.key) !in s.locks
    ensures Uninterrupted(v, states, events, id) && states[0] == s
    ensures var msg := s.requests[id].msg;
            states[|events|] == State(Written(v, s.store, msg), s.locks,
                                      s.requests[id := Request(msg, Done(Answer(v, s.store, msg)))])
  {
    var msg := s.requests[id].msg;
    states, events := StepAlone(v, [s], [], id, Check(id));
    if Refusal(v, msg) == None {
      states, events := StepAlone(v, states, events, id, Lock(id));
      states, events := StepAlone(v, states, events, id, Read(id));
      var i := Selection(v, msg.key, msg.rec, Current(v, s.store, msg.key));
      states, events := StepAlone(v, states, events, id, Choose(id, i));
      if i == Some(0) {
        states, events := StepAlone(v, states, events, id, Write(id));
      }
    }
  }

  lemma StepAlone(v: Validator, states: seq<State>, events: seq<Event>, id: nat, e: Event)
    returns (states': seq<State>, events': seq<Event>)
    requires Uninterrupted(v, states, events, id) && Enabled(v, states[|events|], e) && e.id == id
    ensures Uninterrupted(v, states', events', id) && states'[0] == states[0]
    ensures |events'| == |events| + 1 && states'[|events'|] == Next(v, states[|events|], e)
  {
    states', events' := states + [Next(v, states[|events|], e)], events + [e];
    forall i | 0 <= i < |events'|
      ensures Step(v, states'[i], events'[i], states'[i + 1]) && events'[i].id == id
    {
      if i < |events| {
        assert Step(v, states[i], events[i], states[i + 1]);
      }
    }
  }

  /** A new request alone with a datastore. */
  function Alone(store: map<string, Stored>, msg: Message): State {
    State(store, map[], map[0 := Request(msg, New)])
  }

  /** The handler as the program writes it; a validator that prefers the first of two equally good
      values. What a call does is an uninterrupted run of the state machine. */
  /** Keys share a lock if they end alike. */
  predicate EndAlike(k: Key, k': Key) {
    (k == [] && k' == []) || (k != [] && k' != [] && k[|k| - 1] == k'[|k'| - 1])
  }

  /** A request past its check has to wait for its lock exactly as long as another one, for a key that ends
      alike, is between its lock and its answer. */
  lemma WaitsIff(v: Validator, states: seq<State>, events: seq<Event>, i: nat, id: nat)
    requires v.TotalPreorder() && IsRun(v, states, events) && i < |states|
    requires id in states[i].requests && states[i].requests[id].phase == Waiting
    ensures !Enabled(v, states[i], Lock(id)) <==>
            exists other | other in states[i].requests ::
              && Critical(states[i].requests[other].phase)
              && EndAlike(states[i].requests[other].msg.key, states[i].requests[id].msg.key)
  {
    RunKeepsInv(v, states, events, i);
    var s := states[i];
    forall other | other in s.requests && PastCheck(s.requests[other].phase)
      ensures s.requests[other].msg.key != []
    {
      assert Knows(v, s.store, s.requests[other]);
    }
    var b := Stripe(s.requests[id].msg.key);
    if b in s.locks {
      assert s.locks[b] in s.requests;
    }
  }

  class Handler {
    const v: Validator
    var store: map<string, Stored>

    constructor (v: Validator, store: map<string, Stored>)
      ensures this.v == v && this.store == store
    {
      this.v := v;
      this.store := store;
    }

    method HandlePutValue(msg: Message) returns (reply: Reply, ghost states: seq<State>, ghost events: seq<Event>)
      requires v.TotalPreorder()
      modifies this
      ensures reply == NoKey <==> msg.key == []
      ensures reply == NilRecord <==> msg.key != [] && msg.rec == None
      ensures reply == KeyMismatch <==> msg.key != [] && msg.rec.Some? && msg.rec.value.0 != msg.key
      ensures reply == InvalidRecord <==>
              && msg.key != [] && msg.rec.Some? && msg.rec.value.0 == msg.key
              && !v.valid(msg.key, msg.rec.value.1)
      ensures reply == SelectFailed <==>
              && Refusal(v, msg) == None
              && Current(v, old(store), msg.key).Some?
              && v.fails(msg.key, msg.rec.value.1, Current(v, old(store), msg.key).value)
      ensures reply == Accepted <==>
              && Refusal(v, msg) == None
              && (Current(v, old(store), msg.key).Some? ==>
                    && !v.fails(msg.key, msg.rec.value.1, Current(v, old(store), msg.key).value)
                    && v.geq(msg.key, msg.rec.value.1, Current(v, old(store), msg.key).value))
      ensures store ==
              if reply == Accepted then old(store)[DsKey(msg.key) := Record(msg.key, msg.rec.value.1)] else old(store)
      ensures reply == Accepted || reply == OldRecord ==> AtLeast(v, store, msg.key, msg.rec.value.1)
      ensures Uninterrupted(v, states, events, 0) && states[0] == Alone(old(store), msg)
      ensures states[|events|] == State(store, map[], map[0 := Request(msg, Done(reply))])
    {
      states, events := UninterruptedRequest(v, Alone(store, msg), 0);
      if msg.key == [] {
        return NoKey, states, events;
      }
      if msg.rec == None {
        return NilRecord, states, events;
      }
      var (k, value) := msg.rec.value;
      if k != msg.key {
        return KeyMismatch, states, events;
      }
      if !v.valid(k, value) {
        return InvalidRecord, states, events;
      }
      var existing := GetRecordFromDatastore(k);
      if existing.Some? {
        if v.fails(k, value, existing.value) {
          return SelectFailed, states, events;
        }
        if !v.geq(k, value, existing.value) {
          return OldRecord, states, events;
        }
      }
      store := store[DsKey(k) := Record(k, value)];
      return Accepted, states, events;
    }

    method GetRecordFromDatastore(k: Key) returns (value: Option<Data>)
      ensures value == Current(v, store, k)
      ensures value == None <==>
              || DsKey(k) !in store
              || store[DsKey(k)] == Unreadable
              || !v.valid(store[DsKey(k)].key, store[DsKey(k)].value)
      ensures value.Some? ==> value.value == store[DsKey(k)].value
    {
      if DsKey(k) !in store {
        return None;
      }
      match store[DsKey(k)]
      case Unreadable => return None;
      case Record(k', value') =>
        if !v.valid(k', value') {
          return None;
        }
        return Some(value');
    }
  }
}
