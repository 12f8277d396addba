// The single-flight refresh of OAuth credentials, as steps of N concurrent
// callers over one credential pool.
module CredentialRefresh {
  import opened Wrappers

  datatype Credential = Credential(
    connectionId: Option<string>,
    token: string,
    refreshToken: Option<string>,
    expiresAt: Option<string>)

  // What the persist callback is handed for a connection.
  datatype Tokens = Tokens(token: string, refreshToken: Option<string>, expiresAt: Option<string>)

  // A token endpoint's usable answer. `rotated` is absent when the old refresh
  // token stays in force.
  datatype Reply = Reply(token: string, rotated: Option<string>, expiresAt: Option<string>)

  function TokensOf(c: Credential): Tokens {
    Tokens(c.token, c.refreshToken, c.expiresAt)
  }

  // Where a caller stands. `gen` is the generation of the slot it read its credential in,
  // `reply` the answer it works with; they are history, no code looks at them.
  datatype Phase =
    | Idle
    | Calling(index: nat, snapshot: Credential, gen: nat)
    | Waiting(index: nat, snapshot: Credential, gen: nat)
    | Holding(index: nat, snapshot: Credential, gen: nat)
    | Refreshing(index: nat, current: Credential, gen: nat)
    | Persisting(index: nat, current: Credential, gen: nat, refreshed: Credential, reply: Reply)
    | Installing(index: nat, updated: Credential, gen: nat, reply: Reply)
    | Retrying(index: nat, credential: Credential, gen: nat, rejected: Credential, rejectedGen: nat)

  // What happened at the token endpoint and in the pool, per slot and generation. A
  // contact with the endpoint is spoiled if it brings no usable answer, whatever became
  // of it on the way, and abandoned if the caller is gone before it gets one.
  datatype Event =
    | Contacted(index: nat, gen: nat)
    | Spoiled(index: nat, gen: nat)
    | Abandoned(index: nat, gen: nat)
    | PersistFailed(index: nat, gen: nat)
    | Installed(index: nat, gen: nat)

  // A usable answer and whether its credential was installed in the end.
  datatype Answer = Answer(reply: Reply, kept: bool)

  // A refresh token sent to the token endpoint for a slot and generation.
  datatype Spending = Spending(index: nat, gen: nat, token: string)

  datatype State = State(
    persists: bool,
    slots: seq<Credential>,
    locks: map<nat, Option<nat>>,
    callers: seq<Phase>,
    stored: map<string, Tokens>,
    // History: tokens ever issued, credentials each slot has held, events, the answers
    // for each slot that are settled, refresh tokens sent.
    issued: set<string>,
    history: seq<seq<Credential>>,
    log: seq<Event>,
    answers: seq<seq<Answer>>,
    spent: seq<Spending>)

  datatype Action =
    | Select(caller: nat, index: nat)
    | Answered(caller: nat)
    | Rejected(caller: nat)
    | Acquire(caller: nat)
    | Compare(caller: nat)
    | Exchange(caller: nat, reply: Option<Reply>)
    | Persist(caller: nat, accepted: bool)
    | Install(caller: nat)
    | Cancel(caller: nat, lost: Option<Reply>)

  // ---- The steps --------------------------------------------------------------

  predicate InCritical(p: Phase) {
    p.Holding? || p.Refreshing? || p.Persisting? || p.Installing?
  }

  predicate LockFree(s: State, i: nat) {
    i in s.locks ==> s.locks[i].None?
  }

  predicate Holds(s: State, i: nat, c: nat) {
    i in s.locks && s.locks[i] == Some(c)
  }

  function Generation(s: State, i: nat): nat {
    if i < |s.history| && s.history[i] != [] then |s.history[i]| - 1 else 0
  }

  predicate Enabled(s: State, a: Action) {
    && a.caller < |s.callers|
    && var p := s.callers[a.caller];
      match a
      case Select(_, i) => p.Idle? && i < |s.slots|
      case Answered(_) => p.Calling? || p.Retrying?
      case Rejected(_) => p.Calling?
      case Acquire(_) => p.Waiting? && LockFree(s, p.index)
      case Compare(_) => p.Holding? && p.index < |s.slots|
      // The issuer never hands out a token twice.
      case Exchange(_, reply) =>
        p.Refreshing? && p.current.refreshToken.Some? && (reply.Some? ==> reply.value.token !in s.issued)
      case Persist(_, _) => p.Persisting?
      case Install(_) => p.Installing? && p.index < |s.slots| && p.index < |s.history|
      // A dropped request abandons whatever it was awaiting, an answer included.
      case Cancel(_, lost) =>
        && (p.Calling? || p.Waiting? || p.Refreshing? || p.Retrying?)
        && (lost.Some? ==> p.Refreshing? && lost.value.token !in s.issued)
  }

  function RefreshedFrom(current: Credential, reply: Reply): Credential
    requires current.refreshToken.Some?
  {
    Credential(None, reply.token, Some(reply.rotated.UnwrapOr(current.refreshToken.value)), reply.expiresAt)
  }

  // Whether the persist step has a row to write.
  predicate HasRow(s: State, p: Phase)
    requires p.Persisting?
  {
    s.persists && p.current.connectionId.Some?
  }

  // The refreshed credential under the row of the one it replaces.
  function Updated(p: Phase): Credential
    requires p.Persisting?
  {
    p.refreshed.(connectionId := p.current.connectionId)
  }

  function NextPhase(s: State, a: Action): Phase
    requires Enabled(s, a)
  {
    var p := s.callers[a.caller];
    match a
    case Select(_, i) => Calling(i, s.slots[i], Generation(s, i))
    case Answered(_) => Idle
    case Rejected(_) => Waiting(p.index, p.snapshot, p.gen)
    case Acquire(_) => Holding(p.index, p.snapshot, p.gen)
    case Compare(_) =>
      if TokensOf(s.slots[p.index]) != TokensOf(p.snapshot) then
        Retrying(p.index, s.slots[p.index], Generation(s, p.index), p.snapshot, p.gen)
      else if s.slots[p.index].refreshToken.None? then Idle
      else Refreshing(p.index, s.slots[p.index], p.gen)
    case Exchange(_, reply) =>
      if reply.None? then Idle
      else Persisting(p.index, p.current, p.gen, RefreshedFrom(p.current, reply.value), reply.value)
    case Persist(_, accepted) =>
      if HasRow(s, p) && !accepted then Idle else Installing(p.index, Updated(p), p.gen, p.reply)
    case Install(_) => Retrying(p.index, p.updated, p.gen + 1, s.slots[p.index], p.gen)
    case Cancel(_, _) => Idle
  }

  // A lock is taken by Acquire and let go of by the step that leaves the refresh.
  function NextLocks(s: State, a: Action): map<nat, Option<nat>>
    requires Enabled(s, a)
  {
    var p := s.callers[a.caller];
    if a.Acquire? then s.locks[p.index := Some(a.caller)]
    else if InCritical(p) && !InCritical(NextPhase(s, a)) then s.locks[p.index := None]
    else s.locks
  }

  function NextStored(s: State, a: Action): map<string, Tokens>
    requires Enabled(s, a)
  {
    var p := s.callers[a.caller];
    if a.Persist? && HasRow(s, p) && a.accepted
    then s.stored[p.current.connectionId.value := TokensOf(Updated(p))] else s.stored
  }

  function Logged(s: State, a: Action): seq<Event>
    requires Enabled(s, a)
  {
    var p := s.callers[a.caller];
    if a.Compare? && NextPhase(s, a).Refreshing? then [Contacted(p.index, p.gen)]
    else if a.Exchange? && a.reply.None? then [Spoiled(p.index, p.gen)]
    else if a.Persist? && HasRow(s, p) && !a.accepted then [PersistFailed(p.index, p.gen)]
    else if a.Install? then [Installed(p.index, p.gen)]
    else if a.Cancel? && p.Refreshing? then [Abandoned(p.index, p.gen)]
    else []
  }

  // The tokens the endpoint hands out in a step.
  function Issued(a: Action): set<string> {
    match a
    case Exchange(_, Some(reply)) => {reply.token}
    case Cancel(_, Some(reply)) => {reply.token}
    case _ => {}
  }

  // An answer is settled when its credential is installed, or refused by the persist
  // callback, or when the caller is gone before it gets it.
  function Settled(s: State, a: Action): seq<Answer>
    requires Enabled(s, a)
  {
    var p := s.callers[a.caller];
    match a
    case Install(_) => [Answer(p.reply, true)]
    case Persist(_, accepted) => if HasRow(s, p) && !accepted then [Answer(p.reply, false)] else []
    case Cancel(_, Some(reply)) => [Answer(reply, false)]
    case _ => []
  }

  function NextAnswers(s: State, a: Action): seq<seq<Answer>>
    requires Enabled(s, a)
  {
    var p := s.callers[a.caller];
    if !p.Idle? && p.index < |s.answers| then s.answers[p.index := s.answers[p.index] + Settled(s, a)] else s.answers
  }

  // The refresh token a caller sends when the comparison decides on a refresh.
  function Sent(s: State, a: Action): seq<Spending>
    requires Enabled(s, a)
  {
    if a.Compare? && NextPhase(s, a).Refreshing? then
      var q := NextPhase(s, a);
      [Spending(q.index, q.gen, q.current.refreshToken.UnwrapOr(""))]
    else []
  }

  function Apply(s: State, a: Action): State
    requires Enabled(s, a)
  {
    var p := s.callers[a.caller];
    State(s.persists,
          if a.Install? then s.slots[p.index := p.updated] else s.slots,
          NextLocks(s, a),
          s.callers[a.caller := NextPhase(s, a)],
          NextStored(s, a),
          s.issued + Issued(a),
          if a.Install? then s.history[p.index := s.history[p.index] + [p.updated]] else s.history,
          s.log + Logged(s, a),
          NextAnswers(s, a),
          s.spent + Sent(s, a))
  }

  predicate CanRun(s: State, actions: seq<Action>)
    decreases |actions|
  {
    actions == [] || (Enabled(s, actions[0]) && CanRun(Apply(s, actions[0]), actions[1..]))
  }

  function Run(s: State, actions: seq<Action>): State
    requires CanRun(s, actions)
    decreases |actions|
  {
    if actions == [] then s else Run(Apply(s, actions[0]), actions[1..])
  }

  // ---- Initial states and the invariant --------------------------------------

  // Distinct rows, each stored as it was loaded; nobody is calling yet.
  ghost predicate Initial(s: State) {
    && |s.history| == |s.slots|
    && (forall i :: 0 <= i < |s.slots| ==> s.history[i] == [s.slots[i]] && s.slots[i].token in s.issued)
    && (forall i :: i in s.locks ==> s.locks[i].None?)
    && (forall c :: 0 <= c < |s.callers| ==> s.callers[c].Idle?)
    && s.log == [] && s.spent == [] && s.answers == seq(|s.slots|, _ => [])
    && DistinctRows(s)
    && (forall i :: 0 <= i < |s.slots| ==> StoredIs(s, i, s.slots[i]))
  }

  ghost predicate DistinctRows(s: State) {
    forall i, j :: 0 <= i < j < |s.slots| && s.slots[i].connectionId.Some? ==>
      s.slots[i].connectionId != s.slots[j].connectionId
  }

  // The store holds the tokens of `c` for slot i's row, if that row is stored at all.
  ghost predicate StoredIs(s: State, i: nat, c: Credential)
    requires i < |s.slots|
  {
    var id := s.slots[i].connectionId;
    s.persists && id.Some? ==> id.value in s.stored && s.stored[id.value] == TokensOf(c)
  }

  ghost predicate SlotHistoryOk(s: State, i: nat)
    requires i < |s.slots| && |s.history| == |s.slots|
  {
    var h := s.history[i];
    && h != []
    && h[|h| - 1] == s.slots[i]
    && (forall g :: 0 <= g < |h| ==> h[g].token in s.issued && h[g].connectionId == s.slots[i].connectionId)
    && (forall g, k :: 0 <= g < k < |h| ==> h[g].token != h[k].token)
  }

  // Read credentials belong to the generation they were read in; the holder of a
  // lock works on the current one.
  ghost predicate CallerOk(s: State, c: nat)
    requires c < |s.callers| && |s.history| == |s.slots|
  {
    var p := s.callers[c];
    p.Idle? || (
      && p.index < |s.slots|
      && (InCritical(p) <==> (p.index in s.locks && s.locks[p.index] == Some(c)))
      && var h := s.history[p.index];
        match p
        case Idle => true
        case Calling(_, snapshot, gen) => gen < |h| && snapshot == h[gen]
        case Waiting(_, snapshot, gen) => gen < |h| && snapshot == h[gen]
        case Holding(_, snapshot, gen) => gen < |h| && snapshot == h[gen]
        case Refreshing(_, current, gen) =>
          gen == |h| - 1 && current == s.slots[p.index] && current.refreshToken.Some?
        case Persisting(_, current, gen, refreshed, _) =>
          gen == |h| - 1 && current == s.slots[p.index] && FreshFor(s, p.index, refreshed.token)
        case Installing(_, updated, gen, _) =>
          && gen == |h| - 1
          && updated.connectionId == s.slots[p.index].connectionId
          && FreshFor(s, p.index, updated.token)
        case Retrying(_, credential, gen, rejected, rejectedGen) =>
          && rejectedGen < gen < |h|
          && credential == h[gen] && rejected == h[rejectedGen])
  }

  ghost predicate FreshFor(s: State, i: nat, token: string)
    requires i < |s.history|
  {
    token in s.issued && forall g :: 0 <= g < |s.history[i]| ==> s.history[i][g].token != token
  }

  ghost predicate LockOk(s: State, i: nat)
    requires i in s.locks
  {
    s.locks[i].Some? ==>
      && s.locks[i].value < |s.callers|
      && InCritical(s.callers[s.locks[i].value])
      && s.callers[s.locks[i].value].index == i
  }

  // The credential whose tokens are in the store: the slot's, or the one about to
  // be installed.
  function Accepted(s: State, i: nat): Credential
    requires i < |s.slots|
  {
    if i in s.locks && s.locks[i].Some? && s.locks[i].value < |s.callers|
       && s.callers[s.locks[i].value].Installing?
    then s.callers[s.locks[i].value].updated
    else s.slots[i]
  }

  predicate Contacting(p: Phase) {
    p.Refreshing? || p.Persisting? || p.Installing?
  }

  // Contacts not yet settled, one at most, by the holder of the lock.
  function Pending(s: State, i: nat, gen: nat): nat {
    if i in s.locks && s.locks[i].Some? && s.locks[i].value < |s.callers|
       && Contacting(s.callers[s.locks[i].value])
       && s.callers[s.locks[i].value].gen == gen
    then 1 else 0
  }

  function Count(log: seq<Event>, e: Event): nat {
    if log == [] then 0
    else Count(log[..|log| - 1], e) + if log[|log| - 1] == e then 1 else 0
  }

  // The contacts that came to nothing: without a usable answer, abandoned, or refused by
  // the persist callback.
  function Wasted(log: seq<Event>, i: nat, gen: nat): nat {
    Count(log, Spoiled(i, gen)) + Count(log, Abandoned(i, gen)) + Count(log, PersistFailed(i, gen))
  }

  ghost predicate LedgerOk(s: State, i: nat, gen: nat)
    requires i < |s.slots| && |s.history| == |s.slots|
  {
    && Count(s.log, Contacted(i, gen)) == Wasted(s.log, i, gen) + Count(s.log, Installed(i, gen)) + Pending(s, i, gen)
    && Count(s.log, Installed(i, gen)) == if gen + 1 < |s.history[i]| then 1 else 0
  }

  ghost predicate Invariant(s: State) {
    && |s.history| == |s.slots|
    && DistinctRows(s)
    && (forall i :: 0 <= i < |s.slots| ==> SlotHistoryOk(s, i))
    && (forall c :: 0 <= c < |s.callers| ==> CallerOk(s, c))
    && (forall i :: i in s.locks ==> LockOk(s, i))
    && (forall i :: 0 <= i < |s.slots| ==> StoredIs(s, i, Accepted(s, i)))
    && (forall i, gen: nat :: 0 <= i < |s.slots| ==> LedgerOk(s, i, gen))
  }

  // ---- Every step keeps the invariant ------------------------------------------

  lemma CountLast(log: seq<Event>, added: Event, e: Event)
    ensures Count(log + [added], e) == Count(log, e) + if added == e then 1 else 0
  {
    assert (log + [added])[..|log|] == log;
  }

  lemma StepKeepsSlot(s: State, a: Action, i: nat)
    requires Enabled(s, a) && |s.history| == |s.slots| && CallerOk(s, a.caller)
    requires i < |s.slots| && SlotHistoryOk(s, i)
    ensures |Apply(s, a).history| == |Apply(s, a).slots| == |s.slots|
    ensures SlotHistoryOk(Apply(s, a), i)
    ensures Apply(s, a).slots[i].connectionId == s.slots[i].connectionId
  {
  }

  lemma StepKeepsSlots(s: State, a: Action)
    requires Invariant(s) && Enabled(s, a)
    ensures var t := Apply(s, a);
            |t.history| == |t.slots| == |s.slots| && DistinctRows(t)
            && forall i :: 0 <= i < |t.slots| ==> SlotHistoryOk(t, i)
  {
    forall i | 0 <= i < |s.slots|
      ensures |Apply(s, a).history| == |Apply(s, a).slots| == |s.slots|
      ensures SlotHistoryOk(Apply(s, a), i) && Apply(s, a).slots[i].connectionId == s.slots[i].connectionId
    {
      StepKeepsSlot(s, a, i);
    }
    assert CallerOk(s, a.caller);
  }

  lemma StepKeepsLock(s: State, a: Action, i: nat)
    requires Enabled(s, a) && |s.history| == |s.slots| && CallerOk(s, a.caller)
    requires i in s.locks ==> LockOk(s, i)
    ensures i in Apply(s, a).locks ==> LockOk(Apply(s, a), i)
  {
  }

  lemma StepKeepsLocks(s: State, a: Action)
    requires Invariant(s) && Enabled(s, a)
    ensures forall i :: i in Apply(s, a).locks ==> LockOk(Apply(s, a), i)
  {
    forall i | i in Apply(s, a).locks ensures LockOk(Apply(s, a), i) {
      StepKeepsLock(s, a, i);
    }
  }

  // What a step by one caller leaves alone for another caller `c`.
  lemma StepFrame(s: State, a: Action, c: nat)
    requires Enabled(s, a) && |s.history| == |s.slots| && CallerOk(s, a.caller)
    requires c < |s.callers| && c != a.caller
    ensures var t := Apply(s, a);
            && t.callers[c] == s.callers[c]
            && s.issued <= t.issued
            && |t.slots| == |s.slots| == |t.history|
            && forall i :: 0 <= i < |s.slots| ==>
                 && (Holds(t, i, c) <==> Holds(s, i, c))
                 && s.history[i] <= t.history[i]
                 && t.slots[i].connectionId == s.slots[i].connectionId
                 && (Holds(s, i, c) ==> t.slots[i] == s.slots[i] && t.history[i] == s.history[i])
  {
  }

  // A step leaves every other caller as well placed as it was.
  lemma StepKeepsOthers(s: State, a: Action, c: nat)
    requires Invariant(s) && Enabled(s, a) && c < |s.callers| && c != a.caller
    ensures |Apply(s, a).history| == |Apply(s, a).slots| && CallerOk(Apply(s, a), c)
  {
    assert CallerOk(s, a.caller) && CallerOk(s, c);
    StepFrame(s, a, c);
    CallerFrame(s, Apply(s, a), c);
  }

  lemma CallerFrame(s: State, t: State, c: nat)
    requires |s.history| == |s.slots| == |t.slots| == |t.history|
    requires c < |s.callers| == |t.callers| && t.callers[c] == s.callers[c] && s.issued <= t.issued
    requires forall i :: 0 <= i < |s.slots| ==>
               && (Holds(t, i, c) <==> Holds(s, i, c))
               && s.history[i] <= t.history[i]
               && t.slots[i].connectionId == s.slots[i].connectionId
               && (Holds(s, i, c) ==> t.slots[i] == s.slots[i] && t.history[i] == s.history[i])
    requires CallerOk(s, c)
    ensures CallerOk(t, c)
  {
    var p := s.callers[c];
    if !p.Idle? {
      assert Holds(t, p.index, c) <==> Holds(s, p.index, c);
    }
  }

  lemma StepKeepsActor(s: State, a: Action)
    requires Enabled(s, a) && |s.history| == |s.slots| && CallerOk(s, a.caller)
    requires var i := if a.Select? then a.index else s.callers[a.caller].index;
             SlotHistoryOk(s, i) && (i in s.locks ==> LockOk(s, i))
    ensures |Apply(s, a).history| == |Apply(s, a).slots| && CallerOk(Apply(s, a), a.caller)
  {
  }

  lemma StepKeepsCallers(s: State, a: Action)
    requires Invariant(s) && Enabled(s, a)
    ensures |Apply(s, a).history| == |Apply(s, a).slots|
    ensures forall c :: 0 <= c < |s.callers| ==> CallerOk(Apply(s, a), c)
  {
    assert CallerOk(s, a.caller);
    var i := if a.Select? then a.index else s.callers[a.caller].index;
    assert SlotHistoryOk(s, i);
    StepKeepsActor(s, a);
    forall c | 0 <= c < |s.callers| ensures CallerOk(Apply(s, a), c) {
      if c != a.caller {
        StepKeepsOthers(s, a, c);
      }
    }
  }

  lemma StepKeepsStored(s: State, a: Action, i: nat)
    requires Enabled(s, a) && |s.history| == |s.slots| && CallerOk(s, a.caller) && DistinctRows(s)
    requires i < |s.slots| && StoredIs(s, i, Accepted(s, i))
    requires i in s.locks ==> LockOk(s, i)
    ensures |Apply(s, a).slots| == |s.slots| && StoredIs(Apply(s, a), i, Accepted(Apply(s, a), i))
  {
  }

  lemma StepKeepsStore(s: State, a: Action)
    requires Invariant(s) && Enabled(s, a)
    ensures var t := Apply(s, a);
            |t.slots| == |s.slots| && forall i :: 0 <= i < |t.slots| ==> StoredIs(t, i, Accepted(t, i))
  {
    assert CallerOk(s, a.caller);
    forall i | 0 <= i < |s.slots|
      ensures |Apply(s, a).slots| == |s.slots| && StoredIs(Apply(s, a), i, Accepted(Apply(s, a), i))
    {
      StepKeepsStored(s, a, i);
    }
  }

  // Whether the event says that a contact came to nothing.
  predicate IsWaste(e: Event, i: nat, gen: nat) {
    e == Spoiled(i, gen) || e == Abandoned(i, gen) || e == PersistFailed(i, gen)
  }

  lemma WastedLast(log: seq<Event>, added: Event, i: nat, gen: nat)
    ensures Wasted(log + [added], i, gen) == Wasted(log, i, gen) + if IsWaste(added, i, gen) then 1 else 0
  {
    CountLast(log, added, Spoiled(i, gen));
    CountLast(log, added, Abandoned(i, gen));
    CountLast(log, added, PersistFailed(i, gen));
  }

  lemma CountAll(log: seq<Event>, added: Event, i: nat, gen: nat)
    ensures var more := log + [added];
            && Count(more, Contacted(i, gen)) == Count(log, Contacted(i, gen))
               + (if added == Contacted(i, gen) then 1 else 0)
            && Wasted(more, i, gen) == Wasted(log, i, gen) + (if IsWaste(added, i, gen) then 1 else 0)
            && Count(more, Installed(i, gen)) == Count(log, Installed(i, gen))
               + (if added == Installed(i, gen) then 1 else 0)
  {
    CountLast(log, added, Contacted(i, gen));
    WastedLast(log, added, i, gen);
    CountLast(log, added, Installed(i, gen));
  }

  // The slot and generation the acting caller may settle.
  predicate Settles(s: State, a: Action, i: nat, gen: nat)
    requires a.caller < |s.callers|
  {
    var p := s.callers[a.caller];
    InCritical(p) && p.index == i && p.gen == gen
  }

  lemma StepKeepsPending(s: State, a: Action, i: nat, gen: nat)
    requires Enabled(s, a) && |s.history| == |s.slots| && i < |s.slots|
    requires CallerOk(s, a.caller) && (i in s.locks ==> LockOk(s, i))
    requires !Settles(s, a, i, gen)
    ensures Pending(Apply(s, a), i, gen) == Pending(s, i, gen)
  {
  }

  lemma StepLogs(s: State, a: Action, i: nat, gen: nat)
    requires Enabled(s, a)
    ensures var t := Apply(s, a); var event := Logged(s, a);
            && Count(t.log, Contacted(i, gen)) == Count(s.log, Contacted(i, gen))
               + (if event == [Contacted(i, gen)] then 1 else 0)
            && Wasted(t.log, i, gen) == Wasted(s.log, i, gen)
               + (if event != [] && IsWaste(event[0], i, gen) then 1 else 0)
            && Count(t.log, Installed(i, gen)) == Count(s.log, Installed(i, gen))
               + (if event == [Installed(i, gen)] then 1 else 0)
  {
    var event := Logged(s, a);
    if event == [] {
      assert s.log + event == s.log;
    } else {
      assert s.log + event == s.log + [event[0]];
      CountAll(s.log, event[0], i, gen);
    }
  }

  lemma SettlingKeepsPending(s: State, a: Action, i: nat, gen: nat)
    requires Invariant(s) && Enabled(s, a) && i < |s.slots|
    requires Settles(s, a, i, gen)
    ensures Pending(s, i, gen) == if s.callers[a.caller].Holding? then 0 else 1
    ensures Pending(Apply(s, a), i, gen)
         == if Logged(s, a) == [Contacted(i, gen)] then 1
            else if Logged(s, a) == [] then Pending(s, i, gen) else 0
  {
    assert CallerOk(s, a.caller);
    assert LockOk(s, i);
  }

  lemma OthersLogNothing(s: State, a: Action, i: nat, gen: nat)
    requires Enabled(s, a) && i < |s.slots| == |s.history| && CallerOk(s, a.caller)
    requires !Settles(s, a, i, gen)
    ensures var event := Logged(s, a);
            event == []
            || (event[0] != Contacted(i, gen) && event[0] != Installed(i, gen) && !IsWaste(event[0], i, gen))
    ensures |Apply(s, a).slots| == |s.slots| == |Apply(s, a).history|
    ensures gen + 1 < |Apply(s, a).history[i]| <==> gen + 1 < |s.history[i]|
  {
  }

  // A step that settles nothing of the generation logs nothing of it either.
  lemma OthersKeepLedger(s: State, a: Action, i: nat, gen: nat)
    requires Enabled(s, a) && i < |s.slots| == |s.history| && CallerOk(s, a.caller) && LedgerOk(s, i, gen)
    requires !Settles(s, a, i, gen) && Pending(Apply(s, a), i, gen) == Pending(s, i, gen)
    ensures |Apply(s, a).slots| == |s.slots| == |Apply(s, a).history| && LedgerOk(Apply(s, a), i, gen)
  {
    StepLogs(s, a, i, gen);
    OthersLogNothing(s, a, i, gen);
  }

  lemma SettlingKeepsLedger(s: State, a: Action, i: nat, gen: nat)
    requires Enabled(s, a) && i < |s.slots| == |s.history| && CallerOk(s, a.caller) && LedgerOk(s, i, gen)
    requires Settles(s, a, i, gen)
    requires Pending(s, i, gen) == if s.callers[a.caller].Holding? then 0 else 1
    requires Pending(Apply(s, a), i, gen)
          == if Logged(s, a) == [Contacted(i, gen)] then 1
             else if Logged(s, a) == [] then Pending(s, i, gen) else 0
    ensures |Apply(s, a).slots| == |s.slots| == |Apply(s, a).history| && LedgerOk(Apply(s, a), i, gen)
  {
    StepLogs(s, a, i, gen);
  }

  lemma StepKeepsLedger(s: State, a: Action, i: nat, gen: nat)
    requires Invariant(s) && Enabled(s, a) && i < |s.slots|
    ensures |Apply(s, a).slots| == |s.slots| == |Apply(s, a).history|
    ensures LedgerOk(Apply(s, a), i, gen)
  {
    assert CallerOk(s, a.caller) && LedgerOk(s, i, gen);
    if Settles(s, a, i, gen) {
      SettlingKeepsPending(s, a, i, gen);
      SettlingKeepsLedger(s, a, i, gen);
    } else {
      StepKeepsPending(s, a, i, gen);
      OthersKeepLedger(s, a, i, gen);
    }
  }

  lemma StepKeepsInvariant(s: State, a: Action)
    requires Invariant(s) && Enabled(s, a)
    ensures Invariant(Apply(s, a))
  {
    StepKeepsSlots(s, a);
    StepKeepsLocks(s, a);
    StepKeepsCallers(s, a);
    StepKeepsStore(s, a);
    forall i, gen: nat | 0 <= i < |s.slots| ensures LedgerOk(Apply(s, a), i, gen) {
      StepKeepsLedger(s, a, i, gen);
    }
  }

  lemma InitialInvariant(s: State)
    requires Initial(s)
    ensures Invariant(s)
  {
    forall i, gen: nat | 0 <= i < |s.slots| ensures LedgerOk(s, i, gen) {
      assert s.history[i] == [s.slots[i]];
    }
  }

  lemma {:induction false} RunKeepsInvariant(s: State, actions: seq<Action>)
    requires Invariant(s) && CanRun(s, actions)
    ensures Invariant(Run(s, actions))
    decreases |actions|
  {
    if actions != [] {
      StepKeepsInvariant(s, actions[0]);
      RunKeepsInvariant(Apply(s, actions[0]), actions[1..]);
    }
  }

  // ---- What holds in every interleaving ---------------------------------------

  ghost predicate ReachedBy(s0: State, actions: seq<Action>, s: State) {
    Initial(s0) && CanRun(s0, actions) && Run(s0, actions) == s
  }

  ghost predicate Reachable(s: State) {
    exists s0, actions :: ReachedBy(s0, actions, s)
  }

  lemma ReachableInvariant(s: State)
    requires Reachable(s)
    ensures Invariant(s)
  {
    var s0, actions :| ReachedBy(s0, actions, s);
    InitialInvariant(s0);
    RunKeepsInvariant(s0, actions);
  }

  // Two callers are never inside the refresh of one slot together.
  lemma OneCallerPerSlot(s: State, c: nat, d: nat)
    requires Reachable(s) && c < |s.callers| && d < |s.callers|
    requires InCritical(s.callers[c]) && InCritical(s.callers[d])
    requires s.callers[c].index == s.callers[d].index
    ensures c == d
  {
    ReachableInvariant(s);
    assert CallerOk(s, c) && CallerOk(s, d);
  }

  // A slot changes only by its lock holder's install, which puts a token there
  // that the slot never held, under the row the slot always had.
  lemma SlotChangesOnlyUnderItsLock(s: State, a: Action, i: nat)
    requires Reachable(s) && Enabled(s, a) && i < |s.slots|
    requires Apply(s, a).slots[i] != s.slots[i]
    ensures a.Install? && Holds(s, i, a.caller)
    ensures Apply(s, a).slots[i].connectionId == s.slots[i].connectionId
    ensures forall g :: 0 <= g < |s.history[i]| ==> s.history[i][g].token != Apply(s, a).slots[i].token
    ensures s.persists && s.slots[i].connectionId.Some? ==>
              s.slots[i].connectionId.value in s.stored
              && s.stored[s.slots[i].connectionId.value] == TokensOf(Apply(s, a).slots[i])
  {
    ReachableInvariant(s);
    assert CallerOk(s, a.caller);
    assert StoredIs(s, i, Accepted(s, i));
  }

  lemma CompareDecides(s: State, c: nat)
    requires c < |s.callers| && s.callers[c].Holding? && |s.history| == |s.slots|
    requires CallerOk(s, c) && SlotHistoryOk(s, s.callers[c].index)
    ensures Enabled(s, Compare(c))
    ensures var p := s.callers[c]; var q := NextPhase(s, Compare(c));
            && (q.Refreshing? <==> p.gen == |s.history[p.index]| - 1 && p.snapshot.refreshToken.Some?)
            && (p.gen < |s.history[p.index]| - 1 ==> q.Retrying? && q.credential == s.slots[p.index])
  {
    var h := s.history[s.callers[c].index];
    assert h[|h| - 1] == s.slots[s.callers[c].index];
  }

  lemma CompareLetsGo(s: State, c: nat)
    requires Enabled(s, Compare(c))
    ensures Apply(s, Compare(c)).callers[c] == NextPhase(s, Compare(c))
    ensures NextPhase(s, Compare(c)).Retrying? ==> LockFree(Apply(s, Compare(c)), s.callers[c].index)
  {
  }

  lemma CallerStands(s: State, c: nat)
    requires Invariant(s) && c < |s.callers|
    ensures |s.history| == |s.slots| && CallerOk(s, c)
    ensures !s.callers[c].Idle? ==> SlotHistoryOk(s, s.callers[c].index)
  {
  }

  lemma ReachableCaller(s: State, c: nat)
    requires Reachable(s) && c < |s.callers|
    ensures |s.history| == |s.slots| && CallerOk(s, c)
    ensures !s.callers[c].Idle? ==> SlotHistoryOk(s, s.callers[c].index)
  {
    ReachableInvariant(s);
    CallerStands(s, c);
  }

  // A caller that reaches the compare step contacts the token endpoint exactly when
  // its snapshot is still the slot's current generation and can be refreshed; with
  // an older snapshot it leaves with the current credential instead.
  lemma OnlyCurrentSnapshotsRefresh(s: State, c: nat)
    requires Reachable(s) && c < |s.callers| && s.callers[c].Holding?
    ensures Enabled(s, Compare(c)) && |s.history| == |s.slots|
    ensures var p := s.callers[c]; var q := Apply(s, Compare(c)).callers[c];
            && (q.Refreshing? <==> p.gen == |s.history[p.index]| - 1 && p.snapshot.refreshToken.Some?)
            && (p.gen < |s.history[p.index]| - 1 ==>
                  q.Retrying? && q.credential == s.slots[p.index]
                  && LockFree(Apply(s, Compare(c)), p.index))
  {
    ReachableCaller(s, c);
    CompareDecides(s, c);
    CompareLetsGo(s, c);
  }

  // While a refresh is under way the slot it refreshes stands still.
  lemma RefreshWorksOnCurrent(s: State, c: nat)
    requires Reachable(s) && c < |s.callers|
    requires s.callers[c].Refreshing? || s.callers[c].Persisting?
    ensures |s.history| == |s.slots|
    ensures var p := s.callers[c];
            && p.index < |s.slots| && p.current == s.slots[p.index]
            && p.gen == |s.history[p.index]| - 1 && Holds(s, p.index, c)
  {
    ReachableInvariant(s);
    assert CallerOk(s, c);
    assert SlotHistoryOk(s, s.callers[c].index);
  }

  // A contact under way is one for the current generation.
  lemma PendingIsCurrent(s: State, i: nat, gen: nat)
    requires Invariant(s) && i < |s.slots|
    ensures |s.history| == |s.slots|
    ensures Pending(s, i, gen) > 0 ==> !LockFree(s, i) && gen == |s.history[i]| - 1
  {
    if Pending(s, i, gen) > 0 {
      assert LockOk(s, i);
      assert CallerOk(s, s.locks[i].value);
    }
  }

  lemma ReachableLedger(s: State, i: nat, gen: nat)
    requires Reachable(s) && i < |s.slots|
    ensures |s.history| == |s.slots| && LedgerOk(s, i, gen)
    ensures Pending(s, i, gen) > 0 ==> !LockFree(s, i) && gen == |s.history[i]| - 1
  {
    ReachableInvariant(s);
    PendingIsCurrent(s, i, gen);
  }

  // Each generation is replaced at most once, and the token endpoint is contacted for it
  // at most once more than contacts came to nothing. While the lock is free, every contact
  // came to nothing or replaced the generation.
  lemma EachGenerationReplacedOnce(s: State, i: nat, gen: nat)
    requires Reachable(s) && i < |s.slots|
    ensures |s.history| == |s.slots|
    ensures Count(s.log, Installed(i, gen)) == if gen < |s.history[i]| - 1 then 1 else 0
    ensures Wasted(s.log, i, gen) <= Count(s.log, Contacted(i, gen)) <= Wasted(s.log, i, gen) + 1
    ensures LockFree(s, i) ==>
              Count(s.log, Contacted(i, gen)) == Wasted(s.log, i, gen) + Count(s.log, Installed(i, gen))
  {
    ReachableLedger(s, i, gen);
  }

  // Whenever a slot's lock is free, its row holds the slot's own tokens.
  lemma StoreAgreesWhenFree(s: State, i: nat)
    requires Reachable(s) && i < |s.slots| && LockFree(s, i)
    requires s.persists && s.slots[i].connectionId.Some?
    ensures s.slots[i].connectionId.value in s.stored
    ensures var row := s.stored[s.slots[i].connectionId.value];
            && row.token == s.slots[i].token && row.refreshToken == s.slots[i].refreshToken
            && row.expiresAt == s.slots[i].expiresAt
  {
    ReachableInvariant(s);
    assert StoredIs(s, i, Accepted(s, i));
  }

  // A retry after a refresh carries a later credential, never the rejected token.
  lemma RetryCarriesANewToken(s: State, c: nat)
    requires Reachable(s) && c < |s.callers| && s.callers[c].Retrying?
    ensures var p := s.callers[c];
            p.rejectedGen < p.gen && p.credential.token != p.rejected.token
  {
    ReachableInvariant(s);
    assert CallerOk(s, c);
    assert SlotHistoryOk(s, s.callers[c].index);
  }

  // The ways on a caller has, whatever an answer or the persist callback may bring.
  predicate WaysOpen(s: State, c: nat, reply: Reply, accepted: bool, i: nat)
    requires c < |s.callers|
  {
    var (p, unseen) := (s.callers[c], reply.token !in s.issued);
    && (p.Idle? ==> Enabled(s, Select(c, i)))
    && (p.Calling? ==> Enabled(s, Rejected(c)))
    && (p.Calling? || p.Retrying? ==> Enabled(s, Answered(c)))
    && (p.Waiting? ==> (Enabled(s, Acquire(c)) <==> LockFree(s, p.index)))
    && (p.Holding? ==> Enabled(s, Compare(c)))
    && (p.Refreshing? ==> Enabled(s, Exchange(c, None)) && (unseen ==> Enabled(s, Exchange(c, Some(reply)))))
    && (p.Refreshing? && unseen ==> Enabled(s, Cancel(c, Some(reply))))
    && (p.Calling? || p.Waiting? || p.Refreshing? || p.Retrying? ==> Enabled(s, Cancel(c, None)))
    && (p.Persisting? ==> Enabled(s, Persist(c, accepted)))
    && (p.Installing? ==> Enabled(s, Install(c)))
  }

  lemma PlacedCallerCanMove(s: State, c: nat, reply: Reply, accepted: bool, i: nat)
    requires c < |s.callers| && i < |s.slots| == |s.history| && CallerOk(s, c)
    ensures WaysOpen(s, c, reply, accepted, i)
  {
  }

  // Nobody is ever stuck, unless waiting for a lock another caller holds: whatever the
  // others do, each phase has all the ways on that its code has.
  lemma EveryWayIsOpen(s: State, c: nat, reply: Reply, accepted: bool, i: nat)
    requires Reachable(s) && c < |s.callers| && i < |s.slots|
    ensures WaysOpen(s, c, reply, accepted, i)
  {
    ReachableCaller(s, c);
    PlacedCallerCanMove(s, c, reply, accepted, i);
  }

  // Steps left before the holder in phase `p` lets go of its lock.
  function StepsLeft(p: Phase): nat {
    match p
    case Holding(_, _, _) => 4
    case Refreshing(_, _, _) => 3
    case Persisting(_, _, _, _, _) => 2
    case Installing(_, _, _, _) => 1
    case _ => 0
  }

  // A step the holder in phase `p` can take whatever the others do: a token endpoint
  // may fail to answer, but it does not hold the lock for ever.
  function WayOut(p: Phase, c: nat): Action {
    if p.Holding? then Compare(c)
    else if p.Refreshing? then Exchange(c, None)
    else if p.Persisting? then Persist(c, true)
    else Install(c)
  }

  lemma HolderStep(s: State, i: nat, c: nat)
    requires |s.history| == |s.slots| && c < |s.callers|
    requires CallerOk(s, c) && InCritical(s.callers[c]) && s.callers[c].index == i
    ensures Enabled(s, WayOut(s.callers[c], c))
    ensures var t := Apply(s, WayOut(s.callers[c], c));
            LockFree(t, i) || (t.locks == s.locks && StepsLeft(t.callers[c]) < StepsLeft(s.callers[c]))
  {
    var a := WayOut(s.callers[c], c);
    assert Apply(s, a).callers[c] == NextPhase(s, a);
  }

  // No lock is ever stuck: its holder has a step that frees it or brings it closer.
  lemma HolderCanLetGo(s: State, i: nat, c: nat)
    requires Reachable(s) && Holds(s, i, c)
    ensures c < |s.callers| && Enabled(s, WayOut(s.callers[c], c))
    ensures var t := Apply(s, WayOut(s.callers[c], c));
            LockFree(t, i) || (t.locks == s.locks && StepsLeft(t.callers[c]) < StepsLeft(s.callers[c]))
  {
    ReachableInvariant(s);
    assert LockOk(s, i);
    assert CallerOk(s, c);
    HolderStep(s, i, c);
  }
}
