// The write-behind queue: lines are offered to a bounded channel and one thread appends
// them to the file. A flush waits for everything that was accepted before it.
module SignatureWriter {
  import opened Wrappers
  import SignatureStore

  const QUEUE_DEPTH := 256

  // A line of the file, as the store prints it.
  type Text = SignatureStore.Line

  datatype Message = Line(text: Text) | Flush(ticket: nat)

  // What the file held at first (`loaded`), what the writer was given (`accepted`), what
  // it is done with (`settled`, with whether the append worked), and how many lines were
  // accepted before each flush.
  datatype State = State(
    queue: seq<Message>, hand: Option<Message>, file: seq<Text>, dropped: nat, loaded: seq<Text>,
    recorded: nat, accepted: seq<Text>, settled: seq<(Text, bool)>, marks: map<nat, nat>, acked: set<nat>)

  datatype Action =
    | Offer(text: Text)        // a recording thread, which never waits
    | Send(ticket: nat)          // a flushing thread, which waits for room
    | Take                       // the writer thread
    | Write(worked: bool)
    | Answer

  function Initial(file: seq<Text>): State {
    State([], None, file, 0, file, 0, [], [], map[], {})
  }

  predicate Enabled(s: State, a: Action) {
    match a
    case Offer(_) => true
    case Send(t) => |s.queue| < QUEUE_DEPTH && t !in s.marks
    case Take => s.hand.None? && s.queue != []
    case Write(_) => s.hand.Some? && s.hand.value.Line?
    case Answer => s.hand.Some? && s.hand.value.Flush?
  }

  function Step(s: State, a: Action): State
    requires Enabled(s, a)
  {
    match a
    case Offer(text) =>
      if |s.queue| < QUEUE_DEPTH
      then s.(queue := s.queue + [Line(text)], recorded := s.recorded + 1, accepted := s.accepted + [text])
      else s.(recorded := s.recorded + 1, dropped := s.dropped + 1)
    case Send(t) => s.(queue := s.queue + [Flush(t)], marks := s.marks[t := |s.accepted|])
    case Take => s.(queue := s.queue[1..], hand := Some(s.queue[0]))
    case Write(worked) =>
      var text := s.hand.value.text;
      s.(hand := None, settled := s.settled + [(text, worked)], file := if worked then s.file + [text] else s.file)
    case Answer => s.(hand := None, acked := s.acked + {s.hand.value.ticket})
  }

  predicate Feasible(s: State, actions: seq<Action>)
    decreases |actions|
  {
    actions != [] ==> Enabled(s, actions[0]) && Feasible(Step(s, actions[0]), actions[1..])
  }

  function Run(s: State, actions: seq<Action>): State
    requires Feasible(s, actions)
    decreases |actions|
  {
    if actions == [] then s else Run(Step(s, actions[0]), actions[1..])
  }

  // ---- Invariant --------------------------------------------------------------

  function Lines(messages: seq<Message>): seq<Text> {
    if messages == [] then []
    else
      var last := messages[|messages| - 1];
      Lines(messages[..|messages| - 1]) + if last.Line? then [last.text] else []
  }

  function Texts(settled: seq<(Text, bool)>): seq<Text> {
    if settled == [] then [] else Texts(settled[..|settled| - 1]) + [settled[|settled| - 1].0]
  }

  function Appended(settled: seq<(Text, bool)>): seq<Text> {
    if settled == [] then []
    else
      var last := settled[|settled| - 1];
      Appended(settled[..|settled| - 1]) + if last.1 then [last.0] else []
  }

  // Everything the writer still has before it, in order.
  function Ahead(s: State): seq<Message> {
    (if s.hand.Some? then [s.hand.value] else []) + s.queue
  }

  // Each flush waiting stands right behind the lines accepted before it.
  ghost predicate InPlace(ahead: seq<Message>, marks: map<nat, nat>, settled: nat)
    decreases |ahead|
  {
    ahead != [] ==>
      if ahead[0].Line? then InPlace(ahead[1..], marks, settled + 1)
      else ahead[0].ticket in marks && marks[ahead[0].ticket] == settled && InPlace(ahead[1..], marks, settled)
  }

  function Tickets(ahead: seq<Message>): set<nat> {
    if ahead == [] then {} else (if ahead[0].Flush? then {ahead[0].ticket} else {}) + Tickets(ahead[1..])
  }

  // Every flush sent is answered, and then everything before it settled, or still ahead.
  ghost predicate Flushes(ahead: seq<Message>, marks: map<nat, nat>, acked: set<nat>, settled: nat) {
    && InPlace(ahead, marks, settled)
    && marks.Keys == acked + Tickets(ahead)
    && (forall t :: t in acked ==> t in marks && marks[t] <= settled)
  }

  ghost predicate Invariant(s: State) {
    && s.accepted == Texts(s.settled) + Lines(Ahead(s))
    && s.file == s.loaded + Appended(s.settled)
    && s.recorded == |s.accepted| + s.dropped
    && |s.queue| <= QUEUE_DEPTH
    && Flushes(Ahead(s), s.marks, s.acked, |s.settled|)
  }

  lemma {:induction false} LinesConcat(a: seq<Message>, b: seq<Message>)
    ensures Lines(a + b) == Lines(a) + Lines(b)
  {
    if b == [] {
      assert a + b == a;
    } else {
      LinesConcat(a, b[..|b| - 1]);
      assert (a + b)[..|a + b| - 1] == a + b[..|b| - 1];
    }
  }

  lemma {:induction false} TextsLength(settled: seq<(Text, bool)>)
    ensures |Texts(settled)| == |settled|
  {
    if settled != [] {
      TextsLength(settled[..|settled| - 1]);
    }
  }

  lemma OneLine(m: Message)
    ensures Lines([m]) == if m.Line? then [m.text] else []
  {
    assert [m][..0] == [];
  }

  lemma {:induction false} InPlaceGrows(ahead: seq<Message>, m: Message, marks: map<nat, nat>, next: map<nat, nat>,
                                         settled: nat)
    requires InPlace(ahead, marks, settled)
    requires forall t :: t in marks ==> t in next && next[t] == marks[t]
    requires m.Flush? ==> m.ticket in next && next[m.ticket] == settled + |Lines(ahead)|
    ensures InPlace(ahead + [m], next, settled)
    ensures Tickets(ahead + [m]) == Tickets(ahead) + if m.Flush? then {m.ticket} else {}
    decreases |ahead|
  {
    if ahead == [] {
      assert [] + [m] == [m] && [m][1..] == [];
    } else {
      assert (ahead + [m])[0] == ahead[0] && (ahead + [m])[1..] == ahead[1..] + [m];
      LinesFirst(ahead);
      InPlaceGrows(ahead[1..], m, marks, next, settled + if ahead[0].Line? then 1 else 0);
    }
  }

  lemma LinesFirst(messages: seq<Message>)
    requires messages != []
    ensures Lines(messages) == (if messages[0].Line? then [messages[0].text] else []) + Lines(messages[1..])
  {
    assert messages == [messages[0]] + messages[1..];
    LinesConcat([messages[0]], messages[1..]);
    OneLine(messages[0]);
  }

  lemma FlushesGrow(ahead: seq<Message>, m: Message, marks: map<nat, nat>, next: map<nat, nat>, acked: set<nat>,
                    settled: nat)
    requires Flushes(ahead, marks, acked, settled)
    requires if m.Flush? then m.ticket !in marks && next == marks[m.ticket := settled + |Lines(ahead)|]
             else next == marks
    ensures Flushes(ahead + [m], next, acked, settled)
  {
    InPlaceGrows(ahead, m, marks, next, settled);
  }

  lemma FlushesShrink(ahead: seq<Message>, marks: map<nat, nat>, acked: set<nat>, settled: nat)
    requires ahead != [] && Flushes(ahead, marks, acked, settled)
    ensures Flushes(ahead[1..], marks, if ahead[0].Flush? then acked + {ahead[0].ticket} else acked,
                    settled + if ahead[0].Line? then 1 else 0)
  {
  }

  lemma QueueGrows(s: State, m: Message, next: State)
    requires next.queue == s.queue + [m] && next.hand == s.hand
    ensures Ahead(next) == Ahead(s) + [m]
    ensures Lines(Ahead(next)) == Lines(Ahead(s)) + if m.Line? then [m.text] else []
  {
    assert Ahead(next) == Ahead(s) + [m];
    LinesConcat(Ahead(s), [m]);
    OneLine(m);
  }

  lemma HandEmpties(s: State, next: State)
    requires s.hand.Some? && next.hand.None? && next.queue == s.queue
    ensures Ahead(s) != [] && Ahead(s)[0] == s.hand.value && Ahead(s)[1..] == Ahead(next)
    ensures Lines(Ahead(s)) == (if s.hand.value.Line? then [s.hand.value.text] else []) + Lines(Ahead(next))
  {
    assert Ahead(s)[1..] == Ahead(next);
    LinesFirst(Ahead(s));
  }

  lemma OfferKeeps(s: State, text: Text)
    requires Invariant(s)
    ensures Invariant(Step(s, Offer(text)))
  {
    if |s.queue| < QUEUE_DEPTH {
      QueueGrows(s, Line(text), Step(s, Offer(text)));
      FlushesGrow(Ahead(s), Line(text), s.marks, s.marks, s.acked, |s.settled|);
    }
  }

  lemma SendKeeps(s: State, t: nat)
    requires Invariant(s) && Enabled(s, Send(t))
    ensures Invariant(Step(s, Send(t)))
  {
    QueueGrows(s, Flush(t), Step(s, Send(t)));
    TextsLength(s.settled);
    FlushesGrow(Ahead(s), Flush(t), s.marks, s.marks[t := |s.accepted|], s.acked, |s.settled|);
  }

  lemma TakeKeeps(s: State)
    requires Invariant(s) && Enabled(s, Take)
    ensures Invariant(Step(s, Take))
  {
    assert Ahead(Step(s, Take)) == Ahead(s);
  }

  // A line that is settled moves from the front of the lines ahead to the settled ones.
  lemma LineSettles(settled: seq<(Text, bool)>, text: Text, worked: bool, rest: seq<Text>, loaded: seq<Text>)
    ensures Texts(settled + [(text, worked)]) + rest == Texts(settled) + ([text] + rest)
    ensures loaded + Appended(settled + [(text, worked)])
      == if worked then loaded + Appended(settled) + [text] else loaded + Appended(settled)
  {
    assert (settled + [(text, worked)])[..|settled|] == settled;
    assert Appended(settled) + [] == Appended(settled);
  }

  lemma WriteKeeps(s: State, worked: bool)
    requires Invariant(s) && Enabled(s, Write(worked))
    ensures Invariant(Step(s, Write(worked)))
  {
    var next := Step(s, Write(worked));
    HandEmpties(s, next);
    FlushesShrink(Ahead(s), s.marks, s.acked, |s.settled|);
    LineSettles(s.settled, s.hand.value.text, worked, Lines(Ahead(next)), s.loaded);
  }

  lemma AnswerKeeps(s: State)
    requires Invariant(s) && Enabled(s, Answer)
    ensures Invariant(Step(s, Answer))
  {
    HandEmpties(s, Step(s, Answer));
    FlushesShrink(Ahead(s), s.marks, s.acked, |s.settled|);
  }

  lemma StepKeeps(s: State, a: Action)
    requires Invariant(s) && Enabled(s, a)
    ensures Invariant(Step(s, a))
    ensures s.accepted <= Step(s, a).accepted && Step(s, a).loaded == s.loaded
    ensures forall t :: t in s.marks ==> t in Step(s, a).marks && Step(s, a).marks[t] == s.marks[t]
  {
    match a
    case Offer(text) => OfferKeeps(s, text);
    case Send(t) => SendKeeps(s, t);
    case Take => TakeKeeps(s);
    case Write(worked) => WriteKeeps(s, worked);
    case Answer => AnswerKeeps(s);
  }

  lemma {:induction false} RunKeeps(s: State, actions: seq<Action>)
    requires Invariant(s) && Feasible(s, actions)
    ensures Invariant(Run(s, actions))
    ensures s.accepted <= Run(s, actions).accepted && Run(s, actions).loaded == s.loaded
    ensures forall t :: t in s.marks ==> t in Run(s, actions).marks && Run(s, actions).marks[t] == s.marks[t]
    decreases |actions|
  {
    if actions != [] {
      StepKeeps(s, actions[0]);
      RunKeeps(Step(s, actions[0]), actions[1..]);
    }
  }

  // Whatever the threads do: what was accepted is in the file, in hand or queued, in
  // order, but for the appends that failed; every record was accepted or dropped; the
  // queue never exceeds its depth.
  lemma NothingIsLost(file: seq<Text>, actions: seq<Action>)
    requires Feasible(Initial(file), actions)
    ensures var s := Run(Initial(file), actions);
            && s.accepted == Texts(s.settled) + Lines(Ahead(s))
            && s.file == file + Appended(s.settled)
            && s.recorded == |s.accepted| + s.dropped
            && |s.queue| <= 256
  {
    RunKeeps(Initial(file), actions);
  }

  lemma {:induction false} AllAppended(settled: seq<(Text, bool)>)
    requires forall i :: 0 <= i < |settled| ==> settled[i].1
    ensures Appended(settled) == Texts(settled)
  {
    if settled != [] {
      AllAppended(settled[..|settled| - 1]);
    }
  }

  // A flush that was answered: every line accepted before it was sent is settled, and
  // is in the file in order unless an append failed.
  lemma FlushIsABarrier(before: State, ticket: nat, actions: seq<Action>)
    requires Invariant(before) && Enabled(before, Send(ticket)) && Feasible(Step(before, Send(ticket)), actions)
    ensures var s := Run(Step(before, Send(ticket)), actions);
            ticket in s.acked ==>
              && before.accepted <= Texts(s.settled)
              && ((forall i :: 0 <= i < |s.settled| ==> s.settled[i].1) ==> s.loaded + before.accepted <= s.file)
  {
    var sent := Step(before, Send(ticket));
    StepKeeps(before, Send(ticket));
    RunKeeps(sent, actions);
    var s := Run(sent, actions);
    if ticket in s.acked {
      TextsLength(s.settled);
      assert s.marks[ticket] == |before.accepted|;
      assert before.accepted == s.accepted[..|before.accepted|];
      if forall i :: 0 <= i < |s.settled| ==> s.settled[i].1 {
        AllAppended(s.settled);
      }
    }
  }

  // The writer thread alone, every append working.
  function Drain(s: State): seq<Action>
    decreases |s.queue|, s.hand.Some?
  {
    if s.hand.Some? then
      var a := if s.hand.value.Line? then Write(true) else Answer;
      [a] + Drain(Step(s, a))
    else if s.queue != [] then [Take] + Drain(Step(s, Take))
    else []
  }

  // Nothing settled before changes, and every append since worked.
  ghost predicate Drained(before: seq<(Text, bool)>, after: seq<(Text, bool)>) {
    before <= after && forall i :: |before| <= i < |after| ==> after[i].1
  }

  lemma {:induction false} DrainEmpties(s: State)
    ensures Feasible(s, Drain(s))
    ensures Run(s, Drain(s)).queue == [] && Run(s, Drain(s)).hand == None
    ensures Run(s, Drain(s)).accepted == s.accepted
    ensures Drained(s.settled, Run(s, Drain(s)).settled)
    decreases |s.queue|, s.hand.Some?
  {
    if s.hand.Some? {
      var a := if s.hand.value.Line? then Write(true) else Answer;
      DrainEmpties(Step(s, a));
      assert Drain(s)[1..] == Drain(Step(s, a));
    } else if s.queue != [] {
      DrainEmpties(Step(s, Take));
      assert Drain(s)[1..] == Drain(Step(s, Take));
    }
  }

  lemma {:induction false} DrainOffersNothing(s: State)
    ensures forall i :: 0 <= i < |Drain(s)| ==> !Drain(s)[i].Offer?
    decreases |s.queue|, s.hand.Some?
  {
    if s.hand.Some? {
      DrainOffersNothing(Step(s, if s.hand.value.Line? then Write(true) else Answer));
    } else if s.queue != [] {
      DrainOffersNothing(Step(s, Take));
    }
  }

  // Left to itself the writer settles every accepted line and answers every flush.
  lemma WriterCatchesUp(s: State)
    requires Invariant(s)
    ensures Feasible(s, Drain(s)) && Texts(Run(s, Drain(s)).settled) == s.accepted
    ensures forall t :: t in s.marks ==> t in Run(s, Drain(s)).acked
  {
    DrainEmpties(s);
    RunKeeps(s, Drain(s));
  }

  function Handling(m: Message, worked: bool): Action {
    if m.Line? then Write(worked) else Answer
  }

  // Once the writer has taken and handled its next message.
  function AfterTurn(s: State, worked: bool): State
    requires s.hand.Some? || s.queue != []
  {
    var taken := if s.hand.Some? then s else Step(s, Take);
    Step(taken, Handling(taken.hand.value, worked))
  }

  // What the writer's work leaves alone.
  predicate Kept(before: State, after: State) {
    && after.marks == before.marks && after.accepted == before.accepted && after.recorded == before.recorded
    && after.dropped == before.dropped && after.loaded == before.loaded
  }

  lemma AfterTurnKeeps(s: State, worked: bool)
    requires s.hand.Some? || s.queue != []
    ensures Kept(s, AfterTurn(s, worked)) && AfterTurn(s, worked).hand.None?
    ensures |AfterTurn(s, worked).queue| == |s.queue| - if s.hand.None? then 1 else 0
  {
  }

  lemma NothingAhead(s: State)
    requires Invariant(s) && Ahead(s) == []
    ensures Texts(s.settled) == s.accepted && s.marks.Keys == s.acked
  {
    assert Texts(s.settled) + [] == Texts(s.settled);
  }

  // A line joins the queue while fewer than 256 messages are in it, and else it is dropped
  // and counted.
  lemma OfferIsBounded(s: State, text: Text)
    ensures var t := Step(s, Offer(text));
            && t.recorded == s.recorded + 1 && t.file == s.file && t.hand == s.hand
            && (|s.queue| < 256 ==>
                  t.queue == s.queue + [Line(text)] && t.dropped == s.dropped && t.accepted == s.accepted + [text])
            && (|s.queue| >= 256 ==>
                  t.queue == s.queue && t.dropped == s.dropped + 1 && t.accepted == s.accepted)
  {
  }

  // ---- The object -------------------------------------------------------------

  class WriteBehind {
    var queue: seq<Message>
    var hand: Option<Message>
    var file: seq<Text>
    var dropped: nat
    ghost var loaded: seq<Text>
    ghost var recorded: nat
    ghost var accepted: seq<Text>
    ghost var settled: seq<(Text, bool)>
    ghost var marks: map<nat, nat>
    ghost var acked: set<nat>

    ghost function Snapshot(): State
      reads this
    {
      State(queue, hand, file, dropped, loaded, recorded, accepted, settled, marks, acked)
    }

    ghost predicate Valid()
      reads this
    {
      Invariant(Snapshot())
    }

    constructor (content: seq<Text>)
      ensures Valid() && Snapshot() == Initial(content)
    {
      queue, hand, file, dropped := [], None, content, 0;
      loaded, recorded, accepted, settled, marks, acked := content, 0, [], [], map[], {};
    }

    // Replaces the file before the first line is appended.
    method Overwrite(content: seq<Text>)
      requires exists before :: Snapshot() == Initial(before)
      modifies this
      ensures Valid() && Snapshot() == Initial(content)
    {
      file, loaded := content, content;
    }

    // Never waits: a full queue drops the line and counts it.
    method Append(text: Text)
      requires Valid()
      modifies this
      ensures Valid() && Snapshot() == Step(old(Snapshot()), Offer(text))
    {
      OfferKeeps(Snapshot(), text);
      if |queue| < QUEUE_DEPTH {
        queue := queue + [Line(text)];
        accepted := accepted + [text];
      } else {
        dropped := dropped + 1;
      }
      recorded := recorded + 1;
    }

    // Waits for room before it sends.
    method RequestFlush(ticket: nat)
      requires Valid() && Enabled(Snapshot(), Send(ticket))
      modifies this
      ensures Valid() && Snapshot() == Step(old(Snapshot()), Send(ticket))
    {
      SendKeeps(Snapshot(), ticket);
      queue := queue + [Flush(ticket)];
      marks := marks[ticket := |accepted|];
    }

    method Receive()
      requires Valid() && Enabled(Snapshot(), Take)
      modifies this
      ensures Valid() && Snapshot() == Step(old(Snapshot()), Take)
    {
      TakeKeeps(Snapshot());
      hand := Some(queue[0]);
      queue := queue[1..];
    }

    method Handle(worked: bool)
      requires Valid() && hand.Some?
      modifies this
      ensures Valid()
      ensures Snapshot() == Step(old(Snapshot()), Handling(old(hand).value, worked))
    {
      var message := hand.value;
      ghost var next := Step(Snapshot(), Handling(message, worked));
      StepKeeps(Snapshot(), Handling(message, worked));
      if message.Line? {
        if worked {
          file := file + [message.text];
        }
        settled := settled + [(message.text, worked)];
      } else {
        acked := acked + {message.ticket};
      }
      hand := None;
      assert Snapshot() == next;
    }

    // The writer's next message, taken and handled.
    method Turn(worked: bool)
      requires Valid() && (hand.Some? || queue != [])
      modifies this
      ensures Valid() && Snapshot() == AfterTurn(old(Snapshot()), worked)
    {
      if hand.None? {
        Receive();
      }
      Handle(worked);
    }

    // The writer works until the queue has room, or is empty; `worked` says which of its
    // appends do.
    method Work(worked: nat -> bool, first: nat, room: bool) returns (n: nat)
      requires Valid()
      modifies this
      ensures Valid() && Kept(old(Snapshot()), Snapshot())
      ensures if room then |queue| < QUEUE_DEPTH else Ahead(Snapshot()) == []
    {
      n := first;
      ghost var start := Snapshot();
      while if room then |queue| >= QUEUE_DEPTH else hand.Some? || queue != []
        invariant Valid() && Kept(start, Snapshot())
        decreases |queue|, hand.Some?
      {
        AfterTurnKeeps(Snapshot(), worked(n));
        Turn(worked(n));
        n := n + 1;
      }
    }

    // Waits for room, sends, and waits for the answer. By then every accepted line is
    // settled.
    method AwaitFlush(ticket: nat, worked: nat -> bool)
      requires Valid() && ticket !in marks
      modifies this
      ensures Valid() && ticket in acked && accepted == old(accepted) == Texts(settled)
    {
      var n := Work(worked, 0, true);
      RequestFlush(ticket);
      n := Work(worked, n, false);
      NothingAhead(Snapshot());
    }
  }
}
