// The gateway's encoder of the Anthropic event dialect, proved against the
// client that reads its frames.
module ClaudeDialect {
  import opened Wrappers
  import opened Json
  import opened ClaudeFrames
  import opened ClaudeTranscript
  import Text

  datatype OpenBlock = OpenBlock(index: nat, kind: Kind, part: Option<nat>)

  // The encoder's fields as a value.
  datatype State = State(nextIndex: nat, open: Option<OpenBlock>, stopped: bool, failed: bool, usage: Option<Usage>)

  // How far the message has got, in the reader's terms.
  datatype Progress =
    | Live(groups: seq<Group>, usage: Option<Usage>)
    | Ended(groups: seq<Group>, stopReason: string, reported: Usage)
    | Broken(groups: seq<Group>, payload: string)
    | Lost

  function ClientOf(model: string, p: Progress): Client {
    match p
    case Live(groups, _) => Reading(model, Blocks(groups), groups != [])
    case Ended(groups, reason, reported) => Finished(model, Blocks(groups), reason, reported)
    case Broken(groups, payload) => Errored(model, Blocks(groups), payload)
    case Lost => Malformed
  }

  // The encoder's state tells the same story as `p`.
  predicate Follows(s: State, p: Progress) {
    match p
    case Live(groups, usage) =>
      && !s.stopped && !s.failed && s.usage == usage
      && s.nextIndex == |groups| % INDEX_MODULUS
      && (s.open.Some? <==> groups != [])
      && (groups != [] ==>
            var last := groups[|groups| - 1];
            && s.open.value.index == (|groups| - 1) % INDEX_MODULUS
            && s.open.value.kind == KindOf(last.head)
            && s.open.value.part.UnwrapOr(0) == last.part)
    case Ended(_, _, _) => s.stopped
    case Broken(_, _) => s.failed
    case Lost => s.stopped || s.failed
  }

  function Say(p: Progress, piece: Piece): Progress {
    if p.Live? then Live(Grow(p.groups, piece), p.usage) else Lost
  }

  function SayAll(p: Progress, pieces: seq<Piece>): Progress
    decreases |pieces|
  {
    if pieces == [] then p else SayAll(Say(p, pieces[0]), pieces[1..])
  }

  function Report(p: Progress, usage: Option<Usage>): Progress {
    if p.Live? && usage.Some? then p.(usage := usage) else p
  }

  function End(p: Progress, reason: string): Progress {
    if p.Live? then Ended(p.groups, reason, UsageOrZero(p.usage)) else Lost
  }

  function Advance(p: Progress, item: Item): Progress {
    match item
    case Failure(payload) => if p.Live? then Broken(p.groups, payload) else Lost
    case Chunk(chunk) =>
      var said := Report(SayAll(p, Pieces(chunk)), chunk.usage);
      if chunk.finishReason.Some? then End(said, StopReasonOf(chunk.finishReason.value)) else said
  }

  function AdvanceAll(p: Progress, items: seq<Item>): Progress
    decreases |items|
  {
    if items == [] then p else AdvanceAll(Advance(p, items[0]), items[1..])
  }

  function Conclude(p: Progress): Progress {
    if p.Live? then End(p, "end_turn") else p
  }

  // ---- One piece on the wire --------------------------------------------------

  predicate Continues(s: State, piece: Piece) {
    && s.open.Some? && s.open.value.kind == KindOf(piece.head)
    && (piece.head.ToolUseHead? ==> s.open.value.part.UnwrapOr(0) == piece.part.UnwrapOr(0))
  }

  function CloseFrames(s: State): seq<Frame> {
    if s.open.Some? then [BlockStop(s.open.value.index)] else []
  }

  function Opened(s: State, head: Head, part: Option<nat>): State {
    s.(nextIndex := (s.nextIndex + 1) % INDEX_MODULUS,
       open := Some(OpenBlock(s.nextIndex, KindOf(head), part)))
  }

  function AfterPiece(s: State, piece: Piece): State {
    if Continues(s, piece) then s else Opened(s, piece.head, piece.part)
  }

  function PieceFrames(s: State, piece: Piece): seq<Frame> {
    (if Continues(s, piece) then [] else CloseFrames(s) + [BlockStart(s.nextIndex, piece.head)])
    + [BlockDelta(AfterPiece(s, piece).open.value.index, piece.delta)]
  }

  // Frames written to a client that is already done are its undoing.
  lemma FeedDone(c: Client, frames: seq<Frame>)
    requires c.Finished? || c.Errored? || c.Malformed?
    requires frames != []
    ensures FeedAll(c, frames) == Malformed
  {
    MalformedIsFinal(frames[1..]);
  }

  lemma FeedTwo(c: Client, f: Frame, g: Frame)
    ensures FeedAll(c, [f, g]) == Feed(Feed(c, f), g)
  {
    assert [f, g] == [f] + [g];
    FeedAllConcat(c, [f], [g]);
    FeedOne(c, f);
    FeedOne(Feed(c, f), g);
  }

  // After the open block is closed the client is between blocks.
  lemma FeedClose(model: string, s: State, p: Progress)
    requires p.Live? && Follows(s, p)
    ensures FeedAll(ClientOf(model, p), CloseFrames(s)) == Reading(model, Blocks(p.groups), false)
  {
    if s.open.Some? {
      FeedOne(ClientOf(model, p), CloseFrames(s)[0]);
    }
  }

  lemma NextIndex(n: nat)
    requires n > 0
    ensures n % INDEX_MODULUS == ((n - 1) % INDEX_MODULUS + 1) % INDEX_MODULUS
  {
  }

  // Writing one piece moves encoder, reader and client together.
  lemma FeedPiece(model: string, s: State, p: Progress, piece: Piece)
    requires Follows(s, p)
    requires Fits(piece.head, piece.delta)
    ensures Follows(AfterPiece(s, piece), Say(p, piece))
    ensures FeedAll(ClientOf(model, p), PieceFrames(s, piece)) == ClientOf(model, Say(p, piece))
  {
    var c := ClientOf(model, p);
    if !p.Live? {
      FeedDone(c, PieceFrames(s, piece));
    } else if Continues(s, piece) {
      FeedContinuation(model, s, p, piece);
    } else {
      FeedFresh(model, s, p, piece);
    }
  }

  lemma FeedContinuation(model: string, s: State, p: Progress, piece: Piece)
    requires p.Live? && Follows(s, p) && Fits(piece.head, piece.delta) && Continues(s, piece)
    ensures Follows(s, Say(p, piece))
    ensures FeedAll(ClientOf(model, p), PieceFrames(s, piece)) == ClientOf(model, Say(p, piece))
  {
    var c := ClientOf(model, p);
    var delta := BlockDelta(s.open.value.index, piece.delta);
    assert PieceFrames(s, piece) == [delta];
    FeedOne(c, delta);
    assert AppendToLast(Blocks(p.groups), piece.delta.text) == Blocks(Grow(p.groups, piece));
  }

  lemma FeedFresh(model: string, s: State, p: Progress, piece: Piece)
    requires p.Live? && Follows(s, p) && Fits(piece.head, piece.delta) && !Continues(s, piece)
    ensures Follows(AfterPiece(s, piece), Say(p, piece))
    ensures FeedAll(ClientOf(model, p), PieceFrames(s, piece)) == ClientOf(model, Say(p, piece))
  {
    var c := ClientOf(model, p);
    var start := BlockStart(s.nextIndex, piece.head);
    var delta := BlockDelta(s.nextIndex, piece.delta);
    assert PieceFrames(s, piece) == CloseFrames(s) + [start, delta];
    FeedAllConcat(c, CloseFrames(s), [start, delta]);
    FeedClose(model, s, p);
    FeedTwo(Reading(model, Blocks(p.groups), false), start, delta);
    NextIndex(|p.groups| + 1);
    var begun := Blocks(p.groups) + [Block(piece.head, [])];
    assert Feed(Reading(model, Blocks(p.groups), false), start) == Reading(model, begun, true);
    assert Grow(p.groups, piece) == p.groups + [Group(piece.head, piece.part.UnwrapOr(0), [piece.delta.text])];
    var none: seq<string> := [];
    assert none + [piece.delta.text] == [piece.delta.text];
    assert AppendToLast(begun, piece.delta.text) == Blocks(Grow(p.groups, piece));
  }

  // Closing the message: the block in progress first, then the closing pair.
  function StopFrames(s: State, reason: string): seq<Frame> {
    CloseFrames(s) + [MessageDelta(reason, UsageOrZero(s.usage)), MessageStop]
  }

  lemma FeedStop(model: string, s: State, p: Progress, reason: string)
    requires Follows(s, p)
    ensures FeedAll(ClientOf(model, p), StopFrames(s, reason)) == ClientOf(model, End(p, reason))
  {
    var c := ClientOf(model, p);
    var pair := [MessageDelta(reason, UsageOrZero(s.usage)), MessageStop];
    if p.Live? {
      FeedAllConcat(c, CloseFrames(s), pair);
      FeedClose(model, s, p);
      FeedTwo(Reading(model, Blocks(p.groups), false), pair[0], pair[1]);
    } else {
      FeedDone(c, StopFrames(s, reason));
    }
  }

  lemma {:induction false} SayAllConcat(p: Progress, a: seq<Piece>, b: seq<Piece>)
    ensures SayAll(p, a + b) == SayAll(SayAll(p, a), b)
    decreases |a|
  {
    if a == [] {
      assert a + b == b;
    } else {
      assert (a + b)[0] == a[0] && (a + b)[1..] == a[1..] + b;
      SayAllConcat(Say(p, a[0]), a[1..], b);
    }
  }

  lemma SayOne(p: Progress, piece: Piece)
    ensures SayAll(p, [piece]) == Say(p, piece)
  {
    assert [piece][1..] == [];
    assert SayAll(Say(p, piece), []) == Say(p, piece);
  }

  lemma FeedThree(c: Client, f: seq<Frame>, g: seq<Frame>, h: seq<Frame>)
    ensures FeedAll(c, f + g + h) == FeedAll(FeedAll(FeedAll(c, f), g), h)
  {
    FeedAllConcat(c, f, g);
    FeedAllConcat(c, f + g, h);
  }

  lemma PiecesInOrder(p: Progress, chunk: StreamChunk)
    ensures SayAll(p, Pieces(chunk))
         == SayAll(SayAll(SayAll(p, TextPieces(chunk)), ThinkingPieces(chunk)), CallPieces(Calls(chunk)))
  {
    SayAllConcat(p, TextPieces(chunk), ThinkingPieces(chunk));
    SayAllConcat(p, TextPieces(chunk) + ThinkingPieces(chunk), CallPieces(Calls(chunk)));
  }

  lemma ReportIsSilent(model: string, s: State, p: Progress, usage: Option<Usage>)
    requires Follows(s, p)
    ensures Follows(if usage.Some? then s.(usage := usage) else s, Report(p, usage))
    ensures ClientOf(model, Report(p, usage)) == ClientOf(model, p)
  {
  }

  // The frames of piece `i` on top of those of the pieces before it.
  lemma FeedNext(model: string, p: Progress, frames: seq<Frame>, s: State, pieces: seq<Piece>, i: nat)
    requires i < |pieces| && Fits(pieces[i].head, pieces[i].delta)
    requires Follows(s, SayAll(p, pieces[..i]))
    requires FeedAll(ClientOf(model, p), frames) == ClientOf(model, SayAll(p, pieces[..i]))
    ensures Follows(AfterPiece(s, pieces[i]), SayAll(p, pieces[..i + 1]))
    ensures FeedAll(ClientOf(model, p), frames + PieceFrames(s, pieces[i]))
         == ClientOf(model, SayAll(p, pieces[..i + 1]))
  {
    var said := SayAll(p, pieces[..i]);
    FeedPiece(model, s, said, pieces[i]);
    FeedAllConcat(ClientOf(model, p), frames, PieceFrames(s, pieces[i]));
    assert pieces[..i + 1] == pieces[..i] + [pieces[i]];
    SayAllConcat(p, pieces[..i], [pieces[i]]);
    SayOne(said, pieces[i]);
  }

  // ---- The encoder ------------------------------------------------------------

  class Dialect {
    const model: string
    var nextIndex: nat
    var open: Option<OpenBlock>
    var stopped: bool
    var failed: bool
    var usage: Option<Usage>

    function View(): State
      reads this
    {
      State(nextIndex, open, stopped, failed, usage)
    }

    constructor (model: string)
      ensures this.model == model
      ensures Follows(View(), Live([], None))
    {
      this.model := model;
      nextIndex, open, stopped, failed, usage := 0, None, false, false, None;
    }

    method Start() returns (frames: seq<Frame>)
      ensures frames == [MessageStart(model)]
    {
      frames := [MessageStart(model)];
    }

    // The frames of one gateway chunk take the client where the chunk takes the
    // reader, from any point the message can have reached.
    method Chunk(chunk: StreamChunk, ghost p: Progress) returns (frames: seq<Frame>)
      requires Follows(View(), p)
      modifies this
      ensures Follows(View(), Advance(p, Item.Chunk(chunk)))
      ensures FeedAll(ClientOf(model, p), frames) == ClientOf(model, Advance(p, Item.Chunk(chunk)))
    {
      frames := SayChunk(chunk, p);
      ghost var said := SayAll(p, Pieces(chunk));
      ReportIsSilent(model, View(), said, chunk.usage);
      if chunk.usage.Some? {
        usage := chunk.usage;
      }
      ghost var reported := Report(said, chunk.usage);
      if chunk.finishReason.Some? {
        var closing := CloseMessage(StopReasonOf(chunk.finishReason.value), reported);
        FeedAllConcat(ClientOf(model, p), frames, closing);
        frames := frames + closing;
      }
    }

    // Text, then thinking, then tool calls.
    method SayChunk(chunk: StreamChunk, ghost p: Progress) returns (frames: seq<Frame>)
      requires Follows(View(), p)
      modifies this`nextIndex, this`open
      ensures Follows(View(), SayAll(p, Pieces(chunk)))
      ensures FeedAll(ClientOf(model, p), frames) == ClientOf(model, SayAll(p, Pieces(chunk)))
    {
      var text, thinking, calls := [], [], [];
      if chunk.content.Some? {
        text := SayRun(TextHead, TextDelta(chunk.content.value), p);
      }
      ghost var p1 := SayAll(p, TextPieces(chunk));
      if chunk.reasoning.Some? {
        thinking := SayRun(ThinkingHead, ThinkingDelta(chunk.reasoning.value), p1);
      }
      ghost var p2 := SayAll(p1, ThinkingPieces(chunk));
      if chunk.toolCalls.Some? && chunk.toolCalls.value.Array? {
        calls := ToolUse(chunk.toolCalls.value.items, p2);
      }
      frames := text + thinking + calls;
      FeedThree(ClientOf(model, p), text, thinking, calls);
      PiecesInOrder(p, chunk);
    }

    // One delta of a text or thinking run, opening its block if need be.
    method SayRun(head: Head, delta: Delta, ghost p: Progress) returns (frames: seq<Frame>)
      requires Follows(View(), p)
      requires !head.ToolUseHead? && Fits(head, delta)
      modifies this`nextIndex, this`open
      ensures usage == old(usage)
      ensures Follows(View(), SayAll(p, [Piece(head, None, delta)]))
      ensures FeedAll(ClientOf(model, p), frames) == ClientOf(model, SayAll(p, [Piece(head, None, delta)]))
    {
      ghost var s, piece := View(), Piece(head, None, delta);
      var opening := ContinueBlock(head, None);
      assert open.Some?;
      var frame := BlockDeltaFor(delta);
      frames := opening + [frame];
      assert frames == PieceFrames(s, piece);
      FeedPiece(model, s, p, piece);
      SayOne(p, piece);
    }

    // The calls of one chunk, a block per call index.
    method ToolUse(calls: seq<Value>, ghost p: Progress) returns (frames: seq<Frame>)
      requires Follows(View(), p)
      modifies this`nextIndex, this`open
      ensures Follows(View(), SayAll(p, CallPieces(calls)))
      ensures FeedAll(ClientOf(model, p), frames) == ClientOf(model, SayAll(p, CallPieces(calls)))
    {
      frames := [];
      ghost var pieces := CallPieces(calls);
      for i := 0 to |calls|
        invariant Follows(View(), SayAll(p, pieces[..i]))
        invariant FeedAll(ClientOf(model, p), frames) == ClientOf(model, SayAll(p, pieces[..i]))
      {
        ghost var s := View();
        var more := ToolUseOne(calls[i]);
        FeedNext(model, p, frames, s, pieces, i);
        frames := frames + more;
      }
      assert pieces[..|calls|] == pieces;
    }

    // One call: a block of its own unless it continues the open one.
    method ToolUseOne(call: Value) returns (frames: seq<Frame>)
      modifies this`nextIndex, this`open
      ensures frames == PieceFrames(old(View()), CallPiece(call))
      ensures View() == AfterPiece(old(View()), CallPiece(call))
    {
      var part := AsU64(Get(call, "index"));
      var fn := Get(call, "function").UnwrapOr(Null);
      var continues := open.Some? && open.value.kind == ToolUseKind
                       && open.value.part.UnwrapOr(0) == part.UnwrapOr(0);
      frames := [];
      if !continues {
        frames := Begin(ToolUseHead(StrOrEmpty(call, "id"), StrOrEmpty(fn, "name")), part);
      }
      assert open.Some?;
      var delta := BlockDeltaFor(InputJsonDelta(StrOrEmpty(fn, "arguments")));
      frames := frames + [delta];
    }

    // The end of a message that named its reason.
    method CloseMessage(reason: string, ghost p: Progress) returns (frames: seq<Frame>)
      requires Follows(View(), p)
      modifies this`stopped, this`open
      ensures Follows(View(), End(p, reason))
      ensures FeedAll(ClientOf(model, p), frames) == ClientOf(model, End(p, reason))
    {
      ghost var s := View();
      var closing := CloseBlock();
      var stop := Stop(reason);
      frames := closing + stop;
      assert frames == StopFrames(s, reason);
      FeedStop(model, s, p, reason);
    }

    // An error frame, which ends the message for the client.
    method Refusal(payload: string, ghost p: Progress) returns (frames: seq<Frame>)
      requires Follows(View(), p)
      modifies this`failed
      ensures Follows(View(), Advance(p, Failure(payload)))
      ensures FeedAll(ClientOf(model, p), frames) == ClientOf(model, Advance(p, Failure(payload)))
    {
      failed := true;
      frames := [ErrorFrame(payload)];
      FeedOne(ClientOf(model, p), ErrorFrame(payload));
    }

    // The closing pair of a stream that ended without a terminal chunk.
    method Finish(ghost p: Progress) returns (frames: seq<Frame>)
      requires Follows(View(), p)
      modifies this`stopped, this`open
      ensures FeedAll(ClientOf(model, p), frames) == ClientOf(model, Conclude(p))
    {
      if failed || stopped {
        frames := [];
      } else {
        ghost var s := View();
        frames := Stop("end_turn");
        FeedStop(model, s, p, "end_turn");
      }
    }

    method Stop(reason: string) returns (frames: seq<Frame>)
      modifies this`stopped, this`open
      ensures View() == old(View()).(stopped := true, open := None)
      ensures frames == StopFrames(old(View()), reason)
    {
      stopped := true;
      var reported := UsageOrZero(usage);
      frames := CloseBlock();
      frames := frames + [MessageDelta(reason, reported), MessageStop];
    }

    method ContinueBlock(head: Head, part: Option<nat>) returns (frames: seq<Frame>)
      modifies this`nextIndex, this`open
      ensures var continues := old(open).Some? && old(open).value.kind == KindOf(head);
              && View() == (if continues then old(View()) else Opened(old(View()), head, part))
              && frames == (if continues then []
                            else CloseFrames(old(View())) + [BlockStart(old(nextIndex), head)])
    {
      if open.Some? && open.value.kind == KindOf(head) {
        return [];
      }
      frames := Begin(head, part);
    }

    method Begin(head: Head, part: Option<nat>) returns (frames: seq<Frame>)
      modifies this`nextIndex, this`open
      ensures View() == Opened(old(View()), head, part)
      ensures frames == CloseFrames(old(View())) + [BlockStart(old(nextIndex), head)]
    {
      frames := CloseBlock();
      var index := nextIndex;
      nextIndex := (nextIndex + 1) % INDEX_MODULUS;
      open := Some(OpenBlock(index, KindOf(head), part));
      frames := frames + [BlockStart(index, head)];
    }

    method CloseBlock() returns (frames: seq<Frame>)
      modifies this`open
      ensures View() == old(View()).(open := None)
      ensures frames == CloseFrames(old(View()))
    {
      frames := if open.Some? then [BlockStop(open.value.index)] else [];
      open := None;
    }

    // Every caller has just opened or continued a block, so index 0 is never made up.
    method BlockDeltaFor(delta: Delta) returns (frame: Frame)
      ensures frame == BlockDelta(if open.Some? then open.value.index else 0, delta)
    {
      frame := BlockDelta(if open.Some? then open.value.index else 0, delta);
    }
  }

  // ---- Whole streams ----------------------------------------------------------

  lemma {:induction false} SayAllGrows(p: Progress, pieces: seq<Piece>)
    requires p.Live?
    ensures SayAll(p, pieces) == Live(GrowAll(p.groups, pieces), p.usage)
    decreases |pieces|
  {
    if pieces != [] {
      SayAllGrows(Say(p, pieces[0]), pieces[1..]);
    }
  }

  lemma {:induction false} SayAllLost(p: Progress, pieces: seq<Piece>)
    requires !p.Live?
    ensures SayAll(p, pieces) == if pieces == [] then p else Lost
    decreases |pieces|
  {
    if pieces != [] {
      SayAllLost(Say(p, pieces[0]), pieces[1..]);
    }
  }

  // Once the message is over, only silent items leave it as it is.
  lemma {:induction false} AfterTheEnd(p: Progress, items: seq<Item>)
    requires !p.Live?
    ensures AdvanceAll(p, items) == if AllSilent(items) then p else Lost
    decreases |items|
  {
    if items != [] {
      if items[0].Chunk? {
        SayAllLost(p, Pieces(items[0].chunk));
      }
      assert Advance(p, items[0]) == if Silent(items[0]) then p else Lost;
      AfterTheEnd(Advance(p, items[0]), items[1..]);
      assert AllSilent(items) <==> Silent(items[0]) && AllSilent(items[1..]);
    }
  }

  // Before the end every item only adds to the transcript.
  lemma {:induction false} BeforeTheEnd(p: Progress, items: seq<Item>)
    requires p.Live?
    requires forall j :: 0 <= j < |items| ==> !IsTerminal(items[j])
    ensures AdvanceAll(p, items)
         == Live(GrowAll(p.groups, Spoken(items)), LastUsage(items, p.usage))
    decreases |items|
  {
    if items != [] {
      var pieces := Pieces(items[0].chunk);
      SayAllGrows(p, pieces);
      var next := Advance(p, items[0]);
      BeforeTheEnd(next, items[1..]);
      GrowAllConcat(p.groups, pieces, Spoken(items[1..]));
    }
  }

  lemma {:induction false} AdvanceAllConcat(p: Progress, a: seq<Item>, b: seq<Item>)
    ensures AdvanceAll(p, a + b) == AdvanceAll(AdvanceAll(p, a), b)
    decreases |a|
  {
    if a == [] {
      assert a + b == b;
    } else {
      assert (a + b)[0] == a[0] && (a + b)[1..] == a[1..] + b;
      AdvanceAllConcat(Advance(p, a[0]), a[1..], b);
    }
  }

  lemma {:induction false} SpokenLast(items: seq<Item>, last: Item)
    ensures Spoken(items + [last]) == Spoken(items) + SpokenBy(last)
  {
    if items == [] {
      assert items + [last] == [last] && [last][1..] == [];
      assert SpokenBy(last) + [] == SpokenBy(last);
    } else {
      assert (items + [last])[0] == items[0] && (items + [last])[1..] == items[1..] + [last];
      SpokenLast(items[1..], last);
      Text.Regroup(SpokenBy(items[0]), Spoken(items[1..]), SpokenBy(last));
    }
  }

  lemma {:induction false} LastUsageConcat(a: seq<Item>, b: seq<Item>, before: Option<Usage>)
    ensures LastUsage(a + b, before) == LastUsage(b, LastUsage(a, before))
  {
    if a == [] {
      assert a + b == b;
    } else {
      assert (a + b)[0] == a[0] && (a + b)[1..] == a[1..] + b;
      LastUsageConcat(a[1..], b, if a[0].Chunk? && a[0].chunk.usage.Some? then a[0].chunk.usage else before);
    }
  }

  lemma LastUsageLast(items: seq<Item>, last: Item, before: Option<Usage>)
    ensures LastUsage(items + [last], before)
         == if last.Chunk? && last.chunk.usage.Some? then last.chunk.usage else LastUsage(items, before)
  {
    LastUsageConcat(items, [last], before);
    assert [last][1..] == [];
  }

  // A report made earlier only counts where none is made.
  lemma {:induction false} LastUsageFallsBack(items: seq<Item>, before: Option<Usage>)
    ensures LastUsage(items, before) == if LastUsage(items, None).Some? then LastUsage(items, None) else before
  {
    if items != [] {
      LastUsageFallsBack(items[1..], before);
      if items[0].Chunk? {
        LastUsageFallsBack(items[1..], items[0].chunk.usage);
      }
    }
  }

  lemma ThroughTheEnd(head: seq<Item>, last: Item)
    requires forall j :: 0 <= j < |head| ==> !IsTerminal(head[j])
    requires IsTerminal(last)
    ensures AdvanceAll(Live([], None), head + [last]) ==
            if last.Failure? then Broken(Transcript(Spoken(head)), last.payload)
            else Ended(Transcript(Spoken(head + [last])), StopReasonOf(last.chunk.finishReason.value),
                       UsageOrZero(LastUsage(head + [last], None)))
  {
    var start := Live([], None);
    AdvanceAllConcat(start, head, [last]);
    BeforeTheEnd(start, head);
    var p := AdvanceAll(start, head);
    assert [last][1..] == [] && AdvanceAll(p, [last]) == Advance(p, last);
    if last.Chunk? {
      SayAllGrows(p, Pieces(last.chunk));
      SpokenLast(head, last);
      LastUsageLast(head, last, None);
      GrowAllConcat([], Spoken(head), Pieces(last.chunk));
    }
  }

  // The message is over from the terminal item on, with only silent items kept.
  lemma PastTheEnd(head: seq<Item>, last: Item, tail: seq<Item>)
    requires forall j :: 0 <= j < |head| ==> !IsTerminal(head[j])
    requires IsTerminal(last)
    ensures AdvanceAll(Live([], None), head + [last] + tail)
         == if AllSilent(tail) then AdvanceAll(Live([], None), head + [last]) else Lost
    ensures !AdvanceAll(Live([], None), head + [last]).Live?
  {
    AdvanceAllConcat(Live([], None), head + [last], tail);
    ThroughTheEnd(head, last);
    AfterTheEnd(AdvanceAll(Live([], None), head + [last]), tail);
  }

  lemma SplitAt(items: seq<Item>, k: nat)
    requires k < |items|
    ensures items == items[..k] + [items[k]] + items[k + 1..]
    ensures items[..k + 1] == items[..k] + [items[k]]
  {
  }

  // The reader's progress over a whole stream is the declared outcome.
  lemma ProgressIsOutcome(model: string, items: seq<Item>)
    ensures ClientOf(model, Conclude(AdvanceAll(Live([], None), items))) == Outcome(model, items)
  {
    var k := FirstTerminal(items);
    if k == |items| {
      BeforeTheEnd(Live([], None), items);
    } else {
      SplitAt(items, k);
      PastTheEnd(items[..k], items[k], items[k + 1..]);
      ThroughTheEnd(items[..k], items[k]);
    }
  }

  // One more item of the stream, with the frames it added.
  lemma StreamGrows(model: string, items: seq<Item>, i: nat, frames: seq<Frame>, more: seq<Frame>)
    requires i < |items|
    requires FeedAll(Waiting, frames) == ClientOf(model, AdvanceAll(Live([], None), items[..i]))
    requires var p := AdvanceAll(Live([], None), items[..i]);
             FeedAll(ClientOf(model, p), more) == ClientOf(model, Advance(p, items[i]))
    ensures FeedAll(Waiting, frames + more) == ClientOf(model, AdvanceAll(Live([], None), items[..i + 1]))
    ensures AdvanceAll(Live([], None), items[..i + 1]) == Advance(AdvanceAll(Live([], None), items[..i]), items[i])
  {
    FeedAllConcat(Waiting, frames, more);
    assert items[..i + 1] == items[..i] + [items[i]] && [items[i]][1..] == [];
    AdvanceAllConcat(Live([], None), items[..i], [items[i]]);
  }

  lemma ReasonStops(finish: string)
    ensures StopsFor(Some(finish), StopReasonOf(finish)) && StopsFor(None, "end_turn")
  {
  }

  lemma OutcomeStops(model: string, items: seq<Item>)
    ensures Outcome(model, items).Finished? ==> StopsFor(FinishOf(items), Outcome(model, items).stopReason)
  {
    ReasonStops(FinishOf(items).UnwrapOr(""));
  }

  lemma OutcomeBlocks(model: string, items: seq<Item>)
    ensures var c := Outcome(model, items);
            c.Finished? || c.Errored? ==> c.blocks == Blocks(Transcript(Spoken(Heard(items))))
  {
    EndingBlocks(model, items, FirstTerminal(items), Heard(items));
  }

  lemma EndingBlocks(model: string, items: seq<Item>, k: nat, heard: seq<Item>)
    requires k <= |items| && (k < |items| ==> IsTerminal(items[k]))
    requires heard == if k == |items| then items else if items[k].Failure? then items[..k] else items[..k + 1]
    ensures var c := Ending(model, items, k);
            (c.Finished? || c.Errored?) && c.blocks == Blocks(Transcript(Spoken(heard)))
  {
  }

  lemma OutcomeHoldsAll(model: string, items: seq<Item>)
    ensures var c := Outcome(model, items); c.Finished? || c.Errored? ==> HoldsAll(c.blocks, Heard(items))
  {
    OutcomeBlocks(model, items);
    TranscriptHoldsAll(Heard(items));
  }

  lemma OutcomeReports(model: string, items: seq<Item>)
    ensures Outcome(model, items).Finished? ==> ReportsLast(Heard(items), Outcome(model, items).usage)
  {
    LastUsageIsReported(Heard(items));
  }

  // The whole stream, for every run of items: the client ends with exactly the
  // transcript of what was said up to the terminal item, or reads a malformed
  // stream, the latter exactly when something spoke after the terminal item.
  method ClaudeStream(model: string, items: seq<Item>) returns (frames: seq<Frame>)
    ensures FeedAll(Waiting, frames) == Outcome(model, items)
    ensures FeedAll(Waiting, frames).Malformed? <==> !Quiet(items)
    ensures FeedAll(Waiting, frames).Finished? ==> StopsFor(FinishOf(items), FeedAll(Waiting, frames).stopReason)
    ensures var c := FeedAll(Waiting, frames); c.Finished? || c.Errored? ==> HoldsAll(c.blocks, Heard(items))
    ensures FeedAll(Waiting, frames).Finished? ==> ReportsLast(Heard(items), FeedAll(Waiting, frames).usage)
  {
    var dialect := new Dialect(model);
    frames := dialect.Start();
    ghost var start := Live([], None);
    FeedOne(Waiting, frames[0]);
    assert items[..0] == [];
    for i := 0 to |items|
      invariant fresh(dialect) && dialect.model == model
      invariant Follows(dialect.View(), AdvanceAll(start, items[..i]))
      invariant FeedAll(Waiting, frames) == ClientOf(model, AdvanceAll(start, items[..i]))
    {
      ghost var p := AdvanceAll(start, items[..i]);
      var more;
      match items[i] {
        case Chunk(chunk) => more := dialect.Chunk(chunk, p);
        case Failure(payload) => more := dialect.Refusal(payload, p);
      }
      StreamGrows(model, items, i, frames, more);
      frames := frames + more;
    }
    assert items[..|items|] == items;
    var closing := dialect.Finish(AdvanceAll(start, items));
    FeedAllConcat(Waiting, frames, closing);
    frames := frames + closing;
    ProgressIsOutcome(model, items);
    OutcomeStops(model, items);
    OutcomeHoldsAll(model, items);
    OutcomeReports(model, items);
  }

  lemma LateSilence(items: seq<Item>, item: Item)
    requires FirstTerminal(items) < |items| && Silent(item)
    ensures AdvanceAll(Live([], None), items + [item]) == AdvanceAll(Live([], None), items)
  {
    var (start, k) := (Live([], None), FirstTerminal(items));
    SplitAt(items, k);
    PastTheEnd(items[..k], items[k], items[k + 1..]);
    AdvanceAllConcat(start, items, [item]);
    AfterTheEnd(AdvanceAll(start, items), [item]);
  }

  // A silent item after the terminal one reaches the client of no stream.
  lemma LateSilenceIsLost(model: string, items: seq<Item>, item: Item)
    requires FirstTerminal(items) < |items| && Silent(item)
    ensures Outcome(model, items + [item]) == Outcome(model, items)
  {
    LateSilence(items, item);
    ProgressIsOutcome(model, items);
    ProgressIsOutcome(model, items + [item]);
  }

  // Nor does usage that arrives there on a chunk of its own.
  lemma LateUsageIsLost(model: string, items: seq<Item>, usage: Usage)
    requires FirstTerminal(items) < |items|
    ensures Outcome(model, items + [Item.Chunk(StreamChunk(None, None, None, None, Some(usage)))])
         == Outcome(model, items)
  {
    var late := Item.Chunk(StreamChunk(None, None, None, None, Some(usage)));
    assert Pieces(late.chunk) == [];
    LateSilenceIsLost(model, items, late);
  }

  lemma UsageAround(items: seq<Item>, k: nat)
    requires k < |items|
    ensures var late := LastUsage(items[k + 1..], None);
            LastUsage(items, None) == if late.Some? then late else LastUsage(items[..k + 1], None)
  {
    assert items == items[..k + 1] + items[k + 1..];
    LastUsageConcat(items[..k + 1], items[k + 1..], None);
    LastUsageFallsBack(items[k + 1..], LastUsage(items[..k + 1], None));
  }

  // A stream that ends well carries the last usage reported in it exactly if the items
  // after the terminal one report none, or end on the one the message already has.
  lemma UsageIsTheLast(model: string, items: seq<Item>, k: nat, usage: Usage)
    requires Outcome(model, items).Finished? && k == FirstTerminal(items) && usage == Outcome(model, items).usage
    ensures usage == UsageOrZero(LastUsage(items, None))
            <==> (k < |items| ==> LastUsage(items[k + 1..], None) in {None, Some(usage)})
  {
    UsageDecides(items, k, usage);
  }

  lemma UsageDecides(items: seq<Item>, k: nat, usage: Usage)
    requires k <= |items| && usage == UsageAt(items, k)
    ensures usage == UsageOrZero(LastUsage(items, None))
            <==> (k < |items| ==> LastUsage(items[k + 1..], None) in {None, Some(usage)})
  {
    if k < |items| {
      UsageAround(items, k);
    }
  }
}
