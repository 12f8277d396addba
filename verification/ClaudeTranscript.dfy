// What a client ought to read from a stream of gateway chunks: a reference that
// knows nothing of block indices, frames or open blocks.
module ClaudeTranscript {
  import opened Wrappers
  import opened Json
  import opened ClaudeFrames
  import Text

  datatype StreamChunk = StreamChunk(
    content: Option<string>,
    reasoning: Option<string>,
    toolCalls: Option<Value>,
    finishReason: Option<string>,
    usage: Option<Usage>)

  // What the backend stream yields: a chunk, or an error already reduced to its
  // sanitized payload.
  datatype Item = Chunk(chunk: StreamChunk) | Failure(payload: string)

  // One thing said by a chunk. `part` tells tool calls apart.
  datatype Piece = Piece(head: Head, part: Option<nat>, delta: Delta)

  // A maximal run of pieces that belong together.
  datatype Group = Group(head: Head, part: nat, deltas: seq<string>)

  datatype Kind = TextKind | ThinkingKind | ToolUseKind

  function KindOf(head: Head): Kind {
    match head
    case TextHead => TextKind
    case ThinkingHead => ThinkingKind
    case ToolUseHead(_, _) => ToolUseKind
  }

  function CallPiece(call: Value): Piece {
    var fn := Get(call, "function").UnwrapOr(Null);
    Piece(ToolUseHead(StrOrEmpty(call, "id"), StrOrEmpty(fn, "name")),
          AsU64(Get(call, "index")),
          InputJsonDelta(StrOrEmpty(fn, "arguments")))
  }

  function CallPieces(calls: seq<Value>): (r: seq<Piece>)
    ensures |r| == |calls|
    ensures forall i :: 0 <= i < |calls| ==> r[i] == CallPiece(calls[i])
  {
    seq(|calls|, i requires 0 <= i < |calls| => CallPiece(calls[i]))
  }

  function Calls(chunk: StreamChunk): seq<Value> {
    AsArray(chunk.toolCalls).UnwrapOr([])
  }

  function TextPieces(chunk: StreamChunk): seq<Piece> {
    if chunk.content.Some? then [Piece(TextHead, None, TextDelta(chunk.content.value))] else []
  }

  function ThinkingPieces(chunk: StreamChunk): seq<Piece> {
    if chunk.reasoning.Some? then [Piece(ThinkingHead, None, ThinkingDelta(chunk.reasoning.value))] else []
  }

  // Everything a chunk says, in the order it is said.
  function Pieces(chunk: StreamChunk): seq<Piece> {
    TextPieces(chunk) + ThinkingPieces(chunk) + CallPieces(Calls(chunk))
  }

  // Where a piece belongs: the kind of its block and, for a tool call, the call's index.
  datatype Tag = Tag(kind: Kind, part: nat)

  function TagOf(p: Piece): Tag {
    Tag(KindOf(p.head), if p.head.ToolUseHead? then p.part.UnwrapOr(0) else 0)
  }

  function GroupTag(g: Group): Tag {
    Tag(KindOf(g.head), if g.head.ToolUseHead? then g.part else 0)
  }

  // Whether a piece continues the run `g`.
  predicate Joins(g: Group, p: Piece) {
    KindOf(g.head) == KindOf(p.head) && (p.head.ToolUseHead? ==> g.part == p.part.UnwrapOr(0))
  }

  function Grow(groups: seq<Group>, p: Piece): seq<Group> {
    if groups != [] && Joins(groups[|groups| - 1], p) then
      var last := groups[|groups| - 1];
      groups[|groups| - 1 := last.(deltas := last.deltas + [p.delta.text])]
    else
      groups + [Group(p.head, p.part.UnwrapOr(0), [p.delta.text])]
  }

  function GrowAll(groups: seq<Group>, pieces: seq<Piece>): seq<Group>
    decreases |pieces|
  {
    if pieces == [] then groups else GrowAll(Grow(groups, pieces[0]), pieces[1..])
  }

  function Transcript(pieces: seq<Piece>): seq<Group> {
    GrowAll([], pieces)
  }

  function Blocks(groups: seq<Group>): (r: seq<Block>)
    ensures |r| == |groups|
    ensures forall i :: 0 <= i < |groups| ==> r[i] == Block(groups[i].head, groups[i].deltas)
  {
    seq(|groups|, i requires 0 <= i < |groups| => Block(groups[i].head, groups[i].deltas))
  }

  function StopReasonOf(finish: string): string {
    if finish == "length" || finish == "max_tokens" then "max_tokens"
    else if finish == "tool_calls" || finish == "function_call" then "tool_use"
    else if finish == "content_filter" then "refusal"
    else "end_turn"
  }

  // The stream's own end: a finish chunk or an error.
  predicate IsTerminal(item: Item) {
    item.Failure? || item.chunk.finishReason.Some?
  }

  // An item that puts nothing on the wire; it may carry usage.
  predicate Silent(item: Item) {
    item.Chunk? && Pieces(item.chunk) == [] && item.chunk.finishReason.None?
  }

  function FirstTerminal(items: seq<Item>): (k: nat)
    ensures k <= |items|
    ensures k < |items| ==> IsTerminal(items[k])
    ensures forall j :: 0 <= j < k ==> !IsTerminal(items[j])
  {
    if items == [] || IsTerminal(items[0]) then 0 else 1 + FirstTerminal(items[1..])
  }

  predicate AllSilent(items: seq<Item>) {
    forall j :: 0 <= j < |items| ==> Silent(items[j])
  }

  // Nothing speaks after the terminal item.
  predicate Quiet(items: seq<Item>) {
    var k := FirstTerminal(items);
    k < |items| ==> AllSilent(items[k + 1..])
  }

  function SpokenBy(item: Item): seq<Piece> {
    if item.Chunk? then Pieces(item.chunk) else []
  }

  function Spoken(items: seq<Item>): seq<Piece> {
    if items == [] then [] else SpokenBy(items[0]) + Spoken(items[1..])
  }

  // The last usage any of the items reported, else `before`.
  function LastUsage(items: seq<Item>, before: Option<Usage>): Option<Usage> {
    if items == [] then before
    else LastUsage(items[1..],
                   if items[0].Chunk? && items[0].chunk.usage.Some? then items[0].chunk.usage else before)
  }

  function UsageOrZero(usage: Option<Usage>): Usage {
    usage.UnwrapOr(Usage(0, 0))
  }

  // The message's usage: the last one reported up to the terminal item `k`.
  function UsageAt(items: seq<Item>, k: nat): Usage
    requires k <= |items|
  {
    UsageOrZero(LastUsage(if k < |items| then items[..k + 1] else items, None))
  }

  // How a stream ends whose first terminal item is `k`, if nothing speaks after it.
  function Ending(model: string, items: seq<Item>, k: nat): (c: Client)
    requires k < |items| ==> IsTerminal(items[k])
    requires k <= |items|
    ensures c.Finished? ==> c.usage == UsageAt(items, k)
  {
    if k == |items| then
      Finished(model, Blocks(Transcript(Spoken(items))), "end_turn", UsageAt(items, k))
    else if items[k].Failure? then
      Errored(model, Blocks(Transcript(Spoken(items[..k]))), items[k].payload)
    else
      Finished(model, Blocks(Transcript(Spoken(items[..k + 1]))),
               StopReasonOf(items[k].chunk.finishReason.value), UsageAt(items, k))
  }

  // The reason the stream itself ended for, if it did: an error has none.
  function FinishOf(items: seq<Item>): Option<string> {
    var k := FirstTerminal(items);
    if k < |items| && items[k].Chunk? then items[k].chunk.finishReason else None
  }

  // Which stop reason a client reads for which reason of the stream.
  predicate StopsFor(finish: Option<string>, reason: string) {
    && (reason == "tool_use" <==> finish in {Some("tool_calls"), Some("function_call")})
    && (reason == "max_tokens" <==> finish in {Some("length"), Some("max_tokens")})
    && (reason == "refusal" <==> finish == Some("content_filter"))
    && (reason == "end_turn" <==> finish !in {Some("tool_calls"), Some("function_call"), Some("length"),
                                              Some("max_tokens"), Some("content_filter")})
  }

  // What the client holds at the end of the stream.
  function Outcome(model: string, items: seq<Item>): Client {
    if Quiet(items) then Ending(model, items, FirstTerminal(items)) else Malformed
  }

  // ---- What the grouping means ------------------------------------------------

  // Every delta in order, tagged with the block it sits in.
  function Deltas(g: Group): (r: seq<(Tag, string)>)
    ensures |r| == |g.deltas|
    ensures forall i :: 0 <= i < |r| ==> r[i] == (GroupTag(g), g.deltas[i])
  {
    seq(|g.deltas|, i requires 0 <= i < |g.deltas| => (GroupTag(g), g.deltas[i]))
  }

  function AllDeltas(groups: seq<Group>): seq<(Tag, string)> {
    if groups == [] then []
    else AllDeltas(groups[..|groups| - 1]) + Deltas(groups[|groups| - 1])
  }

  function Said(pieces: seq<Piece>): (r: seq<(Tag, string)>)
    ensures |r| == |pieces|
    ensures forall i :: 0 <= i < |r| ==> r[i] == (TagOf(pieces[i]), pieces[i].delta.text)
  {
    seq(|pieces|, i requires 0 <= i < |pieces| => (TagOf(pieces[i]), pieces[i].delta.text))
  }

  function Heads(groups: seq<Group>): (r: seq<Head>)
    ensures |r| == |groups|
    ensures forall i :: 0 <= i < |r| ==> r[i] == groups[i].head
  {
    seq(|groups|, i requires 0 <= i < |groups| => groups[i].head)
  }

  // The heads of the pieces that belong elsewhere than the piece before them.
  function Openers(pieces: seq<Piece>): seq<Head> {
    var n := |pieces|;
    if n == 0 then []
    else
      Openers(pieces[..n - 1])
      + if n > 1 && TagOf(pieces[n - 2]) == TagOf(pieces[n - 1]) then [] else [pieces[n - 1].head]
  }

  // Neighbouring blocks never could have been one block.
  predicate MaximalRuns(groups: seq<Group>) {
    forall i :: 0 < i < |groups| ==> GroupTag(groups[i - 1]) != GroupTag(groups[i])
  }

  lemma GrowAppends(groups: seq<Group>, p: Piece)
    ensures AllDeltas(Grow(groups, p)) == AllDeltas(groups) + [(TagOf(p), p.delta.text)]
  {
    var grown := Grow(groups, p);
    if groups != [] && Joins(groups[|groups| - 1], p) {
      var last := groups[|groups| - 1];
      assert grown[..|grown| - 1] == groups[..|groups| - 1];
      assert Deltas(grown[|grown| - 1]) == Deltas(last) + [(TagOf(p), p.delta.text)];
    } else {
      assert grown[..|grown| - 1] == groups;
      assert Deltas(grown[|grown| - 1]) == [(TagOf(p), p.delta.text)];
    }
  }

  lemma GrowKeepsRunsMaximal(groups: seq<Group>, p: Piece)
    requires MaximalRuns(groups)
    ensures MaximalRuns(Grow(groups, p))
  {
    var grown := Grow(groups, p);
    forall i | 0 < i < |grown|
      ensures GroupTag(grown[i - 1]) != GroupTag(grown[i])
    {
      assert GroupTag(grown[i - 1]) == GroupTag(groups[i - 1]);
    }
  }

  lemma GrowKeepsHeads(groups: seq<Group>, p: Piece)
    ensures var grown, joins := Grow(groups, p), groups != [] && GroupTag(groups[|groups| - 1]) == TagOf(p);
            && Heads(grown) == Heads(groups) + (if joins then [] else [p.head])
            && grown != [] && GroupTag(grown[|grown| - 1]) == TagOf(p)
  {
    var grown := Grow(groups, p);
    if groups != [] && Joins(groups[|groups| - 1], p) {
      assert Heads(grown) == Heads(groups);
    } else {
      assert Heads(grown) == Heads(groups) + [p.head];
    }
  }

  lemma TranscriptGrows(pieces: seq<Piece>)
    requires pieces != []
    ensures Transcript(pieces) == Grow(Transcript(pieces[..|pieces| - 1]), pieces[|pieces| - 1])
  {
    var init, last := pieces[..|pieces| - 1], pieces[|pieces| - 1];
    assert pieces == init + [last] && [last][1..] == [];
    GrowAllConcat([], init, [last]);
  }

  lemma {:induction false} HeadsAreOpeners(pieces: seq<Piece>)
    ensures var groups := Transcript(pieces);
            && Heads(groups) == Openers(pieces) && (pieces == [] <==> groups == [])
            && (pieces != [] ==> GroupTag(groups[|groups| - 1]) == TagOf(pieces[|pieces| - 1]))
  {
    if pieces != [] {
      var (init, last) := (pieces[..|pieces| - 1], pieces[|pieces| - 1]);
      HeadsAreOpeners(init);
      TranscriptGrows(pieces);
      GrowKeepsHeads(Transcript(init), last);
      assert pieces == init + [last];
      OpenersMore(init, last);
    }
  }

  lemma OpenersMore(init: seq<Piece>, last: Piece)
    ensures Openers(init + [last])
         == Openers(init) + if init != [] && TagOf(init[|init| - 1]) == TagOf(last) then [] else [last.head]
  {
    assert (init + [last])[..|init|] == init;
  }

  lemma {:induction false} GrowAllAppends(groups: seq<Group>, pieces: seq<Piece>)
    ensures AllDeltas(GrowAll(groups, pieces)) == AllDeltas(groups) + Said(pieces)
    decreases |pieces|
  {
    if pieces != [] {
      var first := (TagOf(pieces[0]), pieces[0].delta.text);
      GrowAppends(groups, pieces[0]);
      GrowAllAppends(Grow(groups, pieces[0]), pieces[1..]);
      assert Said(pieces) == [first] + Said(pieces[1..]);
      Text.Regroup(AllDeltas(groups), [first], Said(pieces[1..]));
    }
  }

  lemma {:induction false} GrowAllKeepsRunsMaximal(groups: seq<Group>, pieces: seq<Piece>)
    requires MaximalRuns(groups)
    ensures MaximalRuns(GrowAll(groups, pieces))
    decreases |pieces|
  {
    if pieces != [] {
      GrowKeepsRunsMaximal(groups, pieces[0]);
      GrowAllKeepsRunsMaximal(Grow(groups, pieces[0]), pieces[1..]);
    }
  }

  // A transcript drops, repeats and reorders nothing and files every delta under the
  // block and the tool call it was said for. Its runs are maximal, and each bears the
  // head of the piece that opened it.
  lemma TranscriptKeepsEverything(pieces: seq<Piece>)
    ensures AllDeltas(Transcript(pieces)) == Said(pieces)
    ensures MaximalRuns(Transcript(pieces))
    ensures Heads(Transcript(pieces)) == Openers(pieces)
  {
    GrowAllAppends([], pieces);
    GrowAllKeepsRunsMaximal([], pieces);
    HeadsAreOpeners(pieces);
  }

  // ---- What the pieces are -----------------------------------------------------

  // A call is named by its "id" and its function's "name", filed under its unsigned
  // "index" if it has one, and says its function's "arguments"; what is no string is empty.
  lemma CallIsRead(call: Value)
    ensures var piece := CallPiece(call);
            && piece.head == ToolUseHead(Given(call, "id"), GivenIn(call, "function", "name"))
            && (piece.part.Some? <==> call.Object? && "index" in call.fields && IsUnsigned(call.fields["index"]))
            && (piece.part.Some? ==> piece.part.value == call.fields["index"].number.value)
            && piece.delta == InputJsonDelta(GivenIn(call, "function", "arguments"))
  {
  }

  // The contents of the chunks, and their reasonings, and the arguments of their calls.
  function Contents(items: seq<Item>): seq<string> {
    if items == [] then []
    else (if items[0].Chunk? && items[0].chunk.content.Some? then [items[0].chunk.content.value] else [])
         + Contents(items[1..])
  }

  function Reasonings(items: seq<Item>): seq<string> {
    if items == [] then []
    else (if items[0].Chunk? && items[0].chunk.reasoning.Some? then [items[0].chunk.reasoning.value] else [])
         + Reasonings(items[1..])
  }

  function ArgumentsIn(calls: seq<Value>): seq<string> {
    seq(|calls|, i requires 0 <= i < |calls| => GivenIn(calls[i], "function", "arguments"))
  }

  function Arguments(items: seq<Item>): seq<string> {
    if items == [] then []
    else (if items[0].Chunk? && items[0].chunk.toolCalls.Some? && items[0].chunk.toolCalls.value.Array?
          then ArgumentsIn(items[0].chunk.toolCalls.value.items) else [])
         + Arguments(items[1..])
  }

  // What the blocks of one kind hold, and what the pieces of one kind say.
  function Held(blocks: seq<Block>, kind: Kind): seq<string> {
    if blocks == [] then []
    else
      var last := blocks[|blocks| - 1];
      Held(blocks[..|blocks| - 1], kind) + if KindOf(last.head) == kind then last.deltas else []
  }

  function Uttered(pieces: seq<Piece>, kind: Kind): seq<string> {
    if pieces == [] then []
    else (if KindOf(pieces[0].head) == kind then [pieces[0].delta.text] else []) + Uttered(pieces[1..], kind)
  }

  lemma GrowHolds(groups: seq<Group>, p: Piece, kind: Kind)
    ensures Held(Blocks(Grow(groups, p)), kind)
         == Held(Blocks(groups), kind) + if KindOf(p.head) == kind then [p.delta.text] else []
  {
    var (before, after, n) := (Blocks(groups), Blocks(Grow(groups, p)), |groups|);
    if groups != [] && Joins(groups[n - 1], p) {
      assert after[..n - 1] == before[..n - 1];
      if KindOf(p.head) == kind {
        Text.Regroup(Held(before[..n - 1], kind), before[n - 1].deltas, [p.delta.text]);
      }
    } else {
      assert after[..n] == before;
    }
  }

  lemma {:induction false} GrowAllHolds(groups: seq<Group>, pieces: seq<Piece>, kind: Kind)
    ensures Held(Blocks(GrowAll(groups, pieces)), kind) == Held(Blocks(groups), kind) + Uttered(pieces, kind)
    decreases |pieces|
  {
    if pieces != [] {
      GrowHolds(groups, pieces[0], kind);
      GrowAllHolds(Grow(groups, pieces[0]), pieces[1..], kind);
      Text.Regroup(Held(Blocks(groups), kind), if KindOf(pieces[0].head) == kind then [pieces[0].delta.text] else [],
                   Uttered(pieces[1..], kind));
    }
  }

  lemma {:induction false} UtteredConcat(a: seq<Piece>, b: seq<Piece>, kind: Kind)
    ensures Uttered(a + b, kind) == Uttered(a, kind) + Uttered(b, kind)
    decreases |a|
  {
    if a == [] {
      assert a + b == b;
    } else {
      assert (a + b)[0] == a[0] && (a + b)[1..] == a[1..] + b;
      UtteredConcat(a[1..], b, kind);
      Text.Regroup(if KindOf(a[0].head) == kind then [a[0].delta.text] else [], Uttered(a[1..], kind),
                   Uttered(b, kind));
    }
  }

  lemma FirstCall(calls: seq<Value>)
    requires calls != []
    ensures CallPieces(calls) == [CallPiece(calls[0])] + CallPieces(calls[1..])
    ensures ArgumentsIn(calls) == [GivenIn(calls[0], "function", "arguments")] + ArgumentsIn(calls[1..])
  {
  }

  lemma UttersFirst(piece: Piece, rest: seq<Piece>, kind: Kind)
    ensures Uttered([piece] + rest, kind)
         == (if KindOf(piece.head) == kind then [piece.delta.text] else []) + Uttered(rest, kind)
  {
    assert ([piece] + rest)[1..] == rest;
  }

  lemma {:induction false} CallsUtter(calls: seq<Value>, kind: Kind)
    ensures Uttered(CallPieces(calls), kind) == if kind.ToolUseKind? then ArgumentsIn(calls) else []
    decreases |calls|
  {
    if calls != [] {
      CallIsRead(calls[0]);
      CallsUtter(calls[1..], kind);
      FirstCall(calls);
      UttersFirst(CallPiece(calls[0]), CallPieces(calls[1..]), kind);
    }
  }

  lemma ChunkUtters(chunk: StreamChunk)
    ensures Uttered(Pieces(chunk), TextKind) == if chunk.content.Some? then [chunk.content.value] else []
    ensures Uttered(Pieces(chunk), ThinkingKind) == if chunk.reasoning.Some? then [chunk.reasoning.value] else []
    ensures Uttered(Pieces(chunk), ToolUseKind)
         == if chunk.toolCalls.Some? && chunk.toolCalls.value.Array? then ArgumentsIn(chunk.toolCalls.value.items)
            else []
  {
    PiecesUtter(chunk, TextKind);
    PiecesUtter(chunk, ThinkingKind);
    PiecesUtter(chunk, ToolUseKind);
  }

  lemma PiecesUtter(chunk: StreamChunk, kind: Kind)
    ensures Uttered(Pieces(chunk), kind)
         == (if kind.TextKind? && chunk.content.Some? then [chunk.content.value] else [])
            + (if kind.ThinkingKind? && chunk.reasoning.Some? then [chunk.reasoning.value] else [])
            + (if kind.ToolUseKind? then ArgumentsIn(Calls(chunk)) else [])
  {
    var (text, thinking, calls) := (TextPieces(chunk), ThinkingPieces(chunk), CallPieces(Calls(chunk)));
    UtteredConcat(text + thinking, calls, kind);
    UtteredConcat(text, thinking, kind);
    CallsUtter(Calls(chunk), kind);
    TextUtters(chunk, kind);
  }

  lemma TextUtters(chunk: StreamChunk, kind: Kind)
    ensures Uttered(TextPieces(chunk), kind)
         == if kind.TextKind? && chunk.content.Some? then [chunk.content.value] else []
    ensures Uttered(ThinkingPieces(chunk), kind)
         == if kind.ThinkingKind? && chunk.reasoning.Some? then [chunk.reasoning.value] else []
  {
  }

  lemma {:induction false} SpokenUtters(items: seq<Item>)
    ensures Uttered(Spoken(items), TextKind) == Contents(items)
    ensures Uttered(Spoken(items), ThinkingKind) == Reasonings(items)
    ensures Uttered(Spoken(items), ToolUseKind) == Arguments(items)
  {
    if items != [] {
      SpokenUtters(items[1..]);
      if items[0].Chunk? {
        ChunkUtters(items[0].chunk);
      }
      UtteredConcat(SpokenBy(items[0]), Spoken(items[1..]), TextKind);
      UtteredConcat(SpokenBy(items[0]), Spoken(items[1..]), ThinkingKind);
      UtteredConcat(SpokenBy(items[0]), Spoken(items[1..]), ToolUseKind);
    }
  }

  // The blocks hold every content, reasoning and argument string of the items, each in
  // blocks of its own kind, in order, and nothing else.
  predicate HoldsAll(blocks: seq<Block>, items: seq<Item>) {
    && Held(blocks, TextKind) == Contents(items)
    && Held(blocks, ThinkingKind) == Reasonings(items)
    && Held(blocks, ToolUseKind) == Arguments(items)
  }

  lemma TranscriptHoldsAll(items: seq<Item>)
    ensures HoldsAll(Blocks(Transcript(Spoken(items))), items)
  {
    SpokenUtters(items);
    GrowAllHolds([], Spoken(items), TextKind);
    GrowAllHolds([], Spoken(items), ThinkingKind);
    GrowAllHolds([], Spoken(items), ToolUseKind);
  }

  function Reported(item: Item): Option<Usage> {
    if item.Chunk? then item.chunk.usage else None
  }

  // The last usage the items report, zero if they report none.
  ghost predicate ReportsLast(items: seq<Item>, usage: Usage) {
    || (exists k :: 0 <= k < |items| && Reported(items[k]) == Some(usage)
          && forall j :: k < j < |items| ==> Reported(items[j]).None?)
    || ((forall j :: 0 <= j < |items| ==> Reported(items[j]).None?) && usage == Usage(0, 0))
  }

  lemma {:induction false} LastUsageAt(items: seq<Item>, before: Option<Usage>) returns (k: nat)
    ensures k <= |items| && forall j :: k < j < |items| ==> Reported(items[j]).None?
    ensures k < |items| ==> Reported(items[k]).Some? && LastUsage(items, before) == Reported(items[k])
    ensures k == |items| ==> LastUsage(items, before) == before && forall j :: 0 <= j < k ==> Reported(items[j]).None?
  {
    if items == [] {
      k := 0;
    } else {
      k := LastUsageAt(items[1..], if Reported(items[0]).Some? then Reported(items[0]) else before);
      assert forall j :: 1 <= j < |items| ==> items[j] == items[1..][j - 1];
      k := if k < |items| - 1 then k + 1 else if Reported(items[0]).Some? then 0 else |items|;
    }
  }

  lemma LastUsageIsReported(items: seq<Item>)
    ensures ReportsLast(items, UsageOrZero(LastUsage(items, None)))
  {
    var k := LastUsageAt(items, None);
  }

  // The items up to the terminal one; an error says nothing itself.
  function Heard(items: seq<Item>): seq<Item> {
    var k := FirstTerminal(items);
    if k == |items| then items else if items[k].Failure? then items[..k] else items[..k + 1]
  }

  // ---- When a run is one block ------------------------------------------------

  // The blocks a tag occupies.
  function BlocksOf(groups: seq<Group>, tag: Tag): nat {
    var n := |groups|;
    if n == 0 then 0 else BlocksOf(groups[..n - 1], tag) + if GroupTag(groups[n - 1]) == tag then 1 else 0
  }

  // How often the pieces come to a tag, from the start or from another one.
  function Visits(pieces: seq<Piece>, tag: Tag): nat {
    var n := |pieces|;
    if n == 0 then 0
    else
      Visits(pieces[..n - 1], tag)
      + if TagOf(pieces[n - 1]) == tag && (n == 1 || TagOf(pieces[n - 2]) != tag) then 1 else 0
  }

  predicate Says(pieces: seq<Piece>, tag: Tag) {
    exists i :: 0 <= i < |pieces| && TagOf(pieces[i]) == tag
  }

  // Nothing else is said between two pieces of the tag.
  predicate Uninterrupted(pieces: seq<Piece>, tag: Tag) {
    forall i, j, k :: 0 <= i < j < k < |pieces| && TagOf(pieces[i]) == tag && TagOf(pieces[k]) == tag ==>
      TagOf(pieces[j]) == tag
  }

  lemma GrowAddsBlock(groups: seq<Group>, p: Piece, tag: Tag)
    ensures var joins := groups != [] && GroupTag(groups[|groups| - 1]) == TagOf(p);
            BlocksOf(Grow(groups, p), tag) == BlocksOf(groups, tag) + if TagOf(p) == tag && !joins then 1 else 0
  {
    var (grown, n) := (Grow(groups, p), |groups|);
    if groups != [] && Joins(groups[n - 1], p) {
      assert grown[..n - 1] == groups[..n - 1] && GroupTag(grown[n - 1]) == GroupTag(groups[n - 1]);
    } else {
      assert grown[..n] == groups;
    }
  }

  // A tag occupies a block each time the pieces come to it.
  lemma {:induction false} BlocksAreVisits(pieces: seq<Piece>, tag: Tag)
    ensures BlocksOf(Transcript(pieces), tag) == Visits(pieces, tag)
  {
    if pieces != [] {
      var init := pieces[..|pieces| - 1];
      BlocksAreVisits(init, tag);
      TranscriptGrows(pieces);
      HeadsAreOpeners(init);
      GrowAddsBlock(Transcript(init), pieces[|pieces| - 1], tag);
    }
  }

  lemma SaysMore(init: seq<Piece>, last: Piece, tag: Tag)
    ensures Says(init + [last], tag) <==> Says(init, tag) || TagOf(last) == tag
  {
    var pieces := init + [last];
    if Says(init, tag) {
      var i :| 0 <= i < |init| && TagOf(init[i]) == tag;
      assert TagOf(pieces[i]) == tag;
    }
    if TagOf(last) == tag {
      assert TagOf(pieces[|init|]) == tag;
    }
    if Says(pieces, tag) {
      var i :| 0 <= i < |pieces| && TagOf(pieces[i]) == tag;
      assert i < |init| ==> TagOf(init[i]) == tag;
    }
  }

  lemma UninterruptedMore(init: seq<Piece>, last: Piece, tag: Tag)
    ensures Uninterrupted(init + [last], tag)
            <==> Uninterrupted(init, tag)
                 && (TagOf(last) == tag && Says(init, tag) ==> TagOf(init[|init| - 1]) == tag)
  {
    var (pieces, n) := (init + [last], |init|);
    assert pieces[n] == last && forall i :: 0 <= i < n ==> pieces[i] == init[i];
    if Uninterrupted(pieces, tag) && TagOf(last) == tag && Says(init, tag) {
      var i :| 0 <= i < n && TagOf(init[i]) == tag;
      assert TagOf(pieces[i]) == tag && TagOf(pieces[n]) == tag;
      assert i < n - 1 ==> TagOf(pieces[n - 1]) == tag;
    }
    if Uninterrupted(init, tag) && (TagOf(last) == tag && Says(init, tag) ==> TagOf(init[n - 1]) == tag) {
      forall i, j, k | 0 <= i < j < k <= n && TagOf(pieces[i]) == tag && TagOf(pieces[k]) == tag
        ensures TagOf(pieces[j]) == tag
      {
        assert TagOf(init[i]) == tag;
      }
    }
  }

  lemma VisitsMore(init: seq<Piece>, last: Piece, tag: Tag)
    ensures Visits(init + [last], tag)
         == Visits(init, tag)
            + if TagOf(last) == tag && (init == [] || TagOf(init[|init| - 1]) != tag) then 1 else 0
  {
    assert (init + [last])[..|init|] == init;
  }

  lemma LastSays(init: seq<Piece>, tag: Tag)
    requires init != [] && TagOf(init[|init| - 1]) == tag
    ensures Says(init, tag)
  {
  }

  lemma {:induction false} SaidIsVisited(pieces: seq<Piece>, tag: Tag)
    ensures Says(pieces, tag) <==> Visits(pieces, tag) > 0
  {
    if pieces != [] {
      var (init, last) := (pieces[..|pieces| - 1], pieces[|pieces| - 1]);
      SaidIsVisited(init, tag);
      SaysMore(init, last, tag);
      VisitsMore(init, last, tag);
      assert pieces == init + [last];
      if init != [] && TagOf(init[|init| - 1]) == tag {
        LastSays(init, tag);
      }
    }
  }

  lemma VisitedOnceMore(init: seq<Piece>, last: Piece, tag: Tag)
    requires Visits(init, tag) <= 1 <==> Uninterrupted(init, tag)
    ensures Visits(init + [last], tag) <= 1 <==> Uninterrupted(init + [last], tag)
  {
    SaidIsVisited(init, tag);
    VisitsMore(init, last, tag);
    UninterruptedMore(init, last, tag);
    if init != [] && TagOf(init[|init| - 1]) == tag {
      LastSays(init, tag);
    }
  }

  lemma {:induction false} VisitedOnce(pieces: seq<Piece>, tag: Tag)
    ensures Visits(pieces, tag) <= 1 <==> Uninterrupted(pieces, tag)
  {
    if pieces != [] {
      var (init, last) := (pieces[..|pieces| - 1], pieces[|pieces| - 1]);
      VisitedOnce(init, tag);
      VisitedOnceMore(init, last, tag);
      assert pieces == init + [last];
    }
  }

  // A tool call, as any run of text or thinking, is one block exactly if nothing else is
  // said between its pieces; otherwise each return opens another block, with the id and
  // name of the piece that returns.
  lemma OneBlockPerCall(pieces: seq<Piece>, tag: Tag)
    ensures BlocksOf(Transcript(pieces), tag) <= 1 <==> Uninterrupted(pieces, tag)
    ensures BlocksOf(Transcript(pieces), tag) > 0 <==> Says(pieces, tag)
  {
    BlocksAreVisits(pieces, tag);
    VisitedOnce(pieces, tag);
    SaidIsVisited(pieces, tag);
  }

  lemma {:induction false} GrowAllConcat(groups: seq<Group>, a: seq<Piece>, b: seq<Piece>)
    ensures GrowAll(groups, a + b) == GrowAll(GrowAll(groups, a), b)
    decreases |a|
  {
    if a == [] {
      assert a + b == b;
    } else {
      assert (a + b)[0] == a[0] && (a + b)[1..] == a[1..] + b;
      GrowAllConcat(Grow(groups, a[0]), a[1..], b);
    }
  }
}
