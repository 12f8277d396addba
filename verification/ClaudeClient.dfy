// The wire frames of the Anthropic event dialect and the client that folds them
// back into a message.
module ClaudeFrames {
  // Block indices are 32-bit counters in the gateway.
  const INDEX_MODULUS := 0x1_0000_0000

  datatype Usage = Usage(promptTokens: nat, completionTokens: nat)

  datatype Head = TextHead | ThinkingHead | ToolUseHead(id: string, name: string)

  datatype Delta = TextDelta(text: string) | ThinkingDelta(text: string) | InputJsonDelta(text: string)

  datatype Frame =
    | MessageStart(model: string)
    | BlockStart(index: nat, head: Head)
    | BlockDelta(index: nat, delta: Delta)
    | BlockStop(index: nat)
    | MessageDelta(stopReason: string, usage: Usage)
    | MessageStop
    | ErrorFrame(payload: string)

  // A content block as the client rebuilt it, one entry per delta.
  datatype Block = Block(head: Head, deltas: seq<string>)

  datatype Client =
    | Waiting
    | Reading(model: string, blocks: seq<Block>, open: bool)
    | Closing(model: string, blocks: seq<Block>, stopReason: string, usage: Usage)
    | Finished(model: string, blocks: seq<Block>, stopReason: string, usage: Usage)
    | Errored(model: string, blocks: seq<Block>, payload: string)
    | Malformed

  predicate Fits(head: Head, delta: Delta) {
    match delta
    case TextDelta(_) => head.TextHead?
    case ThinkingDelta(_) => head.ThinkingHead?
    case InputJsonDelta(_) => head.ToolUseHead?
  }

  // One frame read by the client. Anything the dialect forbids is final.
  function Feed(c: Client, f: Frame): Client {
    match c
    case Waiting =>
      if f.MessageStart? then Reading(f.model, [], false) else Malformed
    case Reading(model, blocks, open) => FeedReading(model, blocks, open, f)
    case Closing(model, blocks, reason, usage) =>
      if f.MessageStop? then Finished(model, blocks, reason, usage) else Malformed
    case Finished(_, _, _, _) => Malformed
    case Errored(_, _, _) => Malformed
    case Malformed => Malformed
  }

  function FeedReading(model: string, blocks: seq<Block>, open: bool, f: Frame): Client {
    match f
    case BlockStart(index, head) =>
      if !open && index == |blocks| % INDEX_MODULUS then Reading(model, blocks + [Block(head, [])], true)
      else Malformed
    case BlockDelta(index, delta) =>
      if open && blocks != [] && index == (|blocks| - 1) % INDEX_MODULUS
         && Fits(blocks[|blocks| - 1].head, delta)
      then Reading(model, AppendToLast(blocks, delta.text), true)
      else Malformed
    case BlockStop(index) =>
      if open && blocks != [] && index == (|blocks| - 1) % INDEX_MODULUS then Reading(model, blocks, false)
      else Malformed
    case MessageDelta(reason, usage) =>
      if !open then Closing(model, blocks, reason, usage) else Malformed
    case ErrorFrame(payload) => Errored(model, blocks, payload)
    case MessageStart(_) => Malformed
    case MessageStop => Malformed
  }

  function AppendToLast(blocks: seq<Block>, text: string): seq<Block>
    requires blocks != []
  {
    var last := blocks[|blocks| - 1];
    blocks[|blocks| - 1 := last.(deltas := last.deltas + [text])]
  }

  // The client after a whole run of frames.
  function FeedAll(c: Client, frames: seq<Frame>): Client
    decreases |frames|
  {
    if frames == [] then c else FeedAll(Feed(c, frames[0]), frames[1..])
  }

  lemma {:induction false} FeedAllConcat(c: Client, a: seq<Frame>, b: seq<Frame>)
    ensures FeedAll(c, a + b) == FeedAll(FeedAll(c, a), b)
    decreases |a|
  {
    if a == [] {
      assert a + b == b;
    } else {
      assert (a + b)[0] == a[0] && (a + b)[1..] == a[1..] + b;
      FeedAllConcat(Feed(c, a[0]), a[1..], b);
    }
  }

  // Once a client has seen a malformed stream nothing repairs it.
  lemma {:induction false} MalformedIsFinal(frames: seq<Frame>)
    ensures FeedAll(Malformed, frames) == Malformed
  {
    if frames != [] {
      MalformedIsFinal(frames[1..]);
    }
  }

  lemma FeedOne(c: Client, f: Frame)
    ensures FeedAll(c, [f]) == Feed(c, f)
  {
    assert [f][1..] == [];
    assert FeedAll(Feed(c, f), []) == Feed(c, f);
  }
}
