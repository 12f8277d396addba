// Streamed tool-call deltas: fragments that lost their id and name get back what the
// opening frame introduced.
module ToolCallDeltas {
  import opened Wrappers
  import opened Json
  import Text

  datatype Meta = Meta(id: string, name: string)

  // What was introduced so far, by call index.
  type Seen = map<nat, Meta>

  const UNSEEN := Meta("", "")

  function CallIndex(call: Value, position: nat): nat {
    AsU64(Get(call, "index")).UnwrapOr(position)
  }

  // A non-empty string wins over what is remembered, a stand-in fills in for neither.
  function Settled(given: Option<Value>, remembered: string, standIn: string): (s: string)
    ensures standIn != "" ==> s != ""
  {
    if given.Some? && given.value.Str? && given.value.str != "" then given.value.str
    else if remembered != "" then remembered
    else standIn
  }

  function Introduced(seen: Seen, index: nat): Meta {
    if index in seen then seen[index] else UNSEEN
  }

  function SettledId(call: Value, position: nat, seen: Seen): string {
    var index := CallIndex(call, position);
    Settled(Get(call, "id"), Introduced(seen, index).id, "call_" + Text.Decimal(index))
  }

  // The function of a call, an empty one if there is none.
  function FunctionOf(call: Value): Value {
    Get(call, "function").UnwrapOr(Object(map[]))
  }

  function SettledName(call: Value, position: nat, seen: Seen): string {
    var index := CallIndex(call, position);
    Settled(Get(FunctionOf(call), "name"), Introduced(seen, index).name, "tool_" + Text.Decimal(index))
  }

  function ArgumentsOf(f: Value): Value {
    var given := Get(f, "arguments");
    if given.Some? && given.value.Str? then given.value else Str("")
  }

  // A function that is no object stops the call half way: it keeps the id it was given.
  function NormalCall(call: Value, position: nat, seen: Seen): Value {
    if !call.Object? then call
    else
      var named := call.fields["id" := Str(SettledId(call, position, seen))];
      var f := FunctionOf(call);
      if !f.Object? then Object(named)
      else
        var full := f.fields["name" := Str(SettledName(call, position, seen))]["arguments" := ArgumentsOf(f)];
        Object(named["function" := Object(full)]["type" := Str("function")])
  }

  function Learned(call: Value, position: nat, seen: Seen): Seen {
    if !call.Object? then seen
    else
      var index := CallIndex(call, position);
      seen[index := Meta(SettledId(call, position, seen),
                         if FunctionOf(call).Object? then SettledName(call, position, seen)
                         else Introduced(seen, index).name)]
  }

  // ---- One call ---------------------------------------------------------------

  // The full contract of a streamed call.
  predicate Complete(call: Value) {
    && AsStr(Get(call, "id")).Some? && AsStr(Get(call, "id")).value != ""
    && Get(call, "type") == Some(Str("function"))
    && AsStr(Get(FunctionOf(call), "name")).Some? && AsStr(Get(FunctionOf(call), "name")).value != ""
    && AsStr(Get(FunctionOf(call), "arguments")).Some?
  }

  // What a well-formed call is: an object whose function is an object or missing.
  predicate WellFormed(call: Value) {
    call.Object? && FunctionOf(call).Object?
  }

  lemma NormalCallIsComplete(call: Value, position: nat, seen: Seen)
    requires WellFormed(call)
    ensures var out := NormalCall(call, position, seen);
            && Complete(out)
            && AsStr(Get(out, "id")) == Some(SettledId(call, position, seen))
            && AsStr(Get(FunctionOf(out), "name")) == Some(SettledName(call, position, seen))
            && Get(FunctionOf(out), "arguments") == Some(ArgumentsOf(FunctionOf(call)))
  {
  }

  // Nothing else in the call changes.
  lemma NormalCallKeepsRest(call: Value, position: nat, seen: Seen, key: string)
    ensures key !in ["id", "type", "function"] ==> Get(NormalCall(call, position, seen), key) == Get(call, key)
    ensures key !in ["name", "arguments"] ==>
      Get(FunctionOf(NormalCall(call, position, seen)), key) == Get(FunctionOf(call), key)
    ensures CallIndex(NormalCall(call, position, seen), position) == CallIndex(call, position)
  {
  }

  lemma SetSame(fields: map<string, Value>, key: string, v: Value)
    requires key in fields && fields[key] == v
    ensures fields[key := v] == fields
  {
  }

  lemma CompleteIsFixed(call: Value, position: nat, seen: Seen)
    requires WellFormed(call) && Complete(call) && "function" in call.fields
    ensures NormalCall(call, position, seen) == call
  {
    var f := FunctionOf(call);
    SetSame(call.fields, "id", Str(SettledId(call, position, seen)));
    SetSame(f.fields, "name", Str(SettledName(call, position, seen)));
    SetSame(f.fields, "arguments", ArgumentsOf(f));
    SetSame(call.fields, "function", f);
    SetSame(call.fields, "type", Str("function"));
  }

  lemma NamedIsFixed(call: Value, position: nat, seen: Seen)
    requires call.Object? && !FunctionOf(call).Object?
    requires AsStr(Get(call, "id")).Some? && AsStr(Get(call, "id")).value != ""
    ensures NormalCall(call, position, seen) == call
  {
    SetSame(call.fields, "id", Str(SettledId(call, position, seen)));
  }

  // A normalized call is normal whatever has been seen.
  lemma NormalCallIsFixed(call: Value, position: nat, seen: Seen, other: Seen)
    ensures NormalCall(NormalCall(call, position, seen), position, other) == NormalCall(call, position, seen)
  {
    if WellFormed(call) {
      NormalCallIsComplete(call, position, seen);
      CompleteIsFixed(NormalCall(call, position, seen), position, other);
    } else if call.Object? {
      NamedIsFixed(NormalCall(call, position, seen), position, other);
    }
  }

  // ---- Calls of a choice, choices of a chunk, chunks of a stream --------------

  function NormalCalls(calls: seq<Value>, seen: Seen): (out: seq<Value>)
    ensures |out| == |calls|
  {
    if calls == [] then []
    else
      var n := |calls| - 1;
      NormalCalls(calls[..n], seen) + [NormalCall(calls[n], n, LearnedCalls(calls[..n], seen))]
  }

  function LearnedCalls(calls: seq<Value>, seen: Seen): Seen {
    if calls == [] then seen
    else
      var n := |calls| - 1;
      Learned(calls[n], n, LearnedCalls(calls[..n], seen))
  }

  function CallsOf(choice: Value): Option<seq<Value>> {
    var delta: Value :- Get(choice, "delta");
    AsArray(Get(delta, "tool_calls"))
  }

  function WithCalls(choice: Value, calls: seq<Value>): Value
    requires CallsOf(choice).Some?
  {
    var delta := choice.fields["delta"];
    Object(choice.fields["delta" := Object(delta.fields["tool_calls" := Array(calls)])])
  }

  function NormalChoice(choice: Value, seen: Seen): Value {
    if CallsOf(choice).Some? then WithCalls(choice, NormalCalls(CallsOf(choice).value, seen)) else choice
  }

  function LearnedChoice(choice: Value, seen: Seen): Seen {
    LearnedCalls(CallsOf(choice).UnwrapOr([]), seen)
  }

  function NormalChoices(choices: seq<Value>, seen: Seen): seq<Value> {
    if choices == [] then []
    else
      var n := |choices| - 1;
      NormalChoices(choices[..n], seen) + [NormalChoice(choices[n], LearnedChoices(choices[..n], seen))]
  }

  function LearnedChoices(choices: seq<Value>, seen: Seen): Seen {
    if choices == [] then seen
    else LearnedChoice(choices[|choices| - 1], LearnedChoices(choices[..|choices| - 1], seen))
  }

  function ChoicesOf(chunk: Value): Option<seq<Value>> {
    AsArray(Get(chunk, "choices"))
  }

  function NormalChunk(chunk: Value, seen: Seen): Value {
    if ChoicesOf(chunk).Some?
    then Object(chunk.fields["choices" := Array(NormalChoices(ChoicesOf(chunk).value, seen))])
    else chunk
  }

  function LearnedChunk(chunk: Value, seen: Seen): Seen {
    LearnedChoices(ChoicesOf(chunk).UnwrapOr([]), seen)
  }

  function NormalStream(chunks: seq<Value>, seen: Seen): seq<Value> {
    if chunks == [] then []
    else
      var n := |chunks| - 1;
      NormalStream(chunks[..n], seen) + [NormalChunk(chunks[n], LearnedStream(chunks[..n], seen))]
  }

  function LearnedStream(chunks: seq<Value>, seen: Seen): Seen {
    if chunks == [] then seen
    else LearnedChunk(chunks[|chunks| - 1], LearnedStream(chunks[..|chunks| - 1], seen))
  }

  // ---- Normalizing twice ------------------------------------------------------

  lemma {:induction false} NormalCallsAreFixed(calls: seq<Value>, seen: Seen, other: Seen)
    ensures NormalCalls(NormalCalls(calls, seen), other) == NormalCalls(calls, seen)
    decreases |calls|
  {
    if calls != [] {
      var n := |calls| - 1;
      var out := NormalCalls(calls, seen);
      assert out[..n] == NormalCalls(calls[..n], seen);
      NormalCallsAreFixed(calls[..n], seen, other);
      NormalCallIsFixed(calls[n], n, LearnedCalls(calls[..n], seen), LearnedCalls(out[..n], other));
    }
  }

  lemma NormalChoiceIsFixed(choice: Value, seen: Seen, other: Seen)
    ensures NormalChoice(NormalChoice(choice, seen), other) == NormalChoice(choice, seen)
  {
    if CallsOf(choice).Some? {
      var calls := NormalCalls(CallsOf(choice).value, seen);
      NormalCallsAreFixed(CallsOf(choice).value, seen, other);
      WithSameCalls(choice, calls);
    }
  }

  lemma WithSameCalls(choice: Value, calls: seq<Value>)
    requires CallsOf(choice).Some?
    ensures CallsOf(WithCalls(choice, calls)) == Some(calls)
    ensures WithCalls(WithCalls(choice, calls), calls) == WithCalls(choice, calls)
  {
    var out := WithCalls(choice, calls);
    var delta := out.fields["delta"];
    SetSame(delta.fields, "tool_calls", Array(calls));
    SetSame(out.fields, "delta", delta);
  }

  lemma {:induction false} NormalChoicesAreFixed(choices: seq<Value>, seen: Seen, other: Seen)
    ensures NormalChoices(NormalChoices(choices, seen), other) == NormalChoices(choices, seen)
    decreases |choices|
  {
    if choices != [] {
      var n := |choices| - 1;
      var out := NormalChoices(choices, seen);
      assert out[..|out| - 1] == NormalChoices(choices[..n], seen);
      NormalChoicesAreFixed(choices[..n], seen, other);
      NormalChoiceIsFixed(choices[n], LearnedChoices(choices[..n], seen), LearnedChoices(out[..|out| - 1], other));
    }
  }

  lemma NormalChunkIsFixed(chunk: Value, seen: Seen, other: Seen)
    ensures NormalChunk(NormalChunk(chunk, seen), other) == NormalChunk(chunk, seen)
  {
    if ChoicesOf(chunk).Some? {
      NormalChoicesAreFixed(ChoicesOf(chunk).value, seen, other);
      var out := NormalChunk(chunk, seen);
      SetSame(out.fields, "choices", Array(NormalChoices(ChoicesOf(chunk).value, seen)));
    }
  }

  // A normalized stream passes through unchanged, from the empty state and any other,
  // malformed calls included.
  lemma {:induction false} NormalStreamIsFixed(chunks: seq<Value>, seen: Seen, other: Seen)
    ensures NormalStream(NormalStream(chunks, seen), other) == NormalStream(chunks, seen)
    decreases |chunks|
  {
    if chunks != [] {
      var n := |chunks| - 1;
      var out := NormalStream(chunks, seen);
      assert out[..|out| - 1] == NormalStream(chunks[..n], seen);
      NormalStreamIsFixed(chunks[..n], seen, other);
      NormalChunkIsFixed(chunks[n], LearnedStream(chunks[..n], seen), LearnedStream(out[..|out| - 1], other));
    }
  }

  // ---- The stream as one run of calls -----------------------------------------

  // A call and its place in its array.
  datatype Slot = Slot(call: Value, position: nat)

  function SlotsOfCalls(calls: seq<Value>): seq<Slot> {
    seq(|calls|, i requires 0 <= i < |calls| => Slot(calls[i], i))
  }

  // The tool calls listed in the delta of a choice.
  function CallsIn(choice: Value): seq<Value> {
    if choice.Object? && "delta" in choice.fields then Listed(choice.fields["delta"], "tool_calls") else []
  }

  lemma CallsAreListed(choice: Value)
    ensures CallsOf(choice).UnwrapOr([]) == CallsIn(choice)
  {
  }

  function SlotsOfChoices(choices: seq<Value>): seq<Slot> {
    if choices == [] then []
    else
      var n := |choices| - 1;
      SlotsOfChoices(choices[..n]) + SlotsOfCalls(CallsIn(choices[n]))
  }

  function SlotsOf(chunks: seq<Value>): seq<Slot> {
    if chunks == [] then []
    else
      var n := |chunks| - 1;
      SlotsOf(chunks[..n]) + SlotsOfChoices(Listed(chunks[n], "choices"))
  }

  function NormalSlots(slots: seq<Slot>, seen: Seen): (out: seq<Slot>)
    ensures |out| == |slots|
  {
    if slots == [] then []
    else
      var n := |slots| - 1;
      NormalSlots(slots[..n], seen) + [NormalSlot(slots[n], LearnedSlots(slots[..n], seen))]
  }

  function LearnedSlots(slots: seq<Slot>, seen: Seen): Seen {
    if slots == [] then seen
    else
      var last := slots[|slots| - 1];
      Learned(last.call, last.position, LearnedSlots(slots[..|slots| - 1], seen))
  }

  lemma {:induction false} LearnedConcat(a: seq<Slot>, b: seq<Slot>, seen: Seen)
    ensures LearnedSlots(a + b, seen) == LearnedSlots(b, LearnedSlots(a, seen))
    decreases |b|
  {
    if b == [] {
      assert a + b == a;
    } else {
      LearnedConcat(a, b[..|b| - 1], seen);
      assert (a + b)[..|a + b| - 1] == a + b[..|b| - 1];
    }
  }

  function NormalSlot(slot: Slot, seen: Seen): Slot {
    Slot(NormalCall(slot.call, slot.position, seen), slot.position)
  }

  lemma NormalSlotsAppend(slots: seq<Slot>, slot: Slot, seen: Seen)
    ensures NormalSlots(slots + [slot], seen)
      == NormalSlots(slots, seen) + [NormalSlot(slot, LearnedSlots(slots, seen))]
  {
    assert (slots + [slot])[..|slots|] == slots;
  }

  lemma {:induction false} NormalConcat(a: seq<Slot>, b: seq<Slot>, seen: Seen)
    ensures NormalSlots(a + b, seen) == NormalSlots(a, seen) + NormalSlots(b, LearnedSlots(a, seen))
    decreases |b|
  {
    if b == [] {
      assert a + b == a;
    } else {
      var (init, last) := (b[..|b| - 1], b[|b| - 1]);
      NormalConcat(a, init, seen);
      LearnedConcat(a, init, seen);
      NormalSlotsAppend(a + init, last, seen);
      NormalSlotsAppend(init, last, LearnedSlots(a, seen));
      assert a + b == (a + init) + [last] && b == init + [last];
      Text.Regroup(NormalSlots(a, seen), NormalSlots(init, LearnedSlots(a, seen)),
              [NormalSlot(last, LearnedSlots(a + init, seen))]);
    }
  }

  lemma SlotsConcat(a: seq<Slot>, b: seq<Slot>, seen: Seen)
    ensures NormalSlots(a + b, seen) == NormalSlots(a, seen) + NormalSlots(b, LearnedSlots(a, seen))
    ensures LearnedSlots(a + b, seen) == LearnedSlots(b, LearnedSlots(a, seen))
  {
    NormalConcat(a, b, seen);
    LearnedConcat(a, b, seen);
  }

  lemma {:induction false} CallsAsSlots(calls: seq<Value>, seen: Seen)
    ensures SlotsOfCalls(NormalCalls(calls, seen)) == NormalSlots(SlotsOfCalls(calls), seen)
    ensures LearnedCalls(calls, seen) == LearnedSlots(SlotsOfCalls(calls), seen)
    decreases |calls|
  {
    if calls != [] {
      var n := |calls| - 1;
      CallsAsSlots(calls[..n], seen);
      SlotsOfMore(calls[..n], calls[n]);
      SlotsOfMore(NormalCalls(calls[..n], seen), NormalCall(calls[n], n, LearnedCalls(calls[..n], seen)));
      NormalSlotsAppend(SlotsOfCalls(calls[..n]), Slot(calls[n], n), seen);
      LearnedAppend(SlotsOfCalls(calls[..n]), Slot(calls[n], n), seen);
      assert calls == calls[..n] + [calls[n]];
    }
  }

  lemma SlotsOfMore(calls: seq<Value>, call: Value)
    ensures SlotsOfCalls(calls + [call]) == SlotsOfCalls(calls) + [Slot(call, |calls|)]
  {
  }

  lemma LearnedAppend(slots: seq<Slot>, slot: Slot, seen: Seen)
    ensures LearnedSlots(slots + [slot], seen) == Learned(slot.call, slot.position, LearnedSlots(slots, seen))
  {
    assert (slots + [slot])[..|slots|] == slots;
  }

  lemma CallsOfNormal(choice: Value, seen: Seen)
    ensures CallsIn(NormalChoice(choice, seen)) == NormalCalls(CallsIn(choice), seen)
  {
    if CallsOf(choice).Some? {
      WithSameCalls(choice, NormalCalls(CallsOf(choice).value, seen));
    }
  }

  lemma {:induction false} ChoicesAsSlots(choices: seq<Value>, seen: Seen)
    ensures SlotsOfChoices(NormalChoices(choices, seen)) == NormalSlots(SlotsOfChoices(choices), seen)
    ensures LearnedChoices(choices, seen) == LearnedSlots(SlotsOfChoices(choices), seen)
    decreases |choices|
  {
    if choices != [] {
      var n := |choices| - 1;
      ChoicesAsSlots(choices[..n], seen);
      var before := LearnedChoices(choices[..n], seen);
      var out := NormalChoices(choices, seen);
      assert out[..|out| - 1] == NormalChoices(choices[..n], seen);
      CallsOfNormal(choices[n], before);
      CallsAreListed(choices[n]);
      CallsAsSlots(CallsIn(choices[n]), before);
      SlotsConcat(SlotsOfChoices(choices[..n]), SlotsOfCalls(CallsIn(choices[n])), seen);
    }
  }

  lemma ChoicesOfNormal(chunk: Value, seen: Seen)
    ensures Listed(NormalChunk(chunk, seen), "choices") == NormalChoices(Listed(chunk, "choices"), seen)
    ensures LearnedChunk(chunk, seen) == LearnedChoices(Listed(chunk, "choices"), seen)
  {
  }

  lemma {:induction false} StreamAsSlots(chunks: seq<Value>, seen: Seen)
    ensures SlotsOf(NormalStream(chunks, seen)) == NormalSlots(SlotsOf(chunks), seen)
    ensures LearnedStream(chunks, seen) == LearnedSlots(SlotsOf(chunks), seen)
    decreases |chunks|
  {
    if chunks != [] {
      var n := |chunks| - 1;
      StreamAsSlots(chunks[..n], seen);
      var before := LearnedStream(chunks[..n], seen);
      var out := NormalStream(chunks, seen);
      assert out[..|out| - 1] == NormalStream(chunks[..n], seen);
      ChoicesOfNormal(chunks[n], before);
      ChoicesAsSlots(Listed(chunks[n], "choices"), before);
      SlotsConcat(SlotsOf(chunks[..n]), SlotsOfChoices(Listed(chunks[n], "choices")), seen);
    }
  }

  // Beside its choices a chunk stays as it is.
  lemma NormalChunkKeepsRest(chunk: Value, seen: Seen, key: string)
    ensures key != "choices" ==> Get(NormalChunk(chunk, seen), key) == Get(chunk, key)
    ensures |Listed(NormalChunk(chunk, seen), "choices")| == |Listed(chunk, "choices")|
    ensures Listed(chunk, "choices") == [] ==> NormalChunk(chunk, seen) == chunk
  {
    ChoicesOfNormal(chunk, seen);
    NormalChoicesLength(Listed(chunk, "choices"), seen);
    if ChoicesOf(chunk) == Some([]) {
      SetSame(chunk.fields, "choices", Array([]));
    }
  }

  lemma WithCallsKeepsRest(choice: Value, calls: seq<Value>, key: string)
    requires CallsOf(choice).Some?
    ensures key != "delta" ==> Get(WithCalls(choice, calls), key) == Get(choice, key)
    ensures Get(choice, "delta").Some? && Get(WithCalls(choice, calls), "delta").Some?
    ensures key != "tool_calls" ==>
              Get(Get(WithCalls(choice, calls), "delta").value, key) == Get(Get(choice, "delta").value, key)
    ensures CallsOf(choice) == Some(calls) ==> WithCalls(choice, calls) == choice
  {
    if CallsOf(choice) == Some(calls) {
      var delta := choice.fields["delta"];
      SetSame(delta.fields, "tool_calls", Array(calls));
      SetSame(choice.fields, "delta", delta);
    }
  }

  // Beside its calls a choice stays as it is.
  lemma NormalChoiceKeepsRest(choice: Value, seen: Seen, key: string)
    ensures key != "delta" ==> Get(NormalChoice(choice, seen), key) == Get(choice, key)
    ensures key != "tool_calls" && Get(choice, "delta").Some? ==>
              Get(NormalChoice(choice, seen), "delta").Some?
              && Get(Get(NormalChoice(choice, seen), "delta").value, key) == Get(Get(choice, "delta").value, key)
    ensures CallsOf(choice) in {None, Some([])} ==> NormalChoice(choice, seen) == choice
  {
    if CallsOf(choice).Some? {
      WithCallsKeepsRest(choice, NormalCalls(CallsOf(choice).value, seen), key);
    }
  }

  lemma {:induction false} NormalChoicesLength(choices: seq<Value>, seen: Seen)
    ensures |NormalChoices(choices, seen)| == |choices|
  {
    if choices != [] {
      NormalChoicesLength(choices[..|choices| - 1], seen);
    }
  }

  // ---- Where the ids and names come from --------------------------------------

  // The call's own unsigned "index", or its place if it has none.
  predicate IsAt(slot: Slot, index: nat) {
    if slot.call.Object? && "index" in slot.call.fields && IsUnsigned(slot.call.fields["index"])
    then slot.call.fields["index"].number.value == index
    else slot.position == index
  }

  // The latest non-empty id introduced at an index, or "".
  function LatestId(slots: seq<Slot>, index: nat): string {
    if slots == [] then ""
    else
      var last := slots[|slots| - 1];
      if IsAt(last, index) && Given(last.call, "id") != "" then Given(last.call, "id")
      else LatestId(slots[..|slots| - 1], index)
  }

  function LatestName(slots: seq<Slot>, index: nat): string {
    if slots == [] then ""
    else
      var last := slots[|slots| - 1];
      if IsAt(last, index) && GivenIn(last.call, "function", "name") != "" then GivenIn(last.call, "function", "name")
      else LatestName(slots[..|slots| - 1], index)
  }

  function OrElse(s: string, standIn: string): string {
    if s != "" then s else standIn
  }

  // What is remembered is the latest introduction, or a stand-in of the same index.
  predicate Stands(remembered: string, latest: string, standIn: string) {
    remembered == latest || (latest == "" && remembered == standIn)
  }

  lemma IsAtItsIndex(slot: Slot, index: nat)
    ensures IsAt(slot, index) <==> CallIndex(slot.call, slot.position) == index
  {
  }

  lemma {:induction false} RemembersLatest(slots: seq<Slot>, index: nat)
    ensures var meta := Introduced(LearnedSlots(slots, map[]), index);
            && Stands(meta.id, LatestId(slots, index), "call_" + Text.Decimal(index))
            && Stands(meta.name, LatestName(slots, index), "tool_" + Text.Decimal(index))
  {
    if slots != [] {
      RemembersLatest(slots[..|slots| - 1], index);
      IsAtItsIndex(slots[|slots| - 1], index);
    }
  }

  lemma {:induction false} NormalSlotAt(slots: seq<Slot>, seen: Seen, k: nat)
    requires k < |slots|
    ensures NormalSlots(slots, seen)[k]
      == Slot(NormalCall(slots[k].call, slots[k].position, LearnedSlots(slots[..k], seen)), slots[k].position)
  {
    if k < |slots| - 1 {
      NormalSlotAt(slots[..|slots| - 1], seen, k);
      assert slots[..|slots| - 1][..k] == slots[..k];
    }
  }

  // The contract over a whole stream: every well-formed call comes out complete, with
  // the latest id and name introduced at its index and its own arguments.
  lemma StreamIsComplete(chunks: seq<Value>, k: nat, index: nat)
    requires k < |SlotsOf(chunks)| && WellFormed(SlotsOf(chunks)[k].call) && IsAt(SlotsOf(chunks)[k], index)
    ensures |SlotsOf(NormalStream(chunks, map[]))| == |SlotsOf(chunks)|
    ensures var slots := SlotsOf(chunks); var out := SlotsOf(NormalStream(chunks, map[]))[k].call;
            && Complete(out)
            && Given(out, "id") == OrElse(LatestId(slots[..k + 1], index), "call_" + Text.Decimal(index))
            && GivenIn(out, "function", "name")
               == OrElse(LatestName(slots[..k + 1], index), "tool_" + Text.Decimal(index))
            && GivenIn(out, "function", "arguments") == GivenIn(slots[k].call, "function", "arguments")
  {
    var slots := SlotsOf(chunks);
    var (call, position, seen) := (slots[k].call, slots[k].position, LearnedSlots(slots[..k], map[]));
    StreamAsSlots(chunks, map[]);
    NormalSlotAt(slots, map[], k);
    NormalCallIsComplete(call, position, seen);
    SettledIsLatest(slots, k, index);
  }

  lemma SettledIsLatest(slots: seq<Slot>, k: nat, index: nat)
    requires k < |slots| && WellFormed(slots[k].call) && IsAt(slots[k], index)
    ensures var (call, position, seen) := (slots[k].call, slots[k].position, LearnedSlots(slots[..k], map[]));
            && SettledId(call, position, seen)
               == OrElse(LatestId(slots[..k + 1], index), "call_" + Text.Decimal(index))
            && SettledName(call, position, seen)
               == OrElse(LatestName(slots[..k + 1], index), "tool_" + Text.Decimal(index))
  {
    IsAtItsIndex(slots[k], index);
    RemembersLatest(slots[..k], index);
    assert slots[..k + 1][..k] == slots[..k];
  }

  // The calls of one index.
  function CallsAt(slots: seq<Slot>, index: nat): seq<Slot> {
    if slots == [] then []
    else
      var last := slots[|slots| - 1];
      CallsAt(slots[..|slots| - 1], index) + if IsAt(last, index) then [last] else []
  }

  lemma {:induction false} OnlyItsIndexCounts(slots: seq<Slot>, index: nat)
    ensures LatestId(CallsAt(slots, index), index) == LatestId(slots, index)
    ensures LatestName(CallsAt(slots, index), index) == LatestName(slots, index)
  {
    if slots != [] {
      var (init, last) := (slots[..|slots| - 1], slots[|slots| - 1]);
      OnlyItsIndexCounts(init, index);
      if IsAt(last, index) {
        assert CallsAt(slots, index)[..|CallsAt(init, index)|] == CallsAt(init, index);
      } else {
        assert CallsAt(slots, index) == CallsAt(init, index);
      }
    }
  }

  // Calls of other indexes never change what a call comes out with.
  lemma OthersChangeNothing(a: seq<Value>, b: seq<Value>, j: nat, k: nat, index: nat)
    requires j < |SlotsOf(a)| && k < |SlotsOf(b)| && SlotsOf(a)[j] == SlotsOf(b)[k]
    requires WellFormed(SlotsOf(a)[j].call) && IsAt(SlotsOf(a)[j], index)
    requires CallsAt(SlotsOf(a)[..j + 1], index) == CallsAt(SlotsOf(b)[..k + 1], index)
    ensures |SlotsOf(NormalStream(a, map[]))| == |SlotsOf(a)| && |SlotsOf(NormalStream(b, map[]))| == |SlotsOf(b)|
    ensures SlotsOf(NormalStream(a, map[]))[j] == SlotsOf(NormalStream(b, map[]))[k]
  {
    ComesOutAs(a, j, index);
    ComesOutAs(b, k, index);
    OnlyItsIndexCounts(SlotsOf(a)[..j + 1], index);
    OnlyItsIndexCounts(SlotsOf(b)[..k + 1], index);
  }

  // A well-formed call with the id and name it settles on.
  function With(call: Value, id: string, name: string): Value
    requires WellFormed(call)
  {
    var f := FunctionOf(call);
    var full := f.fields["name" := Str(name)]["arguments" := ArgumentsOf(f)];
    Object(call.fields["id" := Str(id)]["function" := Object(full)]["type" := Str("function")])
  }

  lemma ComesOutAs(chunks: seq<Value>, k: nat, index: nat)
    requires k < |SlotsOf(chunks)| && WellFormed(SlotsOf(chunks)[k].call) && IsAt(SlotsOf(chunks)[k], index)
    ensures |SlotsOf(NormalStream(chunks, map[]))| == |SlotsOf(chunks)|
    ensures var slots := SlotsOf(chunks);
            SlotsOf(NormalStream(chunks, map[]))[k]
            == Slot(With(slots[k].call,
                         OrElse(LatestId(slots[..k + 1], index), "call_" + Text.Decimal(index)),
                         OrElse(LatestName(slots[..k + 1], index), "tool_" + Text.Decimal(index))),
                    slots[k].position)
  {
    StreamAsSlots(chunks, map[]);
    NormalSlotAt(SlotsOf(chunks), map[], k);
    SettledIsLatest(SlotsOf(chunks), k, index);
  }

  // ---- The loops --------------------------------------------------------------

  class ToolCallIds {
    var seen: Seen

    constructor ()
      ensures seen == map[]
    {
      seen := map[];
    }

    method NormalizeCall(call: Value, position: nat) returns (out: Value)
      modifies this
      ensures out == NormalCall(call, position, old(seen)) && seen == Learned(call, position, old(seen))
    {
      if !call.Object? {
        return call;
      }
      var entries := call.fields;
      var index := AsU64(Get(call, "index")).UnwrapOr(position);
      var meta := if index in seen then seen[index] else UNSEEN;
      var id := Settle(Get(call, "id"), meta.id, "call_" + Text.Decimal(index));
      meta := meta.(id := id);
      seen := seen[index := meta];
      entries := entries["id" := Str(meta.id)];
      var f := if "function" in entries then entries["function"] else Object(map[]);
      if !f.Object? {
        return Object(entries);
      }
      var name, details := SettleFunction(f, meta.name, "tool_" + Text.Decimal(index));
      meta := meta.(name := name);
      seen := seen[index := meta];
      return Object(entries["function" := Object(details)]["type" := Str("function")]);
    }

    method Settle(given: Option<Value>, remembered: string, standIn: string) returns (s: string)
      ensures s == Settled(given, remembered, standIn)
    {
      s := remembered;
      if AsStr(given).Some? && AsStr(given).value != "" {
        s := AsStr(given).value;
      }
      if s == "" {
        s := standIn;
      }
    }

    method SettleFunction(f: Value, remembered: string, standIn: string)
      returns (name: string, details: map<string, Value>)
      requires f.Object?
      ensures name == Settled(Get(f, "name"), remembered, standIn)
      ensures details == f.fields["name" := Str(name)]["arguments" := ArgumentsOf(f)]
    {
      name := Settle(Get(f, "name"), remembered, standIn);
      details := f.fields["name" := Str(name)];
      if AsStr(Get(f, "arguments")).None? {
        details := details["arguments" := Str("")];
      } else {
        SetSame(details, "arguments", ArgumentsOf(f));
      }
    }

    method NormalizeChoice(choice: Value) returns (out: Value)
      modifies this
      ensures out == NormalChoice(choice, old(seen)) && seen == LearnedChoice(choice, old(seen))
    {
      var calls := CallsOf(choice);
      if calls.None? {
        return choice;
      }
      var normal: seq<Value> := [];
      for i := 0 to |calls.value|
        invariant normal == NormalCalls(calls.value[..i], old(seen))
        invariant seen == LearnedCalls(calls.value[..i], old(seen))
      {
        assert calls.value[..i + 1][..i] == calls.value[..i];
        var call := NormalizeCall(calls.value[i], i);
        normal := normal + [call];
      }
      assert calls.value[..|calls.value|] == calls.value;
      return WithCalls(choice, normal);
    }

    method Normalize(chunk: Value) returns (out: Value)
      modifies this
      ensures out == NormalChunk(chunk, old(seen)) && seen == LearnedChunk(chunk, old(seen))
    {
      var choices := ChoicesOf(chunk);
      if choices.None? {
        return chunk;
      }
      var normal: seq<Value> := [];
      for i := 0 to |choices.value|
        invariant normal == NormalChoices(choices.value[..i], old(seen))
        invariant seen == LearnedChoices(choices.value[..i], old(seen))
      {
        assert choices.value[..i + 1][..i] == choices.value[..i];
        var choice := NormalizeChoice(choices.value[i]);
        normal := normal + [choice];
      }
      assert choices.value[..|choices.value|] == choices.value;
      return Object(chunk.fields["choices" := Array(normal)]);
    }
  }
}
