// Rewriting a combo's model list and parsing it back.
module ComboModels {
  import opened Wrappers
  import opened Json
  import Text

  type I64 = i: int | -I64_LIMIT <= i < I64_LIMIT

  datatype Spec = Spec(id: Option<string>, provider: string, model: string, weight: I64)

  datatype RichEntry = RichEntry(provider: string, model: string, id: string, weight: I64)

  // ---- Ids --------------------------------------------------------------------

  const SLUG_LENGTH := 40

  predicate IsAlphanumeric(c: char) {
    '0' <= c <= '9' || 'a' <= c <= 'z' || 'A' <= c <= 'Z'
  }

  // Runs of other characters become one dash, none of them leading; no more is taken
  // once the length is reached.
  function Dashed(text: string): string {
    if text == [] then ""
    else
      var (out, c) := (Dashed(text[..|text| - 1]), text[|text| - 1]);
      if |out| >= SLUG_LENGTH then out
      else if IsAlphanumeric(c) then out + [c]
      else if out == "" || out[|out| - 1] == '-' then out
      else out + "-"
  }

  function Slugged(text: string): string {
    var out := Dashed(text);
    if out != "" && out[|out| - 1] == '-' then out[..|out| - 1] else out
  }

  // Letters, digits and single dashes between them.
  ghost predicate IsSlug(s: string) {
    && |s| <= 40
    && (forall i :: 0 <= i < |s| ==> InWord(s[i]) || s[i] == '-')
    && (forall i :: 0 < i < |s| && s[i] == '-' ==> s[i - 1] != '-')
    && (s != "" ==> s[0] != '-' && s[|s| - 1] != '-')
  }

  lemma {:induction false} DashedShape(text: string)
    ensures var s := Dashed(text);
            && |s| <= SLUG_LENGTH
            && (forall i :: 0 <= i < |s| ==> IsAlphanumeric(s[i]) || s[i] == '-')
            && (forall i :: 0 < i < |s| && s[i] == '-' ==> s[i - 1] != '-')
            && (s != "" ==> s[0] != '-')
  {
    if text != [] {
      DashedShape(text[..|text| - 1]);
    }
  }

  lemma SluggedIsSlug(text: string)
    ensures IsSlug(Slugged(text))
  {
    DashedShape(text);
  }

  // The characters that make up words: the ASCII digits, small and capital letters.
  predicate InWord(c: char) {
    (48 <= c as int <= 57) || (65 <= c as int <= 90) || (97 <= c as int <= 122)
  }

  // The words of a text, one for each run of such characters.
  function WordsOf(text: string): seq<string> {
    if text == [] then []
    else
      var (n, words) := (|text| - 1, WordsOf(text[..|text| - 1]));
      if !InWord(text[n]) then words
      else if n > 0 && InWord(text[n - 1]) && words != [] then
        words[..|words| - 1] + [words[|words| - 1] + [text[n]]]
      else words + [[text[n]]]
  }

  function Joined(words: seq<string>): string {
    if words == [] then ""
    else if |words| == 1 then words[0]
    else Joined(words[..|words| - 1]) + "-" + words[|words| - 1]
  }

  // The words joined, and a dash behind them if the text goes on after the last.
  function Dotted(text: string): string {
    var words := WordsOf(text);
    Joined(words) + if words != [] && !InWord(text[|text| - 1]) then "-" else ""
  }

  ghost predicate EndsInWord(s: string) {
    s != "" && InWord(s[|s| - 1])
  }

  lemma {:induction false} JoinedEnds(text: string)
    ensures forall k :: 0 <= k < |WordsOf(text)| ==> EndsInWord(WordsOf(text)[k])
    ensures WordsOf(text) != [] ==> text != [] && EndsInWord(Joined(WordsOf(text)))
    ensures text != [] && InWord(text[|text| - 1]) ==> WordsOf(text) != []
  {
    if text != [] {
      JoinedEnds(text[..|text| - 1]);
    }
  }

  // Each character of a word is added, and one dash between words.
  lemma DottedStep(text: string)
    requires text != []
    ensures var before := Dotted(text[..|text| - 1]); var c := text[|text| - 1];
            Dotted(text)
            == if InWord(c) then before + [c]
               else if before == "" || before[|before| - 1] == '-' then before
               else before + "-"
  {
    var (n, c) := (|text| - 1, text[|text| - 1]);
    JoinedEnds(text[..n]);
    if !InWord(c) {
      WordEnds(WordsOf(text[..n]), text[..n], WordsOf(text));
    } else if n > 0 && InWord(text[n - 1]) {
      JoinedGrows(WordsOf(text[..n]), [c]);
    } else {
      WordBegins(WordsOf(text[..n]), text[..n], c, WordsOf(text));
    }
  }

  lemma WordEnds(words: seq<string>, init: string, same: seq<string>)
    requires words == WordsOf(init) == same && (words != [] ==> init != [] && EndsInWord(Joined(words)))
    requires init != [] && InWord(init[|init| - 1]) ==> words != []
    ensures var before := Dotted(init);
            Joined(same) + (if same != [] then "-" else "")
            == if before == "" || before[|before| - 1] == '-' then before else before + "-"
  {
  }

  lemma WordBegins(words: seq<string>, init: string, c: char, more: seq<string>)
    requires words == WordsOf(init) && more == words + [[c]] && (init == [] || !InWord(init[|init| - 1]))
    requires words != [] ==> init != []
    ensures Joined(more) == Dotted(init) + [c]
  {
    JoinedMore(words, [c]);
  }

  lemma JoinedMore(words: seq<string>, word: string)
    ensures Joined(words + [word]) == if words == [] then word else Joined(words) + "-" + word
  {
    assert (words + [word])[..|words|] == words;
  }

  lemma JoinedGrows(words: seq<string>, more: string)
    requires words != []
    ensures Joined(words[..|words| - 1] + [words[|words| - 1] + more]) == Joined(words) + more
  {
    var longer := words[..|words| - 1] + [words[|words| - 1] + more];
    assert longer[..|longer| - 1] == words[..|words| - 1];
    if |words| > 1 {
      Text.Regroup(Joined(words[..|words| - 1]) + "-", words[|words| - 1], more);
    }
  }

  lemma {:induction false} DashedIsDotted(text: string)
    ensures Dashed(text) == First(Dotted(text), 40)
  {
    if text != [] {
      DashedIsDotted(text[..|text| - 1]);
      DottedStep(text);
    }
  }

  function First(s: string, n: nat): string {
    if |s| <= n then s else s[..n]
  }

  // The slug is the text's words joined by dashes, cut after forty characters, without a
  // dash at the cut.
  lemma SlugIsItsWords(text: string)
    ensures var whole := First(Joined(WordsOf(text)), 40);
            Slugged(text) == if whole != "" && whole[|whole| - 1] == '-' then whole[..|whole| - 1] else whole
  {
    DashedIsDotted(text);
    JoinedEnds(text);
  }

  lemma DashedStep(text: string, i: nat)
    requires i < |text|
    ensures var out := Dashed(text[..i]); var c := text[i];
            Dashed(text[..i + 1])
            == if |out| >= SLUG_LENGTH then out
               else if IsAlphanumeric(c) then out + [c]
               else if out == "" || out[|out| - 1] == '-' then out
               else out + "-"
  {
    assert text[..i + 1][..i] == text[..i];
  }

  // The text comes lower-cased.
  method Slug(text: string) returns (slug: string)
    ensures slug == Slugged(text)
  {
    var out := "";
    var lastDash := true;
    var i := 0;
    while i < |text| && |out| < SLUG_LENGTH
      invariant 0 <= i <= |text| && out == Dashed(text[..i])
      invariant lastDash <==> out == "" || out[|out| - 1] == '-'
    {
      DashedStep(text, i);
      if IsAlphanumeric(text[i]) {
        out := out + [text[i]];
        lastDash := false;
      } else if !lastDash {
        out := out + "-";
        lastDash := true;
      }
      i := i + 1;
    }
    FullSlug(text, i);
    slug := if out != "" && lastDash then out[..|out| - 1] else out;
  }

  lemma {:induction false} FullSlug(text: string, i: nat)
    requires i <= |text| && (i == |text| || |Dashed(text[..i])| >= SLUG_LENGTH)
    ensures Dashed(text) == Dashed(text[..i])
    decreases |text|
  {
    if i == |text| {
      assert text[..i] == text;
    } else {
      assert text[..|text| - 1][..i] == text[..i];
      FullSlug(text[..|text| - 1], i);
    }
  }

  function BaseId(lower: string -> string, combo: string, index: nat, spec: Spec): string {
    if spec.id.Some? && Text.Trim(spec.id.value) != "" then Text.Trim(spec.id.value)
    else
      Slugged(lower(combo)) + "-model-" + Text.Decimal(index + 1) + "-"
      + Slugged(lower(spec.provider)) + "-" + Slugged(lower(spec.model))
  }

  // The base itself, then with 2, 3 and so on behind a dash.
  function Candidate(base: string, counter: nat): string {
    if counter <= 1 then base else base + "-" + Text.Decimal(counter)
  }

  // The first candidate from `counter` on that is not taken. Candidates differ, so
  // each taken one met is met once.
  function FreshFrom(base: string, counter: nat, taken: set<string>): string
    decreases |taken|
  {
    var id := Candidate(base, counter);
    if id in taken then FreshFrom(base, counter + 1, taken - {id}) else id
  }

  function FreshId(base: string, taken: set<string>): string {
    FreshFrom(base, 1, taken)
  }

  lemma CandidatesDiffer(base: string, i: nat, j: nat)
    requires 1 <= i < j
    ensures Candidate(base, i) != Candidate(base, j)
  {
    if i > 1 && Candidate(base, i) == Candidate(base, j) {
      var (a, b) := (Candidate(base, i), Candidate(base, j));
      assert a[|base| + 1..] == Text.Decimal(i) && b[|base| + 1..] == Text.Decimal(j);
      Text.DecimalInjective(i, j);
    }
  }

  // What was met before is among the candidates tried.
  ghost predicate Tried(base: string, counter: nat, all: set<string>, left: set<string>) {
    left <= all && forall id :: id in all - left ==> exists k :: 1 <= k < counter && id == Candidate(base, k)
  }

  lemma {:induction false} FreshFromIsFresh(base: string, counter: nat, all: set<string>, left: set<string>)
    returns (k: nat)
    requires counter >= 1 && Tried(base, counter, all, left)
    requires forall j :: 1 <= j < counter ==> Candidate(base, j) in all
    ensures FreshFrom(base, counter, left) !in all
    ensures counter <= k && FreshFrom(base, counter, left) == Candidate(base, k)
    ensures forall j :: 1 <= j < k ==> Candidate(base, j) in all
    decreases |left|
  {
    var id := Candidate(base, counter);
    if id in left {
      TriedOneMore(base, counter, all, left);
      k := FreshFromIsFresh(base, counter + 1, all, left - {id});
    } else {
      k := counter;
      forall j | 1 <= j < counter ensures id != Candidate(base, j) {
        CandidatesDiffer(base, j, counter);
      }
      assert id !in all - left;
    }
  }

  lemma TriedOneMore(base: string, counter: nat, all: set<string>, left: set<string>)
    requires counter >= 1 && Tried(base, counter, all, left) && Candidate(base, counter) in left
    ensures Tried(base, counter + 1, all, left - {Candidate(base, counter)})
  {
    var id := Candidate(base, counter);
    forall x | x in all - (left - {id}) ensures exists k :: 1 <= k < counter + 1 && x == Candidate(base, k) {
      assert x == id || x in all - left;
    }
  }

  // The chosen id is free, and it is the first free candidate.
  lemma FreshIdIsFirstFree(base: string, taken: set<string>) returns (k: nat)
    ensures FreshId(base, taken) !in taken
    ensures 1 <= k && FreshId(base, taken) == Candidate(base, k)
    ensures forall j :: 1 <= j < k ==> Candidate(base, j) in taken
  {
    k := FreshFromIsFresh(base, 1, taken, taken);
  }

  function SetOf(ids: seq<string>): set<string> {
    set id | id in ids
  }

  function Bases(lower: string -> string, combo: string, specs: seq<Spec>): seq<string> {
    seq(|specs|, i requires 0 <= i < |specs| => BaseId(lower, combo, i, specs[i]))
  }

  function Ids(bases: seq<string>): (ids: seq<string>)
    ensures |ids| == |bases|
  {
    if bases == [] then []
    else
      var before := Ids(bases[..|bases| - 1]);
      before + [FreshId(bases[|bases| - 1], SetOf(before))]
  }

  ghost predicate Distinct(ids: seq<string>) {
    forall i, j :: 0 <= i < j < |ids| ==> ids[i] != ids[j]
  }

  // All ids of a rewrite differ.
  lemma {:induction false} IdsAreDistinct(bases: seq<string>)
    ensures Distinct(Ids(bases))
  {
    if bases != [] {
      var before := Ids(bases[..|bases| - 1]);
      IdsAreDistinct(bases[..|bases| - 1]);
      var k := FreshIdIsFirstFree(bases[|bases| - 1], SetOf(before));
    }
  }

  // Ids that differ already are kept.
  lemma {:induction false} DistinctBasesAreKept(bases: seq<string>)
    requires Distinct(bases)
    ensures Ids(bases) == bases
  {
    if bases != [] {
      DistinctBasesAreKept(bases[..|bases| - 1]);
      assert bases == bases[..|bases| - 1] + [bases[|bases| - 1]];
    }
  }

  // ---- Items ------------------------------------------------------------------

  predicate IsModel(item: Value) {
    var kind := AsStr(Get(item, "kind"));
    kind.None? || kind.value == "model"
  }

  // The first item of that id.
  function FindItem(items: seq<Value>, id: string): Option<Value> {
    if items == [] then None
    else if AsStr(Get(items[0], "id")) == Some(id) then Some(items[0])
    else FindItem(items[1..], id)
  }

  // What the item keeps of a previous one.
  function Carried(previous: seq<Value>, id: string): map<string, Value> {
    var found := FindItem(previous, id);
    if found.Some? && found.value.Object? && IsModel(found.value) then found.value.fields else map[]
  }

  function Overwritten(fields: map<string, Value>, id: string, spec: Spec): map<string, Value> {
    fields["id" := Str(id)]["kind" := Str("model")]["model" := Str(spec.provider + "/" + spec.model)]
          ["providerId" := Str(spec.provider)]["weight" := Num(Integer(spec.weight))]
  }

  function Item(spec: Spec, id: string, previous: seq<Value>): Value {
    Object(Overwritten(Carried(previous, id), id, spec))
  }

  function Items(specs: seq<Spec>, ids: seq<string>, previous: seq<Value>): seq<Value>
    requires |specs| == |ids|
  {
    seq(|specs|, i requires 0 <= i < |specs| => Item(specs[i], ids[i], previous))
  }

  predicate Survives(item: Value, ids: set<string>) {
    AsStr(Get(item, "id")).UnwrapOr("") !in ids && !IsModel(item)
  }

  // The items of other kinds, in order, but for those whose id was taken.
  function Survivors(previous: seq<Value>, ids: set<string>): seq<Value> {
    if previous == [] then []
    else
      var last := previous[|previous| - 1];
      Survivors(previous[..|previous| - 1], ids) + if Survives(last, ids) then [last] else []
  }

  // An item that names a kind, and not "model".
  predicate IsOther(item: Value) {
    item.Object? && "kind" in item.fields && item.fields["kind"].Str? && item.fields["kind"].str != "model"
  }

  function Rendered(specs: seq<Spec>, ids: seq<string>, previous: seq<Value>): seq<Value>
    requires |specs| == |ids|
  {
    Items(specs, ids, previous) + Survivors(previous, SetOf(ids))
  }

  // The ids of the first `n` items.
  function NamesOf(items: seq<Value>, n: nat): seq<string>
    requires n <= |items|
  {
    seq(n, i requires 0 <= i < n => StrOrEmpty(items[i], "id"))
  }

  // The base if no earlier id is the base, and else the first of base-2, base-3 and so
  // on that no earlier id is.
  ghost predicate FirstNew(base: string, earlier: seq<string>, id: string) {
    && id !in earlier
    && if base !in earlier then id == base
       else exists k :: k >= 2 && id == base + "-" + Text.Decimal(k)
                        && forall j :: 2 <= j < k ==> base + "-" + Text.Decimal(j) in earlier
  }

  // The i-th id is the id its spec gives, trimmed, or else one made of the combo, the
  // position counted from one, provider and model; made new if an earlier item has it.
  ghost predicate NamedAt(lower: string -> string, combo: string, specs: seq<Spec>, names: seq<string>, i: nat)
    requires i < |specs| == |names|
  {
    var given := Text.Trim(specs[i].id.UnwrapOr(""));
    var made := Slugged(lower(combo)) + "-model-" + Text.Decimal(i + 1) + "-"
                + Slugged(lower(specs[i].provider)) + "-" + Slugged(lower(specs[i].model));
    FirstNew(if given != "" then given else made, names[..i], names[i])
  }

  method RenderModelItems(lower: string -> string, combo: string, specs: seq<Spec>, previous: seq<Value>)
    returns (out: seq<Value>)
    ensures out == Rendered(specs, Ids(Bases(lower, combo, specs)), previous)
    ensures |out| >= |specs|
    ensures forall i :: 0 <= i < |specs| ==> NamedAt(lower, combo, specs, NamesOf(out, |specs|), i)
  {
    var items, consumed := RenderSpecs(lower, combo, specs, previous);
    out := KeepOthers(items, previous, consumed);
    NamesAreIds(specs, Ids(Bases(lower, combo, specs)), previous);
    forall i | 0 <= i < |specs| ensures NamedAt(lower, combo, specs, NamesOf(out, |specs|), i) {
      IdIsNamed(lower, combo, specs, i);
    }
  }

  lemma NamesAreIds(specs: seq<Spec>, ids: seq<string>, previous: seq<Value>)
    requires |specs| == |ids|
    ensures NamesOf(Rendered(specs, ids, previous), |specs|) == ids
  {
    var items := Rendered(specs, ids, previous);
    forall i | 0 <= i < |specs| ensures StrOrEmpty(items[i], "id") == ids[i] {
      assert items[i] == Item(specs[i], ids[i], previous);
      OverwrittenReads(Carried(previous, ids[i]), ids[i], specs[i]);
    }
  }

  lemma {:induction false} IdAt(bases: seq<string>, i: nat)
    requires i < |bases|
    ensures Ids(bases)[..i] == Ids(bases[..i])
    ensures Ids(bases)[i] == FreshId(bases[i], SetOf(Ids(bases)[..i]))
    decreases |bases|
  {
    var n := |bases| - 1;
    if i < n {
      IdAt(bases[..n], i);
      assert bases[..n][..i] == bases[..i];
      assert Ids(bases)[..i] == Ids(bases[..n])[..i];
    }
  }

  lemma IdIsNamed(lower: string -> string, combo: string, specs: seq<Spec>, i: nat)
    requires i < |specs|
    ensures NamedAt(lower, combo, specs, Ids(Bases(lower, combo, specs)), i)
  {
    var bases := Bases(lower, combo, specs);
    IdAt(bases, i);
    assert Text.Trim("") == "";
    FreshIsFirstNew(bases[i], Ids(bases)[..i]);
  }

  lemma FreshIsFirstNew(base: string, earlier: seq<string>)
    ensures FirstNew(base, earlier, FreshId(base, SetOf(earlier)))
  {
    var k := FreshIdIsFirstFree(base, SetOf(earlier));
    assert base == Candidate(base, 1);
    forall j | 2 <= j < k ensures base + "-" + Text.Decimal(j) in earlier {
      assert Candidate(base, j) in SetOf(earlier);
    }
  }

  method RenderSpecs(lower: string -> string, combo: string, specs: seq<Spec>, previous: seq<Value>)
    returns (out: seq<Value>, taken: set<string>)
    ensures out == Items(specs, Ids(Bases(lower, combo, specs)), previous)
    ensures taken == SetOf(Ids(Bases(lower, combo, specs)))
  {
    taken := {};
    out := [];
    ghost var bases := Bases(lower, combo, specs);
    for i := 0 to |specs|
      invariant taken == SetOf(Ids(bases[..i]))
      invariant out == Items(specs[..i], Ids(bases[..i]), previous)
    {
      var base := BaseId(lower, combo, i, specs[i]);
      var id := TakeId(base, taken);
      OneMoreItem(bases, specs, i, previous);
      taken := taken + {id};
      out := out + [Item(specs[i], id, previous)];
    }
    assert bases[..|specs|] == bases && specs[..|specs|] == specs;
  }

  lemma OneMoreItem(bases: seq<string>, specs: seq<Spec>, i: nat, previous: seq<Value>)
    requires i < |specs| == |bases|
    ensures var id := FreshId(bases[i], SetOf(Ids(bases[..i])));
            && Ids(bases[..i + 1]) == Ids(bases[..i]) + [id]
            && SetOf(Ids(bases[..i + 1])) == SetOf(Ids(bases[..i])) + {id}
            && Items(specs[..i + 1], Ids(bases[..i + 1]), previous)
               == Items(specs[..i], Ids(bases[..i]), previous) + [Item(specs[i], id, previous)]
  {
    assert bases[..i + 1][..i] == bases[..i];
  }

  method KeepOthers(items: seq<Value>, previous: seq<Value>, consumed: set<string>) returns (out: seq<Value>)
    ensures out == items + Survivors(previous, consumed)
  {
    out := items;
    for i := 0 to |previous|
      invariant out == items + Survivors(previous[..i], consumed)
    {
      assert previous[..i + 1][..i] == previous[..i];
      if AsStr(Get(previous[i], "id")).UnwrapOr("") in consumed {
        continue;
      }
      if !IsModel(previous[i]) {
        out := out + [previous[i]];
      }
    }
    assert previous[..|previous|] == previous;
  }

  method TakeId(base: string, taken: set<string>) returns (id: string)
    ensures id == FreshId(base, taken)
  {
    id := base;
    var counter := 2;
    ghost var left := taken;
    while id in taken
      invariant counter >= 2 && id == Candidate(base, counter - 1)
      invariant left <= taken && FreshFrom(base, counter - 1, left) == FreshId(base, taken)
      invariant forall k :: counter - 1 <= k && Candidate(base, k) in taken ==> Candidate(base, k) in left
      decreases |left|
    {
      forall k | counter <= k ensures Candidate(base, k) != id {
        CandidatesDiffer(base, counter - 1, k);
      }
      left := left - {id};
      id := base + "-" + Text.Decimal(counter);
      counter := counter + 1;
    }
  }

  // ---- Parsing ----------------------------------------------------------------

  function SplitModelRef(ref: string): (string, string) {
    Text.SplitOnce(ref, '/').UnwrapOr(("", ref))
  }

  function ParseItem(item: Value): Option<RichEntry> {
    var ref := StrOrEmpty(item, "model");
    if !IsModel(item) || ref == "" then None
    else
      var (split, bare) := SplitModelRef(ref);
      var given := Text.Trim(StrOrEmpty(item, "providerId"));
      var provider := if given == "" then split else given;
      if provider == "" || bare == "" then None
      else Some(RichEntry(provider, bare, StrOrEmpty(item, "id"), AsI64(Get(item, "weight")).UnwrapOr(0)))
  }

  function ParseItems(items: seq<Value>): seq<RichEntry> {
    if items == [] then []
    else
      var entry := ParseItem(items[|items| - 1]);
      ParseItems(items[..|items| - 1]) + if entry.Some? then [entry.value] else []
  }

  method ParseComboRich(data: Value) returns (combo: Option<(string, seq<RichEntry>)>)
    ensures combo == match AsArray(Get(data, "models"))
                     case None => None
                     case Some(items) =>
                       if ParseItems(items) == [] then None
                       else Some((AsStr(Get(data, "strategy")).UnwrapOr("priority"), ParseItems(items)))
  {
    var models := AsArray(Get(data, "models"));
    if models.None? {
      return None;
    }
    var entries: seq<RichEntry> := [];
    for i := 0 to |models.value|
      invariant entries == ParseItems(models.value[..i])
    {
      assert models.value[..i + 1][..i] == models.value[..i];
      var item := models.value[i];
      var kind := AsStr(Get(item, "kind"));
      if kind.Some? && kind.value != "model" {
        continue;
      }
      var ref := StrOrEmpty(item, "model");
      if ref == "" {
        continue;
      }
      var (split, bare) := SplitModelRef(ref);
      var provider := Text.Trim(StrOrEmpty(item, "providerId"));
      if provider == "" {
        provider := split;
      }
      if provider == "" || bare == "" {
        continue;
      }
      entries := entries + [RichEntry(provider, bare, StrOrEmpty(item, "id"),
                                      AsI64(Get(item, "weight")).UnwrapOr(0))];
    }
    assert models.value[..|models.value|] == models.value;
    if entries == [] {
      return None;
    }
    return Some((AsStr(Get(data, "strategy")).UnwrapOr("priority"), entries));
  }

  // The parts before and behind the first slash; all is behind it if there is none.
  predicate SplitsTo(ref: string, before: string, behind: string) {
    if '/' in ref then ref == before + "/" + behind && '/' !in before
    else before == "" && behind == ref
  }

  // The weight an item gives, if it is an integer of 64 bits, and else 0.
  function WeightIn(item: Value): int {
    if item.Object? && "weight" in item.fields && item.fields["weight"].Num?
       && item.fields["weight"].number.Integer? && item.fields["weight"].number.value <= 0x7FFF_FFFF_FFFF_FFFF
    then item.fields["weight"].number.value
    else 0
  }

  // The entry an item stands for: it names no other kind, and its model and its provider,
  // given or taken from the model's name, are not empty.
  ghost predicate StandsFor(item: Value, entry: RichEntry) {
    var given := Text.Trim(Given(item, "providerId"));
    && !IsOther(item)
    && entry.id == Given(item, "id") && entry.weight == WeightIn(item)
    && entry.provider != "" && entry.model != ""
    && exists before ::
         SplitsTo(Given(item, "model"), before, entry.model)
         && entry.provider == if given != "" then given else before
  }

  lemma ReadsWhatIsGiven(item: Value, key: string)
    ensures StrOrEmpty(item, key) == Given(item, key)
    ensures AsI64(Get(item, "weight")).UnwrapOr(0) == WeightIn(item)
    ensures IsModel(item) <==> !IsOther(item)
  {
  }

  lemma SplitIsUnique(ref: string, before: string, behind: string)
    ensures SplitsTo(ref, before, behind) <==> SplitModelRef(ref) == (before, behind)
  {
    if '/' in ref {
      var i := Text.Find(ref, '/');
      Text.FindFirst(ref, '/');
      assert ref == ref[..i] + "/" + ref[i + 1..];
      if SplitsTo(ref, before, behind) {
        Text.SplitOnceAt(before, '/', behind);
        assert ref == before + ['/'] + behind;
      }
    } else {
      Text.FindNone(ref, '/');
    }
  }

  // An item is read as an entry exactly if it stands for one.
  lemma ParseItemIsExact(item: Value, entry: RichEntry)
    ensures ParseItem(item) == Some(entry) <==> StandsFor(item, entry)
  {
    var ref := Given(item, "model");
    var (split, bare) := SplitModelRef(ref);
    ReadsWhatIsGiven(item, "model");
    ReadsWhatIsGiven(item, "providerId");
    ReadsWhatIsGiven(item, "id");
    SplitIsUnique(ref, split, bare);
    if StandsFor(item, entry) {
      var given := Text.Trim(Given(item, "providerId"));
      var before :| SplitsTo(ref, before, entry.model) && entry.provider == if given != "" then given else before;
      SplitIsUnique(ref, before, entry.model);
    }
  }

  // ---- Round trip -------------------------------------------------------------

  // What the router needs of a spec to read it back.
  predicate Readable(spec: Spec) {
    && spec.provider != "" && '/' !in spec.provider && spec.model != ""
    && (Text.Trim(spec.provider) == spec.provider || Text.Trim(spec.provider) == "")
  }

  function Entry(spec: Spec, id: string): RichEntry {
    RichEntry(spec.provider, spec.model, id, spec.weight)
  }

  function Entries(specs: seq<Spec>, ids: seq<string>): seq<RichEntry>
    requires |specs| == |ids|
  {
    seq(|specs|, i requires 0 <= i < |specs| => Entry(specs[i], ids[i]))
  }

  lemma OverwrittenReads(fields: map<string, Value>, id: string, spec: Spec)
    ensures var item := Object(Overwritten(fields, id, spec));
            && IsModel(item) && StrOrEmpty(item, "id") == id && AsStr(Get(item, "id")) == Some(id)
            && StrOrEmpty(item, "model") == spec.provider + "/" + spec.model
            && StrOrEmpty(item, "providerId") == spec.provider
            && AsI64(Get(item, "weight")) == Some(spec.weight)
  {
  }

  // The provider splits off at the first slash, so a slash inside it moves.
  lemma SplitOfJoined(provider: string, model: string)
    ensures '/' !in provider ==> SplitModelRef(provider + "/" + model) == (provider, model)
    ensures '/' in provider ==> |SplitModelRef(provider + "/" + model).1| > |model|
  {
    var ref := provider + "/" + model;
    var i := Text.Find(ref, '/');
    if '/' !in provider {
      Text.SplitOnceAt(provider, '/', model);
      assert ref == provider + ['/'] + model;
    } else {
      var k :| 0 <= k < |provider| && provider[k] == '/';
      assert ref[k] == '/';
      FindAtMost(ref, '/', k);
    }
  }

  lemma {:induction false} FindAtMost(s: string, c: char, k: nat)
    requires k < |s| && s[k] == c
    ensures Text.Find(s, c) <= k
  {
    if k > 0 && s[0] != c {
      FindAtMost(s[1..], c, k - 1);
    }
  }

  // An item reads back as its spec exactly when the spec is readable.
  lemma ItemReadsBack(spec: Spec, id: string, previous: seq<Value>)
    ensures ParseItem(Item(spec, id, previous)) == Some(Entry(spec, id)) <==> Readable(spec)
  {
    OverwrittenReads(Carried(previous, id), id, spec);
    SplitOfJoined(spec.provider, spec.model);
  }

  lemma ParseAppend(items: seq<Value>, item: Value)
    ensures ParseItems(items + [item])
      == ParseItems(items) + if ParseItem(item).Some? then [ParseItem(item).value] else []
  {
    assert (items + [item])[..|items|] == items;
  }

  lemma {:induction false} ParseConcat(a: seq<Value>, b: seq<Value>)
    ensures ParseItems(a + b) == ParseItems(a) + ParseItems(b)
  {
    if b == [] {
      assert a + b == a;
    } else {
      var (init, last) := (b[..|b| - 1], b[|b| - 1]);
      ParseConcat(a, init);
      assert a + b == (a + init) + [last] && b == init + [last];
      ParseOneMore(a, init, last, ParseItem(last));
    }
  }

  lemma ParseOneMore(a: seq<Value>, b: seq<Value>, last: Value, parsed: Option<RichEntry>)
    requires ParseItems(a + b) == ParseItems(a) + ParseItems(b) && parsed == ParseItem(last)
    ensures ParseItems(a + b + [last]) == ParseItems(a) + ParseItems(b + [last])
  {
    ParseAppend(a + b, last);
    ParseAppend(b, last);
    Text.Regroup(ParseItems(a), ParseItems(b), if parsed.Some? then [parsed.value] else []);
  }

  lemma {:induction false} SurvivorsParseToNothing(previous: seq<Value>, ids: set<string>)
    ensures ParseItems(Survivors(previous, ids)) == []
  {
    if previous != [] {
      var (init, last) := (previous[..|previous| - 1], previous[|previous| - 1]);
      SurvivorsParseToNothing(init, ids);
      if Survives(last, ids) {
        ParseAppend(Survivors(init, ids), last);
      } else {
        assert Survivors(previous, ids) == Survivors(init, ids);
      }
    }
  }

  lemma ItemsAppend(specs: seq<Spec>, ids: seq<string>, previous: seq<Value>)
    requires |specs| == |ids| > 0
    ensures var n := |specs| - 1;
            && Items(specs, ids, previous) == Items(specs[..n], ids[..n], previous) + [Item(specs[n], ids[n], previous)]
            && Entries(specs, ids) == Entries(specs[..n], ids[..n]) + [Entry(specs[n], ids[n])]
  {
  }

  lemma {:induction false} ItemsReadBack(specs: seq<Spec>, ids: seq<string>, previous: seq<Value>)
    requires |specs| == |ids|
    ensures |ParseItems(Items(specs, ids, previous))| <= |specs|
    ensures ParseItems(Items(specs, ids, previous)) == Entries(specs, ids) <==>
      forall i :: 0 <= i < |specs| ==> Readable(specs[i])
    decreases |specs|
  {
    if specs != [] {
      var n := |specs| - 1;
      var item := Item(specs[n], ids[n], previous);
      var (read, whole) := (ParseItems(Items(specs[..n], ids[..n], previous)), Entries(specs[..n], ids[..n]));
      ItemsReadBack(specs[..n], ids[..n], previous);
      ItemReadsBack(specs[n], ids[n], previous);
      ItemsAppend(specs, ids, previous);
      ParseAppend(Items(specs[..n], ids[..n], previous), item);
      OneMoreRead(read, whole, ParseItem(item), Entry(specs[n], ids[n]));
      AllReadable(specs);
    }
  }

  lemma AllReadable(specs: seq<Spec>)
    requires specs != []
    ensures var n := |specs| - 1;
            (forall i :: 0 <= i < |specs| ==> Readable(specs[i])) <==>
              Readable(specs[n]) && forall i :: 0 <= i < n ==> Readable(specs[..n][i])
  {
    var n := |specs| - 1;
    assert forall i :: 0 <= i < n ==> specs[..n][i] == specs[i];
  }

  lemma OneMoreRead(read: seq<RichEntry>, whole: seq<RichEntry>, item: Option<RichEntry>, entry: RichEntry)
    requires |read| <= |whole|
    ensures (read + if item.Some? then [item.value] else []) == whole + [entry] <==>
      read == whole && item == Some(entry)
  {
    var more := read + if item.Some? then [item.value] else [];
    if more == whole + [entry] {
      assert |more| == |whole| + 1;
      assert more[..|whole|] == whole && more[|whole|] == entry;
    }
  }

  // A rewritten combo parses back to its specs, in order and with the ids it was given,
  // exactly when every spec is readable.
  lemma RewriteReadsBack(specs: seq<Spec>, ids: seq<string>, previous: seq<Value>)
    requires |specs| == |ids|
    ensures ParseItems(Rendered(specs, ids, previous)) == Entries(specs, ids) <==>
      forall i :: 0 <= i < |specs| ==> Readable(specs[i])
  {
    ItemsReadBack(specs, ids, previous);
    SurvivorsParseToNothing(previous, SetOf(ids));
    ParseConcat(Items(specs, ids, previous), Survivors(previous, SetOf(ids)));
  }

  // ---- What a rewrite keeps ---------------------------------------------------

  // Items of other kinds stay, verbatim, exactly when no spec took their id; a model
  // item that is not rewritten goes.
  lemma {:induction false} SurvivorsAre(previous: seq<Value>, ids: set<string>, item: Value)
    ensures item in Survivors(previous, ids) <==> item in previous && IsOther(item) && StrOrEmpty(item, "id") !in ids
  {
    if previous != [] {
      SurvivorsAre(previous[..|previous| - 1], ids, item);
      assert previous == previous[..|previous| - 1] + [previous[|previous| - 1]];
    }
  }

  // A rewritten model keeps every key the gateway does not model, from the first
  // previous item of its id if that was a model, and gains none otherwise.
  lemma UnknownKeysStay(spec: Spec, id: string, previous: seq<Value>, key: string)
    requires key !in ["id", "kind", "model", "providerId", "weight"]
    ensures var found := FindItem(previous, id);
            Get(Item(spec, id, previous), key)
            == if found.Some? && IsModel(found.value) then Get(found.value, key) else None
  {
    if FindItem(previous, id).Some? {
      FoundHasId(previous, id);
    }
  }

  lemma {:induction false} FoundHasId(items: seq<Value>, id: string)
    requires FindItem(items, id).Some?
    ensures AsStr(Get(FindItem(items, id).value, "id")) == Some(id)
  {
    if AsStr(Get(items[0], "id")) != Some(id) {
      FoundHasId(items[1..], id);
    }
  }

  // ---- Reading a combo and writing it back ------------------------------------

  // The parsed entries, sent back as they were read.
  function SpecsOf(entries: seq<RichEntry>): seq<Spec> {
    seq(|entries|, i requires 0 <= i < |entries| =>
      Spec(Some(entries[i].id), entries[i].provider, entries[i].model, entries[i].weight))
  }

  predicate IsId(id: string) {
    id != "" && Text.IsTrimmed(id)
  }

  lemma SlugEdges(s: string)
    requires IsSlug(s)
    ensures Text.IsTrimmed(s)
  {
  }

  lemma EdgesTrimmed(a: string, b: string)
    requires a != "" && b != "" && !Text.IsWhitespace(a[0]) && !Text.IsWhitespace(b[|b| - 1])
    ensures IsId(a + b)
  {
  }

  lemma GeneratedIsId(combo: string, number: string, provider: string, model: string)
    requires IsSlug(combo) && IsSlug(model)
    ensures IsId(combo + "-model-" + number + "-" + provider + "-" + model)
  {
    SlugEdges(combo);
    SlugEdges(model);
    var middle := "-model-" + number + "-" + provider + "-";
    DashEdges(combo, middle, model);
    assert combo + "-model-" + number + "-" + provider + "-" + model == combo + middle + model;
  }

  lemma BaseIsId(lower: string -> string, combo: string, index: nat, spec: Spec)
    ensures IsId(BaseId(lower, combo, index, spec))
  {
    if spec.id.Some? && Text.Trim(spec.id.value) != "" {
      Text.TrimTrims(spec.id.value);
    } else {
      SluggedIsSlug(lower(combo));
      SluggedIsSlug(lower(spec.model));
      GeneratedIsId(Slugged(lower(combo)), Text.Decimal(index + 1), Slugged(lower(spec.provider)),
                    Slugged(lower(spec.model)));
    }
  }

  lemma DashEdges(first: string, middle: string, last: string)
    requires Text.IsTrimmed(first) && Text.IsTrimmed(last)
    requires |middle| >= 2 && middle[0] == '-' && middle[|middle| - 1] == '-'
    ensures IsId(first + middle + last)
  {
    var whole := first + middle + last;
    assert whole[0] == if first == "" then '-' else first[0];
    assert whole[|whole| - 1] == if last == "" then '-' else last[|last| - 1];
  }

  lemma CandidateIsId(base: string, k: nat)
    requires IsId(base)
    ensures IsId(Candidate(base, k))
  {
    if k > 1 {
      var digits := Text.Decimal(k);
      assert Text.IsDigit(digits[|digits| - 1]);
      EdgesTrimmed(base, "-" + digits);
      assert base + "-" + digits == base + ("-" + digits);
    }
  }

  lemma {:induction false} IdsAreIds(bases: seq<string>)
    requires forall i :: 0 <= i < |bases| ==> IsId(bases[i])
    ensures forall i :: 0 <= i < |bases| ==> IsId(Ids(bases)[i])
  {
    if bases != [] {
      var n := |bases| - 1;
      IdsAreIds(bases[..n]);
      var k := FreshIdIsFirstFree(bases[n], SetOf(Ids(bases[..n])));
      CandidateIsId(bases[n], k);
    }
  }

  lemma {:induction false} FindFirst(items: seq<Value>, k: nat, id: string)
    requires k < |items| && AsStr(Get(items[k], "id")) == Some(id)
    requires forall j :: 0 <= j < k ==> AsStr(Get(items[j], "id")) != Some(id)
    ensures FindItem(items, id) == Some(items[k])
  {
    if k > 0 {
      FindFirst(items[1..], k - 1, id);
    }
  }

  lemma OverwrittenTwice(fields: map<string, Value>, id: string, spec: Spec)
    ensures Overwritten(Overwritten(fields, id, spec), id, spec) == Overwritten(fields, id, spec)
  {
  }

  // A written item written again under its own id stays as it is.
  lemma ItemIsStable(specs: seq<Spec>, ids: seq<string>, previous: seq<Value>, again: Spec, i: nat)
    requires |specs| == |ids| && Distinct(ids) && i < |ids|
    requires again.provider == specs[i].provider && again.model == specs[i].model && again.weight == specs[i].weight
    ensures Item(again, ids[i], Rendered(specs, ids, previous)) == Item(specs[i], ids[i], previous)
  {
    var items := Rendered(specs, ids, previous);
    forall j | 0 <= j <= i ensures AsStr(Get(items[j], "id")) == Some(ids[j]) {
      OverwrittenReads(Carried(previous, ids[j]), ids[j], specs[j]);
    }
    FindFirst(items, i, ids[i]);
    OverwrittenReads(Carried(previous, ids[i]), ids[i], specs[i]);
    OverwrittenTwice(Carried(previous, ids[i]), ids[i], specs[i]);
  }

  lemma {:induction false} SurvivorsConcat(a: seq<Value>, b: seq<Value>, ids: set<string>)
    ensures Survivors(a + b, ids) == Survivors(a, ids) + Survivors(b, ids)
  {
    if b == [] {
      assert a + b == a;
    } else {
      SurvivorsConcat(a, b[..|b| - 1], ids);
      assert (a + b)[..|a + b| - 1] == a + b[..|b| - 1];
    }
  }

  lemma {:induction false} NoneSurvive(items: seq<Value>, ids: set<string>)
    requires forall i :: 0 <= i < |items| ==> !Survives(items[i], ids)
    ensures Survivors(items, ids) == []
  {
    if items != [] {
      NoneSurvive(items[..|items| - 1], ids);
    }
  }

  lemma {:induction false} AllSurvive(items: seq<Value>, ids: set<string>)
    requires forall i :: 0 <= i < |items| ==> Survives(items[i], ids)
    ensures Survivors(items, ids) == items
  {
    if items != [] {
      AllSurvive(items[..|items| - 1], ids);
      assert items == items[..|items| - 1] + [items[|items| - 1]];
    }
  }

  lemma SurvivorsAreStable(specs: seq<Spec>, ids: seq<string>, previous: seq<Value>)
    requires |specs| == |ids|
    ensures Survivors(Rendered(specs, ids, previous), SetOf(ids)) == Survivors(previous, SetOf(ids))
  {
    var (items, rest) := (Items(specs, ids, previous), Survivors(previous, SetOf(ids)));
    forall i | 0 <= i < |items| ensures !Survives(items[i], SetOf(ids)) {
      OverwrittenReads(Carried(previous, ids[i]), ids[i], specs[i]);
    }
    NoneSurvive(items, SetOf(ids));
    forall i | 0 <= i < |rest| ensures Survives(rest[i], SetOf(ids)) {
      SurvivorsAre(previous, SetOf(ids), rest[i]);
    }
    AllSurvive(rest, SetOf(ids));
    SurvivorsConcat(items, rest, SetOf(ids));
  }

  lemma BasesOfIds(lower: string -> string, combo: string, specs: seq<Spec>, ids: seq<string>)
    requires |specs| == |ids| && Distinct(ids)
    requires forall i :: 0 <= i < |ids| ==> IsId(ids[i]) && specs[i].id == Some(ids[i])
    ensures Ids(Bases(lower, combo, specs)) == ids
  {
    forall i | 0 <= i < |ids| ensures Bases(lower, combo, specs)[i] == ids[i] {
      Text.TrimKeepsTrimmed(ids[i]);
    }
    assert Bases(lower, combo, specs) == ids;
    DistinctBasesAreKept(ids);
  }

  // Reading a rewritten combo and writing it back changes nothing: same items, same
  // ids, same unknown keys, same other kinds.
  lemma ReadThenWriteIsStable(lower: string -> string, combo: string, specs: seq<Spec>, previous: seq<Value>)
    requires forall i :: 0 <= i < |specs| ==> Readable(specs[i])
    ensures var items := Rendered(specs, Ids(Bases(lower, combo, specs)), previous);
            var again := SpecsOf(ParseItems(items));
            Rendered(again, Ids(Bases(lower, combo, again)), items) == items
  {
    var bases := Bases(lower, combo, specs);
    var ids := Ids(bases);
    var items := Rendered(specs, ids, previous);
    var again := SpecsOf(Entries(specs, ids));
    RewriteReadsBack(specs, ids, previous);
    IdsAreDistinct(bases);
    forall i | 0 <= i < |bases| ensures IsId(bases[i]) {
      BaseIsId(lower, combo, i, specs[i]);
    }
    IdsAreIds(bases);
    BasesOfIds(lower, combo, again, ids);
    WrittenAgain(specs, ids, previous, again);
  }

  lemma WrittenAgain(specs: seq<Spec>, ids: seq<string>, previous: seq<Value>, again: seq<Spec>)
    requires |specs| == |ids| == |again| && Distinct(ids)
    requires forall i :: 0 <= i < |specs| ==>
               again[i].provider == specs[i].provider && again[i].model == specs[i].model
               && again[i].weight == specs[i].weight
    ensures Rendered(again, ids, Rendered(specs, ids, previous)) == Rendered(specs, ids, previous)
  {
    var items := Rendered(specs, ids, previous);
    forall i | 0 <= i < |ids| ensures Items(again, ids, items)[i] == Items(specs, ids, previous)[i] {
      ItemIsStable(specs, ids, previous, again[i], i);
    }
    assert Items(again, ids, items) == Items(specs, ids, previous);
    SurvivorsAreStable(specs, ids, previous);
  }
}
