// The response cache in front of the completion routes: what may be stored, what is
// replayed, and to whom, over every interleaving of requests.
module ResponseCache {
  import opened Wrappers
  import Json
  import opened CanonicalJson
  import opened CanonicalInjective
  import opened CacheKeys
  import opened CacheTable

  const MAX_CACHED_BODY := 16 * 1024 * 1024

  // A request as the middleware sees it. `parsed` is absent for a body that is not
  // JSON, `namespace` for a caller who may not use the cache.
  datatype Request = Request(
    isPost: bool,
    path: string,
    bodyLowerBound: nat,
    parsed: Option<Document>,
    namespace: Option<string>)

  // What the handler produced. `size` is absent for a stream, `text` for a body that
  // is not UTF-8, `json` for one that is not JSON.
  datatype Answer = Answer(status: nat, size: Option<nat>, text: Option<string>, json: Option<Document>)

  function Member(d: Document, key: string): Option<Json.Value> {
    Json.Get(Denote(d), key)
  }

  predicate IsStreaming(body: Document) {
    Member(body, "stream") == Some(Json.Bool(true))
  }

  predicate CarriesTools(body: Document) {
    match Member(body, "tools")
    case None => false
    case Some(tools) => if tools.Null? then false else if tools.Array? then tools.items != [] else true
  }

  // The request reaches the cache at all.
  predicate Eligible(r: Request) {
    && r.isPost && IsCacheable(r.path) && r.bodyLowerBound <= MAX_CACHED_BODY
    && r.parsed.Some? && !IsStreaming(r.parsed.value) && r.namespace.Some?
  }

  // The model a request asks for, or an answer says it is from.
  function ModelIn(d: Document): Option<string> {
    Json.AsStr(Member(d, "model"))
  }

  function AnsweredModel(request: Document, answer: Document): Option<string> {
    if ModelIn(request).Some? then ModelIn(request) else ModelIn(answer)
  }

  // The answer is stored.
  predicate Storable(r: Request, a: Answer) {
    && Eligible(r)
    && 200 <= a.status < 300
    && a.size.Some? && a.size.value <= MAX_CACHED_BODY
    && a.text.Some? && a.json.Some? && Member(a.json.value, "error").None?
    && AnsweredModel(r.parsed.value, a.json.value).Some?
  }

  function ModelOf(r: Request, a: Answer): string
    requires Storable(r, a)
  {
    AnsweredModel(r.parsed.value, a.json.value).value
  }

  // The parts of the gateway the cache is built on: the hash, the token counter, the
  // vector encoding and the lifetime of a row.
  datatype Layer = Layer(
    hash: string -> string,
    tokensSavedBy: string -> int,
    encode: seq<real> -> string,
    ttlSeconds: int)

  predicate Fits(r: Request) {
    && ':' !in r.namespace.UnwrapOr("")
    && (r.parsed.Some? ==> WellFormed(r.parsed.value))
  }

  // Hashes never collide and are hex.
  ghost predicate GoodHash(hash: string -> string) {
    && (forall s, t {:trigger hash(s), hash(t)} :: hash(s) == hash(t) ==> s == t)
    && (forall s :: ':' !in hash(s))
  }

  function KeyOf(layer: Layer, r: Request): CacheKey
    requires Eligible(r)
  {
    KeyFor(layer.hash, r.namespace.value, r.path, r.parsed.value)
  }

  // A stored answer, with what produced it, the key it is filed under and when.
  datatype Entry = Entry(request: Request, answer: Answer, key: CacheKey, model: string, body: string, at: int)

  function EntryFor(layer: Layer, r: Request, a: Answer, now: int): Entry
    requires Storable(r, a)
  {
    Entry(r, a, KeyOf(layer, r), ModelOf(r, a), a.text.value, now)
  }

  // The table, and the history of what was stored in it.
  datatype State = State(rows: Rows, stored: seq<Entry>)

  datatype Event =
    | ExactRead(request: Request, now: int)
    | SemanticBooking(signature: string, now: int)
    | Store(request: Request, answer: Answer, vector: Option<seq<real>>, now: int)

  // The vector a store writes: none for a request with tools.
  function VectorOf(e: Event): Option<seq<real>>
    requires e.Store? && e.request.parsed.Some?
  {
    if CarriesTools(e.request.parsed.value) then None else e.vector
  }

  // The answer row, then the vector row when one was computed, then the sweep.
  function StoreRows(layer: Layer, rows: Rows, e: Entry, vector: Option<seq<real>>): Rows {
    var answered := Put(rows, Write(Signature(e.key), e.model, e.key.promptHash, e.body,
                                    layer.tokensSavedBy(e.body), layer.ttlSeconds), e.at);
    var withVector :=
      if vector.Some? then
        Put(answered, Write(VectorSignature(e.key), e.model, e.key.promptHash, layer.encode(vector.value), 0,
                            layer.ttlSeconds), e.at)
      else answered;
    SweepExpired(withVector, e.at)
  }

  function Next(layer: Layer, s: State, e: Event): State {
    match e
    case ExactRead(r, now) =>
      if Eligible(r) then s.(rows := ExactHitRows(s.rows, Signature(KeyOf(layer, r)), now)) else s
    case SemanticBooking(signature, now) => s.(rows := ExactHitRows(s.rows, signature, now))
    case Store(r, a, _, now) =>
      if Storable(r, a) then
        var entry := EntryFor(layer, r, a, now);
        State(StoreRows(layer, s.rows, entry, VectorOf(e)), s.stored + [entry])
      else s
  }

  function RunAll(layer: Layer, events: seq<Event>): State {
    if events == [] then State(map[], [])
    else Next(layer, RunAll(layer, events[..|events| - 1]), events[|events| - 1])
  }

  predicate EventFits(e: Event) {
    match e
    case ExactRead(r, _) => Fits(r)
    case SemanticBooking(_, _) => true
    case Store(r, _, _, _) => Fits(r)
  }

  // ---- What may be stored, said of the bodies -----------------------------------

  // The value of a JSON object's member.
  predicate Holds(d: Document, key: string, v: Json.Value) {
    Denote(d).Object? && key in Denote(d).fields && Denote(d).fields[key] == v
  }

  ghost predicate HoldsString(d: Document, key: string) {
    exists s :: Holds(d, key, Json.Str(s))
  }

  // A question the cache looks at: a POST to one of its three paths, of a known caller,
  // whose body is JSON, not too large and not asking for a stream.
  predicate Asked(r: Request) {
    && r.isPost && r.path in {"/v1/chat/completions", "/v1/messages", "/v1/responses"}
    && r.bodyLowerBound <= 16_777_216 && r.namespace.Some?
    && r.parsed.Some? && !Holds(r.parsed.value, "stream", Json.Bool(true))
  }

  // An answer worth keeping: a success of known size, not too large, that is text and
  // JSON and reports no error.
  predicate Succeeded(a: Answer) {
    && 200 <= a.status <= 299
    && a.size.Some? && a.size.value <= 16_777_216
    && a.text.Some? && a.json.Some?
    && !(Denote(a.json.value).Object? && "error" in Denote(a.json.value).fields)
  }

  // Question or answer name a model.
  ghost predicate Modelled(r: Request, a: Answer)
    requires r.parsed.Some? && a.json.Some?
  {
    HoldsString(r.parsed.value, "model") || HoldsString(a.json.value, "model")
  }

  lemma ModelIsHeld(d: Document)
    ensures ModelIn(d).Some? <==> HoldsString(d, "model")
    ensures ModelIn(d).Some? ==> Holds(d, "model", Json.Str(ModelIn(d).value))
  {
  }

  lemma EligibleMeansAsked(r: Request)
    ensures Eligible(r) <==> Asked(r)
  {
  }

  lemma StorableMeans(r: Request, a: Answer)
    ensures Storable(r, a) <==> Asked(r) && Succeeded(a) && Modelled(r, a)
  {
    EligibleMeansAsked(r);
    if r.parsed.Some? && a.json.Some? {
      ModelIsHeld(r.parsed.value);
      ModelIsHeld(a.json.value);
    }
  }

  // The question names tools to call: its "tools" are neither null nor an empty list.
  predicate OffersTools(d: Document) {
    && Denote(d).Object? && "tools" in Denote(d).fields
    && Denote(d).fields["tools"] != Json.Null && Denote(d).fields["tools"] != Json.Array([])
  }

  // The model of the question, or of the answer if the question names none.
  ghost predicate Names(r: Request, a: Answer, model: string)
    requires r.parsed.Some? && a.json.Some?
  {
    || Holds(r.parsed.value, "model", Json.Str(model))
    || (!HoldsString(r.parsed.value, "model") && Holds(a.json.value, "model", Json.Str(model)))
  }

  // Row `sig` is written anew, and keeps its hit count.
  predicate Rewritten(rows: Rows, after: Rows, sig: string, model: string, promptHash: string, response: string,
                      tokensSaved: int, at: int, ttlSeconds: int)
  {
    && sig in after
    && after[sig] == Row(model, promptHash, response, tokensSaved, if sig in rows then rows[sig].hitCount else 0,
                         at, at + ttlSeconds)
  }

  // Row `sig` stays as it is if it is alive, and goes if it is not.
  predicate Outlives(rows: Rows, after: Rows, sig: string, now: int) {
    if sig in rows && rows[sig].expiresAt > now then sig in after && after[sig] == rows[sig] else sig !in after
  }

  // What a store makes of the table: the question's row holds the answer, its vector row
  // the vector if there is one and the question offers no tools, and what expired is gone.
  ghost predicate Stores(layer: Layer, rows: Rows, after: Rows, key: CacheKey, e: Event)
    requires e.Store? && e.request.parsed.Some? && e.answer.json.Some? && e.answer.text.Some?
  {
    && (forall sig :: sig != Signature(key) && sig != VectorSignature(key) ==> Outlives(rows, after, sig, e.now))
    && exists model :: Names(e.request, e.answer, model)
         && Rewritten(rows, after, Signature(key), model, key.promptHash, e.answer.text.value,
                      layer.tokensSavedBy(e.answer.text.value), e.now, layer.ttlSeconds)
         && if e.vector.Some? && !OffersTools(e.request.parsed.value)
            then Rewritten(rows, after, VectorSignature(key), model, key.promptHash, layer.encode(e.vector.value), 0,
                           e.now, layer.ttlSeconds)
            else Outlives(rows, after, VectorSignature(key), e.now)
  }

  lemma StoreRowsStore(layer: Layer, rows: Rows, e: Event, key: CacheKey, entry: Entry)
    requires IsKey(key) && layer.ttlSeconds > 0 && e.Store? && e.request.parsed.Some?
    requires e.answer.json.Some? && e.answer.text.Some?
    requires entry.key == key && entry.body == e.answer.text.value && entry.at == e.now
    requires Names(e.request, e.answer, entry.model)
    ensures Stores(layer, rows, StoreRows(layer, rows, entry, VectorOf(e)), key, e)
  {
    var after := StoreRows(layer, rows, entry, VectorOf(e));
    AnswerRowIs(layer, rows, entry, VectorOf(e));
    VectorRowIs(layer, rows, entry, VectorOf(e));
    forall sig | sig != Signature(key) && sig != VectorSignature(key) ensures Outlives(rows, after, sig, e.now) {
      OtherRowIs(layer, rows, entry, VectorOf(e), sig);
    }
    assert Names(e.request, e.answer, entry.model);
  }

  lemma AnswerRowIs(layer: Layer, rows: Rows, e: Entry, vector: Option<seq<real>>)
    requires IsKey(e.key) && layer.ttlSeconds > 0
    ensures Rewritten(rows, StoreRows(layer, rows, e, vector), Signature(e.key), e.model, e.key.promptHash, e.body,
                      layer.tokensSavedBy(e.body), e.at, layer.ttlSeconds)
  {
    SignatureUnique(e.key, e.key);
  }

  lemma VectorRowIs(layer: Layer, rows: Rows, e: Entry, vector: Option<seq<real>>)
    requires IsKey(e.key) && layer.ttlSeconds > 0
    ensures var after := StoreRows(layer, rows, e, vector);
            if vector.Some?
            then Rewritten(rows, after, VectorSignature(e.key), e.model, e.key.promptHash,
                           layer.encode(vector.value), 0, e.at, layer.ttlSeconds)
            else Outlives(rows, after, VectorSignature(e.key), e.at)
  {
    SignatureUnique(e.key, e.key);
  }

  lemma OtherRowIs(layer: Layer, rows: Rows, e: Entry, vector: Option<seq<real>>, sig: string)
    requires sig != Signature(e.key) && sig != VectorSignature(e.key)
    ensures Outlives(rows, StoreRows(layer, rows, e, vector), sig, e.at)
  {
  }

  // A store writes its question's rows exactly if question and answer are such and one of
  // them names a model, and otherwise nothing happens to the table.
  lemma OnlySuccessesAreStored(layer: Layer, s: State, e: Event)
    requires GoodHash(layer.hash) && layer.ttlSeconds > 0 && e.Store? && EventFits(e)
    ensures Asked(e.request) && Succeeded(e.answer) && Modelled(e.request, e.answer) ==>
              && Eligible(e.request)
              && Stores(layer, s.rows, Next(layer, s, e).rows, KeyOf(layer, e.request), e)
    ensures !(Asked(e.request) && Succeeded(e.answer) && Modelled(e.request, e.answer)) ==> Next(layer, s, e) == s
  {
    StorableMeans(e.request, e.answer);
    if Storable(e.request, e.answer) {
      ModelIsHeld(e.request.parsed.value);
      ModelIsHeld(e.answer.json.value);
      StoreRowsStore(layer, s.rows, e, KeyOf(layer, e.request), EntryFor(layer, e.request, e.answer, e.now));
    }
  }

  // The live row at `sig` counts one hit more and the tokens it saves once again; no other
  // row changes, nor any if there is none.
  predicate Books(rows: Rows, after: Rows, sig: string, now: int) {
    if sig in rows && rows[sig].expiresAt > now then
      var row := rows[sig];
      after == rows[sig := row.(hitCount := row.hitCount + 1, tokensSaved := row.tokensSaved + row.tokensSaved)]
    else after == rows
  }

  lemma HitBooks(rows: Rows, sig: string, now: int)
    ensures Books(rows, ExactHitRows(rows, sig, now), sig, now)
  {
  }

  // A read books a hit on the row of its question, exactly if it is a question at all.
  lemma ReadsBookHits(layer: Layer, s: State, r: Request, signature: string, now: int)
    ensures Asked(r) ==>
              Eligible(r) && Books(s.rows, Next(layer, s, ExactRead(r, now)).rows, Signature(KeyOf(layer, r)), now)
    ensures !Asked(r) ==> Next(layer, s, ExactRead(r, now)) == s
    ensures Books(s.rows, Next(layer, s, SemanticBooking(signature, now)).rows, signature, now)
    ensures Next(layer, s, ExactRead(r, now)).stored == s.stored
    ensures Next(layer, s, SemanticBooking(signature, now)).stored == s.stored
  {
    EligibleMeansAsked(r);
    HitBooks(s.rows, signature, now);
    if Eligible(r) {
      HitBooks(s.rows, Signature(KeyOf(layer, r)), now);
    }
  }

  // ---- Every row is accounted for ---------------------------------------------

  // The entry is a storable answer, filed as its request asks.
  ghost predicate EntryOk(layer: Layer, e: Entry) {
    && Fits(e.request) && Asked(e.request) && Succeeded(e.answer)
    && Storable(e.request, e.answer) && e == EntryFor(layer, e.request, e.answer, e.at)
  }

  // Row `sig` is what entry `e` left there.
  predicate Explains(e: Entry, ttlSeconds: int, sig: string, row: Row) {
    && row.model == e.model
    && row.expiresAt == e.at + ttlSeconds
    && ((sig == Signature(e.key) && row.response == e.body) || sig == VectorSignature(e.key))
  }

  ghost predicate Explained(stored: seq<Entry>, ttlSeconds: int, sig: string, row: Row) {
    exists i :: 0 <= i < |stored| && Explains(stored[i], ttlSeconds, sig, row)
  }

  ghost predicate Accounted(layer: Layer, s: State) {
    && (forall i :: 0 <= i < |s.stored| ==> EntryOk(layer, s.stored[i]))
    && (forall sig :: sig in s.rows ==> Explained(s.stored, layer.ttlSeconds, sig, s.rows[sig]))
  }

  lemma ExplainedSame(stored: seq<Entry>, ttlSeconds: int, sig: string, row: Row, other: Row)
    requires Explained(stored, ttlSeconds, sig, row)
    requires other.model == row.model && other.expiresAt == row.expiresAt && other.response == row.response
    ensures Explained(stored, ttlSeconds, sig, other)
  {
    var i :| 0 <= i < |stored| && Explains(stored[i], ttlSeconds, sig, row);
    assert Explains(stored[i], ttlSeconds, sig, other);
  }

  lemma ExplainedMore(stored: seq<Entry>, e: Entry, ttlSeconds: int, sig: string, row: Row)
    ensures Explained(stored, ttlSeconds, sig, row) ==> Explained(stored + [e], ttlSeconds, sig, row)
    ensures Explains(e, ttlSeconds, sig, row) ==> Explained(stored + [e], ttlSeconds, sig, row)
  {
    assert (stored + [e])[|stored|] == e;
    if Explained(stored, ttlSeconds, sig, row) {
      var i :| 0 <= i < |stored| && Explains(stored[i], ttlSeconds, sig, row);
      assert (stored + [e])[i] == stored[i];
    }
  }

  // A hit changes no row's model, body or expiry.
  lemma HitKeepsAccounts(layer: Layer, s: State, signature: string, now: int)
    requires Accounted(layer, s)
    ensures Accounted(layer, s.(rows := ExactHitRows(s.rows, signature, now)))
  {
    var rows := ExactHitRows(s.rows, signature, now);
    forall sig | sig in rows ensures Explained(s.stored, layer.ttlSeconds, sig, rows[sig]) {
      ExplainedSame(s.stored, layer.ttlSeconds, sig, s.rows[sig], rows[sig]);
    }
  }

  // A store writes rows of the new entry only, and drops some.
  lemma StoreRowsAre(layer: Layer, rows: Rows, e: Entry, vector: Option<seq<real>>, sig: string)
    requires ':' !in e.key.namespace && ':' !in e.key.promptHash
    ensures var after := StoreRows(layer, rows, e, vector);
            sig in after ==>
              Explains(e, layer.ttlSeconds, sig, after[sig]) || (sig in rows && after[sig] == rows[sig])
  {
    SignatureUnique(e.key, e.key);
  }

  lemma StoreKeepsAccounts(layer: Layer, s: State, e: Entry, vector: Option<seq<real>>)
    requires Accounted(layer, s) && EntryOk(layer, e) && IsKey(e.key)
    ensures Accounted(layer, State(StoreRows(layer, s.rows, e, vector), s.stored + [e]))
  {
    var after := StoreRows(layer, s.rows, e, vector);
    forall sig | sig in after ensures Explained(s.stored + [e], layer.ttlSeconds, sig, after[sig]) {
      StoreRowsAre(layer, s.rows, e, vector, sig);
      ExplainedMore(s.stored, e, layer.ttlSeconds, sig, after[sig]);
    }
  }

  lemma {:induction false} RunIsAccounted(layer: Layer, events: seq<Event>)
    requires GoodHash(layer.hash) && forall i :: 0 <= i < |events| ==> EventFits(events[i])
    ensures Accounted(layer, RunAll(layer, events))
  {
    if events != [] {
      var (before, e) := (events[..|events| - 1], events[|events| - 1]);
      RunIsAccounted(layer, before);
      NextIsAccounted(layer, RunAll(layer, before), e);
    }
  }

  lemma NextIsAccounted(layer: Layer, s: State, e: Event)
    requires GoodHash(layer.hash) && Accounted(layer, s) && EventFits(e)
    ensures Accounted(layer, Next(layer, s, e))
  {
    match e
    case ExactRead(r, now) =>
      if Eligible(r) { HitKeepsAccounts(layer, s, Signature(KeyOf(layer, r)), now); }
    case SemanticBooking(signature, now) => HitKeepsAccounts(layer, s, signature, now);
    case Store(r, a, _, now) =>
      StorableMeans(r, a);
      if Storable(r, a) {
        StoreKeepsAccounts(layer, s, EntryFor(layer, r, a, now), VectorOf(e));
      }
  }

  // ---- Exact hits -------------------------------------------------------------

  // The entry may answer `r` at `now`: one namespace, one path, one JSON value, and
  // within its lifetime.
  predicate Answers(layer: Layer, e: Entry, r: Request, now: int)
    requires Asked(r)
  {
    && Asked(e.request) && Succeeded(e.answer)
    && e.request.namespace == r.namespace && e.request.path == r.path
    && Denote(e.request.parsed.value) == Denote(r.parsed.value)
    && e.at + layer.ttlSeconds > now
  }

  // Every exact hit, after any interleaving of reads and stores by any callers,
  // replays the body of a successful, complete, error-free JSON answer that was
  // produced for the same question in the same namespace and is still alive.
  lemma ExactHitReplays(layer: Layer, events: seq<Event>, r: Request, now: int)
    requires GoodHash(layer.hash) && (forall i :: 0 <= i < |events| ==> EventFits(events[i]))
    requires Eligible(r) && Fits(r)
    requires Get(RunAll(layer, events).rows, Signature(KeyOf(layer, r)), now).Some?
    ensures Asked(r)
    ensures var s := RunAll(layer, events);
            exists i :: 0 <= i < |s.stored| && Answers(layer, s.stored[i], r, now)
              && Get(s.rows, Signature(KeyOf(layer, r)), now).value.response == s.stored[i].body
              && s.stored[i].answer.text == Some(s.stored[i].body)
  {
    EligibleMeansAsked(r);
    var s := RunAll(layer, events);
    var sig := Signature(KeyOf(layer, r));
    var i := WhoStored(layer, events, sig);
    EntryAnswers(layer, s.stored[i], sig, s.rows[sig], r, now);
  }

  lemma EntryAnswers(layer: Layer, e: Entry, sig: string, row: Row, r: Request, now: int)
    requires GoodHash(layer.hash) && EntryOk(layer, e) && Explains(e, layer.ttlSeconds, sig, row)
    requires Eligible(r) && Fits(r) && sig == Signature(KeyOf(layer, r)) && row.expiresAt > now
    ensures Asked(r) && Answers(layer, e, r, now) && row.response == e.body && e.answer.text == Some(e.body)
  {
    EligibleMeansAsked(r);
    StorableMeans(e.request, e.answer);
    SignatureUnique(KeyOf(layer, r), e.key);
    ExactKeyIsTheRequest(layer.hash, r.namespace.value, r.path, r.parsed.value,
                         e.request.namespace.value, e.request.path, e.request.parsed.value);
  }

  // The row stored for an answer is still the one that answers its question.
  predicate Kept(rows: Rows, sig: string, body: string, expiresAt: int) {
    sig in rows && rows[sig].response == body && rows[sig].expiresAt == expiresAt
  }

  // The event comes before `until` and stores nothing for `question`.
  predicate Elsewhere(layer: Layer, e: Event, question: CacheKey, until: int) {
    match e
    case ExactRead(_, _) => true
    case SemanticBooking(_, _) => true
    case Store(r, a, _, now) => now < until && (Storable(r, a) ==> KeyOf(layer, r) != question)
  }

  lemma StoreLeaves(layer: Layer, rows: Rows, e: Entry, vector: Option<seq<real>>, k: CacheKey,
                    body: string, until: int)
    requires IsKey(e.key) && IsKey(k) && e.key != k && e.at < until
    requires Kept(rows, Signature(k), body, until)
    ensures Kept(StoreRows(layer, rows, e, vector), Signature(k), body, until)
  {
    SignatureUnique(e.key, k);
    SignatureUnique(k, e.key);
  }

  lemma NextLeaves(layer: Layer, s: State, e: Event, k: CacheKey, body: string, until: int)
    requires GoodHash(layer.hash) && EventFits(e) && IsKey(k)
    requires Elsewhere(layer, e, k, until) && Kept(s.rows, Signature(k), body, until)
    ensures Kept(Next(layer, s, e).rows, Signature(k), body, until)
  {
    if e.Store? && Storable(e.request, e.answer) {
      StoreLeaves(layer, s.rows, EntryFor(layer, e.request, e.answer, e.now), VectorOf(e), k, body, until);
    }
  }

  lemma RunAppend(layer: Layer, events: seq<Event>, e: Event)
    ensures RunAll(layer, events + [e]) == Next(layer, RunAll(layer, events), e)
  {
    assert (events + [e])[..|events|] == events;
  }

  lemma NextStores(layer: Layer, s: State, stored: Event)
    requires GoodHash(layer.hash) && layer.ttlSeconds > 0
    requires stored.Store? && EventFits(stored) && Storable(stored.request, stored.answer)
    ensures Kept(Next(layer, s, stored).rows, Signature(KeyOf(layer, stored.request)), stored.answer.text.value,
                 stored.now + layer.ttlSeconds)
  {
    StoredRow(layer, s.rows, EntryFor(layer, stored.request, stored.answer, stored.now), VectorOf(stored));
  }

  lemma StoredRow(layer: Layer, rows: Rows, e: Entry, vector: Option<seq<real>>)
    requires IsKey(e.key) && layer.ttlSeconds > 0
    ensures Kept(StoreRows(layer, rows, e, vector), Signature(e.key), e.body, e.at + layer.ttlSeconds)
  {
    SignatureUnique(e.key, e.key);
  }

  lemma {:induction false} KeptThrough(layer: Layer, start: seq<Event>, after: seq<Event>, k: CacheKey, body: string,
                                        until: int)
    requires GoodHash(layer.hash) && IsKey(k) && Kept(RunAll(layer, start).rows, Signature(k), body, until)
    requires forall i :: 0 <= i < |after| ==> EventFits(after[i]) && Elsewhere(layer, after[i], k, until)
    ensures Kept(RunAll(layer, start + after).rows, Signature(k), body, until)
    decreases |after|
  {
    if after == [] {
      assert start + after == start;
    } else {
      var (init, last) := (after[..|after| - 1], after[|after| - 1]);
      KeptThrough(layer, start, init, k, body, until);
      assert start + after == (start + init) + [last];
      RunAppend(layer, start + init, last);
      NextLeaves(layer, RunAll(layer, start + init), last, k, body, until);
    }
  }

  // A stored answer stays in its row for its whole lifetime, whatever the other callers
  // do meanwhile, as long as nobody stores another answer to that question.
  lemma StoredAnswerIsServed(layer: Layer, before: seq<Event>, stored: Event, after: seq<Event>)
    requires GoodHash(layer.hash) && layer.ttlSeconds > 0
    requires stored.Store? && EventFits(stored) && Storable(stored.request, stored.answer)
    requires forall i :: 0 <= i < |after| ==>
               && EventFits(after[i])
               && Elsewhere(layer, after[i], KeyOf(layer, stored.request), stored.now + layer.ttlSeconds)
    ensures Kept(RunAll(layer, before + [stored] + after).rows, Signature(KeyOf(layer, stored.request)),
                 stored.answer.text.value, stored.now + layer.ttlSeconds)
  {
    RunAppend(layer, before, stored);
    NextStores(layer, RunAll(layer, before), stored);
    KeptThrough(layer, before + [stored], after, KeyOf(layer, stored.request), stored.answer.text.value,
                stored.now + layer.ttlSeconds);
  }

  // The reader's side: the same question finds that row, up to its expiry.
  lemma SameQuestionHits(layer: Layer, rows: Rows, asked: Request, r: Request, body: string, until: int, now: int)
    requires GoodHash(layer.hash) && Eligible(asked) && Fits(asked) && Eligible(r) && Fits(r)
    requires Kept(rows, Signature(KeyOf(layer, asked)), body, until)
    requires r.namespace == asked.namespace && r.path == asked.path
    requires Denote(r.parsed.value) == Denote(asked.parsed.value)
    ensures now < until <==> Get(rows, Signature(KeyOf(layer, r)), now).Some?
    ensures now < until ==> Get(rows, Signature(KeyOf(layer, r)), now).value.response == body
  {
    CanonicalIsInjective(asked.parsed.value, r.parsed.value);
  }

  // ---- Semantic hits ----------------------------------------------------------

  datatype VectorRow = VectorRow(signature: string, vector: seq<real>)

  // The vectors a lookup may consider, listed in whatever order the table yields.
  predicate Listed(rows: Rows, prefix: string, model: string, decode: string -> Option<seq<real>>, now: int,
                   list: seq<VectorRow>)
  {
    forall i :: 0 <= i < |list| ==>
      var v := list[i];
      && v.signature in rows && InRange(v.signature, prefix)
      && rows[v.signature].model == model && rows[v.signature].expiresAt > now
      && decode(rows[v.signature].response) == Some(v.vector) && v.vector != []
  }

  // The closest stored vector at or above the threshold, the last of them on a tie.
  method Nearest(list: seq<VectorRow>, similarity: seq<real> -> real, threshold: real) returns (best: Option<VectorRow>)
    ensures best.None? <==> forall i :: 0 <= i < |list| ==> similarity(list[i].vector) < threshold
    ensures best.Some? ==>
              exists i :: 0 <= i < |list| && best.value == list[i] && similarity(list[i].vector) >= threshold
                && (forall j :: 0 <= j < i ==> similarity(list[j].vector) <= similarity(list[i].vector)
                                               || similarity(list[j].vector) < threshold)
                && (forall j :: i < j < |list| ==> similarity(list[j].vector) < similarity(list[i].vector))
  {
    best := None;
    ghost var at := 0;
    for i := 0 to |list|
      invariant best.None? ==> forall j :: 0 <= j < i ==> similarity(list[j].vector) < threshold
      invariant best.Some? ==>
                  && 0 <= at < i && best.value == list[at] && similarity(list[at].vector) >= threshold
                  && (forall j :: 0 <= j < at ==> similarity(list[j].vector) <= similarity(list[at].vector)
                                                  || similarity(list[j].vector) < threshold)
                  && (forall j :: at < j < i ==> similarity(list[j].vector) < similarity(list[at].vector))
    {
      var score := similarity(list[i].vector);
      if score >= threshold && (best.None? || similarity(best.value.vector) <= score) {
        best, at := Some(list[i]), i;
      }
    }
  }

  lemma WhoStored(layer: Layer, events: seq<Event>, sig: string) returns (i: nat)
    requires GoodHash(layer.hash) && (forall k :: 0 <= k < |events| ==> EventFits(events[k]))
    requires sig in RunAll(layer, events).rows
    ensures var s := RunAll(layer, events);
            i < |s.stored| && EntryOk(layer, s.stored[i]) && Explains(s.stored[i], layer.ttlSeconds, sig, s.rows[sig])
  {
    RunIsAccounted(layer, events);
    var s := RunAll(layer, events);
    i :| 0 <= i < |s.stored| && Explains(s.stored[i], layer.ttlSeconds, sig, s.rows[sig]);
  }

  // The event stores an answer under `key`, and a vector with it if asked for one.
  predicate StoresUnder(layer: Layer, e: Event, key: CacheKey, vector: bool) {
    && e.Store? && Storable(e.request, e.answer) && KeyOf(layer, e.request) == key
    && (vector ==> VectorOf(e).Some?)
  }

  // The last store under a key, or the last one that wrote a vector there.
  function LastStore(layer: Layer, events: seq<Event>, key: CacheKey, vector: bool): Option<Entry> {
    if events == [] then None
    else
      var last := events[|events| - 1];
      if StoresUnder(layer, last, key, vector) then Some(EntryFor(layer, last.request, last.answer, last.now))
      else LastStore(layer, events[..|events| - 1], key, vector)
  }

  // What a key's answer row and vector row hold, if they are there.
  predicate LeftBy(layer: Layer, rows: Rows, key: CacheKey, answer: Option<Entry>, vector: Option<Entry>) {
    && (Signature(key) in rows ==>
          var row := rows[Signature(key)];
          && answer.Some? && row.model == answer.value.model && row.response == answer.value.body
          && row.expiresAt == answer.value.at + layer.ttlSeconds)
    && (VectorSignature(key) in rows ==>
          vector.Some? && rows[VectorSignature(key)].model == vector.value.model)
  }

  lemma HitLeaves(layer: Layer, rows: Rows, key: CacheKey, answer: Option<Entry>, vector: Option<Entry>,
                  signature: string, now: int)
    requires LeftBy(layer, rows, key, answer, vector)
    ensures LeftBy(layer, ExactHitRows(rows, signature, now), key, answer, vector)
  {
  }

  lemma StoreLeft(layer: Layer, rows: Rows, key: CacheKey, answer: Option<Entry>, vector: Option<Entry>, e: Entry,
                  written: Option<seq<real>>)
    requires LeftBy(layer, rows, key, answer, vector) && IsKey(key) && IsKey(e.key)
    ensures LeftBy(layer, StoreRows(layer, rows, e, written), key,
                   if e.key == key then Some(e) else answer,
                   if e.key == key && written.Some? then Some(e) else vector)
  {
    SignatureUnique(e.key, key);
    SignatureUnique(key, e.key);
  }

  lemma NextLeft(layer: Layer, s: State, e: Event, key: CacheKey, answer: Option<Entry>, vector: Option<Entry>)
    requires GoodHash(layer.hash) && EventFits(e) && IsKey(key) && LeftBy(layer, s.rows, key, answer, vector)
    ensures LeftBy(layer, Next(layer, s, e).rows, key,
                   if StoresUnder(layer, e, key, false) then Some(EntryFor(layer, e.request, e.answer, e.now))
                   else answer,
                   if StoresUnder(layer, e, key, true) then Some(EntryFor(layer, e.request, e.answer, e.now))
                   else vector)
  {
    match e
    case ExactRead(r, now) =>
      if Eligible(r) {
        HitLeaves(layer, s.rows, key, answer, vector, Signature(KeyOf(layer, r)), now);
      }
    case SemanticBooking(signature, now) => HitLeaves(layer, s.rows, key, answer, vector, signature, now);
    case Store(r, a, _, now) =>
      if Storable(r, a) {
        StoreLeft(layer, s.rows, key, answer, vector, EntryFor(layer, r, a, now), VectorOf(e));
      }
  }

  // After any run a key's rows are its last store's and its last vector's.
  lemma {:induction false} RowsAreLast(layer: Layer, events: seq<Event>, key: CacheKey)
    requires GoodHash(layer.hash) && IsKey(key) && forall i :: 0 <= i < |events| ==> EventFits(events[i])
    ensures LeftBy(layer, RunAll(layer, events).rows, key, LastStore(layer, events, key, false),
                   LastStore(layer, events, key, true))
  {
    if events != [] {
      var (init, last) := (events[..|events| - 1], events[|events| - 1]);
      RowsAreLast(layer, init, key);
      NextLeft(layer, RunAll(layer, init), last, key, LastStore(layer, init, key, false),
               LastStore(layer, init, key, true));
    }
  }

  lemma {:induction false} LastStoreIsOk(layer: Layer, events: seq<Event>, key: CacheKey, vector: bool)
    requires forall i :: 0 <= i < |events| ==> EventFits(events[i])
    requires LastStore(layer, events, key, vector).Some?
    ensures var e := LastStore(layer, events, key, vector).value; EntryOk(layer, e) && e.key == key
  {
    if StoresUnder(layer, events[|events| - 1], key, vector) {
      StorableMeans(events[|events| - 1].request, events[|events| - 1].answer);
    } else {
      LastStoreIsOk(layer, events[..|events| - 1], key, vector);
    }
  }

  // The entry `e` may be served to the caller of `r` at `now`: stored for its own
  // namespace and verb, and alive.
  predicate OwnAnswer(layer: Layer, e: Entry, r: Request, now: int) {
    && Asked(e.request) && Succeeded(e.answer)
    && e.request.namespace == r.namespace && e.request.path == r.path && e.at + layer.ttlSeconds > now
  }

  // The answer `x` was stored to a question that names a model, or it names the same one
  // as the answer `v`.
  ghost predicate SameModel(x: Entry, v: Entry)
    requires x.request.parsed.Some? && x.answer.json.Some? && v.answer.json.Some?
  {
    || HoldsString(x.request.parsed.value, "model")
    || exists m :: Holds(x.answer.json.value, "model", Json.Str(m)) && Holds(v.answer.json.value, "model", Json.Str(m))
  }

  // A semantic hit on `signature` serves the last answer `x` stored to some question,
  // found by the last vector, `v`'s, written for that question.
  ghost predicate ServedFor(layer: Layer, events: seq<Event>, signature: string, row: Row, r: Request, model: string,
                            now: int, key: CacheKey)
  {
    var (x, v) := (LastStore(layer, events, key, false), LastStore(layer, events, key, true));
    && signature == VectorSignature(key) && x.Some? && v.Some?
    && OwnAnswer(layer, x.value, r, now) && Asked(v.value.request) && Succeeded(v.value.answer)
    && v.value.model == model
    && row.response == x.value.body && row.model == x.value.model
    && (row.model == model <==> SameModel(x.value, v.value))
  }

  // Whatever neighbour a semantic lookup settles on, the answer it serves is the last one
  // stored to its question, by the caller's own namespace for the same verb, and alive.
  // It is of the model asked for exactly if the question names one, or the last answer
  // stored and the last one stored with a vector name the same.
  lemma SemanticHitIsIsolated(layer: Layer, events: seq<Event>, r: Request, model: string,
                              decode: string -> Option<seq<real>>, now: int, list: seq<VectorRow>, k: nat)
    requires GoodHash(layer.hash) && (forall i :: 0 <= i < |events| ==> EventFits(events[i]))
    requires Eligible(r) && Fits(r) && k < |list|
    requires Listed(RunAll(layer, events).rows, VectorPrefix(KeyOf(layer, r)), model, decode, now, list)
    requires var answer := AnswerSignatureOf(list[k].signature);
             answer.Some? && Get(RunAll(layer, events).rows, answer.value, now).Some?
    ensures var rows := RunAll(layer, events).rows;
            var row := Get(rows, AnswerSignatureOf(list[k].signature).value, now).value;
            exists key :: ServedFor(layer, events, list[k].signature, row, r, model, now, key)
  {
    var s := RunAll(layer, events);
    var (sig, answer) := (list[k].signature, AnswerSignatureOf(list[k].signature).value);
    var i := WhoStored(layer, events, sig);
    var key := s.stored[i].key;
    NeighbourKey(layer, s.stored[i], r, sig, s.rows[sig]);
    RowsAreLast(layer, events, key);
    LastStoreIsOk(layer, events, key, false);
    LastStoreIsOk(layer, events, key, true);
    var (x, v) := (LastStore(layer, events, key, false).value, LastStore(layer, events, key, true).value);
    NeighbourIsOwn(layer, v, x, r, key, s.rows[answer], now);
    assert ServedFor(layer, events, sig, s.rows[answer], r, model, now, key);
  }

  // A row in the caller's range is a vector row of a key of its own.
  lemma NeighbourKey(layer: Layer, e: Entry, r: Request, sig: string, row: Row)
    requires GoodHash(layer.hash) && EntryOk(layer, e) && Eligible(r) && Fits(r)
    requires InRange(sig, VectorPrefix(KeyOf(layer, r))) && AnswerSignatureOf(sig).Some?
    requires Explains(e, layer.ttlSeconds, sig, row)
    ensures IsKey(e.key) && sig == VectorSignature(e.key) && AnswerSignatureOf(sig) == Some(Signature(e.key))
    ensures e.request.namespace == r.namespace && e.request.path == r.path
    ensures InRange(VectorSignature(e.key), VectorPrefix(KeyOf(layer, r)))
  {
    assert Signature(e.key)[0] == 'x';
    SignatureUnique(e.key, e.key);
    RangeIsolates(KeyOf(layer, r), e.key, r.path, e.request.path);
    PathTagUnique(e.request.path, r.path);
  }

  lemma NeighbourIsOwn(layer: Layer, v: Entry, x: Entry, r: Request, key: CacheKey, row: Row, now: int)
    requires GoodHash(layer.hash) && EntryOk(layer, v) && EntryOk(layer, x) && x.key == v.key == key
    requires Eligible(r) && Fits(r) && InRange(VectorSignature(key), VectorPrefix(KeyOf(layer, r)))
    requires row.model == x.model && row.expiresAt == x.at + layer.ttlSeconds && row.expiresAt > now
    ensures OwnAnswer(layer, x, r, now) && Asked(v.request) && Succeeded(v.answer)
    ensures row.model == v.model <==> SameModel(x, v)
  {
    StorableMeans(x.request, x.answer);
    StorableMeans(v.request, v.answer);
    ModelIsHeld(x.request.parsed.value);
    ModelIsHeld(x.answer.json.value);
    ModelIsHeld(v.answer.json.value);
    RangeIsolates(KeyOf(layer, r), x.key, r.path, x.request.path);
    PathTagUnique(x.request.path, r.path);
    SameBodySameModel(layer, v, x);
  }

  lemma SameBodySameModel(layer: Layer, v: Entry, x: Entry)
    requires GoodHash(layer.hash) && EntryOk(layer, v) && EntryOk(layer, x) && x.key == v.key
    ensures ModelIn(x.request.parsed.value) == ModelIn(v.request.parsed.value)
  {
    CanonicalIsInjective(v.request.parsed.value, x.request.parsed.value);
  }

  // The row at `sig` is alive until `until` and filed under `model`.
  predicate Filed(rows: Rows, sig: string, model: string, until: int) {
    sig in rows && rows[sig].model == model && rows[sig].expiresAt == until
  }

  lemma StoreFiles(layer: Layer, rows: Rows, e: Entry, vector: Option<seq<real>>, earlier: string, until: int)
    requires IsKey(e.key) && layer.ttlSeconds > 0
    requires vector.None? ==> Filed(rows, VectorSignature(e.key), earlier, until) && e.at < until
    ensures var after := StoreRows(layer, rows, e, vector);
            && Filed(after, Signature(e.key), e.model, e.at + layer.ttlSeconds)
            && after[Signature(e.key)].response == e.body
            && (if vector.Some? then Filed(after, VectorSignature(e.key), e.model, e.at + layer.ttlSeconds)
                else Filed(after, VectorSignature(e.key), earlier, until))
  {
    SignatureUnique(e.key, e.key);
  }

  // One question stored twice, the second time without a vector: the vector still names
  // the first model, so a lookup for that model serves the second one's answer, unless
  // the question names a model or both answers name the same.
  lemma StaleVectorServesAnotherModel(layer: Layer, r: Request, a: Answer, b: Answer, vector: seq<real>,
                                      at: int, now: int)
    requires GoodHash(layer.hash) && Fits(r) && Storable(r, a) && Storable(r, b) && !CarriesTools(r.parsed.value)
    requires at <= now < at + layer.ttlSeconds
    ensures var rows := RunAll(layer, [Store(r, a, Some(vector), at), Store(r, b, None, now)]).rows;
            var (v, x) := (VectorSignature(KeyOf(layer, r)), Signature(KeyOf(layer, r)));
            && Get(rows, v, now).Some? && Get(rows, x, now).Some? && rows[x].response == b.text.value
            && (rows[x].model == rows[v].model
                <==> ModelIn(r.parsed.value).Some? || ModelIn(a.json.value) == ModelIn(b.json.value))
  {
    var (first, second) := (Store(r, a, Some(vector), at), Store(r, b, None, now));
    var (d, e) := (EntryFor(layer, r, a, at), EntryFor(layer, r, b, now));
    TwoStores(layer, first, second);
    SameModelOf(r, a, b);
    StoreFiles(layer, map[], d, Some(vector), "", 0);
    StoreFiles(layer, StoreRows(layer, map[], d, Some(vector)), e, None, d.model, at + layer.ttlSeconds);
  }

  lemma SameModelOf(r: Request, a: Answer, b: Answer)
    requires Storable(r, a) && Storable(r, b)
    ensures ModelOf(r, a) == ModelOf(r, b)
       <==> ModelIn(r.parsed.value).Some? || ModelIn(a.json.value) == ModelIn(b.json.value)
  {
  }

  lemma TwoStores(layer: Layer, first: Event, second: Event)
    ensures RunAll(layer, [first, second]) == Next(layer, Next(layer, State(map[], []), first), second)
  {
    assert [first, second] == [first] + [second] && [first] == [] + [first];
    RunAppend(layer, [], first);
    RunAppend(layer, [first], second);
  }
}
