// The cached-answer table: rows by signature, each with an expiry.
module CacheTable {
  import opened Wrappers

  datatype Row = Row(
    model: string,
    promptHash: string,
    response: string,
    tokensSaved: int,
    hitCount: nat,
    createdAt: int,
    expiresAt: int)

  datatype Write = Write(
    signature: string,
    model: string,
    promptHash: string,
    response: string,
    tokensSaved: int,
    ttlSeconds: int)

  type Rows = map<string, Row>

  function Put(rows: Rows, w: Write, now: int): Rows {
    var hits := if w.signature in rows then rows[w.signature].hitCount else 0;
    rows[w.signature := Row(w.model, w.promptHash, w.response, w.tokensSaved, hits, now, now + w.ttlSeconds)]
  }

  // Expired rows read as absent.
  function Get(rows: Rows, signature: string, now: int): Option<Row> {
    if signature in rows && rows[signature].expiresAt > now then Some(rows[signature]) else None
  }

  function RecordHit(rows: Rows, signature: string, tokensSaved: int): Rows {
    if signature in rows then
      var row := rows[signature];
      rows[signature := row.(hitCount := row.hitCount + 1, tokensSaved := row.tokensSaved + tokensSaved)]
    else rows
  }

  function SweepExpired(rows: Rows, now: int): Rows {
    map s | s in rows && rows[s].expiresAt > now :: rows[s]
  }

  // The table as the gateway holds it, behind one lock.
  class Table {
    var rows: Rows

    constructor ()
      ensures rows == map[]
    {
      rows := map[];
    }

    method PutAnswer(w: Write, now: int)
      modifies this
      ensures rows == Put(old(rows), w, now)
    {
      if w.signature in rows {
        rows := rows[w.signature := rows[w.signature].(
          model := w.model, promptHash := w.promptHash, response := w.response,
          tokensSaved := w.tokensSaved, createdAt := now, expiresAt := now + w.ttlSeconds)];
      } else {
        rows := rows[w.signature := Row(w.model, w.promptHash, w.response, w.tokensSaved, 0, now, now + w.ttlSeconds)];
      }
    }

    method Sweep(now: int) returns (gone: nat)
      modifies this
      ensures rows == SweepExpired(old(rows), now)
      ensures gone == |old(rows)| - |rows|
    {
      var kept := SweepExpired(rows, now);
      assert kept.Keys <= rows.Keys;
      SubsetSize(kept.Keys, rows.Keys);
      gone := |rows| - |kept|;
      rows := kept;
    }

    // An exact hit books itself with the tokens the row already holds.
    method ExactHit(signature: string, now: int) returns (answer: Option<string>)
      modifies this
      ensures answer == (match Get(old(rows), signature, now) case None => None case Some(row) => Some(row.response))
      ensures rows == ExactHitRows(old(rows), signature, now)
    {
      var row := Get(rows, signature, now);
      if row.None? {
        return None;
      }
      rows := RecordHit(rows, signature, row.value.tokensSaved);
      answer := Some(row.value.response);
    }
  }

  lemma SubsetSize<T>(a: set<T>, b: set<T>)
    requires a <= b
    ensures |a| <= |b|
  {
    assert b == a + (b - a);
  }

  function ExactHitRows(rows: Rows, signature: string, now: int): Rows {
    var row := Get(rows, signature, now);
    if row.None? then rows else RecordHit(rows, signature, row.value.tokensSaved)
  }

  // ---- Histories --------------------------------------------------------------

  datatype Op = PutOp(write: Write) | HitOp(signature: string, tokensSaved: int) | SweepOp

  datatype Timed = Timed(op: Op, at: int)

  function Step(rows: Rows, t: Timed): Rows {
    match t.op
    case PutOp(w) => Put(rows, w, t.at)
    case HitOp(signature, tokens) => RecordHit(rows, signature, tokens)
    case SweepOp => SweepExpired(rows, t.at)
  }

  function Run(history: seq<Timed>): Rows {
    if history == [] then map[] else Step(Run(history[..|history| - 1]), history[|history| - 1])
  }

  // The latest write to `signature`, if there was one: a plain map from signatures
  // to writes.
  function LatestPut(history: seq<Timed>, signature: string): Option<(Write, int)> {
    if history == [] then None
    else
      var last := history[|history| - 1];
      if last.op.PutOp? && last.op.write.signature == signature then Some((last.op.write, last.at))
      else LatestPut(history[..|history| - 1], signature)
  }

  // The tokens booked to `signature` by hits since its latest write.
  function BookedSince(history: seq<Timed>, signature: string): int {
    if history == [] then 0
    else
      var (last, before) := (history[|history| - 1], history[..|history| - 1]);
      if last.op.PutOp? && last.op.write.signature == signature then 0
      else if last.op.HitOp? && last.op.signature == signature then BookedSince(before, signature) + last.op.tokensSaved
      else BookedSince(before, signature)
  }

  predicate Ordered(history: seq<Timed>) {
    forall i, j :: 0 <= i < j < |history| ==> history[i].at <= history[j].at
  }

  // The answer a signature has at `now`, going by the latest write alone.
  predicate Serves(history: seq<Timed>, signature: string, now: int) {
    var put := LatestPut(history, signature);
    put.Some? && put.value.1 + put.value.0.ttlSeconds > now
  }

  // A row is there when the latest write still lives, and any row there is is that
  // write's.
  lemma {:induction false} RowIsLatestPut(history: seq<Timed>, signature: string, now: int)
    requires Ordered(history) && forall i :: 0 <= i < |history| ==> history[i].at <= now
    ensures Serves(history, signature, now) ==> signature in Run(history)
    ensures signature in Run(history) ==>
              var put := LatestPut(history, signature); var row := Run(history)[signature];
              && put.Some?
              && row.response == put.value.0.response && row.model == put.value.0.model
              && row.promptHash == put.value.0.promptHash
              && row.createdAt == put.value.1 && row.expiresAt == put.value.1 + put.value.0.ttlSeconds
              && row.tokensSaved == put.value.0.tokensSaved + BookedSince(history, signature)
  {
    if history != [] {
      var before := history[..|history| - 1];
      RowIsLatestPut(before, signature, history[|history| - 1].at);
      RowIsLatestPut(before, signature, now);
    }
  }

  // Over any history with a clock that never goes back, a read returns the body of
  // the latest write to its signature exactly while that write lives; hits and
  // sweeps, of which there may be any number, never change which body is served.
  lemma {:induction false} GetIsLatestPut(history: seq<Timed>, signature: string, now: int)
    requires Ordered(history) && forall i :: 0 <= i < |history| ==> history[i].at <= now
    ensures var got := Get(Run(history), signature, now);
            && (got.Some? <==> Serves(history, signature, now))
            && (got.Some? ==> got.value.response == LatestPut(history, signature).value.0.response
                              && got.value.model == LatestPut(history, signature).value.0.model
                              && got.value.tokensSaved == LatestPut(history, signature).value.0.tokensSaved
                                                          + BookedSince(history, signature))
  {
    RowIsLatestPut(history, signature, now);
  }

  function Puts(history: seq<Timed>): seq<Timed> {
    if history == [] then []
    else Puts(history[..|history| - 1])
         + if history[|history| - 1].op.PutOp? then [history[|history| - 1]] else []
  }

  lemma {:induction false} PutsDecide(history: seq<Timed>, signature: string)
    ensures LatestPut(Puts(history), signature) == LatestPut(history, signature)
  {
    if history != [] {
      var (before, last) := (history[..|history| - 1], history[|history| - 1]);
      PutsDecide(before, signature);
      if last.op.PutOp? {
        assert Puts(history)[..|Puts(history)| - 1] == Puts(before);
      } else {
        assert Puts(history) == Puts(before);
      }
    }
  }

  // ---- What hits book ---------------------------------------------------------

  function Pow2(k: nat): nat {
    if k == 0 then 1 else 2 * Pow2(k - 1)
  }

  // The reads that come before the expiry.
  function Hits(times: seq<int>, expiresAt: int): nat {
    if times == [] then 0
    else Hits(times[..|times| - 1], expiresAt) + if times[|times| - 1] < expiresAt then 1 else 0
  }

  // One exact read after another, each at its own time.
  function ExactHits(rows: Rows, signature: string, times: seq<int>): Rows {
    if times == [] then rows
    else ExactHitRows(ExactHits(rows, signature, times[..|times| - 1]), signature, times[|times| - 1])
  }

  // Every exact hit books the tokens accumulated so far, so the saving doubles; a read
  // at or after the expiry books nothing. The clock may jump about.
  lemma {:induction false} HitsDoubleTheSaving(rows: Rows, signature: string, times: seq<int>)
    requires signature in rows
    ensures ExactHits(rows, signature, times)
         == rows[signature := rows[signature].(
              tokensSaved := Pow2(Hits(times, rows[signature].expiresAt)) * rows[signature].tokensSaved,
              hitCount := rows[signature].hitCount + Hits(times, rows[signature].expiresAt))]
  {
    if times != [] {
      var (init, row) := (times[..|times| - 1], rows[signature]);
      HitsDoubleTheSaving(rows, signature, init);
      var k := Hits(init, row.expiresAt);
      assert Pow2(k + 1) * row.tokensSaved == Pow2(k) * row.tokensSaved + Pow2(k) * row.tokensSaved;
    }
  }

  lemma {:induction false} Pow2Outgrows(k: nat)
    requires k > 1
    ensures Pow2(k) > k + 1
  {
    if k > 2 {
      Pow2Outgrows(k - 1);
    } else {
      assert Pow2(1) == 2 && Pow2(2) == 4;
    }
  }

  // That is the saving of one answer per serving, the first included, exactly for a
  // row that saves nothing or was hit at most once.
  lemma SavingIsPerHit(rows: Rows, signature: string, times: seq<int>)
    requires signature in rows
    ensures var (t, k) := (rows[signature].tokensSaved, Hits(times, rows[signature].expiresAt));
            var after := ExactHits(rows, signature, times);
            signature in after && (after[signature].tokensSaved == (k + 1) * t <==> t == 0 || k <= 1)
  {
    var (t, k) := (rows[signature].tokensSaved, Hits(times, rows[signature].expiresAt));
    HitsDoubleTheSaving(rows, signature, times);
    if k == 1 {
      assert Pow2(1) == 2;
    } else if k > 1 {
      Pow2Outgrows(k);
      Different(Pow2(k), k + 1, t);
    }
  }

  lemma Different(p: int, q: int, t: int)
    requires p > q
    ensures p * t == q * t <==> t == 0
  {
    assert (p - q) * t == p * t - q * t;
  }

  // A write keeps the hits of the row it replaces; a row that was swept first starts
  // again from none.
  lemma HitsSurviveWritesNotSweeps(rows: Rows, w: Write, now: int)
    requires w.signature in rows
    ensures Put(rows, w, now)[w.signature].hitCount == rows[w.signature].hitCount
    ensures Put(SweepExpired(rows, now), w, now)[w.signature].hitCount
         == if Get(rows, w.signature, now).Some? then rows[w.signature].hitCount else 0
  {
  }
}
