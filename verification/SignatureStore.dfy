// The thought signatures kept across a restart: a bounded store, its log and its reload.
module SignatureStore {
  import opened Wrappers

  const CAPACITY := 4096

  // A line of the file, as it parses.
  datatype Line = Pair(id: string, signature: string) | Unreadable

  // Oldest first, and the signature of each.
  datatype Store = Store(order: seq<string>, values: map<string, string>)

  ghost predicate Distinct(order: seq<string>) {
    forall i, j :: 0 <= i < j < |order| ==> order[i] != order[j]
  }

  ghost predicate Indexed(s: Store) {
    Distinct(s.order) && s.values.Keys == set id | id in s.order
  }

  ghost predicate Fits(s: Store) {
    Indexed(s) && |s.order| <= CAPACITY
  }

  function Insert(s: Store, id: string, signature: string): Store {
    Store(if id in s.values then s.order else s.order + [id], s.values[id := signature])
  }

  function WithoutOldest(s: Store): Store
    requires s.order != []
  {
    Store(s.order[1..], s.values - {s.order[0]})
  }

  // The oldest leave until the store fits.
  function Trimmed(s: Store): Store
    decreases |s.order|
  {
    if |s.order| > CAPACITY then Trimmed(WithoutOldest(s)) else s
  }

  function Recorded(s: Store, id: string, signature: string): Store {
    Trimmed(Insert(s, id, signature))
  }

  predicate Whole(line: Line) {
    line.Pair? && line.id != "" && line.signature != ""
  }

  // Every whole pair of the file, none evicted yet.
  function Gathered(lines: seq<Line>): Store {
    if lines == [] then Store([], map[])
    else
      var before := Gathered(lines[..|lines| - 1]);
      var last := lines[|lines| - 1];
      if Whole(last) then Insert(before, last.id, last.signature) else before
  }

  function Loaded(lines: seq<Line>): Store {
    Trimmed(Gathered(lines))
  }

  function Written(s: Store): seq<Line>
    decreases |s.order|
  {
    if s.order == [] then []
    else
      var n := |s.order| - 1;
      Written(Store(s.order[..n], s.values))
      + if s.order[n] in s.values then [Pair(s.order[n], s.values[s.order[n]])] else []
  }

  // ---- What always holds ------------------------------------------------------

  lemma InsertIndexed(s: Store, id: string, signature: string)
    requires Indexed(s)
    ensures Indexed(Insert(s, id, signature))
  {
  }

  lemma WithoutOldestIndexed(s: Store)
    requires Indexed(s) && s.order != []
    ensures Indexed(WithoutOldest(s))
  {
    assert s.order == [s.order[0]] + s.order[1..];
    assert forall id :: id in s.order[1..] ==> id in s.order;
  }

  lemma {:induction false} TrimmedOrder(s: Store)
    ensures Trimmed(s).order == s.order[if |s.order| > CAPACITY then |s.order| - CAPACITY else 0..]
    decreases |s.order|
  {
    if |s.order| > CAPACITY {
      TrimmedOrder(WithoutOldest(s));
    }
  }

  // What is kept are the newest ids, in order, with the values they had.
  lemma {:induction false} TrimmedFits(s: Store)
    requires Indexed(s)
    ensures Fits(Trimmed(s))
    ensures Trimmed(s).order == s.order[if |s.order| > 4096 then |s.order| - 4096 else 0..]
    ensures forall id :: id in Trimmed(s).values ==> id in s.values && Trimmed(s).values[id] == s.values[id]
    decreases |s.order|
  {
    if |s.order| > CAPACITY {
      WithoutOldestIndexed(s);
      TrimmedFits(WithoutOldest(s));
    }
    TrimmedOrder(s);
  }

  // Whatever is recorded, no id is listed twice, the list and the map agree, and no
  // more than the capacity is kept.
  lemma RecordedFits(s: Store, id: string, signature: string)
    requires Fits(s)
    ensures Fits(Recorded(s, id, signature)) && id in Recorded(s, id, signature).values
    ensures |Recorded(s, id, signature).order| <= 4096
    ensures Recorded(s, id, signature).values[id] == signature
  {
    InsertIndexed(s, id, signature);
    TrimmedFits(Insert(s, id, signature));
  }

  ghost predicate AllWhole(s: Store) {
    forall id :: id in s.values ==> id != "" && s.values[id] != ""
  }

  lemma {:induction false} GatheredIndexed(lines: seq<Line>)
    ensures Indexed(Gathered(lines)) && AllWhole(Gathered(lines))
  {
    if lines != [] {
      GatheredIndexed(lines[..|lines| - 1]);
    }
  }

  // ---- Rewrite, then load -----------------------------------------------------

  lemma {:induction false} GatheredWritten(s: Store)
    requires Indexed(s) && AllWhole(s)
    ensures Gathered(Written(s)) == s
    decreases |s.order|
  {
    if s.order == [] {
      assert s.values == map[];
    } else {
      var n := |s.order| - 1;
      var init := Store(s.order[..n], s.values - {s.order[n]});
      WithoutLast(s);
      GatheredWritten(init);
      WrittenIgnores(s.order[..n], s.values, s.order[n]);
      GatheredOneMore(Written(init), s.order[n], s.values[s.order[n]]);
    }
  }

  lemma GatheredOneMore(lines: seq<Line>, id: string, signature: string)
    requires id != "" && signature != ""
    ensures Gathered(lines + [Pair(id, signature)]) == Insert(Gathered(lines), id, signature)
  {
    assert (lines + [Pair(id, signature)])[..|lines|] == lines;
  }

  lemma WithoutLast(s: Store)
    requires Indexed(s) && s.order != []
    ensures var n := |s.order| - 1; var init := Store(s.order[..n], s.values - {s.order[n]});
            Indexed(init) && s.order[n] in s.values && Insert(init, s.order[n], s.values[s.order[n]]) == s
  {
    var n := |s.order| - 1;
    assert s.order == s.order[..n] + [s.order[n]];
    assert s.order[n] in s.values.Keys;
    forall id ensures id in s.order[..n] <==> id in s.values.Keys && id != s.order[n] {
      assert id in s.order[..n] ==> id in s.order;
    }
    assert (s.values - {s.order[n]})[s.order[n] := s.values[s.order[n]]] == s.values;
  }

  lemma {:induction false} WrittenIgnores(order: seq<string>, values: map<string, string>, id: string)
    requires id !in order
    ensures Written(Store(order, values)) == Written(Store(order, values - {id}))
  {
    if order != [] {
      WrittenIgnores(order[..|order| - 1], values, id);
    }
  }

  // A restart that loads what was rewritten finds the same ids in the same order.
  lemma RewriteThenLoad(s: Store)
    requires Fits(s) && AllWhole(s)
    ensures Loaded(Written(s)) == s
  {
    GatheredWritten(s);
  }

  // So a load changes nothing that the next one would find, whether or not its rewrite
  // works.
  lemma RewriteAfterLoad(lines: seq<Line>)
    ensures Loaded(Written(Loaded(lines))) == Loaded(lines)
  {
    GatheredIndexed(lines);
    TrimmedFits(Gathered(lines));
    RewriteThenLoad(Loaded(lines));
  }

  // ---- The log against the live store -----------------------------------------

  function Absorbed(full: Store, id: string, signature: string): Store {
    if id != "" && signature != "" then Insert(full, id, signature) else full
  }

  // The log still has the id, the store has dropped it.
  predicate Evicted(full: Store, live: Store, id: string) {
    id in full.values && id !in live.values
  }

  lemma RemoveThenSet(values: map<string, string>, oldest: string, id: string, signature: string)
    requires id != oldest
    ensures values[id := signature] - {oldest} == (values - {oldest})[id := signature]
    ensures id in values - {oldest} <==> id in values
  {
  }

  lemma InsertCommutes(s: Store, id: string, signature: string)
    requires s.order != [] && id != s.order[0]
    ensures WithoutOldest(Insert(s, id, signature)) == Insert(WithoutOldest(s), id, signature)
  {
    RemoveThenSet(s.values, s.order[0], id, signature);
    assert (s.order + [id])[1..] == s.order[1..] + [id];
  }

  // Trimming first makes no difference to an id that was not evicted.
  lemma {:induction false} TrimThenInsert(full: Store, id: string, signature: string)
    requires Indexed(full) && !Evicted(full, Trimmed(full), id)
    ensures Recorded(Trimmed(full), id, signature) == Recorded(full, id, signature)
    decreases |full.order|
  {
    if |full.order| > CAPACITY {
      WithoutOldestIndexed(full);
      TrimmedFits(WithoutOldest(full));
      assert full.order[0] in full.values.Keys;
      InsertCommutes(full, id, signature);
      TrimThenInsert(WithoutOldest(full), id, signature);
    }
  }

  // One record keeps log and store together exactly when the pair is whole and the id
  // was not evicted before.
  lemma RecordKeepsSync(full: Store, id: string, signature: string)
    requires Indexed(full) && AllWhole(full)
    ensures Recorded(Trimmed(full), id, signature) == Trimmed(Absorbed(full, id, signature))
      <==> id != "" && signature != "" && !Evicted(full, Trimmed(full), id)
  {
    TrimmedFits(full);
    RecordedFits(Trimmed(full), id, signature);
    if id == "" || signature == "" {
      assert id in Trimmed(full).values ==> id in full.values;
    } else if Evicted(full, Trimmed(full), id) {
      EvictedStaysOut(full, id, signature);
    } else {
      TrimThenInsert(full, id, signature);
    }
  }

  lemma {:induction false} EvictedStaysOut(full: Store, id: string, signature: string)
    requires Indexed(full) && Evicted(full, Trimmed(full), id)
    ensures id !in Recorded(full, id, signature).values
    decreases |full.order|
  {
    var next := WithoutOldest(full);
    WithoutOldestIndexed(full);
    if id == full.order[0] {
      OldestLeaves(full, id, signature);
    } else {
      InsertCommutes(full, id, signature);
      EvictedStaysOut(next, id, signature);
    }
  }

  lemma OldestLeaves(full: Store, id: string, signature: string)
    requires Indexed(full) && |full.order| > CAPACITY && id == full.order[0]
    ensures id !in Recorded(full, id, signature).values
  {
    assert id in full.values.Keys;
    InsertIndexed(full, id, signature);
    WithoutOldestIndexed(Insert(full, id, signature));
    TrimmedFits(WithoutOldest(Insert(full, id, signature)));
  }

  // A record whose line never reaches the file keeps them together exactly when the
  // store already held that very pair.
  lemma UnloggedKeepsSync(live: Store, id: string, signature: string)
    requires Fits(live)
    ensures Recorded(live, id, signature) == live <==> id in live.values && live.values[id] == signature
  {
    RecordedFits(live, id, signature);
    if id in live.values && live.values[id] == signature {
      assert live.values[id := signature] == live.values;
    }
  }

  // ---- Whole histories --------------------------------------------------------

  // One record, and whether its line ends up in the file.
  datatype Entry = Entry(id: string, signature: string, logged: bool)

  // The store after a history of records, from what was loaded. `base` is the file as
  // the load left it: rewritten, or as it was if that failed.
  function Live(base: seq<Line>, history: seq<Entry>): Store {
    if history == [] then Loaded(base)
    else
      var last := history[|history| - 1];
      Recorded(Live(base, history[..|history| - 1]), last.id, last.signature)
  }

  function LineOf(e: Entry): seq<Line> {
    if e.logged then [Pair(e.id, e.signature)] else []
  }

  // The file: what was there and every line that was appended.
  function Log(base: seq<Line>, history: seq<Entry>): seq<Line> {
    if history == [] then base
    else Log(base, history[..|history| - 1]) + LineOf(history[|history| - 1])
  }

  // A restart would load the live store.
  ghost predicate InSync(base: seq<Line>, history: seq<Entry>) {
    Loaded(Log(base, history)) == Live(base, history)
  }

  // A logged pair is whole and not one of an evicted id; an unlogged one is no news.
  predicate Keeps(base: seq<Line>, history: seq<Entry>, e: Entry) {
    if e.logged then
      e.id != "" && e.signature != "" && !Evicted(Gathered(Log(base, history)), Live(base, history), e.id)
    else e.id in Live(base, history).values && Live(base, history).values[e.id] == e.signature
  }

  lemma LiveGrows(base: seq<Line>, history: seq<Entry>, e: Entry)
    ensures Live(base, history + [e]) == Recorded(Live(base, history), e.id, e.signature)
    ensures Log(base, history + [e]) == Log(base, history) + LineOf(e)
  {
    assert (history + [e])[..|history|] == history;
  }

  lemma LoadedGrows(lines: seq<Line>, id: string, signature: string)
    ensures Loaded(lines + [Pair(id, signature)]) == Trimmed(Absorbed(Gathered(lines), id, signature))
  {
    assert (lines + [Pair(id, signature)])[..|lines|] == lines;
  }

  // One record keeps file and store together exactly when it keeps them.
  lemma InSyncStep(base: seq<Line>, history: seq<Entry>, e: Entry)
    requires InSync(base, history)
    ensures InSync(base, history + [e]) <==> Keeps(base, history, e)
  {
    var log := Log(base, history);
    LiveGrows(base, history, e);
    GatheredIndexed(log);
    if e.logged {
      LoadedGrows(log, e.id, e.signature);
      RecordKeepsSync(Gathered(log), e.id, e.signature);
    } else {
      assert log + [] == log;
      TrimmedFits(Gathered(log));
      UnloggedKeepsSync(Live(base, history), e.id, e.signature);
    }
  }

  ghost predicate AlwaysInSync(base: seq<Line>, history: seq<Entry>) {
    forall n :: 0 <= n <= |history| ==> InSync(base, history[..n])
  }

  ghost predicate AlwaysKeeps(base: seq<Line>, history: seq<Entry>) {
    forall n :: 0 <= n < |history| ==> Keeps(base, history[..n], history[n])
  }

  lemma SyncAt(base: seq<Line>, history: seq<Entry>, n: nat, longer: seq<Entry>)
    requires n < |history| && InSync(base, history[..n]) && longer == history[..n + 1]
    ensures InSync(base, longer) <==> Keeps(base, history[..n], history[n])
  {
    assert longer == history[..n] + [history[n]];
    InSyncStep(base, history[..n], history[n]);
  }

  lemma {:induction false} SyncedUpTo(base: seq<Line>, history: seq<Entry>, n: nat)
    requires n <= |history|
    requires forall m :: 0 <= m < n ==> Keeps(base, history[..m], history[m])
    ensures InSync(base, history[..n])
  {
    if n > 0 {
      SyncedUpTo(base, history, n - 1);
      SyncAt(base, history, n - 1, history[..n]);
    }
  }

  // Loading the file gives the live store after every record of a history exactly when
  // every logged pair was whole and not of an evicted id, and every pair that was not
  // logged was in the store already.
  lemma ReplayIsLive(base: seq<Line>, history: seq<Entry>)
    ensures AlwaysInSync(base, history) <==> AlwaysKeeps(base, history)
  {
    if AlwaysKeeps(base, history) {
      forall n | 0 <= n <= |history| ensures InSync(base, history[..n]) {
        SyncedUpTo(base, history, n);
      }
    }
    if AlwaysInSync(base, history) {
      forall n | 0 <= n < |history| ensures Keeps(base, history[..n], history[n]) {
        SyncAt(base, history, n, history[..n + 1]);
      }
    }
  }

  // At the first record that does not keep them together they come apart.
  lemma LastDecides(base: seq<Line>, history: seq<Entry>)
    requires history != []
    requires forall n :: 0 <= n < |history| - 1 ==> Keeps(base, history[..n], history[n])
    ensures InSync(base, history) <==> Keeps(base, history[..|history| - 1], history[|history| - 1])
  {
    var n := |history| - 1;
    SyncedUpTo(base, history, n);
    SyncAt(base, history, n, history);
  }

  // The signature an id was last recorded with.
  function Latest(base: seq<Line>, history: seq<Entry>, id: string): Option<string> {
    if history == [] then (if id in Loaded(base).values then Some(Loaded(base).values[id]) else None)
    else
      var last := history[|history| - 1];
      if last.id == id then Some(last.signature) else Latest(base, history[..|history| - 1], id)
  }

  // What the store still knows of an id is its latest signature, through any history.
  lemma {:induction false} KnownIsLatest(base: seq<Line>, history: seq<Entry>, id: string)
    ensures Fits(Live(base, history))
    ensures id in Live(base, history).values ==> Latest(base, history, id) == Some(Live(base, history).values[id])
  {
    if history == [] {
      GatheredIndexed(base);
      TrimmedFits(Gathered(base));
    } else {
      var (init, last) := (history[..|history| - 1], history[|history| - 1]);
      KnownIsLatest(base, init, id);
      var live := Live(base, init);
      RecordedFits(live, last.id, last.signature);
      InsertIndexed(live, last.id, last.signature);
      TrimmedFits(Insert(live, last.id, last.signature));
    }
  }

  // ---- One moment --------------------------------------------------------------

  function Newest(ids: seq<string>): seq<string> {
    if |ids| > CAPACITY then ids[|ids| - CAPACITY..] else ids
  }

  // Ids in the order of their first whole line.
  function Firsts(lines: seq<Line>): seq<string> {
    if lines == [] then []
    else
      var (before, last) := (Firsts(lines[..|lines| - 1]), lines[|lines| - 1]);
      if Whole(last) && last.id !in before then before + [last.id] else before
  }

  // The signature in an id's last whole line.
  function LastLine(lines: seq<Line>, id: string): Option<string> {
    if lines == [] then None
    else
      var last := lines[|lines| - 1];
      if Whole(last) && last.id == id then Some(last.signature)
      else LastLine(lines[..|lines| - 1], id)
  }

  // Ids in the order the store took them in; an id counts again once newer ones have
  // pushed it out.
  function Admitted(base: seq<Line>, history: seq<Entry>): seq<string> {
    if history == [] then Loaded(base).order
    else
      var (before, id) := (Admitted(base, history[..|history| - 1]), history[|history| - 1].id);
      if id in Newest(before) then before else before + [id]
  }

  lemma Listed(s: Store, id: string)
    requires Indexed(s)
    ensures id in s.order <==> id in s.values
  {
    assert id in s.order <==> id in s.values.Keys;
  }

  lemma {:induction false} GatheredIs(lines: seq<Line>)
    ensures Gathered(lines).order == Firsts(lines)
    ensures forall id :: id in Gathered(lines).values <==> LastLine(lines, id).Some?
    ensures forall id :: id in Gathered(lines).values ==> LastLine(lines, id) == Some(Gathered(lines).values[id])
  {
    if lines != [] {
      GatheredIs(lines[..|lines| - 1]);
      GatheredIndexed(lines[..|lines| - 1]);
      if Whole(lines[|lines| - 1]) {
        Listed(Gathered(lines[..|lines| - 1]), lines[|lines| - 1].id);
      }
    }
  }

  lemma NewestGrows(ids: seq<string>, id: string)
    ensures Newest(Newest(ids) + [id]) == Newest(ids + [id]) && Newest(Newest(ids)) == Newest(ids)
  {
  }

  lemma RecordedOrder(s: Store, id: string, signature: string)
    requires Fits(s)
    ensures Recorded(s, id, signature).order == Newest(if id in s.order then s.order else s.order + [id])
  {
    Listed(s, id);
    TrimmedOrder(Insert(s, id, signature));
  }

  // The store lists the ids it took in last.
  lemma {:induction false} LiveOrder(base: seq<Line>, history: seq<Entry>)
    ensures Live(base, history).order == Newest(Admitted(base, history))
  {
    if history == [] {
      TrimmedOrder(Gathered(base));
    } else {
      var (init, last) := (history[..|history| - 1], history[|history| - 1]);
      LiveOrder(base, init);
      KnownIsLatest(base, init, last.id);
      RecordedOrder(Live(base, init), last.id, last.signature);
      NewestGrows(Admitted(base, init), last.id);
    }
  }

  // The ids first written last are the ids taken in last, in order, and each one's last
  // whole line is its latest record.
  predicate Alike(lines: seq<Line>, base: seq<Line>, history: seq<Entry>) {
    && Newest(Firsts(lines)) == Newest(Admitted(base, history))
    && forall id :: id in Newest(Firsts(lines)) ==> LastLine(lines, id) == Latest(base, history, id)
  }

  // A store that fits is known by its order and its values.
  lemma SameStore(a: Store, b: Store)
    requires Fits(a) && Fits(b)
    ensures a == b <==> a.order == b.order && forall id :: id in a.order ==> Value(a, id) == Value(b, id)
  {
    assert forall id :: id in a.order <==> id in a.values.Keys;
    assert forall id :: id in b.order <==> id in b.values.Keys;
    if a.order == b.order && forall id :: id in a.order ==> Value(a, id) == Value(b, id) {
      assert a.values.Keys == b.values.Keys;
      forall id | id in a.values ensures a.values[id] == b.values[id] {
        assert id in a.order && Value(a, id) == Value(b, id);
      }
      assert a.values == b.values;
    }
  }

  function Value(s: Store, id: string): Option<string> {
    if id in s.values then Some(s.values[id]) else None
  }

  lemma LoadedIs(lines: seq<Line>)
    ensures Fits(Loaded(lines)) && Loaded(lines).order == Newest(Firsts(lines))
  {
    GatheredIs(lines);
    GatheredIndexed(lines);
    TrimmedFits(Gathered(lines));
  }

  lemma LiveIs(base: seq<Line>, history: seq<Entry>)
    ensures Fits(Live(base, history)) && Live(base, history).order == Newest(Admitted(base, history))
  {
    LiveOrder(base, history);
    KnownIsLatest(base, history, "");
  }

  lemma LoadedValue(lines: seq<Line>, id: string)
    requires id in Loaded(lines).order
    ensures Value(Loaded(lines), id) == LastLine(lines, id)
  {
    LoadedIs(lines);
    Listed(Loaded(lines), id);
    GatheredIs(lines);
    GatheredIndexed(lines);
    TrimmedFits(Gathered(lines));
  }

  lemma LiveValue(base: seq<Line>, history: seq<Entry>, id: string)
    requires id in Live(base, history).order
    ensures Value(Live(base, history), id) == Latest(base, history, id)
  {
    LiveIs(base, history);
    Listed(Live(base, history), id);
    KnownIsLatest(base, history, id);
  }

  // At any one moment, whatever lines a file holds and however they came there, loading it
  // gives the live store exactly if the two are alike.
  lemma LoadIsLive(lines: seq<Line>, base: seq<Line>, history: seq<Entry>)
    ensures Loaded(lines) == Live(base, history) <==> Alike(lines, base, history)
  {
    var (loaded, live) := (Loaded(lines), Live(base, history));
    LoadedIs(lines);
    LiveIs(base, history);
    SameStore(loaded, live);
    if loaded.order == live.order {
      forall id | id in loaded.order
        ensures Value(loaded, id) == LastLine(lines, id) && Value(live, id) == Latest(base, history, id)
      {
        LoadedValue(lines, id);
        LiveValue(base, history, id);
      }
    }
  }

  // ---- Where it fails ---------------------------------------------------------

  const EMPTY := Store([], map[])

  // A store that starts without a file.
  const NO_LINES: seq<Line> := []

  function Name(i: nat): string {
    seq(i + 1, _ => 'x')
  }

  // `n` different ids, one whole record each, all logged.
  function Parade(n: nat): seq<Entry> {
    seq(n, i requires 0 <= i => Entry(Name(i), "s", true))
  }

  lemma ParadeGrows(n: nat)
    ensures Parade(n + 1) == Parade(n) + [Entry(Name(n), "s", true)]
  {
  }

  // The names differ in length.
  ghost predicate Paraded(order: seq<string>, n: nat) {
    |order| == n && forall i :: 0 <= i < n ==> order[i] == Name(i)
  }

  lemma NewName(full: Store, n: nat)
    requires Indexed(full) && Paraded(full.order, n)
    ensures Name(n) !in full.values && Paraded(Insert(full, Name(n), "s").order, n + 1)
  {
    assert forall i :: 0 <= i < n ==> |full.order[i]| == i + 1;
    assert Name(n) !in full.values.Keys;
  }

  lemma ParadeNext(n: nat, full: Store)
    requires full == Gathered(Log(NO_LINES, Parade(n))) && InSync(NO_LINES, Parade(n)) && Paraded(full.order, n)
    ensures Name(n) !in full.values && InSync(NO_LINES, Parade(n + 1))
    ensures Paraded(Gathered(Log(NO_LINES, Parade(n + 1))).order, n + 1)
  {
    var (log, e) := (Log(NO_LINES, Parade(n)), Entry(Name(n), "s", true));
    GatheredIndexed(log);
    NewName(full, n);
    ParadeGrows(n);
    InSyncStep(NO_LINES, Parade(n), e);
    LiveGrows(NO_LINES, Parade(n), e);
    GatheredOneMore(log, Name(n), "s");
  }

  lemma {:induction false} ParadeInSync(n: nat)
    ensures InSync(NO_LINES, Parade(n)) && Paraded(Gathered(Log(NO_LINES, Parade(n))).order, n)
  {
    if n == 0 {
      assert Gathered(Log(NO_LINES, [])) == EMPTY;
    } else {
      ParadeInSync(n - 1);
      ParadeNext(n - 1, Gathered(Log(NO_LINES, Parade(n - 1))));
    }
  }

  // One more id than the store holds, then the first one again: the live store has it,
  // a restart would not.
  lemma EvictedIdIsLostOnReload()
    ensures !InSync(NO_LINES, Parade(CAPACITY + 1) + [Entry(Name(0), "s", true)])
  {
    var history := Parade(CAPACITY + 1);
    ParadeInSync(CAPACITY + 1);
    var full := Gathered(Log(NO_LINES, history));
    GatheredIndexed(Log(NO_LINES, history));
    OldestIsEvicted(full);
    assert full.order[0] == Name(0);
    InSyncStep(NO_LINES, history, Entry(Name(0), "s", true));
  }

  lemma OldestIsEvicted(full: Store)
    requires Indexed(full) && |full.order| > CAPACITY
    ensures Evicted(full, Trimmed(full), full.order[0])
  {
    assert full.order[0] in full.values.Keys;
    WithoutOldestIndexed(full);
    TrimmedFits(WithoutOldest(full));
  }

  // A new id whose line is not appended is lost, however whole the pair.
  lemma UnloggedIdIsLostOnReload(n: nat)
    ensures !InSync(NO_LINES, Parade(n) + [Entry(Name(n), "s", false)])
  {
    ParadeInSync(n);
    ParadeNext(n, Gathered(Log(NO_LINES, Parade(n))));
    GatheredIndexed(Log(NO_LINES, Parade(n)));
    TrimmedFits(Gathered(Log(NO_LINES, Parade(n))));
    InSyncStep(NO_LINES, Parade(n), Entry(Name(n), "s", false));
  }

  // Coming apart need not last: an empty signature is not loaded, the next one is.
  lemma SyncCanReturn(broken: seq<Entry>, mended: seq<Entry>)
    requires broken == [Entry("x", "", true)] && mended == broken + [Entry("x", "s", true)]
    ensures !InSync(NO_LINES, broken) && InSync(NO_LINES, mended) && !AlwaysKeeps(NO_LINES, mended)
  {
    assert InSync(NO_LINES, []);
    InSyncStep(NO_LINES, [], Entry("x", "", true));
    assert [] + [Entry("x", "", true)] == broken;
    LiveGrows(NO_LINES, [], Entry("x", "", true));
    LiveGrows(NO_LINES, broken, Entry("x", "s", true));
    LoadedGrows([], "x", "");
    GatheredOneMore([Pair("x", "")], "x", "s");
    assert Gathered([Pair("x", "")]) == EMPTY;
    assert mended[..0] == [] && mended[0] == Entry("x", "", true);
  }
}
