// The signature store and its write-behind file together: what a restart would load.
module SignatureRestart {
  import opened Wrappers
  import opened SignatureStore
  import W = SignatureWriter

  // A pair handed to the writer, and whether its queue had room.
  datatype Offered = Offered(id: string, signature: string, accepted: bool)

  // `waiting` are pairs in the store whose thread has yet to hand the line over; `kept`
  // is the history of the store and `offered` that of the hand-overs.
  datatype System = System(
    live: Store, waiting: seq<(string, string)>, writer: W.State,
    kept: seq<(string, string)>, offered: seq<Offered>)

  // A record is two steps: the store takes the pair under its lock, then its line goes to
  // the writer, after those of other threads perhaps.
  datatype Action = Keep(id: string, signature: string) | Hand(k: nat) | Writer(action: W.Action)

  function Start(base: seq<Line>): System {
    System(Loaded(base), [], W.Initial(base), [], [])
  }

  predicate Enabled(s: System, a: Action) {
    match a
    case Keep(_, _) => true
    case Hand(k) => k < |s.waiting|
    case Writer(w) => !w.Offer? && W.Enabled(s.writer, w)
  }

  predicate HasRoom(w: W.State) {
    |w.queue| < W.QUEUE_DEPTH
  }

  function Step(s: System, a: Action): System
    requires Enabled(s, a)
  {
    match a
    case Keep(id, signature) =>
      s.(live := Recorded(s.live, id, signature), waiting := s.waiting + [(id, signature)],
         kept := s.kept + [(id, signature)])
    case Hand(k) =>
      var p := s.waiting[k];
      s.(waiting := s.waiting[..k] + s.waiting[k + 1..],
         writer := W.Step(s.writer, W.Offer(Pair(p.0, p.1))),
         offered := s.offered + [Offered(p.0, p.1, HasRoom(s.writer))])
    case Writer(w) => s.(writer := W.Step(s.writer, w))
  }

  predicate Feasible(s: System, actions: seq<Action>)
    decreases |actions|
  {
    actions != [] ==> Enabled(s, actions[0]) && Feasible(Step(s, actions[0]), actions[1..])
  }

  function Run(s: System, actions: seq<Action>): System
    requires Feasible(s, actions)
    decreases |actions|
  {
    if actions == [] then s else Run(Step(s, actions[0]), actions[1..])
  }

  // ---- What joins the two halves ----------------------------------------------

  function Unlogged(pairs: seq<(string, string)>): (h: seq<Entry>)
    ensures |h| == |pairs|
  {
    seq(|pairs|, i requires 0 <= i < |pairs| => Entry(pairs[i].0, pairs[i].1, false))
  }

  function AcceptedLines(offered: seq<Offered>): seq<Line> {
    if offered == [] then []
    else
      var last := offered[|offered| - 1];
      AcceptedLines(offered[..|offered| - 1]) + if last.accepted then [Pair(last.id, last.signature)] else []
  }

  ghost predicate Joined(base: seq<Line>, s: System) {
    && W.Invariant(s.writer)
    && s.writer.loaded == base
    && s.writer.accepted == AcceptedLines(s.offered)
    && s.writer.recorded == |s.offered|
    && s.live == Live(base, Unlogged(s.kept))
    && |s.offered| + |s.waiting| == |s.kept|
  }

  lemma KeepJoins(base: seq<Line>, s: System, id: string, signature: string)
    requires Joined(base, s)
    ensures Joined(base, Step(s, Keep(id, signature)))
  {
    LiveGrows(base, Unlogged(s.kept), Entry(id, signature, false));
    assert Unlogged(s.kept + [(id, signature)]) == Unlogged(s.kept) + [Entry(id, signature, false)];
  }

  lemma HandJoins(base: seq<Line>, s: System, k: nat)
    requires Joined(base, s) && k < |s.waiting|
    ensures Joined(base, Step(s, Hand(k)))
  {
    var p := s.waiting[k];
    var next := Step(s, Hand(k));
    W.StepKeeps(s.writer, W.Offer(Pair(p.0, p.1)));
    assert next.offered[..|s.offered|] == s.offered;
  }

  lemma WriterJoins(base: seq<Line>, s: System, w: W.Action)
    requires Joined(base, s) && Enabled(s, Writer(w))
    ensures Joined(base, Step(s, Writer(w)))
  {
    W.StepKeeps(s.writer, w);
  }

  lemma {:induction false} RunJoins(base: seq<Line>, s: System, actions: seq<Action>)
    requires Joined(base, s) && Feasible(s, actions)
    ensures Joined(base, Run(s, actions))
    decreases |actions|
  {
    if actions != [] {
      match actions[0] {
        case Keep(id, signature) => KeepJoins(base, s, id, signature);
        case Hand(k) => HandJoins(base, s, k);
        case Writer(w) => WriterJoins(base, s, w);
      }
      RunJoins(base, Step(s, actions[0]), actions[1..]);
    }
  }

  lemma StartJoined(base: seq<Line>)
    ensures Joined(base, Start(base))
  {
    assert base + [] == base;
  }

  // At any moment of any run, dropped lines, failed appends, racing threads and lines on
  // their way included, a restart would load the live store exactly if the file's lines
  // and the records are alike.
  lemma ReloadNow(base: seq<Line>, actions: seq<Action>)
    requires Feasible(Start(base), actions)
    ensures var s := Run(Start(base), actions);
            && s.writer.file == base + W.Appended(s.writer.settled)
            && (Loaded(s.writer.file) == s.live <==> Alike(s.writer.file, base, Unlogged(s.kept)))
  {
    StartJoined(base);
    RunJoins(base, Start(base), actions);
    var s := Run(Start(base), actions);
    LoadIsLive(s.writer.file, base, Unlogged(s.kept));
  }

  // ---- What became of each record ---------------------------------------------

  // The writer is done with every line it took.
  predicate Settled(w: W.State) {
    W.Lines(W.Ahead(w)) == []
  }

  // The lines went to the writer in the order the store took the pairs, all of them.
  predicate InOrder(s: System) {
    |s.offered| == |s.kept|
    && forall i :: 0 <= i < |s.kept| ==> (s.offered[i].id, s.offered[i].signature) == s.kept[i]
  }

  // A line is in the file if the queue took it and its append worked.
  function Fates(offered: seq<Offered>, settled: seq<(Line, bool)>): (h: seq<Entry>)
    requires |settled| == |AcceptedLines(offered)|
    ensures |h| == |offered|
    ensures forall i :: 0 <= i < |h| ==> h[i].id == offered[i].id && h[i].signature == offered[i].signature
    decreases |offered|
  {
    if offered == [] then []
    else
      var (init, last) := (offered[..|offered| - 1], offered[|offered| - 1]);
      if last.accepted
      then Fates(init, settled[..|settled| - 1]) + [Entry(last.id, last.signature, settled[|settled| - 1].1)]
      else Fates(init, settled) + [Entry(last.id, last.signature, false)]
  }

  lemma {:induction false} FatesAreTheLog(base: seq<Line>, offered: seq<Offered>, settled: seq<(Line, bool)>)
    requires W.Texts(settled) == AcceptedLines(offered)
    ensures |settled| == |AcceptedLines(offered)|
    ensures Log(base, Fates(offered, settled)) == base + W.Appended(settled)
    decreases |offered|
  {
    W.TextsLength(settled);
    if offered == [] {
      assert base + [] == base;
    } else {
      var (init, last) := (offered[..|offered| - 1], offered[|offered| - 1]);
      var rest := if last.accepted then settled[..|settled| - 1] else settled;
      assert W.Texts(rest) == AcceptedLines(init) by {
        if last.accepted {
          assert W.Texts(settled)[..|settled| - 1] == AcceptedLines(offered)[..|settled| - 1];
          W.TextsLength(rest);
        }
      }
      FatesAreTheLog(base, init, rest);
      LastFate(base, init, last, rest, settled);
    }
  }

  lemma LastFate(base: seq<Line>, init: seq<Offered>, last: Offered, rest: seq<(Line, bool)>,
                 settled: seq<(Line, bool)>)
    requires |rest| == |AcceptedLines(init)| && Log(base, Fates(init, rest)) == base + W.Appended(rest)
    requires if last.accepted then settled != [] && rest == settled[..|settled| - 1]
                                   && settled[|settled| - 1].0 == Pair(last.id, last.signature)
             else rest == settled
    ensures |settled| == |AcceptedLines(init + [last])|
    ensures Log(base, Fates(init + [last], settled)) == base + W.Appended(settled)
  {
    FatesGrow(init, last, rest, settled);
    var e := Entry(last.id, last.signature, last.accepted && settled[|settled| - 1].1);
    LogGrows(base, Fates(init, rest), e, rest, settled);
  }

  lemma FatesGrow(init: seq<Offered>, last: Offered, rest: seq<(Line, bool)>, settled: seq<(Line, bool)>)
    requires |rest| == |AcceptedLines(init)|
    requires if last.accepted then settled != [] && rest == settled[..|settled| - 1] else rest == settled
    ensures |settled| == |AcceptedLines(init + [last])|
    ensures Fates(init + [last], settled)
         == Fates(init, rest) + [Entry(last.id, last.signature, last.accepted && settled[|settled| - 1].1)]
  {
    assert (init + [last])[..|init|] == init;
  }

  lemma LogGrows(base: seq<Line>, h: seq<Entry>, e: Entry, rest: seq<(Line, bool)>, settled: seq<(Line, bool)>)
    requires Log(base, h) == base + W.Appended(rest)
    requires (settled == rest && !e.logged) || settled == rest + [(Pair(e.id, e.signature), e.logged)]
    ensures Log(base, h + [e]) == base + W.Appended(settled)
  {
    LiveGrows(base, h, e);
  }

  lemma {:induction false} LiveIgnoresFates(base: seq<Line>, a: seq<Entry>, b: seq<Entry>)
    requires |a| == |b| && forall i :: 0 <= i < |a| ==> a[i].id == b[i].id && a[i].signature == b[i].signature
    ensures Live(base, a) == Live(base, b)
  {
    if a != [] {
      LiveIgnoresFates(base, a[..|a| - 1], b[..|b| - 1]);
    }
  }

  // ---- What a restart would load ----------------------------------------------

  // The records handed over and how each fared, once the writer is done with them.
  function HistoryOf(s: System): seq<Entry> {
    if |s.writer.settled| == |AcceptedLines(s.offered)| then Fates(s.offered, s.writer.settled) else []
  }

  // `h` is the history a settled system went through.
  ghost predicate WentThrough(base: seq<Line>, s: System, h: seq<Entry>) {
    && Joined(base, s) && Settled(s.writer) && InOrder(s)
    && |s.writer.settled| == |AcceptedLines(s.offered)| && h == HistoryOf(s)
  }

  // The file is the log of that history and the store its live store.
  lemma FileIsTheLog(base: seq<Line>, s: System, h: seq<Entry>)
    requires WentThrough(base, s, h)
    ensures s.writer.file == Log(base, h) && s.live == Live(base, h)
    ensures Loaded(s.writer.file) == s.live <==> InSync(base, h)
  {
    assert W.Texts(s.writer.settled) + [] == W.Texts(s.writer.settled);
    FatesAreTheLog(base, s.offered, s.writer.settled);
    LiveIgnoresFates(base, Unlogged(s.kept), h);
  }

  // A flush that was answered, with no line accepted since it was sent.
  predicate Flushed(w: W.State, ticket: nat) {
    ticket in w.acked && ticket in w.marks && w.marks[ticket] == |w.accepted|
  }

  lemma FlushSettles(w: W.State, ticket: nat)
    requires W.Invariant(w) && Flushed(w, ticket)
    ensures Settled(w) && |w.settled| == |w.accepted|
  {
    W.TextsLength(w.settled);
  }

  // After an answered flush the system went through a history, one entry a record.
  lemma FlushedHistory(base: seq<Line>, actions: seq<Action>, ticket: nat)
    requires Feasible(Start(base), actions)
    requires Flushed(Run(Start(base), actions).writer, ticket) && InOrder(Run(Start(base), actions))
    ensures WentThrough(base, Run(Start(base), actions), HistoryOf(Run(Start(base), actions)))
    ensures |HistoryOf(Run(Start(base), actions))| == |Run(Start(base), actions).kept|
  {
    StartJoined(base);
    RunJoins(base, Start(base), actions);
    FlushSettles(Run(Start(base), actions).writer, ticket);
  }

  // A settled file loads as the live store, provided all records but the last kept the
  // two together, exactly when the last one does.
  lemma SettledReload(base: seq<Line>, s: System, h: seq<Entry>)
    requires WentThrough(base, s, h) && h != []
    requires forall n :: 0 <= n < |h| - 1 ==> Keeps(base, h[..n], h[n])
    ensures Loaded(s.writer.file) == s.live <==> Keeps(base, h[..|h| - 1], h[|h| - 1])
  {
    FileIsTheLog(base, s, h);
    LastDecides(base, h);
  }

  // Seen after each record of a history, the settled file loads as the live store every
  // time exactly when every record keeps the two together.
  lemma EveryReload(base: seq<Line>, h: seq<Entry>, after: nat -> System)
    requires forall n: nat :: n <= |h| ==> WentThrough(base, after(n), h[..n])
    ensures (forall n: nat :: n <= |h| ==> Loaded(after(n).writer.file) == after(n).live) <==> AlwaysKeeps(base, h)
  {
    forall n: nat | n <= |h| ensures Loaded(after(n).writer.file) == after(n).live <==> InSync(base, h[..n]) {
      FileIsTheLog(base, after(n), h[..n]);
    }
    ReplayIsLive(base, h);
    if AlwaysInSync(base, h) {
      assert forall n: nat :: n <= |h| ==> InSync(base, h[..n]);
    }
    if forall n: nat :: n <= |h| ==> Loaded(after(n).writer.file) == after(n).live {
      forall n | 0 <= n <= |h| ensures InSync(base, h[..n]) {
        assert Loaded(after(n).writer.file) == after(n).live;
      }
    }
  }

  function AllLogged(pairs: seq<(string, string)>): (h: seq<Entry>)
    ensures |h| == |pairs|
  {
    seq(|pairs|, i requires 0 <= i < |pairs| => Entry(pairs[i].0, pairs[i].1, true))
  }

  lemma {:induction false} AcceptedAtMost(offered: seq<Offered>)
    ensures |AcceptedLines(offered)| <= |offered|
    ensures |AcceptedLines(offered)| == |offered| ==> forall i :: 0 <= i < |offered| ==> offered[i].accepted
  {
    if offered != [] {
      AcceptedAtMost(offered[..|offered| - 1]);
    }
  }

  lemma {:induction false} AllFatesLogged(offered: seq<Offered>, settled: seq<(Line, bool)>, i: nat)
    requires |settled| == |AcceptedLines(offered)| && i < |offered|
    requires forall j :: 0 <= j < |offered| ==> offered[j].accepted
    requires forall j :: 0 <= j < |settled| ==> settled[j].1
    ensures Fates(offered, settled)[i].logged
    decreases |offered|
  {
    if i < |offered| - 1 {
      AllFatesLogged(offered[..|offered| - 1], settled[..|settled| - 1], i);
    }
  }

  lemma KeptReload(base: seq<Line>, s: System, h: seq<Entry>)
    requires WentThrough(base, s, h) && AlwaysKeeps(base, h)
    ensures Loaded(s.writer.file) == s.live
  {
    FileIsTheLog(base, s, h);
    SyncedUpTo(base, h, |h|);
    assert h[..|h|] == h;
  }

  // With nothing dropped and every append working the history is the records, all
  // logged.
  lemma CleanHistory(base: seq<Line>, s: System, h: seq<Entry>)
    requires WentThrough(base, s, h) && s.writer.dropped == 0
    requires forall i :: 0 <= i < |s.writer.settled| ==> s.writer.settled[i].1
    ensures h == AllLogged(s.kept)
  {
    AcceptedAtMost(s.offered);
    forall i | 0 <= i < |h| ensures h[i] == AllLogged(s.kept)[i] {
      AllFatesLogged(s.offered, s.writer.settled, i);
      assert (s.offered[i].id, s.offered[i].signature) == s.kept[i];
    }
  }

  // ---- A stalled disk ---------------------------------------------------------

  lemma {:induction false} RunConcat(s: System, a: seq<Action>, b: seq<Action>)
    requires Feasible(s, a) && Feasible(Run(s, a), b)
    ensures Feasible(s, a + b) && Run(s, a + b) == Run(Run(s, a), b)
    decreases |a|
  {
    if a == [] {
      assert a + b == b;
    } else {
      assert (a + b)[0] == a[0] && (a + b)[1..] == a[1..] + b;
      RunConcat(Step(s, a[0]), a[1..], b);
    }
  }

  lemma RunTwo(s: System, a: Action, b: Action)
    requires Enabled(s, a) && Enabled(Step(s, a), b)
    ensures Feasible(s, [a, b]) && Run(s, [a, b]) == Step(Step(s, a), b)
  {
    RunOne(Step(s, a), b);
    assert [a, b][1..] == [b];
  }

  lemma RunOne(s: System, a: Action)
    requires Enabled(s, a)
    ensures Feasible(s, [a]) && Run(s, [a]) == Step(s, a)
  {
    assert [a][1..] == [];
    assert Feasible(Step(s, a), []) && Run(Step(s, a), []) == Step(s, a);
  }

  // `n` new ids recorded while the writer stands still.
  function Stall(n: nat): seq<Action> {
    if n == 0 then [] else Stall(n - 1) + [Keep(Name(n - 1), "s"), Hand(0)]
  }

  // The first 256 lines are queued and the rest dropped.
  ghost predicate Stalled(s: System, n: nat) {
    && s.waiting == [] && s.writer.hand.None? && s.writer.settled == []
    && |s.writer.queue| == (if n < W.QUEUE_DEPTH then n else W.QUEUE_DEPTH)
    && |s.kept| == n == |s.offered|
    && (forall i :: 0 <= i < n ==> s.kept[i] == (Name(i), "s"))
    && (forall i :: 0 <= i < n ==> s.offered[i] == Offered(Name(i), "s", i < W.QUEUE_DEPTH))
  }

  // A record with no other thread in between.
  lemma KeepThenHand(s: System, id: string, signature: string)
    requires s.waiting == []
    ensures Enabled(Step(s, Keep(id, signature)), Hand(0))
    ensures Step(Step(s, Keep(id, signature)), Hand(0))
         == System(Recorded(s.live, id, signature), [], W.Step(s.writer, W.Offer(Pair(id, signature))),
                   s.kept + [(id, signature)], s.offered + [Offered(id, signature, HasRoom(s.writer))])
  {
    var kept := Step(s, Keep(id, signature));
    assert kept.waiting == [(id, signature)];
    assert kept.waiting[..0] + kept.waiting[1..] == [];
  }

  lemma StallStep(s: System, n: nat)
    requires Stalled(s, n)
    ensures Enabled(Step(s, Keep(Name(n), "s")), Hand(0))
    ensures Stalled(Step(Step(s, Keep(Name(n), "s")), Hand(0)), n + 1)
  {
    KeepThenHand(s, Name(n), "s");
  }

  lemma {:induction false} StallRuns(n: nat)
    ensures Feasible(Start(NO_LINES), Stall(n)) && Stalled(Run(Start(NO_LINES), Stall(n)), n)
  {
    if n > 0 {
      StallRuns(n - 1);
      var s := Run(Start(NO_LINES), Stall(n - 1));
      StallStep(s, n - 1);
      RunTwo(s, Keep(Name(n - 1), "s"), Hand(0));
      RunConcat(Start(NO_LINES), Stall(n - 1), [Keep(Name(n - 1), "s"), Hand(0)]);
    }
  }

  function Lift(actions: seq<W.Action>): seq<Action> {
    seq(|actions|, i requires 0 <= i < |actions| => Writer(actions[i]))
  }

  lemma {:induction false} RunLifted(s: System, actions: seq<W.Action>)
    requires W.Feasible(s.writer, actions) && forall i :: 0 <= i < |actions| ==> !actions[i].Offer?
    ensures Feasible(s, Lift(actions)) && Run(s, Lift(actions)) == s.(writer := W.Run(s.writer, actions))
    decreases |actions|
  {
    if actions != [] {
      assert Lift(actions)[1..] == Lift(actions[1..]);
      RunLifted(Step(s, Writer(actions[0])), actions[1..]);
    }
  }

  // The writer catching up after all, every append working.
  lemma DrainsAfter(s: System, actions: seq<Action>)
    requires W.Feasible(s.writer, W.Drain(s.writer)) && actions == Lift(W.Drain(s.writer))
    requires forall i :: 0 <= i < |s.writer.settled| ==> s.writer.settled[i].1
    ensures Feasible(s, actions)
    ensures var t := Run(s, actions);
            && t.kept == s.kept && t.offered == s.offered && t.live == s.live && Settled(t.writer)
            && forall i :: 0 <= i < |t.writer.settled| ==> t.writer.settled[i].1
  {
    W.DrainEmpties(s.writer);
    W.DrainOffersNothing(s.writer);
    RunLifted(s, W.Drain(s.writer));
  }

  // How each of the first `n` records fared.
  lemma {:induction false} StallFates(offered: seq<Offered>, settled: seq<(Line, bool)>, i: nat)
    requires |settled| == |AcceptedLines(offered)| && i < |offered|
    requires forall j :: 0 <= j < |settled| ==> settled[j].1
    ensures Fates(offered, settled)[i].logged == offered[i].accepted
    decreases |offered|
  {
    if i < |offered| - 1 {
      var init := offered[..|offered| - 1];
      StallFates(init, if offered[|offered| - 1].accepted then settled[..|settled| - 1] else settled, i);
    }
  }

  // Every pair is whole and none of an evicted id, the writer is done, and still a
  // restart would not load the live store.
  ghost predicate LosesAWholePair(s: System) {
    && AlwaysKeeps(NO_LINES, AllLogged(s.kept))
    && Settled(s.writer) && InOrder(s) && s.writer.dropped > 0 && Loaded(s.writer.file) != s.live
  }

  // 257 new ids behind a writer that stands still: the queue drops the last line.
  lemma DroppedIdIsLost()
    ensures exists actions :: Feasible(Start(NO_LINES), actions) && LosesAWholePair(Run(Start(NO_LINES), actions))
  {
    var n := W.QUEUE_DEPTH + 1;
    StallRuns(n);
    var before := Run(Start(NO_LINES), Stall(n));
    W.DrainEmpties(before.writer);
    var drain := Lift(W.Drain(before.writer));
    DrainsAfter(before, drain);
    RunConcat(Start(NO_LINES), Stall(n), drain);
    StartJoined(NO_LINES);
    RunJoins(NO_LINES, Start(NO_LINES), Stall(n) + drain);
    StalledIsLost(Run(Start(NO_LINES), Stall(n) + drain));
  }

  lemma StalledHistory(offered: seq<Offered>, settled: seq<(Line, bool)>)
    requires |settled| == |AcceptedLines(offered)| && |offered| == W.QUEUE_DEPTH + 1
    requires forall i :: 0 <= i < |settled| ==> settled[i].1
    requires forall i :: 0 <= i < |offered| ==> offered[i] == Offered(Name(i), "s", i < W.QUEUE_DEPTH)
    ensures Fates(offered, settled) == Parade(W.QUEUE_DEPTH) + [Entry(Name(W.QUEUE_DEPTH), "s", false)]
  {
    var h := Fates(offered, settled);
    forall i | 0 <= i < |h| ensures h[i] == Entry(Name(i), "s", i < W.QUEUE_DEPTH) {
      StallFates(offered, settled, i);
    }
  }

  lemma StalledIsLost(s: System)
    requires Joined(NO_LINES, s) && Settled(s.writer)
    requires forall i :: 0 <= i < |s.writer.settled| ==> s.writer.settled[i].1
    requires |s.kept| == |s.offered| == W.QUEUE_DEPTH + 1
    requires forall i :: 0 <= i < |s.kept| ==> s.kept[i] == (Name(i), "s")
    requires forall i :: 0 <= i < |s.kept| ==> s.offered[i] == Offered(Name(i), "s", i < W.QUEUE_DEPTH)
    ensures LosesAWholePair(s)
  {
    W.TextsLength(s.writer.settled);
    AcceptedAtMost(s.offered);
    StalledHistory(s.offered, s.writer.settled);
    UnloggedIdIsLostOnReload(W.QUEUE_DEPTH);
    FileIsTheLog(NO_LINES, s, Fates(s.offered, s.writer.settled));
    assert AllLogged(s.kept) == Parade(W.QUEUE_DEPTH + 1);
    ParadeKeeps(W.QUEUE_DEPTH + 1);
  }

  lemma ParadeKeeps(n: nat)
    ensures AlwaysKeeps(NO_LINES, Parade(n))
  {
    forall m | 0 <= m < n ensures Keeps(NO_LINES, Parade(n)[..m], Parade(n)[m]) {
      assert Parade(n)[..m] == Parade(m);
      ParadeInSync(m);
      ParadeNext(m, Gathered(Log(NO_LINES, Parade(m))));
    }
  }

  // ---- Two threads ------------------------------------------------------------

  // The settled store and file disagree about an id although nothing was dropped.
  ghost predicate Disagrees(s: System, id: string) {
    && Settled(s.writer) && s.writer.dropped == 0 && s.waiting == []
    && id in s.live.values && id in Loaded(s.writer.file).values
    && s.live.values[id] != Loaded(s.writer.file).values[id]
  }

  lemma RaceRuns(two: System)
    requires two == Step(Step(Step(Step(Start(NO_LINES), Keep("x", "a")), Keep("x", "b")), Hand(1)), Hand(0))
    ensures var race := [Keep("x", "a"), Keep("x", "b")] + [Hand(1), Hand(0)];
            Feasible(Start(NO_LINES), race) && Run(Start(NO_LINES), race) == two
  {
    var one := Step(Step(Start(NO_LINES), Keep("x", "a")), Keep("x", "b"));
    RunTwo(Start(NO_LINES), Keep("x", "a"), Keep("x", "b"));
    RunTwo(one, Hand(1), Hand(0));
    RunConcat(Start(NO_LINES), [Keep("x", "a"), Keep("x", "b")], [Hand(1), Hand(0)]);
  }

  // Two threads record one id; the one the store took first hands its line over last,
  // and a restart loads the older signature.
  lemma RacingThreadsDisagree()
    ensures exists actions :: Feasible(Start(NO_LINES), actions) && Disagrees(Run(Start(NO_LINES), actions), "x")
  {
    var race := [Keep("x", "a"), Keep("x", "b")] + [Hand(1), Hand(0)];
    var two := Step(Step(Step(Step(Start(NO_LINES), Keep("x", "a")), Keep("x", "b")), Hand(1)), Hand(0));
    RaceRuns(two);
    RaceSettles(two);
    JoinRuns(Start(NO_LINES), race, SETTLE, two);
  }

  lemma JoinRuns(s: System, a: seq<Action>, b: seq<Action>, middle: System)
    requires Feasible(s, a) && Run(s, a) == middle && Feasible(middle, b) && Disagrees(Run(middle, b), "x")
    ensures exists actions :: Feasible(s, actions) && Disagrees(Run(s, actions), "x")
  {
    RunConcat(s, a, b);
  }

  const SETTLE := [Writer(W.Take), Writer(W.Write(true))] + [Writer(W.Take), Writer(W.Write(true))]

  // The writer appends the two lines it has.
  lemma TwoLinesSettle(s: System, a: Line, b: Line)
    requires s.writer.hand.None? && s.writer.queue == [W.Line(a), W.Line(b)]
    ensures Feasible(s, SETTLE)
    ensures Run(s, SETTLE) == s.(writer := s.writer.(queue := [], file := s.writer.file + [a] + [b],
                                                     settled := s.writer.settled + [(a, true)] + [(b, true)]))
  {
    var three := Step(Step(s, Writer(W.Take)), Writer(W.Write(true)));
    assert s.writer.queue[1..] == [W.Line(b)] && [W.Line(b)][1..] == [];
    RunTwo(s, Writer(W.Take), Writer(W.Write(true)));
    RunTwo(three, Writer(W.Take), Writer(W.Write(true)));
    RunConcat(s, [Writer(W.Take), Writer(W.Write(true))], [Writer(W.Take), Writer(W.Write(true))]);
  }

  lemma RaceSettles(two: System)
    requires two == Step(Step(Step(Step(Start(NO_LINES), Keep("x", "a")), Keep("x", "b")), Hand(1)), Hand(0))
    ensures Feasible(two, SETTLE) && Disagrees(Run(two, SETTLE), "x")
  {
    assert two.writer.queue == [W.Line(Pair("x", "b")), W.Line(Pair("x", "a"))];
    TwoLinesSettle(two, Pair("x", "b"), Pair("x", "a"));
    GatheredOneMore([], "x", "b");
    GatheredOneMore([Pair("x", "b")], "x", "a");
    assert [] + [Pair("x", "b")] == [Pair("x", "b")];
  }

  // ---- One flush is not enough to tell ----------------------------------------

  const FLUSH := [Writer(W.Send(0))] + [Writer(W.Take), Writer(W.Answer)]

  lemma FlushAnswers(s: System)
    requires s.writer.hand.None? && s.writer.queue == [] && s.writer.marks == map[]
    ensures Feasible(s, FLUSH) && Flushed(Run(s, FLUSH).writer, 0)
    ensures Run(s, FLUSH) == s.(writer := s.writer.(marks := map[0 := |s.writer.accepted|],
                                                    acked := s.writer.acked + {0}))
  {
    var sent := Step(s, Writer(W.Send(0)));
    assert [Writer(W.Send(0))][1..] == [];
    assert sent.writer.queue == [W.Flush(0)] && sent.writer.queue[1..] == [];
    assert Feasible(s, [Writer(W.Send(0))]) && Run(s, [Writer(W.Send(0))]) == sent;
    RunTwo(sent, Writer(W.Take), Writer(W.Answer));
    RunConcat(s, [Writer(W.Send(0))], [Writer(W.Take), Writer(W.Answer)]);
  }

  // A flush was answered, nothing dropped and every append worked; a record did not keep
  // file and store together, and yet they are together again.
  ghost predicate TogetherAgain(s: System) {
    && Flushed(s.writer, 0) && s.writer.dropped == 0 && InOrder(s)
    && (forall i :: 0 <= i < |s.writer.settled| ==> s.writer.settled[i].1)
    && !AlwaysKeeps(NO_LINES, AllLogged(s.kept)) && Loaded(s.writer.file) == s.live
  }

  lemma FirstIsKept(one: System)
    requires one == Step(Step(Start(NO_LINES), Keep("x", "")), Hand(0))
    ensures one.writer == W.State([W.Line(Pair("x", ""))], None, [], 0, [], 1, [Pair("x", "")], [], map[], {})
    ensures one.live == Store(["x"], map["x" := ""]) && one.waiting == []
    ensures one.kept == [("x", "")] && one.offered == [Offered("x", "", true)]
  {
    KeepThenHand(Start(NO_LINES), "x", "");
  }

  // Both lines are queued, and the store holds the second signature.
  ghost predicate BothKept(two: System) {
    && two.writer == W.State([W.Line(Pair("x", "")), W.Line(Pair("x", "s"))], None, [], 0, [], 2,
                             [Pair("x", ""), Pair("x", "s")], [], map[], {})
    && two.live == Store(["x"], map["x" := "s"]) && two.kept == [("x", ""), ("x", "s")] && InOrder(two)
  }

  lemma SecondIsKept(one: System)
    requires one.writer == W.State([W.Line(Pair("x", ""))], None, [], 0, [], 1, [Pair("x", "")], [], map[], {})
    requires one.live == Store(["x"], map["x" := ""]) && one.waiting == []
    requires one.kept == [("x", "")] && one.offered == [Offered("x", "", true)]
    ensures Enabled(Step(one, Keep("x", "s")), Hand(0)) && BothKept(Step(Step(one, Keep("x", "s")), Hand(0)))
  {
    KeepThenHand(one, "x", "s");
  }

  lemma MendedState(two: System)
    requires two == Step(Step(Step(Step(Start(NO_LINES), Keep("x", "")), Hand(0)), Keep("x", "s")), Hand(0))
    ensures BothKept(two)
  {
    var one := Step(Step(Start(NO_LINES), Keep("x", "")), Hand(0));
    FirstIsKept(one);
    SecondIsKept(one);
  }

  lemma MendedRuns(two: System)
    requires two == Step(Step(Step(Step(Start(NO_LINES), Keep("x", "")), Hand(0)), Keep("x", "s")), Hand(0))
    ensures var mend := [Keep("x", ""), Hand(0)] + [Keep("x", "s"), Hand(0)];
            Feasible(Start(NO_LINES), mend) && Run(Start(NO_LINES), mend) == two
  {
    var one := Step(Step(Start(NO_LINES), Keep("x", "")), Hand(0));
    RunTwo(Start(NO_LINES), Keep("x", ""), Hand(0));
    RunTwo(one, Keep("x", "s"), Hand(0));
    RunConcat(Start(NO_LINES), [Keep("x", ""), Hand(0)], [Keep("x", "s"), Hand(0)]);
  }

  lemma MendedFile(file: seq<Line>)
    requires file == [Pair("x", "")] + [Pair("x", "s")]
    ensures Loaded(file) == Store(["x"], map["x" := "s"])
  {
    assert Gathered([Pair("x", "")]) == EMPTY;
    GatheredOneMore([Pair("x", "")], "x", "s");
  }

  lemma MendedLoads(s: System)
    requires s.writer.file == [Pair("x", ""), Pair("x", "s")] && s.kept == [("x", ""), ("x", "s")]
    requires s.live == Store(["x"], map["x" := "s"])
    ensures !AlwaysKeeps(NO_LINES, AllLogged(s.kept)) && Loaded(s.writer.file) == s.live
  {
    MendedFile(s.writer.file);
    SyncCanReturn([Entry("x", "", true)], AllLogged(s.kept));
  }

  // The two lines are in the file and nothing is left to do.
  ghost predicate Mended(s: System) {
    && s.writer.hand.None? && s.writer.queue == [] && s.writer.marks == map[] && s.writer.dropped == 0
    && s.writer.file == [Pair("x", ""), Pair("x", "s")]
    && s.writer.settled == [(Pair("x", ""), true), (Pair("x", "s"), true)]
    && s.kept == [("x", ""), ("x", "s")] && s.live == Store(["x"], map["x" := "s"]) && InOrder(s)
  }

  lemma MendedSettles(two: System)
    requires two == Step(Step(Step(Step(Start(NO_LINES), Keep("x", "")), Hand(0)), Keep("x", "s")), Hand(0))
    ensures Feasible(two, SETTLE) && Mended(Run(two, SETTLE))
  {
    MendedState(two);
    TwoLinesSettle(two, Pair("x", ""), Pair("x", "s"));
  }

  lemma MendedFlushes(s: System)
    requires Mended(s)
    ensures Feasible(s, FLUSH) && TogetherAgain(Run(s, FLUSH))
  {
    FlushAnswers(s);
    MendedLoads(Run(s, FLUSH));
  }

  lemma RunThree(s: System, a: seq<Action>, b: seq<Action>, c: seq<Action>, two: System, three: System)
    requires Feasible(s, a) && two == Run(s, a) && Feasible(two, b) && three == Run(two, b) && Feasible(three, c)
    ensures Feasible(s, a + b + c) && Run(s, a + b + c) == Run(three, c)
  {
    RunConcat(s, a, b);
    RunConcat(s, a + b, c);
  }

  lemma ThreeRunsTogether(s: System, a: seq<Action>, b: seq<Action>, c: seq<Action>, two: System, three: System)
    requires Feasible(s, a) && two == Run(s, a) && Feasible(two, b) && three == Run(two, b) && Feasible(three, c)
    requires TogetherAgain(Run(three, c))
    ensures exists actions :: Feasible(s, actions) && TogetherAgain(Run(s, actions))
  {
    RunThree(s, a, b, c, two, three);
  }

  // So a reload that fits at one flush does not show that every record kept the two
  // together: that takes a look after every record.
  lemma OneFlushIsNotEnough()
    ensures exists actions :: Feasible(Start(NO_LINES), actions) && TogetherAgain(Run(Start(NO_LINES), actions))
  {
    var two := Step(Step(Step(Step(Start(NO_LINES), Keep("x", "")), Hand(0)), Keep("x", "s")), Hand(0));
    MendedRuns(two);
    MendedSettles(two);
    MendedFlushes(Run(two, SETTLE));
    var mend := [Keep("x", ""), Hand(0)] + [Keep("x", "s"), Hand(0)];
    ThreeRunsTogether(Start(NO_LINES), mend, SETTLE, FLUSH, two, Run(two, SETTLE));
  }

  // ---- A file that cannot be read ----------------------------------------------

  // A file that is there but not text is neither loaded nor rewritten; lines appended to
  // it do not make it readable.
  datatype Content = Absent | Garbled | Text(lines: seq<Line>)

  function LinesOf(content: Content): seq<Line> {
    if content.Text? then content.lines else []
  }

  // What a restart finds once the lines after `content` are those of `file`.
  function Reread(content: Content, file: seq<Line>): Content {
    if content.Garbled? then Garbled else Text(file)
  }

  lemma Rereads(content: Content, file: seq<Line>)
    requires if content.Text? then Loaded(file) == Loaded(content.lines) else file == []
    ensures Loaded(LinesOf(Reread(content, file))) == Loaded(LinesOf(content))
  {
  }

  // From such a file on, a restart loads the live store exactly if nothing was recorded.
  lemma GarbledFileLoadsNothing(actions: seq<Action>)
    requires Feasible(Start(LinesOf(Garbled)), actions)
    ensures var s := Run(Start(LinesOf(Garbled)), actions);
            Loaded(LinesOf(Reread(Garbled, s.writer.file))) == s.live <==> s.kept == []
  {
    StartJoined([]);
    RunJoins([], Start([]), actions);
    EmptyStoreIsUnused(Unlogged(Run(Start([]), actions).kept));
  }

  lemma EmptyStoreIsUnused(history: seq<Entry>)
    ensures Live([], history) == Loaded([]) <==> history == []
  {
    if history != [] {
      var (init, last) := (history[..|history| - 1], history[|history| - 1]);
      LiveIs([], init);
      RecordedFits(Live([], init), last.id, last.signature);
      assert last.id !in Loaded([]).values;
    }
  }

  // ---- The object -------------------------------------------------------------

  class ThoughtSignatures {
    var order: seq<string>
    var values: map<string, string>
    const writer: W.WriteBehind

    ghost predicate Valid()
      reads this, writer
    {
      Fits(State()) && writer.Valid()
    }

    ghost function State(): Store
      reads this
    {
      Store(order, values)
    }

    // `rewritten` says whether the rewrite works; either way the store starts as what its
    // file would load as. The writer's file are the lines behind an unreadable rest, if
    // there is one.
    constructor Open(content: Content, rewritten: bool)
      ensures Valid() && fresh(writer) && writer.Snapshot() == W.Initial(writer.Snapshot().file)
      ensures State() == Loaded(LinesOf(content)) == Loaded(LinesOf(Reread(content, writer.Snapshot().file)))
    {
      order, values := [], map[];
      writer := new W.WriteBehind(LinesOf(content));
      new;
      if content.Text? {
        Load(content.lines, rewritten);
        RewriteAfterLoad(content.lines);
      }
      Rereads(content, writer.file);
    }

    method Load(lines: seq<Line>, rewritten: bool)
      requires State() == Store([], map[]) && writer.Snapshot() == W.Initial(lines)
      modifies this, writer
      ensures Valid() && State() == Loaded(lines)
      ensures writer.Snapshot() == W.Initial(if rewritten then Written(State()) else lines)
    {
      for i := 0 to |lines|
        invariant State() == Gathered(lines[..i])
        invariant writer.Snapshot() == W.Initial(lines)
      {
        assert lines[..i + 1][..i] == lines[..i];
        var line := lines[i];
        if line.Unreadable? {
          continue;
        }
        if line.id == "" || line.signature == "" {
          continue;
        }
        Put(line.id, line.signature);
      }
      assert lines[..|lines|] == lines;
      GatheredIndexed(lines);
      Trim();
      if rewritten {
        Rewrite();
      }
    }

    method Put(id: string, signature: string)
      modifies this
      ensures State() == Insert(old(State()), id, signature)
    {
      if id !in values {
        order := order + [id];
      }
      values := values[id := signature];
    }

    method Trim()
      requires Indexed(State())
      modifies this
      ensures State() == Trimmed(old(State())) && Fits(State())
    {
      ghost var was := State();
      TrimmedFits(was);
      while |order| > CAPACITY
        invariant Trimmed(State()) == Trimmed(was)
      {
        var oldest := order[0];
        order := order[1..];
        values := values - {oldest};
      }
    }

    // A rewrite that works; once, before the first record.
    method Rewrite()
      requires exists before :: writer.Snapshot() == W.Initial(before)
      modifies writer
      ensures writer.Snapshot() == W.Initial(Written(State())) && writer.Valid()
    {
      var body := [];
      for i := 0 to |order|
        invariant body == Written(Store(order[..i], values))
      {
        assert order[..i + 1][..i] == order[..i];
        var id := order[i];
        if id !in values {
          continue;
        }
        body := body + [Pair(id, values[id])];
      }
      assert order[..|order|] == order;
      writer.Overwrite(body);
    }

    // The store takes the pair, and its line goes to the writer.
    method Record(id: string, signature: string)
      requires Valid()
      modifies this, writer
      ensures Valid() && State() == Recorded(old(State()), id, signature)
      ensures writer.Snapshot() == W.Step(old(writer.Snapshot()), W.Offer(Pair(id, signature)))
    {
      InsertIndexed(State(), id, signature);
      Put(id, signature);
      Trim();
      writer.Append(Pair(id, signature));
    }

    method Get(id: string) returns (signature: Option<string>)
      ensures signature == if id in values then Some(values[id]) else None
    {
      return if id in values then Some(values[id]) else None;
    }
  }
}
