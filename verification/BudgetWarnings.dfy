// One warning per window: a single stamp on the budget row decides who gets the marker.
module BudgetWarnings {
  import opened Wrappers
  import opened Periods
  import opened BudgetLedger

  // The window the row was last warned for.
  function StampOf(row: BudgetRow): Option<int> {
    if row.warningEmittedAt.Some? then row.warningPeriodStart else None
  }

  // `stamped` says whether the write of the stamp succeeds.
  method WarnOnce(db: Database, key: string, period: Period, now: int, stamped: bool) returns (emitted: bool)
    modifies db`budgets
    ensures emitted <==>
      key in old(db.budgets) && stamped
      && (old(db.budgets)[key].warningEmittedAt.None?
          || old(db.budgets)[key].warningPeriodStart != Some(PeriodStart(period, now)))
    ensures emitted ==>
      key in db.budgets
      && db.budgets[key].warningEmittedAt == Some(now)
      && db.budgets[key].warningPeriodStart == Some(PeriodStart(period, now))
    ensures !emitted ==> db.budgets == old(db.budgets)
    ensures db.budgets.Keys == old(db.budgets.Keys)
    ensures forall k :: k in db.budgets && k != key ==> db.budgets[k] == old(db.budgets)[k]
    ensures key in db.budgets ==> CapsAlike(db.budgets[key], old(db.budgets)[key])
  {
    var start := PeriodStart(period, now);
    if key !in db.budgets {
      return false;
    }
    var row := db.budgets[key];
    if row.warningEmittedAt.Some? && row.warningPeriodStart == Some(start) {
      return false;
    }
    if !stamped {
      return false;
    }
    db.MarkWarningEmitted(key, now, start);
    return true;
  }

  // A stamp changes no cap.
  predicate CapsAlike(a: BudgetRow, b: BudgetRow) {
    a.daily == b.daily && a.weekly == b.weekly && a.monthly == b.monthly && a.threshold == b.threshold
  }

  // ---- A key's warnings, one after the other ----------------------------------

  // A verdict that warns: the period it names and the request's clock.
  datatype Warning = Warning(period: Period, now: int)

  function Start(w: Warning): int {
    PeriodStart(w.period, w.now)
  }

  function StampBefore(stamp: Option<int>, warnings: seq<Warning>, i: nat): Option<int>
    requires i <= |warnings|
  {
    if i == 0 then stamp
    else
      var before := StampBefore(stamp, warnings, i - 1);
      if before == Some(Start(warnings[i - 1])) then before else Some(Start(warnings[i - 1]))
  }

  predicate Emitted(stamp: Option<int>, warnings: seq<Warning>, i: nat)
    requires i < |warnings|
  {
    StampBefore(stamp, warnings, i) != Some(Start(warnings[i]))
  }

  // The warnings marked in `which`.
  function Marked(warnings: seq<Warning>, which: seq<bool>): seq<Warning>
    requires |which| == |warnings|
  {
    var n := |warnings|;
    if n == 0 then []
    else Marked(warnings[..n - 1], which[..n - 1]) + if which[n - 1] then [warnings[n - 1]] else []
  }

  lemma {:induction false} StampBeforePrefix(stamp: Option<int>, a: seq<Warning>, b: seq<Warning>, i: nat)
    requires i <= |a| <= |b| && a <= b
    ensures StampBefore(stamp, a, i) == StampBefore(stamp, b, i)
  {
    if i > 0 {
      StampBeforePrefix(stamp, a, b, i - 1);
    }
  }

  lemma StampAfter(stamp: Option<int>, warnings: seq<Warning>, w: Warning)
    ensures var n := |warnings|;
            && (Emitted(stamp, warnings + [w], n) <==> StampBefore(stamp, warnings, n) != Some(Start(w)))
            && StampBefore(stamp, warnings + [w], n + 1) == Some(Start(w))
  {
    StampBeforePrefix(stamp, warnings, warnings + [w], |warnings|);
  }

  lemma MarkedGrow(warnings: seq<Warning>, which: seq<bool>, i: nat)
    requires i < |warnings| == |which|
    ensures Marked(warnings[..i + 1], which[..i + 1])
         == if which[i] then Marked(warnings[..i], which[..i]) + [warnings[i]] else Marked(warnings[..i], which[..i])
  {
    assert warnings[..i + 1][..i] == warnings[..i] && which[..i + 1][..i] == which[..i];
  }

  // The i-th warning's marker goes out: its stamp can be written, and among the warnings
  // that could be stamped it is an emission.
  predicate GoesOut(stamp: Option<int>, warnings: seq<Warning>, stamped: seq<bool>, i: nat)
    requires i < |warnings| == |stamped|
  {
    MarkedGrow(warnings, stamped, i);
    stamped[i] && Emitted(stamp, Marked(warnings[..i + 1], stamped[..i + 1]), |Marked(warnings[..i], stamped[..i])|)
  }

  // The window of the last warning before this one that could be stamped, or the row's own.
  function LastStamped(stamp: Option<int>, warnings: seq<Warning>, stamped: seq<bool>, i: nat): Option<int>
    requires i <= |warnings| == |stamped|
  {
    if i == 0 then stamp
    else if stamped[i - 1] then Some(PeriodStart(warnings[i - 1].period, warnings[i - 1].now))
    else LastStamped(stamp, warnings, stamped, i - 1)
  }

  lemma {:induction false} MarkedIsStamped(stamp: Option<int>, warnings: seq<Warning>, stamped: seq<bool>, i: nat)
    requires i <= |warnings| == |stamped|
    ensures var kept := Marked(warnings[..i], stamped[..i]);
            StampBefore(stamp, kept, |kept|) == LastStamped(stamp, warnings, stamped, i)
  {
    if i > 0 {
      MarkedIsStamped(stamp, warnings, stamped, i - 1);
      MarkedGrow(warnings, stamped, i - 1);
      LastStamps(stamp, Marked(warnings[..i - 1], stamped[..i - 1]), warnings[i - 1]);
    }
  }

  lemma LastStamps(stamp: Option<int>, warnings: seq<Warning>, w: Warning)
    ensures StampBefore(stamp, warnings + [w], |warnings + [w]|) == Some(PeriodStart(w.period, w.now))
  {
    StampAfter(stamp, warnings, w);
  }

  // Its stamp can be written, and its window is not the one of the last warning that could
  // be stamped.
  lemma GoesOutOnChange(stamp: Option<int>, warnings: seq<Warning>, stamped: seq<bool>, i: nat)
    requires i < |warnings| == |stamped|
    ensures GoesOut(stamp, warnings, stamped, i)
       <==> stamped[i]
            && LastStamped(stamp, warnings, stamped, i) != Some(PeriodStart(warnings[i].period, warnings[i].now))
  {
    MarkedIsStamped(stamp, warnings, stamped, i);
    MarkedGrow(warnings, stamped, i);
    StampAfter(stamp, Marked(warnings[..i], stamped[..i]), warnings[i]);
  }

  // Warning after warning, `stamped` saying which stamps can be written.
  method WarnAll(db: Database, key: string, warnings: seq<Warning>, stamped: seq<bool>) returns (emitted: seq<bool>)
    requires |stamped| == |warnings|
    modifies db`budgets
    ensures |emitted| == |warnings|
    ensures forall i :: 0 <= i < |warnings| ==>
              (emitted[i] <==>
                 key in old(db.budgets) && stamped[i]
                 && LastStamped(StampOf(old(db.budgets)[key]), warnings, stamped, i) != Some(Start(warnings[i])))
    ensures db.budgets.Keys == old(db.budgets.Keys)
  {
    emitted := [];
    ghost var known := key in db.budgets;
    ghost var stamp := if known then StampOf(db.budgets[key]) else None;
    for i := 0 to |warnings|
      invariant |emitted| == i && db.budgets.Keys == old(db.budgets.Keys)
      invariant forall j :: 0 <= j < i ==>
                  (emitted[j] <==>
                     known && stamped[j] && LastStamped(stamp, warnings, stamped, j) != Some(Start(warnings[j])))
      invariant known ==> StampOf(db.budgets[key]) == LastStamped(stamp, warnings, stamped, i)
    {
      var out := WarnOnce(db, key, warnings[i].period, warnings[i].now, stamped[i]);
      emitted := emitted + [out];
    }
  }

  // The window of the warning before this one, whether that one was emitted or not.
  function Previous(stamp: Option<int>, warnings: seq<Warning>, i: nat): Option<int>
    requires i <= |warnings|
  {
    if i == 0 then stamp else Some(Start(warnings[i - 1]))
  }

  // The marker goes out exactly where the window differs from the one before.
  lemma EmittedOnChange(stamp: Option<int>, warnings: seq<Warning>, i: nat)
    requires i < |warnings|
    ensures Emitted(stamp, warnings, i) <==> Previous(stamp, warnings, i) != Some(Start(warnings[i]))
  {
    if i > 0 {
      assert StampBefore(stamp, warnings, i) == Some(Start(warnings[i - 1]));
    }
  }

  // No window is warned for twice, nor is the one the row was stamped with.
  ghost predicate OncePerWindow(stamp: Option<int>, warnings: seq<Warning>) {
    && (forall i, j :: 0 <= i < j < |warnings| && Emitted(stamp, warnings, i) && Emitted(stamp, warnings, j)
          ==> Start(warnings[i]) != Start(warnings[j]))
    && (forall j :: 0 <= j < |warnings| && Emitted(stamp, warnings, j) ==> stamp != Some(Start(warnings[j])))
  }

  // The warnings of a window are not interrupted by those of another.
  ghost predicate Unbroken(stamp: Option<int>, warnings: seq<Warning>) {
    && (forall i, k, j :: 0 <= i < k < j < |warnings| && Start(warnings[i]) == Start(warnings[j])
          ==> Start(warnings[k]) == Start(warnings[i]))
    && (forall k, j :: 0 <= k < j < |warnings| && stamp == Some(Start(warnings[j]))
          ==> Start(warnings[k]) == Start(warnings[j]))
  }

  // The emission a warning's window started with, or the row's own stamp.
  lemma {:induction false} Opening(stamp: Option<int>, warnings: seq<Warning>, i: nat) returns (o: nat)
    requires i < |warnings|
    ensures o <= i && Start(warnings[o]) == Start(warnings[i])
    ensures Emitted(stamp, warnings, o) || stamp == Some(Start(warnings[i]))
  {
    EmittedOnChange(stamp, warnings, i);
    if i == 0 || Emitted(stamp, warnings, i) {
      o := i;
    } else {
      o := Opening(stamp, warnings, i - 1);
    }
  }

  // Coming back to a window from another is an emission.
  lemma {:induction false} Return(stamp: Option<int>, warnings: seq<Warning>, k: nat, j: nat) returns (m: nat)
    requires k < j < |warnings| && Start(warnings[k]) != Start(warnings[j])
    ensures k < m <= j && Start(warnings[m]) == Start(warnings[j]) && Emitted(stamp, warnings, m)
  {
    EmittedOnChange(stamp, warnings, j);
    if Emitted(stamp, warnings, j) {
      m := j;
    } else {
      m := Return(stamp, warnings, k, j - 1);
    }
  }

  lemma UnbrokenWarnsOnce(stamp: Option<int>, warnings: seq<Warning>)
    requires Unbroken(stamp, warnings)
    ensures OncePerWindow(stamp, warnings)
  {
    forall i, j | 0 <= i < j < |warnings| && Emitted(stamp, warnings, i) && Emitted(stamp, warnings, j)
      ensures Start(warnings[i]) != Start(warnings[j])
    {
      EmittedOnChange(stamp, warnings, j);
      assert Start(warnings[j - 1]) != Start(warnings[j]);
    }
    forall j | 0 <= j < |warnings| && Emitted(stamp, warnings, j) ensures stamp != Some(Start(warnings[j])) {
      EmittedOnChange(stamp, warnings, j);
      assert j > 0 ==> Start(warnings[j - 1]) != Start(warnings[j]);
    }
  }

  lemma OnceIsUnbroken(stamp: Option<int>, warnings: seq<Warning>)
    requires OncePerWindow(stamp, warnings)
    ensures Unbroken(stamp, warnings)
  {
    forall i, k, j | 0 <= i < k < j < |warnings| && Start(warnings[i]) == Start(warnings[j])
      ensures Start(warnings[k]) == Start(warnings[i])
    {
      if Start(warnings[k]) != Start(warnings[i]) {
        var o := Opening(stamp, warnings, i);
        var m := Return(stamp, warnings, k, j);
      }
    }
    forall k, j | 0 <= k < j < |warnings| && stamp == Some(Start(warnings[j]))
      ensures Start(warnings[k]) == Start(warnings[j])
    {
      if Start(warnings[k]) != Start(warnings[j]) {
        var m := Return(stamp, warnings, k, j);
      }
    }
  }

  // One stamp serves every period, so this is what "once per window" takes.
  lemma WarnsOncePerWindow(stamp: Option<int>, warnings: seq<Warning>)
    ensures OncePerWindow(stamp, warnings) <==> Unbroken(stamp, warnings)
  {
    if OncePerWindow(stamp, warnings) {
      OnceIsUnbroken(stamp, warnings);
    }
    if Unbroken(stamp, warnings) {
      UnbrokenWarnsOnce(stamp, warnings);
    }
  }

  // ---- One cap ----------------------------------------------------------------

  // A request's check: what it read and the verdict it got.
  datatype Check = Check(now: int, spent: Period -> real, out: Outage, verdict: Verdict)

  function Warnings(checks: seq<Check>): seq<Warning> {
    if checks == [] then []
    else
      var last := checks[|checks| - 1];
      Warnings(checks[..|checks| - 1]) + if last.verdict.Warn? then [Warning(last.verdict.period, last.now)] else []
  }

  ghost predicate Checked(caps: Caps, checks: seq<Check>) {
    && (forall i :: 0 <= i < |checks| ==> Judged(caps, checks[i].spent, checks[i].out, checks[i].verdict))
    && (forall i, j :: 0 <= i < j < |checks| ==> checks[i].now <= checks[j].now)
  }

  ghost predicate InOrder(ws: seq<Warning>, period: Period, first: int, last: int) {
    && (forall i :: 0 <= i < |ws| ==> ws[i].period == period && first <= ws[i].now <= last)
    && (forall i, j :: 0 <= i < j < |ws| ==> ws[i].now <= ws[j].now)
  }

  lemma {:induction false} WarningsInOrder(caps: Caps, checks: seq<Check>, period: Period)
    requires Checked(caps, checks) && forall q :: q != period ==> caps.limits(q) <= 0.0
    requires checks != []
    ensures InOrder(Warnings(checks), period, checks[0].now, checks[|checks| - 1].now)
    decreases |checks|
  {
    var (init, last) := (checks[..|checks| - 1], checks[|checks| - 1]);
    var ws := Warnings(init);
    if init != [] {
      WarningsInOrder(caps, init, period);
      assert init[0] == checks[0] && init[|init| - 1] == checks[|checks| - 2];
      assert checks[|checks| - 2].now <= last.now;
    }
    assert InOrder(ws, period, checks[0].now, last.now);
    if last.verdict.Warn? {
      assert Near(caps, last.spent, last.verdict.period);
      assert Warnings(checks) == ws + [Warning(period, last.now)];
    } else {
      assert Warnings(checks) == ws;
    }
  }

  // With one cap configured and a clock that never goes back, every window is warned
  // for at most once, and the first warning of the next one goes out again.
  lemma OneCapWarnsOnce(caps: Caps, checks: seq<Check>, period: Period, stamp: Option<int>)
    requires Checked(caps, checks) && forall q :: q != period ==> caps.limits(q) <= 0.0
    requires checks != [] && stamp.Some? ==> stamp.value <= PeriodStart(period, checks[0].now)
    ensures OncePerWindow(stamp, Warnings(checks))
    ensures var ws := Warnings(checks);
            forall i :: 0 < i < |ws| && Start(ws[i - 1]) < Start(ws[i]) ==> Emitted(stamp, ws, i)
  {
    var ws := Warnings(checks);
    if checks != [] {
      WarningsInOrder(caps, checks, period);
    }
    forall i, j | 0 <= i < j < |ws| ensures Start(ws[i]) <= Start(ws[j]) {
      StartsAreMonotone(period, ws[i].now, ws[j].now);
    }
    forall i | 0 <= i < |ws| && stamp.Some? ensures stamp.value <= Start(ws[i]) {
      StartsAreMonotone(period, checks[0].now, ws[i].now);
    }
    InOrderIsUnbroken(stamp, ws);
    UnbrokenWarnsOnce(stamp, ws);
    forall i | 0 < i < |ws| && Start(ws[i - 1]) < Start(ws[i]) ensures Emitted(stamp, ws, i) {
      EmittedOnChange(stamp, ws, i);
    }
  }

  lemma InOrderIsUnbroken(stamp: Option<int>, ws: seq<Warning>)
    requires forall i, j :: 0 <= i < j < |ws| ==> Start(ws[i]) <= Start(ws[j])
    requires forall i :: 0 <= i < |ws| && stamp.Some? ==> stamp.value <= Start(ws[i])
    ensures Unbroken(stamp, ws)
  {
  }

  // ---- Two caps ---------------------------------------------------------------

  // A cap of 10 a day and of 20 a week, warned at 80 percent.
  function TwoCaps(): Caps {
    Caps(period => if period == Daily then 10.0 else if period == Weekly then 20.0 else 0.0, 0.8)
  }

  // 9.00 on Monday the fifth of January 1970 and 7.50 on Tuesday; a little more on
  // Tuesday; nothing more by Wednesday.
  function Tuesday(key: string): seq<Entry> {
    [Entry(key, 9.0, 4 * DAY), Entry(key, 7.5, 5 * DAY)]
  }

  function TuesdayNight(key: string): seq<Entry> {
    Tuesday(key) + [Entry(key, 0.5, 5 * DAY + 1)]
  }

  lemma TuesdaySpend(key: string, since: int)
    requires 0 <= since
    ensures SpendSince(Tuesday(key), key, since)
      == (if since <= 4 * DAY then 16.5 else if since <= 5 * DAY then 7.5 else 0.0)
  {
    assert Tuesday(key)[..1] == [Entry(key, 9.0, 4 * DAY)];
    assert [Entry(key, 9.0, 4 * DAY)][..0] == [];
    assert SpendSince([Entry(key, 9.0, 4 * DAY)], key, since) == if since <= 4 * DAY then 9.0 else 0.0;
  }

  lemma TuesdayNightSpend(key: string, since: int)
    requires 0 <= since <= 5 * DAY
    ensures SpendSince(TuesdayNight(key), key, since) == if since <= 4 * DAY then 17.0 else 8.0
  {
    TuesdaySpend(key, since);
    assert TuesdayNight(key)[..2] == Tuesday(key);
  }

  lemma WednesdaySpend(key: string)
    ensures SpendSince(TuesdayNight(key), key, 6 * DAY) == 0.0
  {
    TuesdaySpend(key, 6 * DAY);
    assert TuesdayNight(key)[..2] == Tuesday(key);
  }

  lemma WindowsOfTheWeek()
    ensures PeriodStart(Weekly, 5 * DAY) == PeriodStart(Weekly, 5 * DAY + 2) == PeriodStart(Weekly, 6 * DAY) == 4 * DAY
    ensures PeriodStart(Daily, 5 * DAY) == PeriodStart(Daily, 5 * DAY + 2) == 5 * DAY
    ensures PeriodStart(Daily, 6 * DAY) == 6 * DAY
  {
  }

  lemma TuesdayVerdict(key: string)
    ensures Judged(TwoCaps(), Spent(Tuesday(key), key, 5 * DAY), Outage(false, {}), Warn(Weekly, 16.5, 20.0))
  {
    WindowsOfTheWeek();
    TuesdaySpend(key, 4 * DAY);
    TuesdaySpend(key, 5 * DAY);
  }

  lemma TuesdayNightVerdict(key: string)
    ensures Judged(TwoCaps(), Spent(TuesdayNight(key), key, 5 * DAY + 2), Outage(false, {}), Warn(Daily, 8.0, 10.0))
  {
    WindowsOfTheWeek();
    TuesdayNightSpend(key, 4 * DAY);
    TuesdayNightSpend(key, 5 * DAY);
  }

  lemma WednesdayVerdict(key: string)
    ensures Judged(TwoCaps(), Spent(TuesdayNight(key), key, 6 * DAY), Outage(false, {}), Warn(Weekly, 17.0, 20.0))
  {
    WindowsOfTheWeek();
    TuesdayNightSpend(key, 4 * DAY);
    WednesdaySpend(key);
  }

  lemma ThreeChecks(caps: Caps, a: Check, b: Check, c: Check)
    requires Judged(caps, a.spent, a.out, a.verdict) && a.verdict.Warn?
    requires Judged(caps, b.spent, b.out, b.verdict) && b.verdict.Warn?
    requires Judged(caps, c.spent, c.out, c.verdict) && c.verdict.Warn?
    requires a.now <= b.now <= c.now
    ensures Checked(caps, [a, b, c])
    ensures Warnings([a, b, c])
      == [Warning(a.verdict.period, a.now), Warning(b.verdict.period, b.now), Warning(c.verdict.period, c.now)]
  {
    assert [a, b, c][..2] == [a, b] && [a, b][..1] == [a] && [a][..0] == [];
    assert Warnings([a]) == [] + [Warning(a.verdict.period, a.now)];
  }

  lemma BrokenWindow(warnings: seq<Warning>)
    requires warnings == [Warning(Weekly, 5 * DAY), Warning(Daily, 5 * DAY + 2), Warning(Weekly, 6 * DAY)]
    ensures !OncePerWindow(None, warnings)
  {
    WindowsOfTheWeek();
    EmittedOnChange(None, warnings, 0);
    EmittedOnChange(None, warnings, 1);
    EmittedOnChange(None, warnings, 2);
  }

  // What the three checks read, in order.
  ghost predicate ReadFrom(checks: seq<Check>, key: string) {
    && |checks| == 3
    && checks[0].spent == Spent(Tuesday(key), key, checks[0].now)
    && checks[1].spent == Spent(TuesdayNight(key), key, checks[1].now)
    && checks[2].spent == Spent(TuesdayNight(key), key, checks[2].now)
  }

  // The day's warning overwrites the week's stamp, and the week is warned for again.
  lemma TwoCapsWarnTwice(key: string)
    ensures exists checks ::
              ReadFrom(checks, key) && Checked(TwoCaps(), checks) && !OncePerWindow(None, Warnings(checks))
  {
    TuesdayVerdict(key);
    TuesdayNightVerdict(key);
    WednesdayVerdict(key);
    var checks := WarnedTwice(Spent(Tuesday(key), key, 5 * DAY), Spent(TuesdayNight(key), key, 5 * DAY + 2),
                              Spent(TuesdayNight(key), key, 6 * DAY));
    assert ReadFrom(checks, key);
  }

  lemma WarnedTwice(a: Period -> real, b: Period -> real, c: Period -> real) returns (checks: seq<Check>)
    requires Judged(TwoCaps(), a, Outage(false, {}), Warn(Weekly, 16.5, 20.0))
    requires Judged(TwoCaps(), b, Outage(false, {}), Warn(Daily, 8.0, 10.0))
    requires Judged(TwoCaps(), c, Outage(false, {}), Warn(Weekly, 17.0, 20.0))
    ensures Checked(TwoCaps(), checks) && !OncePerWindow(None, Warnings(checks))
    ensures |checks| == 3 && checks[0].spent == a && checks[1].spent == b && checks[2].spent == c
    ensures checks[0].now == 5 * DAY && checks[1].now == 5 * DAY + 2 && checks[2].now == 6 * DAY
  {
    var out := Outage(false, {});
    var tuesday := Check(5 * DAY, a, out, Warn(Weekly, 16.5, 20.0));
    var night := Check(5 * DAY + 2, b, out, Warn(Daily, 8.0, 10.0));
    var wednesday := Check(6 * DAY, c, out, Warn(Weekly, 17.0, 20.0));
    ThreeChecks(TwoCaps(), tuesday, night, wednesday);
    checks := [tuesday, night, wednesday];
    BrokenWindow(Warnings(checks));
  }
}
