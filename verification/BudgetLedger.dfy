// The spend ledger, the budget row of a key, and the verdict the gateway reads off them.
module BudgetLedger {
  import opened Wrappers
  import opened Periods

  // A float of the database: a finite value, or one that is not.
  datatype Amount = Finite(value: real) | NotFinite

  datatype Entry = Entry(key: string, cost: real, timestamp: int)

  datatype BudgetRow = BudgetRow(
    daily: Amount, weekly: Amount, monthly: Amount, threshold: Amount,
    warningEmittedAt: Option<int>, warningPeriodStart: Option<int>)

  datatype Verdict =
    | Allow
    | Warn(period: Period, spent: real, limit: real)
    | Blocked(period: Period, spent: real, limit: real)

  const DEFAULT_WARNING_THRESHOLD := 0.8

  // 2^-1022, the smallest positive normal float.
  function MinPositive(): (m: real)
    ensures 0.0 < m < 0.1
  {
    var a := 0x1_0000_0000_0000_0000 as real;
    var b := a * a;
    var c := b * b;
    1.0 / (a * b * c * (c * c) * (0x4000_0000_0000_0000 as real))
  }

  function PowerOfTwo(n: nat): real {
    if n == 0 then 1.0 else 2.0 * PowerOfTwo(n - 1)
  }

  lemma {:induction false} PowersMultiply(m: nat, n: nat)
    ensures PowerOfTwo(m + n) == PowerOfTwo(m) * PowerOfTwo(n)
  {
    if m > 0 {
      PowersMultiply(m - 1, n);
    }
  }

  lemma PowersDouble()
    ensures PowerOfTwo(62) == 0x4000_0000_0000_0000 as real
    ensures PowerOfTwo(64) == 0x1_0000_0000_0000_0000 as real
  {
    PowersMultiply(4, 4);
    PowersMultiply(8, 8);
    PowersMultiply(16, 16);
    PowersMultiply(32, 32);
    PowersMultiply(62, 2);
    assert PowerOfTwo(4) == 16.0 by {
      PowersMultiply(2, 2);
    }
  }

  // It is 2^-1022 indeed.
  lemma MinPositiveIsAPower()
    ensures MinPositive() * PowerOfTwo(1022) == 1.0
  {
    PowersDouble();
    PowersMultiply(64, 64);
    PowersMultiply(128, 128);
    LargePower(PowerOfTwo(64), PowerOfTwo(128), PowerOfTwo(256), PowerOfTwo(62));
    Inverse(PowerOfTwo(64), PowerOfTwo(128), PowerOfTwo(256), PowerOfTwo(62), PowerOfTwo(1022));
  }

  lemma LargePower(a: real, b: real, c: real, d: real)
    requires a == PowerOfTwo(64) && b == PowerOfTwo(128) && c == PowerOfTwo(256) && d == PowerOfTwo(62)
    ensures PowerOfTwo(1022) == a * b * c * (c * c) * d
  {
    PowersMultiply(64, 128);
    PowersMultiply(192, 256);
    PowersMultiply(256, 256);
    PowersMultiply(448, 512);
    PowersMultiply(960, 62);
    assert PowerOfTwo(448) == a * b * c && PowerOfTwo(512) == c * c;
    assert PowerOfTwo(960) == a * b * c * (c * c);
  }

  lemma Inverse(a: real, b: real, c: real, d: real, whole: real)
    requires a == 0x1_0000_0000_0000_0000 as real && b == a * a && c == b * b && d == 0x4000_0000_0000_0000 as real
    requires whole == a * b * c * (c * c) * d
    ensures MinPositive() * whole == 1.0
  {
  }

  // Zero says "no cap"; nothing else but a finite positive limit is one.
  function NormalizeLimit(limit: Amount): real {
    if limit.Finite? && limit.value > 0.0 then limit.value else 0.0
  }

  function NormalizeThreshold(threshold: Amount): (f: real)
    ensures 0.0 < f <= 1.0
  {
    match threshold
    case NotFinite => DEFAULT_WARNING_THRESHOLD
    case Finite(v) => if v < MinPositive() then MinPositive() else if v > 1.0 then 1.0 else v
  }

  function Distance(a: real, b: real): real {
    if a < b then b - a else a - b
  }

  // A finite threshold becomes the nearest usable one.
  lemma ThresholdIsClamped(v: real, usable: real)
    requires MinPositive() <= usable <= 1.0
    ensures var f := NormalizeThreshold(Finite(v));
            MinPositive() <= f <= 1.0 && Distance(f, v) <= Distance(usable, v)
  {
  }

  // An unusable threshold becomes the default if and only if it is not finite.
  lemma UnusableBecomesDefault(threshold: Amount)
    requires threshold.Finite? ==> threshold.value <= 0.0 || threshold.value > 1.0
    ensures NormalizeThreshold(threshold) == DEFAULT_WARNING_THRESHOLD <==> threshold.NotFinite?
  {
  }

  function LimitFor(row: BudgetRow, period: Period): real {
    NormalizeLimit(match period case Daily => row.daily case Weekly => row.weekly case Monthly => row.monthly)
  }

  function WarningFraction(row: BudgetRow): real {
    NormalizeThreshold(row.threshold)
  }

  // ---- The ledger -------------------------------------------------------------

  function Recorded(ledger: seq<Entry>, key: string, cost: Amount, timestamp: int): seq<Entry> {
    ledger + [Entry(key, if cost.Finite? then cost.value else 0.0, timestamp)]
  }

  function SpendSince(ledger: seq<Entry>, key: string, since: int): real {
    if ledger == [] then 0.0
    else
      var last := ledger[|ledger| - 1];
      SpendSince(ledger[..|ledger| - 1], key, since)
      + if last.key == key && since <= last.timestamp then last.cost else 0.0
  }

  // What was booked inside one window.
  function WindowSpend(ledger: seq<Entry>, key: string, start: int, end: int): real {
    if ledger == [] then 0.0
    else
      var last := ledger[|ledger| - 1];
      WindowSpend(ledger[..|ledger| - 1], key, start, end)
      + if last.key == key && start <= last.timestamp < end then last.cost else 0.0
  }

  // No refunds to one key.
  predicate NoRefunds(ledger: seq<Entry>, key: string) {
    forall i :: 0 <= i < |ledger| && ledger[i].key == key ==> ledger[i].cost >= 0.0
  }

  // What one booking adds to a key's spend in a window.
  lemma RecordedSpend(ledger: seq<Entry>, who: string, cost: Amount, timestamp: int, key: string, start: int, end: int)
    ensures WindowSpend(Recorded(ledger, who, cost, timestamp), key, start, end)
         == WindowSpend(ledger, key, start, end)
            + if who == key && start <= timestamp < end && cost.Finite? then cost.value else 0.0
  {
    var next := Recorded(ledger, who, cost, timestamp);
    assert next[..|next| - 1] == ledger;
  }

  // What one booking adds to a key's spend: its cost if it is the key's, not too early and
  // finite, else nothing.
  lemma BookingAdds(ledger: seq<Entry>, who: string, cost: Amount, timestamp: int, key: string, since: int)
    ensures SpendSince([], key, since) == 0.0
    ensures SpendSince(Recorded(ledger, who, cost, timestamp), key, since)
         == SpendSince(ledger, key, since)
            + if who == key && since <= timestamp && cost.Finite? then cost.value else 0.0
  {
    var next := Recorded(ledger, who, cost, timestamp);
    assert next[..|next| - 1] == ledger;
  }

  // Up to an end after the last booking, a window holds all that was spent since it began.
  lemma {:induction false} SinceIsTheWindow(ledger: seq<Entry>, key: string, start: int, end: int)
    requires forall i :: 0 <= i < |ledger| ==> ledger[i].timestamp < end
    ensures SpendSince(ledger, key, start) == WindowSpend(ledger, key, start, end)
  {
    if ledger != [] {
      SinceIsTheWindow(ledger[..|ledger| - 1], key, start, end);
    }
  }

  // The bookings of one key.
  function OfKey(ledger: seq<Entry>, key: string): seq<Entry> {
    if ledger == [] then []
    else
      var last := ledger[|ledger| - 1];
      OfKey(ledger[..|ledger| - 1], key) + if last.key == key then [last] else []
  }

  // The others' do not count.
  lemma {:induction false} OthersCostNothing(ledger: seq<Entry>, key: string, since: int)
    ensures SpendSince(ledger, key, since) == SpendSince(OfKey(ledger, key), key, since)
  {
    if ledger != [] {
      var (init, last) := (ledger[..|ledger| - 1], ledger[|ledger| - 1]);
      OthersCostNothing(init, key, since);
      if last.key == key {
        assert OfKey(ledger, key)[..|OfKey(init, key)|] == OfKey(init, key);
      } else {
        assert OfKey(ledger, key) == OfKey(init, key);
      }
    }
  }

  lemma RecordedNoRefund(ledger: seq<Entry>, who: string, cost: Amount, timestamp: int, key: string)
    requires NoRefunds(ledger, key) && (cost.Finite? ==> cost.value >= 0.0)
    ensures NoRefunds(Recorded(ledger, who, cost, timestamp), key)
  {
  }

  lemma RecordedElsewhere(ledger: seq<Entry>, who: string, cost: Amount, timestamp: int, key: string)
    requires NoRefunds(ledger, key) && who != key
    ensures NoRefunds(Recorded(ledger, who, cost, timestamp), key)
  {
  }

  lemma {:induction false} WindowWithinSince(ledger: seq<Entry>, key: string, start: int, end: int)
    requires NoRefunds(ledger, key)
    ensures 0.0 <= WindowSpend(ledger, key, start, end) <= SpendSince(ledger, key, start)
  {
    if ledger != [] {
      WindowWithinSince(ledger[..|ledger| - 1], key, start, end);
    }
  }

  // Without refunds, an earlier start never sees less.
  lemma {:induction false} SpendIsMonotone(ledger: seq<Entry>, key: string, early: int, late: int)
    requires NoRefunds(ledger, key) && early <= late
    ensures SpendSince(ledger, key, late) <= SpendSince(ledger, key, early)
  {
    if ledger != [] {
      SpendIsMonotone(ledger[..|ledger| - 1], key, early, late);
    }
  }

  // A day's spend is never more than that of its week or of its month.
  lemma DayWithinWeekAndMonth(ledger: seq<Entry>, key: string, now: int, period: Period)
    requires NoRefunds(ledger, key)
    ensures SpendSince(ledger, key, PeriodStart(Daily, now)) <= SpendSince(ledger, key, PeriodStart(period, now))
  {
    DayStartsLast(period, now);
    SpendIsMonotone(ledger, key, PeriodStart(period, now), PeriodStart(Daily, now));
  }

  lemma {:induction false} SpendGrows(ledger: seq<Entry>, more: seq<Entry>, key: string, since: int)
    requires NoRefunds(more, key)
    ensures SpendSince(ledger, key, since) <= SpendSince(ledger + more, key, since)
  {
    if more == [] {
      assert ledger + more == ledger;
    } else {
      var init := more[..|more| - 1];
      assert (ledger + more)[..|ledger + more| - 1] == ledger + init;
      SpendGrows(ledger, init, key, since);
    }
  }

  // ---- The verdict ------------------------------------------------------------

  // The ledger and the budget rows. A read that fails is named by the caller.
  class Database {
    var ledger: seq<Entry>
    var budgets: map<string, BudgetRow>

    constructor ()
      ensures ledger == [] && budgets == map[]
    {
      ledger, budgets := [], map[];
    }

    // A cost that is not finite is booked as zero, a negative one as it is.
    method RecordCost(key: string, cost: Amount, timestamp: int)
      modifies this`ledger
      ensures ledger == Recorded(old(ledger), key, cost, timestamp)
    {
      var booked := if cost.Finite? then cost.value else 0.0;
      ledger := ledger + [Entry(key, booked, timestamp)];
    }

    method MarkWarningEmitted(key: string, now: int, start: int)
      modifies this`budgets
      ensures budgets.Keys == old(budgets.Keys)
      ensures forall k :: k in budgets && k != key ==> budgets[k] == old(budgets[k])
      ensures key in budgets ==>
        budgets[key] == old(budgets)[key].(warningEmittedAt := Some(now), warningPeriodStart := Some(start))
    {
      if key in budgets {
        budgets := budgets[key := budgets[key].(warningEmittedAt := Some(now), warningPeriodStart := Some(start))];
      }
    }
  }

  datatype Outage = Outage(row: bool, sums: set<Period>)

  function Rank(period: Period): int {
    match period case Daily => 0 case Weekly => 1 case Monthly => 2
  }

  function Spent(ledger: seq<Entry>, key: string, now: int): Period -> real {
    period => SpendSince(ledger, key, PeriodStart(period, now))
  }

  // The caps and the warning fraction of a row.
  datatype Caps = Caps(limits: Period -> real, fraction: real)

  function CapsOf(row: BudgetRow): Caps {
    Caps(period => LimitFor(row, period), WarningFraction(row))
  }

  predicate Unread(caps: Caps, out: Outage, period: Period) {
    caps.limits(period) > 0.0 && period in out.sums
  }

  predicate Over(caps: Caps, spent: Period -> real, period: Period) {
    0.0 < caps.limits(period) <= spent(period)
  }

  // A fraction of a limit.
  function Share(limit: real, fraction: real): real {
    limit * fraction
  }

  predicate Near(caps: Caps, spent: Period -> real, period: Period) {
    && 0.0 < caps.limits(period)
    && Share(caps.limits(period), caps.fraction) <= spent(period) < caps.limits(period)
  }

  // Neither a cap reached nor a sum unread before this period.
  ghost predicate Reached(caps: Caps, spent: Period -> real, out: Outage, period: Period) {
    forall q :: Rank(q) < Rank(period) ==> !Over(caps, spent, q) && !Unread(caps, out, q)
  }

  // What the verdict says: the first cap reached decides, then the first one near; a
  // failed sum serves the request unbudgeted unless a cap before it was reached.
  ghost predicate Judged(caps: Caps, spent: Period -> real, out: Outage, v: Verdict) {
    match v
    case Blocked(p, s, l) =>
      Over(caps, spent, p) && !Unread(caps, out, p) && Reached(caps, spent, out, p)
      && s == spent(p) && l == caps.limits(p)
    case Warn(p, s, l) =>
      && Near(caps, spent, p) && s == spent(p) && l == caps.limits(p)
      && (forall q :: !Over(caps, spent, q) && !Unread(caps, out, q))
      && (forall q :: Rank(q) < Rank(p) ==> !Near(caps, spent, q))
    case Allow =>
      || (exists p :: Unread(caps, out, p) && Reached(caps, spent, out, p))
      || (forall q :: !Over(caps, spent, q) && !Unread(caps, out, q) && !Near(caps, spent, q))
  }

  // What is spent in a period without a cap need not be known.
  lemma UncappedSumsDoNotCount(caps: Caps, spent: Period -> real, out: Outage, v: Verdict)
    ensures Judged(caps, spent, out, v)
       <==> Judged(caps, spent, Outage(out.row, set p | p in out.sums && caps.limits(p) > 0.0), v)
  {
    var capped := Outage(out.row, set p | p in out.sums && caps.limits(p) > 0.0);
    assert forall p :: Unread(caps, out, p) <==> Unread(caps, capped, p);
    assert forall p :: Reached(caps, spent, out, p) <==> Reached(caps, spent, capped, p);
  }

  // There is only one such verdict.
  lemma JudgedOnce(caps: Caps, spent: Period -> real, out: Outage, v: Verdict, w: Verdict)
    requires Judged(caps, spent, out, v) && Judged(caps, spent, out, w)
    ensures v == w
  {
  }

  // Blocked exactly when a readable database shows a cap reached.
  predicate Exhausted(caps: Caps, spent: Period -> real) {
    Over(caps, spent, Daily) || Over(caps, spent, Weekly) || Over(caps, spent, Monthly)
  }

  // Caps are checked daily, weekly, monthly.
  method Judge(caps: Caps, spent: Period -> real, out: Outage) returns (v: Verdict)
    ensures Judged(caps, spent, out, v)
  {
    var periods := [Daily, Weekly, Monthly];
    var warning: Option<Verdict> := None;
    for i := 0 to |periods|
      invariant forall q :: Rank(q) < i ==> !Over(caps, spent, q) && !Unread(caps, out, q)
      invariant warning.None? ==> forall q :: Rank(q) < i ==> !Near(caps, spent, q)
      invariant warning.Some? ==>
        var w := warning.value;
        && w.Warn? && Rank(w.period) < i && Near(caps, spent, w.period)
        && w.spent == spent(w.period) && w.limit == caps.limits(w.period)
        && forall q :: Rank(q) < Rank(w.period) ==> !Near(caps, spent, q)
    {
      var period := periods[i];
      assert Rank(period) == i && forall q :: Rank(q) == i ==> q == period;
      var limit := caps.limits(period);
      if limit <= 0.0 {
        continue;
      }
      if period in out.sums {
        assert Unread(caps, out, period) && Reached(caps, spent, out, period);
        return Allow;
      }
      var total := spent(period);
      if total >= limit {
        return Blocked(period, total, limit);
      }
      if total >= limit * caps.fraction && warning.None? {
        warning := Some(Warn(period, total, limit));
      }
    }
    assert forall q :: Rank(q) < 3;
    return warning.UnwrapOr(Allow);
  }

  method Evaluate(db: Database, out: Outage, key: string, now: int) returns (v: Verdict)
    ensures out.row || key !in db.budgets ==> v == Allow
    ensures !out.row && key in db.budgets ==> Judged(CapsOf(db.budgets[key]), Spent(db.ledger, key, now), out, v)
  {
    if out.row || key !in db.budgets {
      return Allow;
    }
    v := Judge(CapsOf(db.budgets[key]), Spent(db.ledger, key, now), out);
  }

  // A cap is reached and every sum up to its own could be read.
  predicate Refused(caps: Caps, spent: Period -> real, out: Outage) {
    && !Unread(caps, out, Daily)
    && (Over(caps, spent, Daily)
        || (!Unread(caps, out, Weekly)
            && (Over(caps, spent, Weekly) || (!Unread(caps, out, Monthly) && Over(caps, spent, Monthly)))))
  }

  // Which reads fail decides whether a reached cap blocks.
  lemma BlockedMeansRefused(caps: Caps, spent: Period -> real, out: Outage, v: Verdict)
    requires Judged(caps, spent, out, v)
    ensures v.Blocked? <==> Refused(caps, spent, out)
  {
    assert Rank(Daily) == 0 && Rank(Weekly) == 1 && Rank(Monthly) == 2;
  }

  // With every sum readable, a key is blocked exactly when it is over one of its caps.
  lemma BlockedMeansExhausted(caps: Caps, spent: Period -> real, v: Verdict)
    requires Judged(caps, spent, Outage(false, {}), v)
    ensures v.Blocked? <==> Exhausted(caps, spent)
  {
    BlockedMeansRefused(caps, spent, Outage(false, {}), v);
  }

  function Configured(row: BudgetRow): Period -> Amount {
    (period: Period) => match period case Daily => row.daily case Weekly => row.weekly case Monthly => row.monthly
  }

  lemma SameSums(caps: Caps, a: Period -> real, b: Period -> real, out: Outage, v: Verdict)
    requires Judged(caps, a, out, v) && forall p :: a(p) == b(p)
    ensures Judged(caps, b, out, v)
  {
    assert forall p :: Over(caps, a, p) <==> Over(caps, b, p);
    assert forall p :: Near(caps, a, p) <==> Near(caps, b, p);
  }

  // What other keys spend never changes a key's verdict.
  lemma VerdictIsTheKeysOwn(caps: Caps, a: seq<Entry>, b: seq<Entry>, key: string, now: int, out: Outage, v: Verdict,
                            w: Verdict)
    requires OfKey(a, key) == OfKey(b, key)
    requires Judged(caps, Spent(a, key, now), out, v) && Judged(caps, Spent(b, key, now), out, w)
    ensures v == w
  {
    forall p ensures Spent(a, key, now)(p) == Spent(b, key, now)(p) {
      OthersCostNothing(a, key, PeriodStart(p, now));
      OthersCostNothing(b, key, PeriodStart(p, now));
    }
    SameSums(caps, Spent(a, key, now), Spent(b, key, now), out, v);
    JudgedOnce(caps, Spent(b, key, now), out, v, w);
  }

  // A threshold the row may use as it stands, or the one that stands in for none.
  predicate Usable(threshold: Amount, f: real) {
    if threshold.Finite? then threshold.value == f && MinPositive() <= f <= 1.0 else f == 0.8
  }

  // The spend is at least the share `f` of the limit.
  predicate AtShare(limit: Amount, spent: real, f: real) {
    limit.Finite? && limit.value > 0.0 && spent >= limit.value * f
  }

  // With every sum readable, a key is blocked exactly when the row's limit of some period
  // is reached.
  lemma RefusedAtTheLimit(row: BudgetRow, spent: Period -> real, v: Verdict)
    requires Judged(CapsOf(row), spent, Outage(false, {}), v)
    ensures v.Blocked? <==> exists p :: AtShare(Configured(row)(p), spent(p), 1.0)
  {
    var caps := CapsOf(row);
    BlockedMeansExhausted(caps, spent, v);
    forall p ensures AtShare(Configured(row)(p), spent(p), 1.0) <==> Over(caps, spent, p) {
      assert caps.limits(p) == NormalizeLimit(Configured(row)(p));
    }
    assert Over(caps, spent, Daily) ==> AtShare(Configured(row)(Daily), spent(Daily), 1.0);
    assert Over(caps, spent, Weekly) ==> AtShare(Configured(row)(Weekly), spent(Weekly), 1.0);
    assert Over(caps, spent, Monthly) ==> AtShare(Configured(row)(Monthly), spent(Monthly), 1.0);
  }

  lemma UsableIsUsed(row: BudgetRow, f: real)
    requires Usable(row.threshold, f)
    ensures CapsOf(row).fraction == f
  {
  }

  // The row's limit has been reached to that share if the period is over its cap or near.
  lemma ShareReached(row: BudgetRow, spent: Period -> real, p: Period, f: real)
    requires CapsOf(row).fraction == f <= 1.0
    ensures AtShare(Configured(row)(p), spent(p), f)
       <==> Over(CapsOf(row), spent, p) || Near(CapsOf(row), spent, p)
  {
    ShareOf(CapsOf(row), CapsOf(row).limits(p), spent, p, f, Configured(row)(p));
  }

  lemma ShareOf(caps: Caps, limit: real, spent: Period -> real, p: Period, f: real, configured: Amount)
    requires limit == caps.limits(p) == NormalizeLimit(configured) && f == caps.fraction <= 1.0
    ensures AtShare(configured, spent(p), f) <==> Over(caps, spent, p) || Near(caps, spent, p)
  {
    if limit > 0.0 {
      AtMostWhole(limit, f);
    }
  }

  lemma AtMostWhole(limit: real, f: real)
    requires limit > 0.0 && f <= 1.0
    ensures Share(limit, f) <= limit
  {
  }

  lemma AllowedIsQuiet(caps: Caps, spent: Period -> real)
    requires Judged(caps, spent, Outage(false, {}), Allow)
    ensures forall p :: !Over(caps, spent, p) && !Near(caps, spent, p)
  {
  }

  // With every sum readable, a warning's spend has reached the row's own threshold, and
  // with an Allow no period's has.
  lemma WarnsAtTheThreshold(row: BudgetRow, spent: Period -> real, v: Verdict, f: real)
    requires Judged(CapsOf(row), spent, Outage(false, {}), v) && Usable(row.threshold, f)
    ensures v.Warn? ==> AtShare(Configured(row)(v.period), v.spent, f)
    ensures v.Allow? ==> forall p :: !AtShare(Configured(row)(p), spent(p), f)
  {
    UsableIsUsed(row, f);
    if v.Warn? {
      ShareReached(row, spent, v.period, f);
    }
    if v.Allow? {
      AllowedIsQuiet(CapsOf(row), spent);
      forall p ensures !AtShare(Configured(row)(p), spent(p), f) {
        ShareReached(row, spent, p, f);
      }
    }
  }

  // A refusal names a cap that is configured for its own period and is reached; a row
  // without a usable limit never refuses or warns.
  lemma VerdictNamesAConfiguredCap(row: BudgetRow, spent: Period -> real, out: Outage, v: Verdict)
    requires Judged(CapsOf(row), spent, out, v)
    ensures v.Blocked? ==>
      Configured(row)(v.period) == Finite(v.limit) && v.limit > 0.0 && v.spent == spent(v.period) >= v.limit
    ensures v.Warn? ==>
      Configured(row)(v.period) == Finite(v.limit) && v.limit > 0.0 && v.spent == spent(v.period) < v.limit
    ensures (forall p :: Configured(row)(p).Finite? ==> Configured(row)(p).value <= 0.0) ==> v == Allow
  {
    var caps := CapsOf(row);
    if v.Blocked? {
      assert Over(caps, spent, v.period);
    } else if v.Warn? {
      assert Near(caps, spent, v.period);
    }
    if !v.Allow? {
      assert Configured(row)(v.period).Finite?;
    }
  }

  // A key that is over a cap stays over it for the rest of that window, whatever else
  // is booked, as long as nothing is refunded.
  lemma ExhaustedUntilWindowEnds(caps: Caps, ledger: seq<Entry>, more: seq<Entry>, key: string,
                                 period: Period, now: int, later: int)
    requires NoRefunds(more, key) && Over(caps, Spent(ledger, key, now), period)
    requires PeriodStart(period, now) <= later < PeriodStart(period, now) + WindowDays(period, now) * DAY
    ensures Over(caps, Spent(ledger + more, key, later), period)
  {
    WindowIsExact(period, now, later, PeriodStart(period, now),
                  PeriodStart(period, now) + WindowDays(period, now) * DAY);
    SpendGrows(ledger, more, key, PeriodStart(period, now));
  }
}
