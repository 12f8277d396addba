// Check first, book when the answer is served: how far concurrent requests can carry a
// key past a cap. Every interleaving of arrivals and answers is a run.
module BudgetOvershoot {
  import opened Wrappers
  import opened Periods
  import opened BudgetLedger
  import RateLimiter

  // A request that was let through, with the clock it read on arrival.
  datatype Ticket = Ticket(key: string, now: int)

  datatype Gateway = Gateway(ledger: seq<Entry>, inFlight: seq<Ticket>)

  // An arrival meets whatever reads fail at that moment; an answer carries a cost only
  // if it succeeded and was priced.
  datatype Event =
    | Arrive(key: string, now: int, out: Outage)
    | Answer(index: nat, cost: Option<Amount>)

  // The budgets stay as they are during a run. What cannot be read is not enforced.
  predicate Admitted(budgets: map<string, BudgetRow>, ledger: seq<Entry>, key: string, now: int, out: Outage) {
    !out.row && key in budgets ==> !Refused(CapsOf(budgets[key]), Spent(ledger, key, now), out)
  }

  // Who is let in, given the ledger and what can be read.
  type Rule = (seq<Entry>, string, int, Outage) -> bool

  function RuleOf(budgets: map<string, BudgetRow>): Rule {
    (ledger, key, now, out) => Admitted(budgets, ledger, key, now, out)
  }

  function Without(tickets: seq<Ticket>, i: nat): seq<Ticket>
    requires i < |tickets|
  {
    tickets[..i] + tickets[i + 1..]
  }

  function Step(rule: Rule, g: Gateway, e: Event): Gateway {
    match e
    case Arrive(key, now, out) =>
      if rule(g.ledger, key, now, out) then g.(inFlight := g.inFlight + [Ticket(key, now)]) else g
    case Answer(i, cost) =>
      if i >= |g.inFlight| then g
      else
        var t := g.inFlight[i];
        Gateway(if cost.Some? then Recorded(g.ledger, t.key, cost.value, t.now) else g.ledger,
                Without(g.inFlight, i))
  }

  function Run(rule: Rule, g: Gateway, events: seq<Event>): Gateway
    decreases |events|
  {
    if events == [] then g
    else Step(rule, Run(rule, g, events[..|events| - 1]), events[|events| - 1])
  }

  datatype Decision = Limited(retryAfter: int) | OverBudget(verdict: Verdict) | Served(verdict: Verdict)

  // The rate limit comes first and spends its slot even if the budget then refuses.
  // Behind it the budget's decision is the admission rule of the runs.
  method Enforce(db: Database, limiter: RateLimiter.Limiter, limits: string -> Option<nat>, out: Outage, key: string,
                 now: int) returns (decision: Decision)
    modifies limiter
    ensures var (retry, windows) :=
              RateLimiter.Respond(true, limits, old(limiter.windows), RateLimiter.Request(key, now));
            && limiter.windows == windows
            && (decision.Limited? <==> retry.Some?) && (decision.Limited? ==> retry == Some(decision.retryAfter))
    ensures !decision.Limited? ==> (decision.Served? <==> Admitted(db.budgets, db.ledger, key, now, out))
    ensures decision.OverBudget? <==> !decision.Limited? && decision.verdict.Blocked?
    ensures !decision.Limited? && (out.row || key !in db.budgets) ==> decision == Served(Allow)
    ensures !decision.Limited? && !out.row && key in db.budgets && out.sums == {} ==>
              (decision.OverBudget? <==>
                 exists p ::
                   AtShare(Configured(db.budgets[key])(p), SpendSince(db.ledger, key, PeriodStart(p, now)), 1.0))
  {
    var retry := limiter.RetryAfter(limits, key, now);
    var verdict := Evaluate(db, out, key, now);
    if !out.row && key in db.budgets {
      BlockedMeansRefused(CapsOf(db.budgets[key]), Spent(db.ledger, key, now), out, verdict);
      if out.sums == {} {
        RefusedAtTheLimit(db.budgets[key], Spent(db.ledger, key, now), verdict);
        assert forall p :: Spent(db.ledger, key, now)(p) == SpendSince(db.ledger, key, PeriodStart(p, now));
      }
    }
    if retry.Some? {
      return Limited(retry.value);
    }
    return if verdict.Blocked? then OverBudget(verdict) else Served(verdict);
  }

  // A key's requests in flight that arrived inside a window.
  function Pending(tickets: seq<Ticket>, key: string, start: int, end: int): nat {
    if tickets == [] then 0
    else
      Pending(tickets[..|tickets| - 1], key, start, end)
      + if tickets[|tickets| - 1].key == key && start <= tickets[|tickets| - 1].now < end then 1 else 0
  }

  function InFlight(tickets: seq<Ticket>, key: string): nat {
    if tickets == [] then 0
    else InFlight(tickets[..|tickets| - 1], key) + if tickets[|tickets| - 1].key == key then 1 else 0
  }

  lemma {:induction false} PendingInFlight(tickets: seq<Ticket>, key: string, start: int, end: int)
    ensures Pending(tickets, key, start, end) <= InFlight(tickets, key)
  {
    if tickets != [] {
      PendingInFlight(tickets[..|tickets| - 1], key, start, end);
    }
  }

  lemma {:induction false} PendingWithout(tickets: seq<Ticket>, i: nat, key: string, start: int, end: int)
    requires i < |tickets|
    ensures Pending(tickets, key, start, end)
      == Pending(Without(tickets, i), key, start, end)
         + if tickets[i].key == key && start <= tickets[i].now < end then 1 else 0
    decreases |tickets|
  {
    var last := |tickets| - 1;
    if i == last {
      assert Without(tickets, i) == tickets[..last];
    } else {
      PendingWithout(tickets[..last], i, key, start, end);
      assert Without(tickets, i)[..last - 1] == Without(tickets[..last], i);
    }
  }

  // The cost of `n` requests at the most a request can cost.
  function Reserve(most: real, n: nat): (r: real)
    ensures most >= 0.0 ==> r >= 0.0
  {
    if n == 0 then 0.0 else Reserve(most, n - 1) + most
  }

  lemma {:induction false} ReserveIsMonotone(most: real, a: nat, b: nat)
    requires most >= 0.0 && a <= b
    ensures Reserve(most, a) <= Reserve(most, b)
  {
    if a < b {
      ReserveIsMonotone(most, a, b - 1);
    }
  }

  lemma {:induction false} ReserveIsProduct(most: real, n: nat)
    ensures Reserve(most, n) == most * (n as real)
  {
    if n > 0 {
      ReserveIsProduct(most, n - 1);
      assert n as real == (n - 1) as real + 1.0;
    }
  }

  // An answer to the key costs at most `most`.
  predicate CostsWithin(g: Gateway, e: Event, key: string, most: real) {
    e.Answer? && e.index < |g.inFlight| && g.inFlight[e.index].key == key && e.cost.Some? && e.cost.value.Finite? ==>
      0.0 <= e.cost.value.value <= most
  }

  // The booked part and the part still to come stay below the cap plus one cost for
  // each of `n` requests.
  ghost predicate Bounded(g: Gateway, key: string, start: int, end: int, cap: real, most: real, n: nat) {
    && NoRefunds(g.ledger, key)
    && WindowSpend(g.ledger, key, start, end) + Reserve(most, Pending(g.inFlight, key, start, end))
       < cap + Reserve(most, n)
  }

  lemma ArriveKeepsBound(g: Gateway, t: Ticket, key: string, start: int, end: int, cap: real, most: real, k: nat,
                         n: nat)
    requires Bounded(g, key, start, end, cap, most, n) && most >= 0.0 && k <= n
    requires t.key == key && start <= t.now < end ==> SpendSince(g.ledger, key, start) < cap
    requires InFlight(g.inFlight + [t], key) <= k
    ensures Bounded(g.(inFlight := g.inFlight + [t]), key, start, end, cap, most, n)
  {
    var after := g.inFlight + [t];
    PendingGrows(g.inFlight, t, key, start, end);
    if t.key == key && start <= t.now < end {
      WindowWithinSince(g.ledger, key, start, end);
      PendingInFlight(after, key, start, end);
      ReserveIsMonotone(most, Pending(after, key, start, end), n);
    }
  }

  lemma PendingGrows(tickets: seq<Ticket>, t: Ticket, key: string, start: int, end: int)
    ensures Pending(tickets + [t], key, start, end)
         == Pending(tickets, key, start, end) + if t.key == key && start <= t.now < end then 1 else 0
  {
    assert (tickets + [t])[..|tickets|] == tickets;
  }

  lemma UncheckedKeepsBound(g: Gateway, t: Ticket, key: string, start: int, end: int, cap: real, most: real, n: nat)
    requires Bounded(g, key, start, end, cap, most, n) && most >= 0.0
    ensures Bounded(g.(inFlight := g.inFlight + [t]), key, start, end, cap, most,
                    n + if t.key == key && start <= t.now < end then 1 else 0)
  {
    var before := Pending(g.inFlight, key, start, end);
    PendingGrows(g.inFlight, t, key, start, end);
    if t.key == key && start <= t.now < end {
      ReserveLess(most, before + 1, before);
      ReserveLess(most, n + 1, n);
    }
  }

  lemma AnswerKeepsBound(g: Gateway, i: nat, cost: Option<Amount>, key: string, start: int, end: int,
                         cap: real, most: real, n: nat, next: Gateway)
    requires Bounded(g, key, start, end, cap, most, n) && most >= 0.0
    requires i < |g.inFlight| && CostsWithin(g, Answer(i, cost), key, most)
    requires next.inFlight == Without(g.inFlight, i)
    requires var t := g.inFlight[i];
             next.ledger == if cost.Some? then Recorded(g.ledger, t.key, cost.value, t.now) else g.ledger
    ensures Bounded(next, key, start, end, cap, most, n)
  {
    var t := g.inFlight[i];
    PendingWithout(g.inFlight, i, key, start, end);
    ReserveLess(most, Pending(g.inFlight, key, start, end), Pending(next.inFlight, key, start, end));
    if cost.Some? {
      RecordedSpend(g.ledger, t.key, cost.value, t.now, key, start, end);
      if t.key == key {
        RecordedNoRefund(g.ledger, t.key, cost.value, t.now, key);
      } else {
        RecordedElsewhere(g.ledger, t.key, cost.value, t.now, key);
      }
    }
  }

  lemma ReserveLess(most: real, before: nat, after: nat)
    requires most >= 0.0 && (before == after || before == after + 1)
    ensures Reserve(most, before) == Reserve(most, after) + if before == after then 0.0 else most
  {
  }

  // Whoever the rule lets in inside the window, with every read at hand, has spent less
  // than the cap in it.
  ghost predicate Caps(rule: Rule, key: string, start: int, end: int, cap: real) {
    forall ledger, now, out :: rule(ledger, key, now, out) && Readable(out) && start <= now < end ==>
      SpendSince(ledger, key, start) < cap
  }

  // A cap and its window.
  ghost predicate CapOf(budgets: map<string, BudgetRow>, key: string, period: Period, cap: real) {
    key in budgets && LimitFor(budgets[key], period) == cap && cap > 0.0
  }

  // Every read the verdict needs succeeds.
  predicate Readable(out: Outage) {
    !out.row && out.sums == {}
  }

  lemma AdmittedBelowCap(budgets: map<string, BudgetRow>, ledger: seq<Entry>, key: string, now: int, out: Outage,
                         period: Period, cap: real)
    requires CapOf(budgets, key, period, cap) && Admitted(budgets, ledger, key, now, out) && Readable(out)
    ensures SpendSince(ledger, key, PeriodStart(period, now)) < cap
  {
    assert !Over(CapsOf(budgets[key]), Spent(ledger, key, now), period);
  }

  // The key's arrivals in the window that met a failing read.
  predicate IsUnchecked(e: Event, key: string, start: int, end: int) {
    e.Arrive? && e.key == key && start <= e.now < end && !Readable(e.out)
  }

  function Unchecked(events: seq<Event>, key: string, start: int, end: int): nat {
    if events == [] then 0
    else
      Unchecked(events[..|events| - 1], key, start, end)
      + if IsUnchecked(events[|events| - 1], key, start, end) then 1 else 0
  }

  lemma MoreRoom(g: Gateway, key: string, start: int, end: int, cap: real, most: real, n: nat, m: nat)
    requires Bounded(g, key, start, end, cap, most, n) && most >= 0.0 && n <= m
    ensures Bounded(g, key, start, end, cap, most, m)
  {
    ReserveIsMonotone(most, n, m);
  }

  lemma RuleCaps(budgets: map<string, BudgetRow>, key: string, period: Period, at: int, start: int, end: int, cap: real)
    requires start == PeriodStart(period, at) && end == start + WindowDays(period, at) * DAY
    requires CapOf(budgets, key, period, cap)
    ensures Caps(RuleOf(budgets), key, start, end, cap)
  {
    forall ledger, now, out | RuleOf(budgets)(ledger, key, now, out) && Readable(out) && start <= now < end
      ensures SpendSince(ledger, key, start) < cap
    {
      AdmittedBelowCap(budgets, ledger, key, now, out, period, cap);
      WindowIsExact(period, at, now, start, end);
    }
  }

  lemma ArrivalKeepsBound(rule: Rule, g: Gateway, t: Ticket, out: Outage, next: Gateway, key: string, start: int,
                          end: int, cap: real, most: real, k: nat, n: nat, m: nat)
    requires Caps(rule, key, start, end, cap) && most >= 0.0
    requires Bounded(g, key, start, end, cap, most, n) && k <= n
    requires next == Step(rule, g, Arrive(t.key, t.now, out)) && InFlight(next.inFlight, key) <= k
    requires m == n + if IsUnchecked(Arrive(t.key, t.now, out), key, start, end) then 1 else 0
    ensures Bounded(next, key, start, end, cap, most, m)
  {
    if !rule(g.ledger, t.key, t.now, out) {
      MoreRoom(g, key, start, end, cap, most, n, m);
    } else if m > n {
      UncheckedKeepsBound(g, t, key, start, end, cap, most, n);
    } else {
      ArriveKeepsBound(g, t, key, start, end, cap, most, k, n);
    }
  }

  // One event, from `g` to `next`, and the room `m` it leaves.
  lemma StepKeepsBound(rule: Rule, g: Gateway, e: Event, next: Gateway, key: string, start: int, end: int, cap: real,
                       most: real, k: nat, n: nat, m: nat)
    requires Caps(rule, key, start, end, cap) && most >= 0.0 && CostsWithin(g, e, key, most)
    requires Bounded(g, key, start, end, cap, most, n) && k <= n
    requires next == Step(rule, g, e) && InFlight(next.inFlight, key) <= k
    requires m == n + if IsUnchecked(e, key, start, end) then 1 else 0
    ensures Bounded(next, key, start, end, cap, most, m)
  {
    match e
    case Arrive(who, now, out) =>
      ArrivalKeepsBound(rule, g, Ticket(who, now), out, next, key, start, end, cap, most, k, n, m);
    case Answer(i, cost) =>
      if i < |g.inFlight| {
        AnswerKeepsBound(g, i, cost, key, start, end, cap, most, n, next);
      }
  }

  // At any moment of the run at most `k` of the key's requests are in flight, and none
  // of its answers costs more than `most`.
  ghost predicate Throttled(rule: Rule, g: Gateway, events: seq<Event>, key: string, most: real, k: nat)
    decreases |events|
  {
    && InFlight(Run(rule, g, events).inFlight, key) <= k
    && (events != [] ==>
          var init := events[..|events| - 1];
          CostsWithin(Run(rule, g, init), events[|events| - 1], key, most) && Throttled(rule, g, init, key, most, k))
  }

  lemma {:induction false} RunKeepsBound(rule: Rule, g: Gateway, events: seq<Event>, key: string, start: int, end: int,
                                         cap: real, most: real, k: nat, after: Gateway, m: nat)
    requires Caps(rule, key, start, end, cap) && most >= 0.0
    requires Bounded(g, key, start, end, cap, most, k) && Throttled(rule, g, events, key, most, k)
    requires after == Run(rule, g, events) && m == k + Unchecked(events, key, start, end)
    ensures Bounded(after, key, start, end, cap, most, m)
    decreases |events|
  {
    if events != [] {
      var init, e := events[..|events| - 1], events[|events| - 1];
      var before, n := Run(rule, g, init), k + Unchecked(init, key, start, end);
      RunKeepsBound(rule, g, init, key, start, end, cap, most, k, before, n);
      StepKeepsBound(rule, before, e, after, key, start, end, cap, most, k, n, m);
    }
  }

  lemma StartsBounded(g: Gateway, key: string, start: int, end: int, cap: real, most: real, k: nat)
    requires g.inFlight == [] && most >= 0.0
    requires NoRefunds(g.ledger, key) && WindowSpend(g.ledger, key, start, end) < cap
    ensures Bounded(g, key, start, end, cap, most, k)
  {
  }

  // Whatever the interleaving and whichever reads fail, a window's spend stays below the
  // cap plus the cost of the requests that may be in flight together and of those that
  // went unchecked.
  lemma OvershootIsBounded(budgets: map<string, BudgetRow>, ledger: seq<Entry>, events: seq<Event>, key: string,
                           period: Period, at: int, start: int, end: int, cap: real, most: real, k: nat,
                           n: nat)
    requires start == PeriodStart(period, at) && end == start + WindowDays(period, at) * DAY
    requires CapOf(budgets, key, period, cap) && most >= 0.0
    requires NoRefunds(ledger, key) && WindowSpend(ledger, key, start, end) < cap
    requires Throttled(RuleOf(budgets), Gateway(ledger, []), events, key, most, k)
    requires n == k + Unchecked(events, key, start, end)
    ensures WindowSpend(Run(RuleOf(budgets), Gateway(ledger, []), events).ledger, key, start, end)
      < cap + most * (n as real)
  {
    RuleCaps(budgets, key, period, at, start, end, cap);
    var g := Gateway(ledger, []);
    var after := Run(RuleOf(budgets), g, events);
    StartsBounded(g, key, start, end, cap, most, k);
    RunKeepsBound(RuleOf(budgets), g, events, key, start, end, cap, most, k, after, n);
    BoundedSpend(after, key, start, end, cap, most, n);
  }

  lemma BoundedSpend(g: Gateway, key: string, start: int, end: int, cap: real, most: real, k: nat)
    requires Bounded(g, key, start, end, cap, most, k) && most >= 0.0
    ensures WindowSpend(g.ledger, key, start, end) < cap + most * (k as real)
  {
    ReserveIsProduct(most, k);
  }

  // ---- The bound is reached ---------------------------------------------------

  // The same event over and over.
  function Times(e: Event, n: nat): seq<Event> {
    seq(n, _ => e)
  }

  function Tickets(t: Ticket, n: nat): seq<Ticket> {
    seq(n, _ => t)
  }

  lemma {:induction false} Crowd(rule: Rule, ledger: seq<Entry>, key: string, now: int,
                                 out: Outage, n: nat)
    requires rule(ledger, key, now, out)
    ensures Run(rule, Gateway(ledger, []), Times(Arrive(key, now, out), n))
      == Gateway(ledger, Tickets(Ticket(key, now), n))
  {
    if n == 0 {
      assert Tickets(Ticket(key, now), 0) == [];
    } else {
      Crowd(rule, ledger, key, now, out, n - 1);
      assert Times(Arrive(key, now, out), n)[..n - 1] == Times(Arrive(key, now, out), n - 1);
      assert Tickets(Ticket(key, now), n - 1) + [Ticket(key, now)] == Tickets(Ticket(key, now), n);
    }
  }

  lemma {:induction false} RunAppends(rule: Rule, g: Gateway, a: seq<Event>, b: seq<Event>)
    ensures Run(rule, g, a + b) == Run(rule, Run(rule, g, a), b)
    decreases |b|
  {
    if b == [] {
      assert a + b == a;
    } else {
      assert (a + b)[..|a + b| - 1] == a + b[..|b| - 1];
      RunAppends(rule, g, a, b[..|b| - 1]);
    }
  }

  lemma {:induction false} ServedAll(rule: Rule, ledger: seq<Entry>, t: Ticket, most: real,
                                  k: nat, n: nat, start: int, end: int)
    requires n <= k && start <= t.now < end
    ensures var g := Run(rule, Gateway(ledger, Tickets(t, k)), Times(Answer(0, Some(Finite(most))), n));
            && g.inFlight == Tickets(t, k - n)
            && WindowSpend(g.ledger, t.key, start, end) == WindowSpend(ledger, t.key, start, end) + Reserve(most, n)
  {
    var e := Answer(0, Some(Finite(most)));
    if n > 0 {
      ServedAll(rule, ledger, t, most, k, n - 1, start, end);
      assert Times(e, n)[..n - 1] == Times(e, n - 1);
      var before := Run(rule, Gateway(ledger, Tickets(t, k)), Times(e, n - 1));
      ServedOne(rule, before, t, most, k - n, start, end);
      assert Run(rule, Gateway(ledger, Tickets(t, k)), Times(e, n)) == Step(rule, before, e);
    }
  }

  lemma ServedOne(rule: Rule, g: Gateway, t: Ticket, most: real, left: nat, start: int, end: int)
    requires g.inFlight == Tickets(t, left + 1) && start <= t.now < end
    ensures var next := Step(rule, g, Answer(0, Some(Finite(most))));
            && next.inFlight == Tickets(t, left)
            && WindowSpend(next.ledger, t.key, start, end) == WindowSpend(g.ledger, t.key, start, end) + most
  {
    var next := Recorded(g.ledger, t.key, Finite(most), t.now);
    assert next[..|next| - 1] == g.ledger;
    assert Without(g.inFlight, 0) == Tickets(t, left);
  }

  // Any spend under the cap and `k` concurrent requests do take the window that far.
  lemma OvershootIsReached(rule: Rule, ledger: seq<Entry>, t: Ticket, out: Outage, most: real,
                           k: nat, start: int, end: int)
    requires rule(ledger, t.key, t.now, out) && start <= t.now < end
    ensures var events := Times(Arrive(t.key, t.now, out), k) + Times(Answer(0, Some(Finite(most))), k);
            WindowSpend(Run(rule, Gateway(ledger, []), events).ledger, t.key, start, end)
            == WindowSpend(ledger, t.key, start, end) + most * (k as real)
  {
    Crowd(rule, ledger, t.key, t.now, out, k);
    RunAppends(rule, Gateway(ledger, []), Times(Arrive(t.key, t.now, out), k),
               Times(Answer(0, Some(Finite(most))), k));
    ServedAll(rule, ledger, t, most, k, k, start, end);
    ReserveIsProduct(most, k);
  }
}
