// The rotation pool: round-robin selection over mutable slots, and the attempt loop.
module CredentialPool {
  import opened Wrappers
  import opened CredentialRefresh

  // The cursor is a machine word and wraps.
  const CURSOR_MODULUS := 0x1_0000_0000_0000_0000

  // The slot the k-th selection from cursor `next` takes.
  function SlotAt(next: nat, k: nat, size: nat): (i: nat)
    requires size > 0
    ensures i < size
  {
    ((next + k) % CURSOR_MODULUS) % size
  }

  lemma DivModUnique(x: int, m: int, q: int, r: int)
    requires 0 <= r < m && x == q * m + r
    ensures x / m == q && x % m == r
  {
    var (q', r') := (x / m, x % m);
    assert x == m * q' + r';
    var d := q - q';
    assert d * m == q * m - q' * m;
    if d != 0 {
      NonzeroMultiple(d, m);
    }
  }

  lemma NonzeroMultiple(d: int, m: int)
    requires m > 0 && d != 0
    ensures d * m >= m || d * m <= -m
  {
    if d > 0 {
      assert (d - 1) * m >= 0;
    } else {
      assert (-d - 1) * m >= 0;
    }
  }

  // Slot `i` is among the next `size` selections.
  ghost predicate Met(next: nat, size: nat, i: nat)
    requires size > 0
  {
    exists k :: 0 <= k < size && SlotAt(next, k, size) == i
  }

  // Successive residues meet every slot, unless the cursor wraps on the way.
  lemma MeetsWithoutWrap(next: nat, size: nat, i: nat)
    requires 0 < size && i < size && next < CURSOR_MODULUS && next + size <= CURSOR_MODULUS
    ensures Met(next, size, i)
  {
    var k := ResidueWindow(next, size, i);
    assert SlotAt(next, k, size) == i;
  }

  lemma ResidueWindow(next: nat, size: nat, i: nat) returns (k: nat)
    requires 0 < size && i < size
    ensures k < size && (next + k) % size == i
  {
    var (q, r) := (next / size, next % size);
    if i >= r {
      k := i - r;
      DivModUnique(next + k, size, q, i);
    } else {
      k := i + size - r;
      assert (q + 1) * size == q * size + size;
      DivModUnique(next + k, size, q + 1, i);
    }
  }

  // A wrap does not show when the pool's size divides the cursor's range.
  lemma MeetsAcrossWrap(next: nat, size: nat, i: nat)
    requires 0 < size < CURSOR_MODULUS && i < size && next < CURSOR_MODULUS && CURSOR_MODULUS % size == 0
    ensures Met(next, size, i)
  {
    var k := ResidueWindow(next, size, i);
    var q := CURSOR_MODULUS / size;
    var x := next + k;
    if x >= CURSOR_MODULUS {
      var (p, y) := (x / size, x - CURSOR_MODULUS);
      assert (p - q) * size == p * size - q * size;
      DivModUnique(y, size, p - q, i);
    }
    assert SlotAt(next, k, size) == i;
  }

  // The slot left out when the wrap falls `before` selections ahead and the range leaves
  // the remainder `r`.
  function LeftOut(size: nat, before: nat, r: nat): (i: nat)
    requires 0 < before < size && 0 < r < size
    ensures i < size
  {
    if r <= before then size - before + r - 1 else size - 1
  }

  lemma MissesResidue(q: nat, r: nat, size: nat, before: nat, k: nat)
    requires 0 < before < size && 0 < r < size && k < before <= q * size + r
    ensures (q * size + r - before + k) % size != LeftOut(size, before, r)
  {
    var d := r - before + k;
    if d >= 0 {
      DivModUnique(q * size + d, size, q, d);
    } else {
      assert (q - 1) * size == q * size - size;
      DivModUnique(q * size + d, size, q - 1, size + d);
    }
  }

  lemma MissesAcrossWrap(next: nat, size: nat, k: nat)
    requires 0 < size < CURSOR_MODULUS && next < CURSOR_MODULUS < next + size && k < size
    requires CURSOR_MODULUS % size != 0
    ensures SlotAt(next, k, size) != LeftOut(size, CURSOR_MODULUS - next, CURSOR_MODULUS % size)
  {
    var (q, r, before) := (CURSOR_MODULUS / size, CURSOR_MODULUS % size, CURSOR_MODULUS - next);
    assert CURSOR_MODULUS == q * size + r;
    if k >= before {
      assert (next + k) % CURSOR_MODULUS == k - before;
      DivModUnique(k - before, size, 0, k - before);
    } else {
      MissesResidue(q, r, size, before, k);
    }
  }

  // As many selections as there are credentials meet each of them exactly if the cursor
  // does not wrap among them or the pool's size divides the cursor's range.
  lemma EverySlotIsMet(next: nat, size: nat)
    requires 0 < size < CURSOR_MODULUS && next < CURSOR_MODULUS
    ensures (forall i :: 0 <= i < size ==> Met(next, size, i))
            <==> next + size <= CURSOR_MODULUS || CURSOR_MODULUS % size == 0
  {
    if next + size <= CURSOR_MODULUS {
      forall i | 0 <= i < size ensures Met(next, size, i) {
        MeetsWithoutWrap(next, size, i);
      }
    } else if CURSOR_MODULUS % size == 0 {
      forall i | 0 <= i < size ensures Met(next, size, i) {
        MeetsAcrossWrap(next, size, i);
      }
    } else {
      var i := LeftOut(size, CURSOR_MODULUS - next, CURSOR_MODULUS % size);
      forall k | 0 <= k < size ensures SlotAt(next, k, size) != i {
        MissesAcrossWrap(next, size, k);
      }
      assert !Met(next, size, i);
    }
  }

  // ---- Selections interleaved with other callers' ------------------------------

  // Selections made on the pool before the one of a call's k-th attempt, `others(k)` of
  // them by other callers since the attempt before.
  function Turn(others: nat -> nat, k: nat): nat {
    if k == 0 then others(0) else Turn(others, k - 1) + 1 + others(k)
  }

  // The cursor when a call's k-th attempt begins, and when it selects.
  function Cursor(next: nat, others: nat -> nat, k: nat): nat
    decreases k, 0
  {
    if k == 0 then next else (Picked(next, others, k - 1) + 1) % CURSOR_MODULUS
  }

  function Picked(next: nat, others: nat -> nat, k: nat): nat
    decreases k, 1
  {
    (Cursor(next, others, k) + others(k)) % CURSOR_MODULUS
  }

  // The slot of a call's k-th attempt.
  function Slot(next: nat, others: nat -> nat, size: nat, k: nat): (i: nat)
    requires size > 0
    ensures i < size
  {
    Picked(next, others, k) % size
  }

  lemma CursorMoves(x: nat, n: nat)
    ensures (x % CURSOR_MODULUS + n) % CURSOR_MODULUS == (x + n) % CURSOR_MODULUS
  {
  }

  lemma {:induction false} PickedIs(next: nat, others: nat -> nat, k: nat)
    ensures Picked(next, others, k) == (next + Turn(others, k)) % CURSOR_MODULUS
  {
    if k > 0 {
      PickedIs(next, others, k - 1);
      CursorMoves(next + Turn(others, k - 1), 1);
      CursorMoves(next + Turn(others, k - 1) + 1, others(k));
    }
  }

  // Alone on the pool, a call makes successive selections.
  lemma {:induction false} AloneIsSuccessive(next: nat, others: nat -> nat, size: nat, k: nat)
    requires size > 0 && forall i :: others(i) == 0
    ensures Turn(others, k) == k && Slot(next, others, size, k) == SlotAt(next, k, size)
  {
    if k > 0 {
      AloneIsSuccessive(next, others, size, k - 1);
    }
    PickedIs(next, others, k);
  }

  // The slots a call of `n` attempts uses.
  function Used(next: nat, others: nat -> nat, size: nat, n: nat): (slots: seq<nat>)
    requires size > 0
    ensures |slots| == n
    ensures forall k :: 0 <= k < n ==> slots[k] == Slot(next, others, size, k)
  {
    seq(n, k requires 0 <= k < n => Slot(next, others, size, k))
  }

  predicate Distinct(slots: seq<nat>) {
    forall j, k :: 0 <= j < k < |slots| ==> slots[j] != slots[k]
  }

  predicate AllUsed(slots: seq<nat>) {
    forall i :: 0 <= i < |slots| ==> i in slots
  }

  // The first `n` attempts failed.
  predicate Failed(outcome: (nat, nat) -> Option<string>, next: nat, others: nat -> nat, size: nat, n: nat)
    requires size > 0
  {
    forall k :: 0 <= k < n ==> outcome(k, Slot(next, others, size, k)).Some?
  }

  function Elements(slots: seq<nat>): (r: set<nat>)
    ensures forall i :: i in r <==> i in slots
    ensures |r| <= |slots|
  {
    if slots == [] then {}
    else
      var (init, last) := (slots[..|slots| - 1], slots[|slots| - 1]);
      assert slots == init + [last];
      Elements(init) + {last}
  }

  function Below(n: nat): (r: set<nat>)
    ensures forall i :: i in r <==> 0 <= i < n
    ensures |r| == n
  {
    if n == 0 then {} else Below(n - 1) + {n - 1}
  }

  lemma DistinctGrows(init: seq<nat>, last: nat)
    ensures Distinct(init + [last]) <==> Distinct(init) && last !in init
  {
    var slots := init + [last];
    assert slots[|init|] == last && slots[..|init|] == init;
    assert forall j :: 0 <= j < |init| ==> slots[j] == init[j];
    if Distinct(init) && last !in init {
      forall j, k | 0 <= j < k < |slots| ensures slots[j] != slots[k] {
        assert slots[j] == init[j];
      }
    }
  }

  lemma ElementsGrow(init: seq<nat>, last: nat)
    ensures |Elements(init + [last])| == |Elements(init)| + if last in init then 0 else 1
  {
    assert (init + [last])[..|init|] == init;
    if last in init {
      assert Elements(init) + {last} == Elements(init);
    }
  }

  lemma {:induction false} DistinctCount(slots: seq<nat>)
    ensures |Elements(slots)| == |slots| <==> Distinct(slots)
  {
    if slots != [] {
      var (init, last) := (slots[..|slots| - 1], slots[|slots| - 1]);
      assert slots == init + [last];
      DistinctCount(init);
      DistinctGrows(init, last);
      ElementsGrow(init, last);
    }
  }

  lemma EqualBySize(a: set<nat>, b: set<nat>)
    requires a <= b && |a| == |b|
    ensures a == b
  {
    assert b == a + (b - a) && |b| == |a| + |b - a|;
  }

  lemma AllSlotsAreUsed(slots: seq<nat>)
    requires forall k :: 0 <= k < |slots| ==> slots[k] < |slots|
    ensures AllUsed(slots) <==> Distinct(slots)
  {
    var (used, all) := (Elements(slots), Below(|slots|));
    DistinctCount(slots);
    if Distinct(slots) {
      EqualBySize(used, all);
    }
    if AllUsed(slots) {
      assert used == all;
    }
  }

  // Selections made on the pool from the j-th attempt's to the k-th one's.
  function Between(others: nat -> nat, j: nat, k: nat): int {
    Turn(others, k) - Turn(others, j)
  }

  // How often the cursor has wrapped before a call's k-th attempt.
  function Laps(next: nat, others: nat -> nat, k: nat): nat {
    (next + Turn(others, k)) / CURSOR_MODULUS
  }

  // What the cursor has gained from the j-th attempt to the k-th.
  function Gained(next: nat, others: nat -> nat, j: nat, k: nat): int {
    Between(others, j, k) - CURSOR_MODULUS * (Laps(next, others, k) - Laps(next, others, j))
  }

  lemma SameResidue(a: int, b: int, size: int)
    requires size > 0
    ensures a % size == b % size <==> (b - a) % size == 0
  {
    var (p, q, r) := (a / size, b / size, b % size - a % size);
    assert (q - p) * size == q * size - p * size;
    if r >= 0 {
      DivModUnique(b - a, size, q - p, r);
    } else {
      assert (q - p - 1) * size == (q - p) * size - size;
      DivModUnique(b - a, size, q - p - 1, size + r);
    }
  }

  lemma SameSlot(a: nat, b: nat, size: nat)
    requires size > 0
    ensures a % CURSOR_MODULUS % size == b % CURSOR_MODULUS % size
            <==> (b - a - CURSOR_MODULUS * (b / CURSOR_MODULUS - a / CURSOR_MODULUS)) % size == 0
  {
    SameResidue(a % CURSOR_MODULUS, b % CURSOR_MODULUS, size);
  }

  // Two attempts use one slot exactly if the cursor gained a multiple of the pool's size.
  lemma SlotsMeet(next: nat, others: nat -> nat, size: nat, j: nat, k: nat)
    requires size > 0
    ensures Slot(next, others, size, j) == Slot(next, others, size, k) <==> Gained(next, others, j, k) % size == 0
  {
    PickedIs(next, others, j);
    PickedIs(next, others, k);
    SameSlot(next + Turn(others, j), next + Turn(others, k), size);
  }

  // No two attempts of a call are a multiple of the pool's size apart.
  predicate Apart(next: nat, others: nat -> nat, size: nat)
    requires size > 0
  {
    forall j, k {:trigger Gained(next, others, j, k)} :: 0 <= j < k < size ==> Gained(next, others, j, k) % size != 0
  }

  // A call whose attempts all fail has tried every credential exactly if the cursor never
  // gained a multiple of the pool's size from one of its attempts to a later one.
  lemma CallMeetsEverySlot(next: nat, others: nat -> nat, size: nat)
    requires size > 0
    ensures AllUsed(Used(next, others, size, size)) <==> Apart(next, others, size)
  {
    var slots := Used(next, others, size, size);
    AllSlotsAreUsed(slots);
    forall j, k | 0 <= j < k < size ensures slots[j] == slots[k] <==> Gained(next, others, j, k) % size == 0 {
      SlotsMeet(next, others, size, j, k);
    }
    if !Distinct(slots) {
      var j, k :| 0 <= j < k < size && slots[j] == slots[k];
      assert Gained(next, others, j, k) % size == 0;
    }
  }

  lemma {:induction false} TurnsGrow(others: nat -> nat, j: nat, k: nat)
    requires j <= k
    ensures Turn(others, j) <= Turn(others, k)
  {
    if j < k {
      TurnsGrow(others, j, k - 1);
    }
  }

  // The cursor does not wrap during the call, or a wrap does not show.
  predicate Steady(next: nat, others: nat -> nat, size: nat)
    requires size > 0
  {
    next + Turn(others, size - 1) < CURSOR_MODULUS || CURSOR_MODULUS % size == 0
  }

  lemma MultipleOff(x: int, m: int, n: int, size: int)
    requires size > 0 && m % size == 0
    ensures (x - m * n) % size == x % size
  {
    var q := m / size;
    assert m * n == q * n * size;
    SameResidue(x - m * n, x, size);
    DivModUnique(m * n, size, q * n, 0);
  }

  lemma NoLap(next: nat, others: nat -> nat, size: nat, k: nat)
    requires k < size && next + Turn(others, size - 1) < CURSOR_MODULUS
    ensures Laps(next, others, k) == 0
  {
    TurnsGrow(others, k, size - 1);
  }

  lemma SteadyGains(next: nat, others: nat -> nat, size: nat, j: nat, k: nat)
    requires size > 0 && Steady(next, others, size) && j <= k < size
    ensures Gained(next, others, j, k) % size == Between(others, j, k) % size
  {
    if CURSOR_MODULUS % size == 0 {
      MultipleOff(Between(others, j, k), CURSOR_MODULUS, Laps(next, others, k) - Laps(next, others, j), size);
    } else {
      NoLap(next, others, size, j);
      NoLap(next, others, size, k);
    }
  }

  // Then it is the other callers' selections that decide: no multiple of the pool's size
  // from an attempt to a later one.
  lemma InterleavingDecides(next: nat, others: nat -> nat, size: nat)
    requires size > 0 && Steady(next, others, size)
    ensures AllUsed(Used(next, others, size, size))
            <==> forall j, k {:trigger Between(others, j, k)} :: 0 <= j < k < size ==> Between(others, j, k) % size != 0
  {
    CallMeetsEverySlot(next, others, size);
    forall j, k | 0 <= j < k < size
      ensures Gained(next, others, j, k) % size == Between(others, j, k) % size
    {
      SteadyGains(next, others, size, j, k);
    }
    if !Apart(next, others, size) {
      var j, k :| 0 <= j < k < size && Gained(next, others, j, k) % size == 0;
      assert Between(others, j, k) % size == 0;
    }
  }

  // Each of the other credentials' callers selects once between two attempts.
  function TakingTurns(size: nat): nat -> nat
    requires size > 0
  {
    k => if k == 0 then 0 else size - 1
  }

  lemma {:induction false} TurnsTaken(size: nat, k: nat)
    requires size > 0
    ensures Turn(TakingTurns(size), k) == k * size
  {
    if k > 0 {
      TurnsTaken(size, k - 1);
      assert k * size == (k - 1) * size + size;
    }
  }

  // As many callers as credentials, taking turns: a call tries one credential over and
  // over and misses the others.
  lemma TakingTurnsMissesSlots(next: nat, size: nat, k: nat)
    requires 1 < size && k < size && Steady(next, TakingTurns(size), size)
    ensures Slot(next, TakingTurns(size), size, k) == Slot(next, TakingTurns(size), size, 0)
    ensures !AllUsed(Used(next, TakingTurns(size), size, size))
  {
    var others := TakingTurns(size);
    TurnsTaken(size, 0);
    TurnsTaken(size, 1);
    TurnsTaken(size, k);
    DivModUnique(k * size, size, k, 0);
    DivModUnique(size, size, 1, 0);
    assert Between(others, 0, k) % size == 0 && Between(others, 0, 1) % size == 0;
    SteadyGains(next, others, size, 0, k);
    SlotsMeet(next, others, size, 0, k);
    InterleavingDecides(next, others, size);
  }

  // ---- The pool ----------------------------------------------------------------

  // How a refresh ends for its caller.
  datatype Refresh =
    | Usable(credential: Credential)
    | Disappeared
    | NoRefreshToken
    | NoAnswer
    | NotPersisted

  // What one caller's refresh returns and leaves in the slots.
  function Refreshed(persists: bool, slots: seq<Credential>, index: nat, snapshot: Credential, reply: Option<Reply>,
                     accepted: bool): (Refresh, seq<Credential>)
  {
    if index >= |slots| then (Disappeared, slots)
    else
      var current := slots[index];
      if TokensOf(current) != TokensOf(snapshot) then (Usable(current), slots)
      else if current.refreshToken.None? then (NoRefreshToken, slots)
      else if reply.None? then (NoAnswer, slots)
      else
        var updated := RefreshedFrom(current, reply.value).(connectionId := current.connectionId);
        if persists && updated.connectionId.Some? && !accepted then (NotPersisted, slots)
        else (Usable(updated), slots[index := updated])
  }

  predicate AllBy(actions: seq<Action>, c: nat) {
    forall i :: 0 <= i < |actions| ==> actions[i].caller == c
  }

  // From `s` the caller's own steps lead to `t`, where slot `i` is free again, the pool
  // holds `slots`, and the caller retries with the credential it got or has given up.
  ghost predicate Ends(s: State, t: State, c: nat, i: nat, result: Refresh, slots: seq<Credential>) {
    && (exists actions :: AllBy(actions, c) && CanRun(s, actions) && Run(s, actions) == t)
    && t.slots == slots && LockFree(t, i) && c < |t.callers|
    && if result.Usable? then t.callers[c].Retrying? && t.callers[c].credential == result.credential
       else t.callers[c].Idle?
  }

  ghost predicate Ending(s: State, c: nat, i: nat, result: Refresh, slots: seq<Credential>) {
    exists t :: Ends(s, t, c, i, result, slots)
  }

  lemma EndsHere(s: State, c: nat, i: nat, result: Refresh)
    requires c < |s.callers| && LockFree(s, i)
    requires if result.Usable? then s.callers[c].Retrying? && s.callers[c].credential == result.credential
             else s.callers[c].Idle?
    ensures Ending(s, c, i, result, s.slots)
  {
    assert AllBy([], c) && CanRun(s, []) && Run(s, []) == s;
    assert Ends(s, s, c, i, result, s.slots);
  }

  predicate SameTokens(a: Credential, b: Credential) {
    a.token == b.token && a.refreshToken == b.refreshToken && a.expiresAt == b.expiresAt
  }

  // The slot still has the rejected tokens and can be refreshed, the endpoint answers, and
  // the row, if there is one to keep, is written.
  predicate Replaces(persists: bool, slots: seq<Credential>, index: nat, snapshot: Credential, reply: Option<Reply>,
                     accepted: bool)
  {
    && index < |slots| && SameTokens(slots[index], snapshot)
    && slots[index].refreshToken.Some? && reply.Some?
    && (persists && slots[index].connectionId.Some? ==> accepted)
  }

  // The slot has the answer's tokens under its own row, the refresh token rotated if the
  // answer says so; the others are as they were.
  predicate Replaced(slots: seq<Credential>, index: nat, reply: Option<Reply>, c: Credential, after: seq<Credential>)
  {
    && index < |slots| == |after| && reply.Some?
    && c.connectionId == slots[index].connectionId
    && c.token == reply.value.token && c.expiresAt == reply.value.expiresAt
    && c.refreshToken == (if reply.value.rotated.Some? then reply.value.rotated else slots[index].refreshToken)
    && after[index] == c && forall j :: 0 <= j < |slots| && j != index ==> after[j] == slots[j]
  }

  lemma RunPrepends(s: State, a: Action, rest: seq<Action>)
    requires Enabled(s, a) && AllBy(rest, a.caller) && CanRun(Apply(s, a), rest)
    ensures AllBy([a] + rest, a.caller) && CanRun(s, [a] + rest)
    ensures Run(s, [a] + rest) == Run(Apply(s, a), rest)
  {
    assert ([a] + rest)[0] == a && ([a] + rest)[1..] == rest;
  }

  lemma EndsAfter(s: State, a: Action, c: nat, i: nat, result: Refresh, slots: seq<Credential>)
    requires a.caller == c && Enabled(s, a) && Ending(Apply(s, a), c, i, result, slots)
    ensures Ending(s, c, i, result, slots)
  {
    var t :| Ends(Apply(s, a), t, c, i, result, slots);
    var rest :| AllBy(rest, c) && CanRun(Apply(s, a), rest) && Run(Apply(s, a), rest) == t;
    RunPrepends(s, a, rest);
    assert Ends(s, t, c, i, result, slots);
  }

  lemma FromInstalling(s: State, c: nat)
    requires c < |s.callers| && s.callers[c].Installing? && s.callers[c].index < |s.slots| == |s.history|
    ensures var p := s.callers[c];
            Ending(s, c, p.index, Usable(p.updated), s.slots[p.index := p.updated])
  {
    EndsHere(Apply(s, Install(c)), c, s.callers[c].index, Usable(s.callers[c].updated));
    EndsAfter(s, Install(c), c, s.callers[c].index, Usable(s.callers[c].updated), Apply(s, Install(c)).slots);
  }

  lemma FromPersisting(s: State, c: nat, accepted: bool)
    requires c < |s.callers| && s.callers[c].Persisting? && s.callers[c].index < |s.slots| == |s.history|
    ensures var p := s.callers[c];
            if HasRow(s, p) && !accepted then Ending(s, c, p.index, NotPersisted, s.slots)
            else Ending(s, c, p.index, Usable(Updated(p)), s.slots[p.index := Updated(p)])
  {
    var (p, a) := (s.callers[c], Persist(c, accepted));
    if HasRow(s, p) && !accepted {
      EndsHere(Apply(s, a), c, p.index, NotPersisted);
      EndsAfter(s, a, c, p.index, NotPersisted, s.slots);
    } else {
      FromInstalling(Apply(s, a), c);
      EndsAfter(s, a, c, p.index, Usable(Updated(p)), s.slots[p.index := Updated(p)]);
    }
  }

  lemma FromRefreshing(s: State, c: nat, reply: Option<Reply>, accepted: bool, result: Refresh, slots: seq<Credential>)
    requires c < |s.callers| && s.callers[c].Refreshing? && s.callers[c].index < |s.slots| == |s.history|
    requires s.callers[c].current == s.slots[s.callers[c].index] && s.callers[c].current.refreshToken.Some?
    requires reply.Some? ==> reply.value.token !in s.issued
    requires (result, slots)
          == Refreshed(s.persists, s.slots, s.callers[c].index, s.callers[c].current, reply, accepted)
    ensures Ending(s, c, s.callers[c].index, result, slots)
  {
    var (p, a) := (s.callers[c], Exchange(c, reply));
    if reply.None? {
      EndsHere(Apply(s, a), c, p.index, NoAnswer);
    } else {
      FromPersisting(Apply(s, a), c, accepted);
    }
    EndsAfter(s, a, c, p.index, result, slots);
  }

  // The refresh in one go is a run of the protocol's steps: the caller that holds the
  // lock takes them on its own and ends with what the refresh returns.
  lemma RefreshIsItsSteps(s: State, c: nat, reply: Option<Reply>, accepted: bool, result: Refresh,
                          slots: seq<Credential>)
    requires c < |s.callers| && s.callers[c].Holding? && s.callers[c].index < |s.slots| == |s.history|
    requires reply.Some? ==> reply.value.token !in s.issued
    requires (result, slots)
          == Refreshed(s.persists, s.slots, s.callers[c].index, s.callers[c].snapshot, reply, accepted)
    ensures Ending(s, c, s.callers[c].index, result, slots)
  {
    var (p, a) := (s.callers[c], Compare(c));
    if Apply(s, a).callers[c].Refreshing? {
      FromRefreshing(Apply(s, a), c, reply, accepted, result, slots);
    } else {
      EndsHere(Apply(s, a), c, p.index, result);
    }
    EndsAfter(s, a, c, p.index, result, slots);
  }

  class Pool {
    const credentials: array<Credential>
    var next: nat

    ghost predicate Valid()
      reads this
    {
      credentials.Length > 0 && next < CURSOR_MODULUS
    }

    // An empty pool is refused before one is built.
    constructor (initial: array<Credential>)
      requires initial.Length > 0
      ensures Valid() && credentials == initial && next == 0
    {
      credentials := initial;
      next := 0;
    }

    method NextCredential() returns (index: nat, credential: Credential)
      requires Valid()
      modifies this
      ensures Valid() && next == (old(next) + 1) % CURSOR_MODULUS
      ensures index == old(next) % credentials.Length && credential == credentials[index]
    {
      index := next % credentials.Length;
      credential := credentials[index];
      next := (next + 1) % CURSOR_MODULUS;
    }

    method UpdateCredential(index: nat, credential: Credential)
      modifies credentials
      ensures credentials[..] == if index < credentials.Length then old(credentials[..])[index := credential]
                                 else old(credentials[..])
    {
      if index < credentials.Length {
        credentials[index] := credential;
      }
    }

    method CredentialAt(index: nat) returns (credential: Option<Credential>)
      ensures credential == if index < credentials.Length then Some(credentials[index]) else None
    {
      credential := if index < credentials.Length then Some(credentials[index]) else None;
    }

    // The refresh of one slot by the caller that holds its lock.
    method RefreshAfterUnauthorized(persists: bool, index: nat, snapshot: Credential, reply: Option<Reply>,
                                    accepted: bool) returns (result: Refresh)
      modifies credentials
      ensures (result, credentials[..])
           == Refreshed(persists, old(credentials[..]), index, snapshot, reply, accepted)
      ensures Replaces(persists, old(credentials[..]), index, snapshot, reply, accepted) ==>
                result.Usable?
                && Replaced(old(credentials[..]), index, reply, result.credential, credentials[..])
      ensures !Replaces(persists, old(credentials[..]), index, snapshot, reply, accepted) ==>
                credentials[..] == old(credentials[..])
                && (result.Usable? <==> index < credentials.Length && !SameTokens(credentials[index], snapshot))
                && (result.Usable? ==> result.credential == credentials[index])
    {
      var current := CredentialAt(index);
      if current.None? {
        return Disappeared;
      }
      if TokensOf(current.value) != TokensOf(snapshot) {
        return Usable(current.value);
      }
      if current.value.refreshToken.None? {
        return NoRefreshToken;
      }
      if reply.None? {
        return NoAnswer;
      }
      var updated := RefreshedFrom(current.value, reply.value).(connectionId := current.value.connectionId);
      if persists && updated.connectionId.Some? && !accepted {
        return NotPersisted;
      }
      UpdateCredential(index, updated);
      result := Usable(updated);
    }

    // Other callers select in the meantime.
    method OthersSelect(n: nat)
      requires Valid()
      modifies this
      ensures Valid() && next == (old(next) + n) % CURSOR_MODULUS
    {
      next := (next + n) % CURSOR_MODULUS;
    }

    // One attempt's selection, after those of the others.
    method SelectFor(ghost start: nat, others: nat -> nat, k: nat) returns (index: nat)
      requires Valid() && next == Cursor(start, others, k)
      modifies this
      ensures Valid() && next == Cursor(start, others, k + 1)
      ensures index == Slot(start, others, credentials.Length, k)
    {
      OthersSelect(others(k));
      var credential;
      index, credential := NextCredential();
    }

    // The attempt loop: `outcome` says how the k-th attempt ends on the slot it uses,
    // `others` how often other callers select before it. The call is served by the first
    // attempt that does not fail; it fails after as many attempts as there are
    // credentials, with the last one's error.
    method Complete(others: nat -> nat, outcome: (nat, nat) -> Option<string>)
      returns (served: bool, error: string, attempts: nat)
      requires Valid()
      modifies this
      ensures Valid() && 0 < attempts <= credentials.Length
      ensures next == Cursor(old(next), others, attempts)
      ensures Failed(outcome, old(next), others, credentials.Length, attempts - 1)
      ensures var last := outcome(attempts - 1, Slot(old(next), others, credentials.Length, attempts - 1));
              if served then last.None? else attempts == credentials.Length && last == Some(error)
    {
      ghost var start := next;
      error := "";
      for k := 0 to credentials.Length
        invariant Valid() && next == Cursor(start, others, k)
        invariant Failed(outcome, start, others, credentials.Length, k)
        invariant k > 0 ==> outcome(k - 1, Slot(start, others, credentials.Length, k - 1)) == Some(error)
      {
        var index := SelectFor(start, others, k);
        match outcome(k, index) {
          case None =>
            return true, "", k + 1;
          case Some(e) =>
            error := e;
        }
      }
      served := false;
      attempts := credentials.Length;
    }
  }
}
