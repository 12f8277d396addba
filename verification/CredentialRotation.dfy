// Which refresh token a slot holds: every run's answers of the token endpoint against the
// credentials the slots went through.
module CredentialRotation {
  import opened Wrappers
  import opened CredentialRefresh

  // The credential an answer makes of another: the new access token and expiry, and the
  // rotated refresh token if there is one, else the old one.
  predicate Renews(c: Credential, reply: Reply, before: Credential) {
    && c.token == reply.token && c.expiresAt == reply.expiresAt
    && c.refreshToken == if reply.rotated.Some? then reply.rotated else before.refreshToken
  }

  function KeptReplies(answers: seq<Answer>): seq<Reply> {
    if answers == [] then []
    else
      var last := answers[|answers| - 1];
      KeptReplies(answers[..|answers| - 1]) + if last.kept then [last.reply] else []
  }

  // A caller on its way to install carries the credential its answer makes.
  ghost predicate Carries(s: State, p: Phase) {
    match p
    case Persisting(_, current, _, refreshed, reply) => Renews(refreshed, reply, current)
    case Installing(i, updated, _, reply) => i < |s.slots| && Renews(updated, reply, s.slots[i])
    case _ => true
  }

  // Each credential of a slot is what the next kept answer made of the one before.
  ghost predicate Renewed(h: seq<Credential>, replies: seq<Reply>) {
    && |h| == |replies| + 1
    && forall g :: 0 < g < |h| ==> Renews(h[g], replies[g - 1], h[g - 1])
  }

  // A refresh token is only ever sent for the credential it belongs to.
  ghost predicate SpentOk(history: seq<seq<Credential>>, e: Spending) {
    && e.index < |history| && e.gen < |history[e.index]|
    && history[e.index][e.gen].refreshToken == Some(e.token)
  }

  ghost predicate Rotates(s: State) {
    && |s.answers| == |s.history| == |s.slots|
    && (forall c :: 0 <= c < |s.callers| ==> Carries(s, s.callers[c]))
    && (forall i :: 0 <= i < |s.slots| ==> Renewed(s.history[i], KeptReplies(s.answers[i])))
    && (forall k :: 0 <= k < |s.spent| ==> SpentOk(s.history, s.spent[k]))
  }

  lemma KeptMore(answers: seq<Answer>, a: Answer)
    ensures KeptReplies(answers + [a]) == if a.kept then KeptReplies(answers) + [a.reply] else KeptReplies(answers)
  {
    assert (answers + [a])[..|answers|] == answers;
  }

  lemma ActorCarries(s: State, a: Action)
    requires Enabled(s, a) && |s.history| == |s.slots| && CallerOk(s, a.caller) && Carries(s, s.callers[a.caller])
    ensures Carries(Apply(s, a), Apply(s, a).callers[a.caller])
  {
  }

  lemma OthersCarry(s: State, a: Action, c: nat)
    requires Invariant(s) && Enabled(s, a) && c < |s.callers| && c != a.caller && Carries(s, s.callers[c])
    ensures Carries(Apply(s, a), Apply(s, a).callers[c])
  {
    assert CallerOk(s, a.caller) && CallerOk(s, c);
    StepFrame(s, a, c);
  }

  lemma RenewedMore(h: seq<Credential>, replies: seq<Reply>, c: Credential, reply: Reply)
    requires Renewed(h, replies) && Renews(c, reply, h[|h| - 1])
    ensures Renewed(h + [c], replies + [reply])
  {
  }

  // What a step settles for a slot: nothing, an answer that comes to nothing, or an install.
  lemma SettlesFor(s: State, a: Action, i: nat)
    requires Enabled(s, a) && i < |s.slots| == |s.history| == |s.answers|
    requires CallerOk(s, a.caller) && Carries(s, s.callers[a.caller])
    ensures var (t, p) := (Apply(s, a), s.callers[a.caller]);
            && |t.answers| == |t.history| == |s.slots|
            && if a.Install? && p.index == i
               then t.answers[i] == s.answers[i] + [Answer(p.reply, true)] && t.history[i] == s.history[i] + [p.updated]
               else t.history[i] == s.history[i]
                    && (t.answers[i] == s.answers[i]
                        || (Wasting(Settled(s, a)) && t.answers[i] == s.answers[i] + Settled(s, a)))
  {
    var (p, settled) := (s.callers[a.caller], Settled(s, a));
    if !p.Idle? && p.index == i && settled == [] {
      assert s.answers[i] + settled == s.answers[i];
    }
  }

  // One answer, and not kept.
  predicate Wasting(settled: seq<Answer>) {
    |settled| == 1 && !settled[0].kept
  }

  lemma WastedIsNotKept(answers: seq<Answer>, settled: seq<Answer>)
    requires Wasting(settled)
    ensures KeptReplies(answers + settled) == KeptReplies(answers)
  {
    assert settled == [settled[0]];
    KeptMore(answers, settled[0]);
  }

  lemma InstallRenews(s: State, a: Action)
    requires Enabled(s, a) && a.Install? && |s.history| == |s.slots|
    requires CallerOk(s, a.caller) && Carries(s, s.callers[a.caller])
    requires SlotHistoryOk(s, s.callers[a.caller].index)
    ensures var p := s.callers[a.caller];
            s.history[p.index] != [] && Renews(p.updated, p.reply, s.history[p.index][|s.history[p.index]| - 1])
  {
  }

  lemma HistoryRenewed(s: State, a: Action, i: nat)
    requires Enabled(s, a) && i < |s.slots| == |s.history| == |s.answers|
    requires CallerOk(s, a.caller) && SlotHistoryOk(s, i) && Carries(s, s.callers[a.caller])
    requires Renewed(s.history[i], KeptReplies(s.answers[i]))
    ensures |Apply(s, a).answers| == |Apply(s, a).history| == |s.slots|
    ensures Renewed(Apply(s, a).history[i], KeptReplies(Apply(s, a).answers[i]))
  {
    var p := s.callers[a.caller];
    SettlesFor(s, a, i);
    if a.Install? && p.index == i {
      InstallRenews(s, a);
      KeptMore(s.answers[i], Answer(p.reply, true));
      RenewedMore(s.history[i], KeptReplies(s.answers[i]), p.updated, p.reply);
    } else if Apply(s, a).answers[i] != s.answers[i] {
      WastedIsNotKept(s.answers[i], Settled(s, a));
    }
  }

  lemma SpentStays(s: State, a: Action, e: Spending)
    requires Enabled(s, a) && SpentOk(s.history, e)
    ensures SpentOk(Apply(s, a).history, e)
  {
  }

  lemma SentIsOk(s: State, a: Action)
    requires Enabled(s, a) && |s.history| == |s.slots| && CallerOk(s, a.caller)
    requires !s.callers[a.caller].Idle? ==> SlotHistoryOk(s, s.callers[a.caller].index)
    ensures forall k :: 0 <= k < |Sent(s, a)| ==> SpentOk(Apply(s, a).history, Sent(s, a)[k])
  {
    if Sent(s, a) != [] {
      CompareDecides(s, a.caller);
    }
  }

  lemma StepRotates(s: State, a: Action)
    requires Invariant(s) && Rotates(s) && Enabled(s, a)
    ensures Rotates(Apply(s, a))
  {
    var t := Apply(s, a);
    assert CallerOk(s, a.caller);
    forall c | 0 <= c < |t.callers| ensures Carries(t, t.callers[c]) {
      if c == a.caller {
        ActorCarries(s, a);
      } else {
        OthersCarry(s, a, c);
      }
    }
    forall i | 0 <= i < |t.slots|
      ensures |t.answers| == |t.history| == |s.slots| && Renewed(t.history[i], KeptReplies(t.answers[i]))
    {
      HistoryRenewed(s, a, i);
    }
    SentIsOk(s, a);
    forall k | 0 <= k < |t.spent| ensures SpentOk(t.history, t.spent[k]) {
      if k < |s.spent| {
        SpentStays(s, a, s.spent[k]);
      } else {
        assert t.spent[k] == Sent(s, a)[k - |s.spent|];
      }
    }
  }

  lemma {:induction false} RunRotates(s: State, actions: seq<Action>)
    requires Invariant(s) && Rotates(s) && CanRun(s, actions)
    ensures Rotates(Run(s, actions))
    decreases |actions|
  {
    if actions != [] {
      StepKeepsInvariant(s, actions[0]);
      StepRotates(s, actions[0]);
      RunRotates(Apply(s, actions[0]), actions[1..]);
    }
  }

  lemma InitialRotates(s: State)
    requires Initial(s)
    ensures Rotates(s)
  {
  }

  lemma ReachableRotates(s: State)
    requires Reachable(s)
    ensures Rotates(s)
  {
    var s0, actions :| ReachedBy(s0, actions, s);
    InitialInvariant(s0);
    InitialRotates(s0);
    RunRotates(s0, actions);
  }

  lemma ReachableSlot(s: State, i: nat)
    requires Reachable(s) && i < |s.slots|
    ensures |s.history| == |s.answers| == |s.slots| && SlotHistoryOk(s, i)
    ensures Renewed(s.history[i], KeptReplies(s.answers[i]))
  {
    ReachableRotates(s);
    ReachableInvariant(s);
  }

  // ---- What holds in every run --------------------------------------------------

  // The last refresh token the answers brought, or the one there was.
  function LastRotated(initial: Option<string>, replies: seq<Reply>): Option<string> {
    if replies == [] then initial
    else
      var last := replies[|replies| - 1];
      if last.rotated.Some? then last.rotated else LastRotated(initial, replies[..|replies| - 1])
  }

  lemma {:induction false} RenewedRotates(h: seq<Credential>, replies: seq<Reply>, g: nat)
    requires Renewed(h, replies) && g < |h|
    ensures h[g].refreshToken == LastRotated(h[0].refreshToken, replies[..g])
  {
    if g > 0 {
      RenewedRotates(h, replies, g - 1);
      assert replies[..g][..g - 1] == replies[..g - 1];
    }
  }

  // The credential of each generation has the access token and expiry of its answer, and
  // the last refresh token the answers up to it brought, or else the first one.
  ghost predicate Follows(h: seq<Credential>, replies: seq<Reply>) {
    && |h| == |replies| + 1
    && forall g :: 0 <= g < |h| ==>
         && h[g].refreshToken == LastRotated(h[0].refreshToken, replies[..g])
         && (g > 0 ==> h[g].token == replies[g - 1].token && h[g].expiresAt == replies[g - 1].expiresAt)
  }

  lemma RenewedFollows(h: seq<Credential>, replies: seq<Reply>)
    requires Renewed(h, replies)
    ensures Follows(h, replies)
  {
    forall g | 0 <= g < |h|
      ensures h[g].refreshToken == LastRotated(h[0].refreshToken, replies[..g])
    {
      RenewedRotates(h, replies, g);
    }
  }

  // In every run each slot follows the answers that were installed for it.
  lemma SlotFollowsItsAnswers(s: State, i: nat)
    requires Reachable(s) && i < |s.slots|
    ensures |s.history| == |s.answers| == |s.slots| && Follows(s.history[i], KeptReplies(s.answers[i]))
    ensures s.slots[i] == s.history[i][|s.history[i]| - 1]
  {
    ReachableSlot(s, i);
    RenewedFollows(s.history[i], KeptReplies(s.answers[i]));
  }

  // Each contact with the token endpoint spends that token: the last one installed up to
  // the generation it is made for.
  lemma ContactsSpendTheLatest(s: State, k: nat)
    requires Reachable(s) && k < |s.spent|
    ensures |s.history| == |s.answers| == |s.slots|
    ensures var e := s.spent[k];
            && e.index < |s.slots| && e.gen <= |KeptReplies(s.answers[e.index])| && s.history[e.index] != []
            && LastRotated(s.history[e.index][0].refreshToken, KeptReplies(s.answers[e.index])[..e.gen])
               == Some(e.token)
  {
    ReachableRotates(s);
    assert SpentOk(s.history, s.spent[k]);
    SlotFollowsItsAnswers(s, s.spent[k].index);
  }

  // ---- Rotations that are lost ---------------------------------------------------

  // All answers' replies, installed or not.
  function Replies(answers: seq<Answer>): (r: seq<Reply>)
    ensures |r| == |answers|
  {
    seq(|answers|, i requires 0 <= i < |answers| => answers[i].reply)
  }

  // The last answer that rotated the refresh token.
  function LastRotating(answers: seq<Answer>): Option<Answer> {
    if answers == [] then None
    else if answers[|answers| - 1].reply.rotated.Some? then Some(answers[|answers| - 1])
    else LastRotating(answers[..|answers| - 1])
  }

  lemma {:induction false} LastRotatingDecides(initial: Option<string>, answers: seq<Answer>)
    ensures var last := LastRotating(answers);
            && LastRotated(initial, Replies(answers))
               == (if last.None? then initial else last.value.reply.rotated)
            && (last.None? ==> LastRotated(initial, KeptReplies(answers)) == initial)
            && (last.Some? && last.value.kept ==>
                  LastRotated(initial, KeptReplies(answers)) == last.value.reply.rotated)
  {
    if answers != [] {
      var (init, last) := (answers[..|answers| - 1], answers[|answers| - 1]);
      LastRotatingDecides(initial, init);
      assert answers == init + [last];
      assert Replies(answers) == Replies(init) + [last.reply];
      RotatedMore(initial, Replies(init), last.reply);
      KeptMore(init, last);
      RotatedMore(initial, KeptReplies(init), last.reply);
    }
  }

  lemma RotatedMore(initial: Option<string>, replies: seq<Reply>, last: Reply)
    ensures LastRotated(initial, replies + [last])
         == if last.rotated.Some? then last.rotated else LastRotated(initial, replies)
  {
    assert (replies + [last])[..|replies|] == replies;
  }

  // A slot holds the last refresh token issued for it exactly if the last answer that
  // rotated it was installed, or brought the token the slot holds anyway.
  lemma HoldsTheLastIssued(s: State, i: nat)
    requires Reachable(s) && i < |s.slots|
    ensures |s.history| == |s.answers| == |s.slots| && s.history[i] != []
    ensures var last := LastRotating(s.answers[i]);
            s.slots[i].refreshToken == LastRotated(s.history[i][0].refreshToken, Replies(s.answers[i]))
            <==> (last.Some? && !last.value.kept ==> last.value.reply.rotated == s.slots[i].refreshToken)
  {
    ReachableSlot(s, i);
    var replies := KeptReplies(s.answers[i]);
    SlotFollowsItsAnswers(s, i);
    assert replies[..|replies|] == replies;
    LastRotatingDecides(s.history[i][0].refreshToken, s.answers[i]);
  }

  // Every decision to refresh is recorded as a contact, with the slot's own token.
  lemma EveryContactIsSent(s: State, c: nat)
    requires Reachable(s) && c < |s.callers| && s.callers[c].Holding?
    ensures Enabled(s, Compare(c))
    ensures var (t, i) := (Apply(s, Compare(c)), s.callers[c].index);
            if t.callers[c].Refreshing?
            then s.slots[i].refreshToken.Some?
                 && t.spent == s.spent + [Spending(i, s.callers[c].gen, s.slots[i].refreshToken.value)]
            else t.spent == s.spent
  {
    ReachableCaller(s, c);
    CompareDecides(s, c);
    CompareLetsGo(s, c);
  }

  // ---- Every answer is accounted for --------------------------------------------

  // How often a token is among the settled answers of a slot, and of all slots.
  function Among(answers: seq<Answer>, token: string): nat {
    if answers == [] then 0
    else
      var last := answers[|answers| - 1];
      Among(answers[..|answers| - 1], token) + if last.reply.token == token then 1 else 0
  }

  function AmongAll(answers: seq<seq<Answer>>, token: string): nat {
    if answers == [] then 0
    else AmongAll(answers[..|answers| - 1], token) + Among(answers[|answers| - 1], token)
  }

  // Whether a caller is on its way to install the token, and how many are.
  function Brings(p: Phase, token: string): nat {
    if (p.Persisting? || p.Installing?) && p.reply.token == token then 1 else 0
  }

  function Bringing(callers: seq<Phase>, token: string): nat {
    if callers == [] then 0
    else Bringing(callers[..|callers| - 1], token) + Brings(callers[|callers| - 1], token)
  }

  function Uses(s: State, token: string): nat {
    AmongAll(s.answers, token) + Bringing(s.callers, token)
  }

  lemma {:induction false} AmongAllMore(answers: seq<seq<Answer>>, i: nat, a: Answer, token: string)
    requires i < |answers|
    ensures AmongAll(answers[i := answers[i] + [a]], token)
         == AmongAll(answers, token) + if a.reply.token == token then 1 else 0
    decreases |answers|
  {
    var (n, more) := (|answers| - 1, answers[i := answers[i] + [a]]);
    if i == n {
      assert more[..n] == answers[..n];
      assert more[n][..|answers[n]|] == answers[n];
    } else {
      AmongAllMore(answers[..n], i, a, token);
      assert more[..n] == answers[..n][i := answers[..n][i] + [a]];
    }
  }

  lemma {:induction false} BringingChanges(callers: seq<Phase>, c: nat, p: Phase, token: string)
    requires c < |callers|
    ensures Bringing(callers[c := p], token) + Brings(callers[c], token) == Bringing(callers, token) + Brings(p, token)
    decreases |callers|
  {
    var (n, other) := (|callers| - 1, callers[c := p]);
    if c == n {
      assert other[..n] == callers[..n];
    } else {
      BringingChanges(callers[..n], c, p, token);
      assert other[..n] == callers[..n][c := p];
    }
  }

  // A settled answer joins the slot's.
  lemma SettledJoins(s: State, a: Action, token: string)
    requires Enabled(s, a) && |s.answers| == |s.slots| == |s.history| && CallerOk(s, a.caller)
    ensures var settled := Settled(s, a);
            AmongAll(NextAnswers(s, a), token)
            == AmongAll(s.answers, token) + if settled != [] && settled[0].reply.token == token then 1 else 0
  {
    var (p, settled) := (s.callers[a.caller], Settled(s, a));
    if settled == [] {
      if !p.Idle? {
        assert s.answers[p.index] + settled == s.answers[p.index];
        assert s.answers[p.index := s.answers[p.index]] == s.answers;
      }
    } else {
      assert settled == [settled[0]];
      AmongAllMore(s.answers, p.index, settled[0], token);
    }
  }

  lemma StepUses(s: State, a: Action, token: string)
    requires Enabled(s, a) && |s.answers| == |s.slots| == |s.history| && CallerOk(s, a.caller)
    ensures |Apply(s, a).answers| == |s.answers|
    ensures Uses(Apply(s, a), token) == Uses(s, token) + if token in Issued(a) then 1 else 0
  {
    SettledJoins(s, a, token);
    BringingChanges(s.callers, a.caller, NextPhase(s, a), token);
    BringsWhatIsIssued(s, a, token);
  }

  lemma BringsWhatIsIssued(s: State, a: Action, token: string)
    requires Enabled(s, a)
    ensures var settled := Settled(s, a);
            Brings(NextPhase(s, a), token) + (if settled != [] && settled[0].reply.token == token then 1 else 0)
            == Brings(s.callers[a.caller], token) + if token in Issued(a) then 1 else 0
  {
  }

  lemma {:induction false} RunUses(s: State, actions: seq<Action>, token: string)
    requires Invariant(s) && |s.answers| == |s.slots| && CanRun(s, actions)
    ensures var t := Run(s, actions);
            s.issued <= t.issued
            && Uses(t, token) == Uses(s, token) + if token in t.issued && token !in s.issued then 1 else 0
    decreases |actions|
  {
    if actions != [] {
      StepKeepsInvariant(s, actions[0]);
      assert CallerOk(s, actions[0].caller);
      StepUses(s, actions[0], token);
      RunUses(Apply(s, actions[0]), actions[1..], token);
    }
  }

  lemma {:induction false} NothingAmong(answers: seq<seq<Answer>>, callers: seq<Phase>, token: string)
    requires forall i :: 0 <= i < |answers| ==> answers[i] == []
    requires forall c :: 0 <= c < |callers| ==> callers[c].Idle?
    ensures AmongAll(answers, token) == 0 && Bringing(callers, token) == 0
    decreases |answers| + |callers|
  {
    if answers != [] {
      NothingAmong(answers[..|answers| - 1], callers, token);
    } else if callers != [] {
      NothingAmong(answers, callers[..|callers| - 1], token);
    }
  }

  // In every run, each token the endpoint handed out is on its way to its slot or among the
  // settled answers, exactly once, and no other token is.
  lemma AnswersAreAccountedFor(s0: State, actions: seq<Action>, token: string)
    requires Initial(s0) && CanRun(s0, actions)
    ensures var s := Run(s0, actions);
            Uses(s, token) == if token in s.issued && token !in s0.issued then 1 else 0
  {
    InitialInvariant(s0);
    NothingAmong(s0.answers, s0.callers, token);
    RunUses(s0, actions, token);
  }

  // Whether a caller is between its contact for slot i and what comes of it, and how many
  // are; the contacts made for the slot.
  function Busy(p: Phase, i: nat): nat {
    if Contacting(p) && p.index == i then 1 else 0
  }

  function AllBusy(callers: seq<Phase>, i: nat): nat {
    if callers == [] then 0
    else AllBusy(callers[..|callers| - 1], i) + Busy(callers[|callers| - 1], i)
  }

  function Contacts(spent: seq<Spending>, i: nat): nat {
    if spent == [] then 0
    else Contacts(spent[..|spent| - 1], i) + if spent[|spent| - 1].index == i then 1 else 0
  }

  ghost predicate Answerable(s: State, i: nat) {
    i < |s.answers| == |s.slots| && |s.answers[i]| + AllBusy(s.callers, i) <= Contacts(s.spent, i)
  }

  lemma {:induction false} BusyChanges(callers: seq<Phase>, c: nat, p: Phase, i: nat)
    requires c < |callers|
    ensures AllBusy(callers[c := p], i) + Busy(callers[c], i) == AllBusy(callers, i) + Busy(p, i)
    decreases |callers|
  {
    var (n, other) := (|callers| - 1, callers[c := p]);
    if c == n {
      assert other[..n] == callers[..n];
    } else {
      BusyChanges(callers[..n], c, p, i);
      assert other[..n] == callers[..n][c := p];
    }
  }

  lemma SentCounts(s: State, a: Action, i: nat)
    requires Enabled(s, a)
    ensures Contacts(s.spent + Sent(s, a), i)
         == Contacts(s.spent, i) + if a.Compare? && Busy(NextPhase(s, a), i) == 1 then 1 else 0
  {
    var sent := Sent(s, a);
    if sent == [] {
      assert s.spent + sent == s.spent;
    } else {
      assert (s.spent + sent)[..|s.spent|] == s.spent;
    }
  }

  lemma SettledCounts(s: State, a: Action, i: nat)
    requires Enabled(s, a) && i < |s.answers|
    ensures |NextAnswers(s, a)| == |s.answers|
    ensures |NextAnswers(s, a)[i]|
         == |s.answers[i]| + if Busy(s.callers[a.caller], i) == 1 then |Settled(s, a)| else 0
    ensures |Settled(s, a)| <= 1
    ensures Settled(s, a) != [] ==> Busy(NextPhase(s, a), i) == 0
    ensures Busy(NextPhase(s, a), i) == 1 ==> a.Compare? || Busy(s.callers[a.caller], i) == 1
    ensures a.Compare? ==> Busy(s.callers[a.caller], i) == 0
  {
  }

  lemma StepAnswers(s: State, a: Action, i: nat)
    requires Enabled(s, a) && Answerable(s, i)
    ensures Answerable(Apply(s, a), i)
  {
    BusyChanges(s.callers, a.caller, NextPhase(s, a), i);
    SentCounts(s, a, i);
    SettledCounts(s, a, i);
  }

  lemma {:induction false} RunAnswers(s: State, actions: seq<Action>, i: nat)
    requires Answerable(s, i) && CanRun(s, actions)
    ensures Answerable(Run(s, actions), i)
    decreases |actions|
  {
    if actions != [] {
      StepAnswers(s, actions[0], i);
      RunAnswers(Apply(s, actions[0]), actions[1..], i);
    }
  }

  lemma {:induction false} NobodyBusy(callers: seq<Phase>, i: nat)
    requires forall c :: 0 <= c < |callers| ==> callers[c].Idle?
    ensures AllBusy(callers, i) == 0
  {
    if callers != [] {
      NobodyBusy(callers[..|callers| - 1], i);
    }
  }

  // In every run, a slot's answers and the callers still after one are at most its contacts.
  lemma AnswersComeFromContacts(s: State, i: nat)
    requires Reachable(s) && i < |s.slots|
    ensures i < |s.answers| && |s.answers[i]| + AllBusy(s.callers, i) <= Contacts(s.spent, i)
  {
    var s0, actions :| ReachedBy(s0, actions, s);
    SlotsStay(s0, actions);
    NobodyBusy(s0.callers, i);
    RunAnswers(s0, actions, i);
  }

  lemma {:induction false} SlotsStay(s: State, actions: seq<Action>)
    requires CanRun(s, actions)
    ensures |Run(s, actions).slots| == |s.slots|
    decreases |actions|
  {
    if actions != [] {
      SlotsStay(Apply(s, actions[0]), actions[1..]);
    }
  }

  const FIRST := Credential(Some("row"), "t1", Some("r1"), None)
  const ROTATION := Reply("t2", Some("r2"), None)

  // Some run from `s` ends with the slot as it was and the rotation wasted.
  ghost predicate Loses(s: State) {
    exists actions :: CanRun(s, actions) && Wastes(Run(s, actions))
  }

  predicate Wastes(s: State) {
    s.slots == [FIRST] && s.answers == [[Answer(ROTATION, false)]]
  }

  lemma LosesAfter(s: State, a: Action)
    requires Enabled(s, a) && Loses(Apply(s, a))
    ensures Loses(s)
  {
    var rest :| CanRun(Apply(s, a), rest) && Wastes(Run(Apply(s, a), rest));
    assert ([a] + rest)[0] == a && ([a] + rest)[1..] == rest;
    assert CanRun(s, [a] + rest) && Wastes(Run(s, [a] + rest));
  }

  // One slot under a row, one caller, and nothing settled yet.
  predicate Alone(s: State, p: Phase) {
    && s.persists && s.slots == [FIRST] && s.history == [[FIRST]] && s.answers == [[]] && s.callers == [p]
    && s.issued == {"t1"} && (if InCritical(p) then Holds(s, 0, 0) else LockFree(s, 0))
  }

  lemma FromPersisting(s: State)
    requires s.persists && s.slots == [FIRST] && s.answers == [[]] && |s.callers| == 1
    requires var p := s.callers[0]; p.Persisting? && p.index == 0 && p.current == FIRST && p.reply == ROTATION
    ensures Loses(s)
  {
    var t := Apply(s, Persist(0, false));
    assert s.answers[0] + [Answer(ROTATION, false)] == [Answer(ROTATION, false)];
    assert t.answers == [[Answer(ROTATION, false)]] && t.slots == [FIRST];
    assert CanRun(t, []) && Run(t, []) == t;
    LosesAfter(s, Persist(0, false));
  }

  lemma FromRefreshing(s: State)
    requires Alone(s, Refreshing(0, FIRST, 0))
    ensures Loses(s)
  {
    var a := Exchange(0, Some(ROTATION));
    assert s.answers[0] + [] == s.answers[0];
    FromPersisting(Apply(s, a));
    LosesAfter(s, a);
  }

  lemma FromHolding(s: State)
    requires Alone(s, Holding(0, FIRST, 0))
    ensures Loses(s)
  {
    assert s.answers[0] + [] == s.answers[0];
    FromRefreshing(Apply(s, Compare(0)));
    LosesAfter(s, Compare(0));
  }

  lemma FromWaiting(s: State)
    requires Alone(s, Waiting(0, FIRST, 0))
    ensures Loses(s)
  {
    assert s.answers[0] + [] == s.answers[0];
    FromHolding(Apply(s, Acquire(0)));
    LosesAfter(s, Acquire(0));
  }

  lemma FromIdle(s: State)
    requires Alone(s, Idle)
    ensures Loses(s)
  {
    var calling := Apply(s, Select(0, 0));
    assert calling.answers[0] + [] == calling.answers[0];
    FromWaiting(Apply(calling, Rejected(0)));
    LosesAfter(calling, Rejected(0));
    LosesAfter(s, Select(0, 0));
  }

  lemma ReachedIsReachable(s: State, actions: seq<Action>)
    requires Initial(s) && CanRun(s, actions)
    ensures Reachable(Run(s, actions))
  {
    assert ReachedBy(s, actions, Run(s, actions));
  }

  lemma StartsAlone(s: State)
    requires s == State(true, [FIRST], map[], [Idle], map["row" := TokensOf(FIRST)], {"t1"}, [[FIRST]], [], [[]], [])
    ensures Initial(s) && Alone(s, Idle)
  {
  }

  // A rotation that the persist callback refuses is lost: the slot keeps the token that
  // was spent for it.
  lemma RefusedRotationIsLost()
    ensures FIRST.refreshToken == Some("r1") && ROTATION.rotated == Some("r2")
    ensures exists s :: Reachable(s) && Wastes(s)
  {
    var s := State(true, [FIRST], map[], [Idle], map["row" := TokensOf(FIRST)], {"t1"}, [[FIRST]], [], [[]], []);
    StartsAlone(s);
    FromIdle(s);
    var actions :| CanRun(s, actions) && Wastes(Run(s, actions));
    ReachedIsReachable(s, actions);
  }
}
