// The one configuration in which a connection attempt need not end: association
// blocked, automatic choice of the algorithm, and shared key recorded by the
// authentication machine. A refusal then leads to the very request refused.
module ConnectLoop {
  import A = Auth
  import C = Connect
  import opened ConnectSystem

  ghost predicate StepOn(f: nat -> Sys, g: nat -> Step, k: nat) {
    && f(k).cntl.curr != C.Idle && !g(k).FrameArrives?
    && Enabled(f(k), g(k)) && f(k + 1) == Next(f(k), g(k))
  }

  /** An infinite run that no frame keeps alive and that never comes back to idle. */
  ghost predicate Unending(f: nat -> Sys, g: nat -> Step, s: Sys) {
    f(0) == s && forall k: nat :: StepOn(f, g, k)
  }

  predicate NoFrames(ts: seq<Step>) {
    forall k: nat :: k < |ts| ==> !ts[k].FrameArrives?
  }

  /** Blocked, in auto-switch mode, shared key recorded, trying open system once more. */
  predicate Repeats(s: Sys) {
    && Loops(s) && s.cntl.curr == C.WaitAuth2 && !A.Waiting(s.m) && !s.m.bssid.group
    && s.queue == [ToAuth(A.Request(s.m.bssid, A.OpenSystem))]
    && s.cntl.alg == s.m.alg && !s.firing && !s.m.pending
  }

  /** Two dispatches, a refusal and the same request again: the very state it started from. */
  lemma BlockedAttemptRepeats(s: Sys)
    requires Repeats(s)
    ensures Enabled(s, GO) && Next(s, GO).cntl == s.cntl && Enabled(Next(s, GO), GO) && Next(Next(s, GO), GO) == s
  {
    ReportedIs(A.OnRequest(s.m, s.queue[0].ask, Env(s, GO)).effects);
    var n := Next(s, GO);
    assert n.queue == [ToCntl(C.AuthConf(false))];
    SentIs(CntlOutcome(n, n.queue[0].msg).effects, n.m.bssid);
    assert Next(n, GO).queue == s.queue;
  }

  /** So there is a run, without frames or timers, that never comes back to idle. */
  lemma BlockedAttemptNeverEnds(s: Sys) returns (f: nat -> Sys, g: nat -> Step)
    requires Repeats(s)
    ensures Unending(f, g, s)
  {
    BlockedAttemptRepeats(s);
    var n := Next(s, GO);
    f := k => if k % 2 == 0 then s else n;
    g := k => GO;
    forall k: nat ensures StepOn(f, g, k) {
      assert (k + 1) % 2 == 1 - k % 2;
    }
  }

  /** A run may be preceded by the steps that lead to it. */
  lemma {:induction false} Preceded(s: Sys, ts: seq<Step>, to: Sys, f: nat -> Sys, g: nat -> Step)
    returns (f': nat -> Sys, g': nat -> Step)
    requires Leads(s, ts, to) && NoFrames(ts) && Unending(f, g, to)
    ensures Unending(f', g', s)
    decreases |ts|
  {
    if ts == [] {
      f', g' := f, g;
    } else {
      var t := ts[0];
      var f1, g1 := Preceded(Next(s, t), ts[1..], to, f, g);
      f' := (k: nat) => if k == 0 then s else f1(k - 1);
      g' := (k: nat) => if k == 0 then t else g1(k - 1);
      forall k: nat ensures StepOn(f', g', k) {
        if k > 0 {
          assert StepOn(f1, g1, k - 1);
        }
      }
    }
  }

  // ----- what is left over from earlier attempts -----

  lemma {:induction false} NoTokens(q: seq<Item>, k: nat)
    requires Tokens(q) == [] && k < |q|
    ensures Noise(q[k])
  {
    if k > 0 {
      NoTokens(q[1..], k - 1);
    }
  }

  /** An idle AUTH machine drops frames and timeouts. */
  lemma NoiseDropped(s: Sys)
    requires s.queue != [] && Noise(s.queue[0]) && !A.Waiting(s.m)
    ensures Enabled(s, GO) && Next(s, GO) == s.(queue := s.queue[1..])
  {
    ReportedIs([]);
    assert s.queue[1..] + [] == s.queue[1..];
  }

  /** What is queued before an item is dispatched first. */
  lemma {:induction false} Clears(s: Sys, q: seq<Item>, it: Item) returns (ts: seq<Step>)
    requires s.queue == q + [it] && !A.Waiting(s.m) && s.cntl.curr != C.Idle
    requires forall k: nat :: k < |q| ==> Noise(q[k])
    ensures Leads(s, ts, s.(queue := [it])) && NoFrames(ts)
    decreases |q|
  {
    if q == [] {
      ts := [];
    } else {
      assert Noise(q[0]);
      NoiseDropped(s);
      assert s.queue[1..] == q[1..] + [it];
      var rest := Clears(Next(s, GO), q[1..], it);
      LeadsOn(s, GO, rest, s.(queue := [it]));
      ts := [GO] + rest;
    }
  }

  /** A timer that still runs expires, its callback enqueues, and the timeouts are dispatched. */
  lemma {:induction false} Quiets(s: Sys) returns (ts: seq<Step>)
    requires !A.Waiting(s.m) && s.cntl.curr != C.Idle
    requires forall k: nat :: k < |s.queue| ==> Noise(s.queue[k])
    ensures Leads(s, ts, s.(queue := [], firing := false, m := s.m.(pending := false))) && NoFrames(ts)
    decreases 3 * Count(s.m.pending) + 2 * Count(s.firing) + |s.queue|
  {
    if s.queue == [] && !s.firing && !s.m.pending {
      ts := [];
    } else {
      var t := if s.firing then CallbackEnqueues else if s.m.pending then Expire else GO;
      if t == GO {
        assert Noise(s.queue[0]);
        NoiseDropped(s);
      }
      var rest := Quiets(Next(s, t));
      LeadsOn(s, t, rest, s.(queue := [], firing := false, m := s.m.(pending := false)));
      ts := [t] + rest;
    }
  }

  // ----- from the request to the repetition -----

  /** Association blocked in the looping configuration, nothing queued but one item. */
  predicate Poised(s: Sys, c: C.CntlState, it: Item) {
    Loops(s) && s.cntl.curr == c && s.queue == [it] && !A.Waiting(s.m) && !s.m.bssid.group
  }

  /** And no timer runs. */
  predicate Lone(s: Sys, c: C.CntlState, it: Item) {
    Poised(s, c, it) && !s.firing && !s.m.pending
  }

  lemma RefusedAsk(s: Sys, c: C.CntlState, ask: A.Request)
    requires Lone(s, c, ToAuth(ask))
    ensures Enabled(s, GO) && Lone(Next(s, GO), c, ToCntl(C.AuthConf(false)))
    ensures Next(s, GO) == s.(queue := [ToCntl(C.AuthConf(false))])
  {
    ReportedIs(A.OnRequest(s.m, ask, Env(s, GO)).effects);
  }

  lemma AskedAgain(s: Sys)
    requires Lone(s, C.WaitAuth, ToCntl(C.AuthConf(false)))
    ensures Enabled(s, GO) && Lone(Next(s, GO), C.WaitAuth2, ToAuth(A.Request(s.m.bssid, A.SharedKey)))
  {
    SentIs(CntlOutcome(s, s.queue[0].msg).effects, s.m.bssid);
  }

  lemma AskedOpen(s: Sys)
    requires Lone(s, C.WaitAuth2, ToCntl(C.AuthConf(false)))
    ensures Enabled(s, GO) && Repeats(Next(s, GO))
  {
    SentIs(CntlOutcome(s, s.queue[0].msg).effects, s.m.bssid);
  }

  lemma Joined(s: Sys)
    requires Lone(s, C.WaitJoin, ToCntl(C.JoinConf(true))) && s.cntl.auxBssType == C.Infra
    ensures Enabled(s, GO) && Lone(Next(s, GO), C.WaitAuth, ToAuth(A.Request(s.m.bssid, A.SharedKey)))
  {
    SentIs(CntlOutcome(s, s.queue[0].msg).effects, s.m.bssid);
  }

  lemma RefusalsRepeat(s: Sys, ask: A.Request) returns (ts: seq<Step>, to: Sys)
    requires Lone(s, C.WaitAuth, ToAuth(ask))
    ensures Leads(s, ts, to) && NoFrames(ts) && Repeats(to)
  {
    RefusedAsk(s, C.WaitAuth, ask);
    var a := Next(s, GO);
    AskedAgain(a);
    var b := Next(a, GO);
    RefusedAsk(b, C.WaitAuth2, b.queue[0].ask);
    var d := Next(b, GO);
    AskedOpen(d);
    to := Next(d, GO);
    assert Leads(to, [], to);
    LeadsOn(d, GO, [], to);
    LeadsOn(b, GO, [GO] + [], to);
    LeadsOn(a, GO, [GO] + ([GO] + []), to);
    LeadsOn(s, GO, [GO] + ([GO] + ([GO] + [])), to);
    ts := [GO] + ([GO] + ([GO] + ([GO] + [])));
  }

  /** In that configuration one successful join is enough to get into the repetition. */
  lemma BlockedAttemptReaches(s: Sys, i: nat) returns (ts: seq<Step>, to: Sys)
    requires Poised(s, C.WaitJoin, ToSync(C.JoinReq(i)))
    ensures Leads(s, ts, to) && NoFrames(ts) && Repeats(to)
  {
    var yes := SyncAnswers(true, C.Infra);
    var a := Next(s, GO);
    assert a.queue == [];
    var quiet := Quiets(a);
    var b := a.(firing := false, m := a.m.(pending := false));
    var d := Next(b, yes);
    assert d.queue == [ToCntl(C.JoinConf(true))];
    Joined(d);
    var e := Next(d, GO);
    var rest;
    rest, to := RefusalsRepeat(e, e.queue[0].ask);
    LeadsOn(d, GO, rest, to);
    LeadsOn(b, yes, [GO] + rest, to);
    LeadsThen(a, quiet, b, [yes] + ([GO] + rest), to);
    LeadsOn(s, GO, quiet + ([yes] + ([GO] + rest)), to);
    ts := [GO] + (quiet + ([yes] + ([GO] + rest)));
  }

  /** The present network is left and the first candidate is joined. */
  lemma Leaves(s: Sys) returns (ts: seq<Step>, to: Sys)
    requires Poised(s, C.WaitDisassoc, ToAssoc(C.DisassocReq)) && s.cntl.bssNr >= 1
    ensures Leads(s, ts, to) && NoFrames(ts) && Poised(to, C.WaitJoin, ToSync(C.JoinReq(0)))
  {
    var done := AssocAnswers(true);
    var a := Next(s, GO);
    assert a.queue == [];
    var b := Next(a, done);
    assert b.queue == [ToCntl(C.DisassocConf)];
    SentIs(CntlOutcome(b, C.DisassocConf).effects, b.m.bssid);
    to := Next(b, GO);
    assert Leads(to, [], to);
    LeadsOn(b, GO, [], to);
    LeadsOn(a, done, [GO] + [], to);
    LeadsOn(s, GO, [done] + ([GO] + []), to);
    ts := [GO] + ([done] + ([GO] + []));
  }

  /** From rest into the repetition. */
  lemma RequestReaches(s: Sys, msg: C.Message, addr: A.Mac) returns (ts: seq<Step>, to: Sys)
    requires AtRest(s) && Begin(msg) && Individual(s, msg, addr) && Loops(s) && Tries(s.cntl, msg)
    ensures Leads(Start(s, msg, addr), ts, to) && NoFrames(ts) && Repeats(to)
  {
    var s0 := Start(s, msg, addr);
    var at := s.(m := s0.m);
    FirstRequest(at.cntl.(alg := at.m.alg), msg, at.m.bssid);
    var it := Sent(CntlOutcome(at, msg).effects, at.m.bssid)[0];
    forall k: nat | k < |s.queue| ensures Noise(s.queue[k]) {
      NoTokens(s.queue, k);
    }
    var first := Clears(s0, s.queue, it);
    var a := s0.(queue := [it]);
    var rest;
    if a.cntl.curr == C.WaitJoin {
      rest, to := BlockedAttemptReaches(a, 0);
    } else {
      var leave, b := Leaves(a);
      var join;
      join, to := BlockedAttemptReaches(b, 0);
      LeadsThen(a, leave, b, join, to);
      rest := leave + join;
    }
    LeadsThen(s0, first, a, rest, to);
    ts := first + rest;
  }

  // ----- the exact condition -----

  /** What is left to do bounds the length of a run without frames. */
  lemma {:induction false} Dwindles(f: nat -> Sys, g: nat -> Step, s: Sys, k: nat, left: nat, work: nat)
    requires Unending(f, g, s) && Inv(s) && Left(s) <= left && Work(s) <= work
    ensures Inv(f(k)) && k + Work(f(k)) <= work && Left(f(k)) <= left
  {
    if k > 0 {
      Dwindles(f, g, s, k - 1, left, work);
      assert StepOn(f, g, k - 1);
      StepBounds(f(k - 1), g(k - 1), f(k), 0, k - 1, 0, left, work);
    }
  }

  /**
   * From any state at rest, with whatever is still queued and whichever timer
   * still runs: a connection attempt can go on for ever if and only if it tries
   * a candidate in the looping configuration.
   */
  lemma NeverEndsExactlyWhen(s: Sys, msg: C.Message, addr: A.Mac)
    requires AtRest(s) && Begin(msg) && Individual(s, msg, addr)
    ensures (exists f: nat -> Sys, g: nat -> Step :: Unending(f, g, Start(s, msg, addr)))
       <==> Loops(s) && Tries(s.cntl, msg)
  {
    var s0 := Start(s, msg, addr);
    if Loops(s) && Tries(s.cntl, msg) {
      var ts, to := RequestReaches(s, msg, addr);
      var f, g := BlockedAttemptNeverEnds(to);
      f, g := Preceded(s0, ts, to, f, g);
    } else {
      StartIsSound(s, msg, addr);
      forall f: nat -> Sys, g: nat -> Step ensures !Unending(f, g, s0) {
        if Unending(f, g, s0) {
          Dwindles(f, g, s0, Work(s0) + 1, Left(s0), Work(s0));
        }
      }
    }
  }
}
