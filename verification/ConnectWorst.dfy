// The bound on a connection attempt is reached: for every number n of
// candidates there is an attempt that handles exactly 5n + 2 confirmations.
module ConnectWorst {
  import A = Auth
  import C = Connect
  import opened ConnectSystem

  /** The steps lead from s to `to`, and n of them handle a confirmation. */
  ghost predicate Takes(s: Sys, ts: seq<Step>, to: Sys, n: nat)
    decreases |ts|
  {
    if ts == [] then s == to && n == 0
    else
      && Enabled(s, ts[0])
      && Count(Handles(s, ts[0])) <= n
      && Takes(Next(s, ts[0]), ts[1..], to, n - Count(Handles(s, ts[0])))
  }

  lemma One(s: Sys, t: Step)
    requires Enabled(s, t)
    ensures Takes(s, [t], Next(s, t), Count(Handles(s, t)))
  {
    assert [t][1..] == [];
    assert Takes(Next(s, t), [], Next(s, t), 0);
  }

  lemma {:induction false} Then(a: Sys, xs: seq<Step>, b: Sys, m: nat, ys: seq<Step>, c: Sys, n: nat)
    requires Takes(a, xs, b, m) && Takes(b, ys, c, n)
    ensures Takes(a, xs + ys, c, m + n)
    decreases |xs|
  {
    if xs == [] {
      assert xs + ys == ys;
    } else {
      assert (xs + ys)[1..] == xs[1..] + ys;
      Then(Next(a, xs[0]), xs[1..], b, m - Count(Handles(a, xs[0])), ys, c, n);
    }
  }

  /** Candidate i of n is being tried, and nothing is under way but what is queued. */
  predicate At(s: Sys, c: C.CntlState, q: seq<Item>, i: nat, n: nat) {
    && s.cntl.curr == c && s.queue == q && s.cntl.bssIdx == i && s.cntl.bssNr == n
    && !s.blocked && s.cntl.cfg.authMode == C.ModeAutoSwitch && s.cntl.cfg.bssType == C.Adhoc
    && s.sync == Free && s.assoc == Free
    && !A.Waiting(s.m) && !s.firing && !s.m.pending && !s.m.bssid.group
  }

  /** A confirmation is handled; what it makes the control machine send is all that is queued then. */
  lemma Handled(s: Sys, msg: C.Message, c: C.CntlState, i: nat, n: nat) returns (to: Sys)
    requires At(s, c, [ToCntl(msg)], i, n)
    ensures to == s.(cntl := CntlOutcome(s, msg).s, queue := Sent(CntlOutcome(s, msg).effects, s.m.bssid))
    ensures Takes(s, [GO], to, 1)
  {
    to := Next(s, GO);
    One(s, GO);
    assert s.queue[1..] == [];
    assert to.queue == Sent(CntlOutcome(s, msg).effects, s.m.bssid);
  }

  /** SYNC takes a request and answers it. */
  lemma SyncRound(s: Sys, c: C.CntlState, req: C.Request, i: nat, n: nat) returns (ts: seq<Step>, to: Sys)
    requires At(s, c, [ToSync(req)], i, n)
    ensures Takes(s, ts, to, 0) && At(to, c, [ToCntl(SyncConf(req, true))], i, n)
    ensures req.JoinReq? ==> to.cntl.auxBssType == C.Infra
  {
    var a := Next(s, GO);
    assert a.queue == [];
    var yes := SyncAnswers(true, C.Infra);
    to := Next(a, yes);
    assert to.queue == [ToCntl(SyncConf(req, true))];
    One(s, GO);
    One(a, yes);
    Then(s, [GO], a, 0, [yes], to, 0);
    ts := [GO] + [yes];
  }

  /** ASSOC takes a request and refuses it. */
  lemma AssocRound(s: Sys, c: C.CntlState, req: C.Request, i: nat, n: nat) returns (ts: seq<Step>, to: Sys)
    requires At(s, c, [ToAssoc(req)], i, n)
    ensures Takes(s, ts, to, 0) && At(to, c, [ToCntl(AssocConf(req, false))], i, n)
    ensures to.cntl == s.cntl && to.m == s.m
  {
    var a := Next(s, GO);
    assert a.queue == [];
    var no := AssocAnswers(false);
    to := Next(a, no);
    assert to.queue == [ToCntl(AssocConf(req, false))];
    One(s, GO);
    One(a, no);
    Then(s, [GO], a, 0, [no], to, 0);
    ts := [GO] + [no];
  }

  /** The first frame of an exchange is out. */
  predicate AskedAt(s: Sys, c: C.CntlState, alg: A.Alg, i: nat, n: nat) {
    && s.m == A.Machine(A.WaitSeq2, alg, s.m.bssid, true)
    && At(s.(m := A.Machine(A.ReqIdle, alg, s.m.bssid, false)), c, [], i, n)
  }

  lemma AuthAsked(s: Sys, c: C.CntlState, alg: A.Alg, i: nat, n: nat)
    requires At(s, c, [ToAuth(A.Request(s.m.bssid, alg))], i, n) && !alg.OtherAlg?
    ensures Enabled(s, GO) && AskedAt(Next(s, GO), c, alg, i, n) && !Handles(s, GO)
  {
    ReportedIs(A.OnRequest(s.m, s.queue[0].ask, Env(s, GO)).effects);
  }

  lemma AuthHeard(s: Sys, c: C.CntlState, alg: A.Alg, i: nat, n: nat, f: A.Frame)
    requires AskedAt(s, c, alg, i, n) && f == A.Frame(true, s.m.bssid, 2, f.status)
    requires f.status == A.MLME_SUCCESS ==> alg == A.OpenSystem
    ensures var b := Next(s, FrameArrives(f));
            && Enabled(b, GO) && !Handles(b, GO) && Next(b, GO).m.alg == alg
            && At(Next(b, GO), c, [ToCntl(C.AuthConf(f.status == A.MLME_SUCCESS))], i, n)
  {
    var b := Next(s, FrameArrives(f));
    assert b.queue == [AuthFrame(f)];
    ReportedIs(A.OnPeer(b.m, f, Env(b, GO)).effects);
  }

  /** A whole exchange; the access point answers the first frame with this status. */
  lemma AuthRound(s: Sys, c: C.CntlState, alg: A.Alg, i: nat, n: nat, status: nat) returns (ts: seq<Step>, to: Sys)
    requires At(s, c, [ToAuth(A.Request(s.m.bssid, alg))], i, n) && !alg.OtherAlg?
    requires status == A.MLME_SUCCESS ==> alg == A.OpenSystem
    ensures Takes(s, ts, to, 0) && At(to, c, [ToCntl(C.AuthConf(status == A.MLME_SUCCESS))], i, n) && to.m.alg == alg
  {
    AuthAsked(s, c, alg, i, n);
    var a := Next(s, GO);
    var f := A.Frame(true, a.m.bssid, 2, status);
    AuthHeard(a, c, alg, i, n, f);
    var b := Next(a, FrameArrives(f));
    to := Next(b, GO);
    One(s, GO);
    One(a, FrameArrives(f));
    One(b, GO);
    Then(a, [FrameArrives(f)], b, 0, [GO], to, 0);
    Then(s, [GO], a, 0, [FrameArrives(f)] + [GO], to, 0);
    ts := [GO] + ([FrameArrives(f)] + [GO]);
  }

  /** Where the control machine turns when candidate i is given up. */
  predicate Onward(s: Sys, i: nat, n: nat) {
    if i < n then At(s, C.WaitJoin, [ToSync(C.JoinReq(i))], i, n)
    else At(s, C.WaitStart, [ToSync(C.StartReq)], i, n)
  }

  /** Join accepted: the first authentication request. */
  lemma Joins(s: Sys, i: nat, n: nat) returns (ts: seq<Step>, to: Sys)
    requires At(s, C.WaitJoin, [ToSync(C.JoinReq(i))], i, n)
    ensures Takes(s, ts, to, 1) && At(to, C.WaitAuth, [ToAuth(A.Request(to.m.bssid, A.SharedKey))], i, n)
  {
    var xs, a := SyncRound(s, C.WaitJoin, C.JoinReq(i), i, n);
    to := Handled(a, C.JoinConf(true), C.WaitJoin, i, n);
    SentIs(CntlOutcome(a, C.JoinConf(true)).effects, a.m.bssid);
    Then(s, xs, a, 0, [GO], to, 1);
    ts := xs + [GO];
  }

  /** Shared key refused: asked again. */
  lemma FirstRefused(s: Sys, i: nat, n: nat) returns (ts: seq<Step>, to: Sys)
    requires At(s, C.WaitAuth, [ToAuth(A.Request(s.m.bssid, A.SharedKey))], i, n)
    ensures Takes(s, ts, to, 1) && At(to, C.WaitAuth2, [ToAuth(A.Request(to.m.bssid, A.SharedKey))], i, n)
  {
    var xs, a := AuthRound(s, C.WaitAuth, A.SharedKey, i, n, 1);
    to := Handled(a, C.AuthConf(false), C.WaitAuth, i, n);
    SentIs(CntlOutcome(a, C.AuthConf(false)).effects, a.m.bssid);
    Then(s, xs, a, 0, [GO], to, 1);
    ts := xs + [GO];
  }

  /** Refused again: open system is tried. */
  lemma SecondRefused(s: Sys, i: nat, n: nat) returns (ts: seq<Step>, to: Sys)
    requires At(s, C.WaitAuth2, [ToAuth(A.Request(s.m.bssid, A.SharedKey))], i, n)
    ensures Takes(s, ts, to, 1) && At(to, C.WaitAuth2, [ToAuth(A.Request(to.m.bssid, A.OpenSystem))], i, n)
  {
    var xs, a := AuthRound(s, C.WaitAuth2, A.SharedKey, i, n, 1);
    to := Handled(a, C.AuthConf(false), C.WaitAuth2, i, n);
    SentIs(CntlOutcome(a, C.AuthConf(false)).effects, a.m.bssid);
    Then(s, xs, a, 0, [GO], to, 1);
    ts := xs + [GO];
  }

  /** Open system accepted: association is asked for. */
  lemma OpenAccepted(s: Sys, i: nat, n: nat) returns (ts: seq<Step>, to: Sys)
    requires At(s, C.WaitAuth2, [ToAuth(A.Request(s.m.bssid, A.OpenSystem))], i, n)
    ensures Takes(s, ts, to, 1) && At(to, C.WaitAssoc, [ToAssoc(C.AssocReq)], i, n)
  {
    var xs, a := AuthRound(s, C.WaitAuth2, A.OpenSystem, i, n, A.MLME_SUCCESS);
    to := Handled(a, C.AuthConf(true), C.WaitAuth2, i, n);
    SentIs(CntlOutcome(a, C.AuthConf(true)).effects, a.m.bssid);
    Then(s, xs, a, 0, [GO], to, 1);
    ts := xs + [GO];
  }

  /** Association refused: the next candidate, or an IBSS of one's own. */
  lemma AssocRefused(s: Sys, i: nat, n: nat) returns (ts: seq<Step>, to: Sys)
    requires At(s, C.WaitAssoc, [ToAssoc(C.AssocReq)], i, n) && i < n
    ensures Takes(s, ts, to, 1) && Onward(to, i + 1, n)
  {
    var xs, a := AssocRound(s, C.WaitAssoc, C.AssocReq, i, n);
    to := Handled(a, C.AssocConf(false), C.WaitAssoc, i, n);
    SentIs(CntlOutcome(a, C.AssocConf(false)).effects, a.m.bssid);
    Then(s, xs, a, 0, [GO], to, 1);
    ts := xs + [GO];
  }

  /** A candidate can cost five confirmations. */
  lemma OneCandidate(s: Sys, i: nat, n: nat) returns (ts: seq<Step>, to: Sys)
    requires Onward(s, i, n) && i < n
    ensures Takes(s, ts, to, 5) && Onward(to, i + 1, n)
  {
    var t1, a := Joins(s, i, n);
    var t2, b := FirstRefused(a, i, n);
    var t3, c := SecondRefused(b, i, n);
    var t4, d := OpenAccepted(c, i, n);
    var t5;
    t5, to := AssocRefused(d, i, n);
    Then(c, t4, d, 1, t5, to, 1);
    Then(b, t3, c, 1, t4 + t5, to, 2);
    Then(a, t2, b, 1, t3 + (t4 + t5), to, 3);
    Then(s, t1, a, 1, t2 + (t3 + (t4 + t5)), to, 4);
    ts := t1 + (t2 + (t3 + (t4 + t5)));
  }

  lemma {:induction false} AllCandidates(s: Sys, i: nat, n: nat) returns (ts: seq<Step>, to: Sys)
    requires Onward(s, i, n) && i <= n
    ensures Takes(s, ts, to, 5 * (n - i)) && Onward(to, n, n)
    decreases n - i
  {
    if i == n {
      ts, to := [], s;
    } else {
      var t1, a := OneCandidate(s, i, n);
      var t2;
      t2, to := AllCandidates(a, i + 1, n);
      Then(s, t1, a, 5, t2, to, 5 * (n - i - 1));
      ts := t1 + t2;
    }
  }

  /** The IBSS starts, and the attempt is over. */
  lemma Starts(s: Sys, n: nat) returns (ts: seq<Step>, to: Sys)
    requires Onward(s, n, n)
    ensures Takes(s, ts, to, 1) && to.cntl.curr == C.Idle && to.cntl.link.adhocOn
  {
    var xs, a := SyncRound(s, C.WaitStart, C.StartReq, n, n);
    to := Handled(a, C.StartConf(true), C.WaitStart, n, n);
    Then(s, xs, a, 0, [GO], to, 1);
    ts := xs + [GO];
  }

  /** Leaving the present network costs one confirmation before the first candidate. */
  lemma Leaves(s: Sys, i: nat, n: nat) returns (ts: seq<Step>, to: Sys)
    requires At(s, C.WaitDisassoc, [ToAssoc(C.DisassocReq)], i, n) && (n == 0 ==> i == 0)
    ensures Takes(s, ts, to, 1) && Onward(to, 0, n)
  {
    var xs, a := AssocRound(s, C.WaitDisassoc, C.DisassocReq, i, n);
    to := Handled(a, C.DisassocConf, C.WaitDisassoc, i, n);
    SentIs(CntlOutcome(a, C.DisassocConf).effects, a.m.bssid);
    Then(s, xs, a, 0, [GO], to, 1);
    ts := xs + [GO];
  }

  // ----- as a run -----

  lemma {:induction false} HandledFromFront(s: Sys, t: Step, q: Run, r: Run, k: nat)
    requires IsRun(q) && Enabled(s, t) && q.states[0] == Next(s, t) && k <= |q.steps|
    requires r == Run([s] + q.states, [t] + q.steps) && IsRun(r)
    ensures HandledBy(r, k + 1) == Count(Handles(s, t)) + HandledBy(q, k)
  {
    assert StepAt(r, k);
    if k == 0 {
      assert HandledBy(r, 0) == 0;
    } else {
      HandledFromFront(s, t, q, r, k - 1);
      assert StepAt(q, k - 1);
    }
  }

  lemma {:induction false} AsRun(s: Sys, ts: seq<Step>, to: Sys, n: nat) returns (r: Run)
    requires Takes(s, ts, to, n)
    ensures IsRun(r) && r.steps == ts && r.states[0] == s && r.states[|ts|] == to && HandledBy(r, |ts|) == n
    decreases |ts|
  {
    if ts == [] {
      r := Run([s], []);
    } else {
      var t := ts[0];
      var q := AsRun(Next(s, t), ts[1..], to, n - Count(Handles(s, t)));
      r := Run([s] + q.states, [t] + q.steps);
      forall k: nat | k < |r.steps| ensures StepAt(r, k) {
        if k >= 1 {
          assert StepAt(q, k - 1);
        }
      }
      HandledFromFront(s, t, q, r, |q.steps|);
    }
  }

  /** An attempt on n candidates, begun while connected. */
  lemma Begins(n: nat) returns (s: Sys, msg: C.Message)
    ensures AtRest(s) && !Loops(s) && msg.OidSsid? && msg.matches == n
    ensures At(Start(s, msg, A.Mac(false, 0)), C.WaitDisassoc, [ToAssoc(C.DisassocReq)], 0, n)
  {
    var link := C.Link(true, false, true, true, true, false, false);
    var cfg := C.Config(C.Adhoc, C.ModeAutoSwitch, false);
    var cntl := C.State(C.Idle, 0, 0, 0, 0, C.Infra, A.OpenSystem, cfg, link);
    s := Sys(cntl, A.Machine(A.ReqIdle, A.OpenSystem, A.Mac(false, 0), false), false, [], Free, Free, false);
    msg := C.OidSsid(n, false, false);
    SentIs([C.Send(C.DisassocReq)], A.Mac(false, 0));
    assert [] + Sent([C.Send(C.DisassocReq)], A.Mac(false, 0)) == [ToAssoc(C.DisassocReq)];
  }

  /** The bound of five confirmations a candidate and two besides is reached, for every n. */
  lemma BoundIsReached(n: nat) returns (s: Sys, msg: C.Message, r: Run)
    ensures AtRest(s) && !Loops(s) && msg.OidSsid? && msg.matches == n
    ensures IsRun(r) && r.states[0] == Start(s, msg, A.Mac(false, 0)) && r.states[|r.steps|].cntl.curr == C.Idle
    ensures HandledBy(r, |r.steps|) == 5 * n + 2
  {
    s, msg := Begins(n);
    var t1, a := Leaves(Start(s, msg, A.Mac(false, 0)), 0, n);
    var t2, b := AllCandidates(a, 0, n);
    var t3, c := Starts(b, n);
    Then(a, t2, b, 5 * n, t3, c, 1);
    Then(Start(s, msg, A.Mac(false, 0)), t1, a, 1, t2 + t3, c, 5 * n + 1);
    r := AsRun(Start(s, msg, A.Mac(false, 0)), t1 + (t2 + t3), c, 5 * n + 2);
  }
}
