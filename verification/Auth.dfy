// The authentication (AUTH) state machine of Module/auth.c and its timer.
//
// Handlers are functions from the machine to the new machine and what they
// enqueued or transmitted; a run interleaves them with the timer, whose
// callback enqueues MT2_AUTH_TIMEOUT in its own context some time after expiry.
module Auth {
  datatype AuthState = ReqIdle | WaitSeq2 | WaitSeq4

  datatype Alg = OpenSystem | SharedKey | OtherAlg(code: nat)

  datatype Mac = Mac(group: bool, id: nat)

  datatype Machine = Machine(
    curr: AuthState,
    alg: Alg,          // MlmeAux.Alg
    bssid: Mac,        // MlmeAux.Bssid
    pending: bool)     // timer_pending(&MlmeAux.AuthTimer)

  const MLME_SUCCESS: nat := 0
  const MLME_REJ_TIMEOUT: nat := 16
  const MLME_INVALID_FORMAT: nat := 0x51
  const MLME_FAIL_NO_RESOURCE: nat := 0x52
  const MLME_STATE_MACHINE_REJECT: nat := 0x53

  /** MT2_MLME_AUTH_REQ. */
  datatype Request = Request(addr: Mac, alg: Alg)

  /** A received authentication frame, `sane` when PeerAuthSanity accepts it. */
  datatype Frame = Frame(sane: bool, addr: Mac, seqNo: nat, status: nat)

  /** What a handler meets: association blocked, kernel allocation failing. */
  datatype Env = Env(blocked: bool, noMemory: bool)

  datatype Effect = Conf(status: nat) | Transmit(addr: Mac, seqNo: nat, alg: Alg)

  datatype Outcome = Outcome(m: Machine, effects: seq<Effect>)

  predicate Waiting(m: Machine) {
    m.curr != ReqIdle
  }

  /** MlmeAuthReqSanity: one of the two algorithms, to an individual address. */
  predicate Sane(req: Request) {
    !req.alg.OtherAlg? && !req.addr.group
  }

  function DelTimer(m: Machine): Machine {
    m.(pending := false)
  }

  /** add_timer, which a pending timer must never reach. */
  function AddTimer(m: Machine): Machine
    requires !m.pending
  {
    m.(pending := true)
  }

  function Confirm(m: Machine, status: nat): Outcome {
    Outcome(m.(curr := ReqIdle), [Conf(status)])
  }

  function AuthReqAction(m: Machine, req: Request, env: Env): Outcome {
    if env.blocked then Confirm(m, MLME_STATE_MACHINE_REJECT)
    else if !Sane(req) then Confirm(m, MLME_INVALID_FORMAT)
    else
      var n := DelTimer(m).(bssid := req.addr, alg := req.alg);
      if env.noMemory then Confirm(n, MLME_FAIL_NO_RESOURCE)
      else Outcome(AddTimer(n).(curr := WaitSeq2), [Transmit(req.addr, 1, req.alg)])
  }

  /** The frame a waiting machine takes as the answer numbered seqNo. */
  predicate Answers(m: Machine, f: Frame, seqNo: nat) {
    f.sane && f.addr == m.bssid && f.seqNo == seqNo
  }

  function PeerAtSeq2(m: Machine, f: Frame, env: Env): Outcome {
    if !Answers(m, f, 2) then Outcome(m, [])
    else
      var n := DelTimer(m);
      if f.status != MLME_SUCCESS then Confirm(n, f.status)
      else if m.alg == OpenSystem then Confirm(n, f.status)
      else if env.noMemory then Confirm(n, MLME_FAIL_NO_RESOURCE)
      else Outcome(AddTimer(n).(curr := WaitSeq4), [Transmit(f.addr, 3, m.alg)])
  }

  function PeerAtSeq4(m: Machine, f: Frame): Outcome {
    if !Answers(m, f, 4) then Outcome(m, []) else Confirm(DelTimer(m), f.status)
  }

  // ----- the transition table -----

  function OnRequest(m: Machine, req: Request, env: Env): Outcome {
    if Waiting(m) then Confirm(m, MLME_STATE_MACHINE_REJECT) else AuthReqAction(m, req, env)
  }

  function OnPeer(m: Machine, f: Frame, env: Env): Outcome {
    match m.curr
    case ReqIdle => Outcome(m, [])
    case WaitSeq2 => PeerAtSeq2(m, f, env)
    case WaitSeq4 => PeerAtSeq4(m, f)
  }

  function OnTimeout(m: Machine): Outcome {
    if Waiting(m) then Confirm(m, MLME_REJ_TIMEOUT) else Outcome(m, [])
  }

  // ----- the machine among its timer, its queue and its callers -----

  datatype System = System(
    m: Machine,
    firing: bool,        // the timer callback runs and has not enqueued yet
    timeouts: nat,       // MT2_AUTH_TIMEOUT messages in the queue
    handled: nat,        // requests dispatched to the machine
    overriding: nat,     // of these, how many found it waiting
    confs: nat)          // MT2_AUTH_CONF messages it produced

  datatype Step =
    | Ask(req: Request, env: Env)
    | Hear(f: Frame, env: Env)
    | TakeTimeout
    | Expire
    | Enqueue(accepted: bool)     // the callback's MlmeEnqueue
    | SetBssid(b: Mac)            // CNTL and SYNC write MlmeAux.Bssid too

  /** The handlers that call del_timer_sync wait for a running callback. */
  predicate Waits(m: Machine, t: Step) {
    match t
    case Ask(req, env) => !Waiting(m) && !env.blocked && Sane(req) && m.pending
    case Hear(f, _) => (m.curr == WaitSeq2 && Answers(m, f, 2)) || (m.curr == WaitSeq4 && Answers(m, f, 4))
    case _ => false
  }

  predicate Enabled(s: System, t: Step) {
    && (s.firing ==> !Waits(s.m, t))
    && (t.TakeTimeout? ==> s.timeouts > 0)
    && (t.Expire? ==> s.m.pending && !s.firing)
    && (t.Enqueue? ==> s.firing)
  }

  function Act(s: System, t: Step): Outcome {
    match t
    case Ask(req, env) => OnRequest(s.m, req, env)
    case Hear(f, env) => OnPeer(s.m, f, env)
    case TakeTimeout => OnTimeout(s.m)
    case Expire => Outcome(s.m.(pending := false), [])
    case Enqueue(_) => Outcome(s.m, [])
    case SetBssid(b) => Outcome(s.m.(bssid := b), [])
  }

  function Confs(es: seq<Effect>): nat {
    if es == [] then 0 else (if es[0].Conf? then 1 else 0) + Confs(es[1..])
  }

  function Next(s: System, t: Step): System
    requires Enabled(s, t)
  {
    var o := Act(s, t);
    System(
      o.m,
      if t.Expire? then true else if t.Enqueue? then false else s.firing,
      if t.TakeTimeout? then s.timeouts - 1
      else if t.Enqueue? && t.accepted then s.timeouts + 1
      else s.timeouts,
      if t.Ask? then s.handled + 1 else s.handled,
      if t.Ask? && Waiting(s.m) then s.overriding + 1 else s.overriding,
      s.confs + Confs(o.effects))
  }

  /** Somebody will still deliver a timeout to the machine. */
  predicate Attended(s: System) {
    s.m.pending || s.firing || s.timeouts > 0
  }

  predicate Wedged(s: System) {
    Waiting(s.m) && !Attended(s)
  }

  predicate Balanced(s: System) {
    s.handled == s.confs + s.overriding + (if Waiting(s.m) then 1 else 0)
  }

  datatype Run = Run(states: seq<System>, steps: seq<Step>)

  predicate Initial(s: System) {
    s.m.curr == ReqIdle && !s.m.pending && !s.firing && s.timeouts == 0
    && s.handled == 0 && s.overriding == 0 && s.confs == 0
  }

  ghost predicate IsRun(r: Run) {
    && |r.states| == |r.steps| + 1
    && Initial(r.states[0])
    && forall k: nat :: k < |r.steps| ==> StepAt(r, k)
  }

  ghost predicate StepAt(r: Run, k: nat)
    requires k < |r.steps| && |r.states| == |r.steps| + 1
  {
    Enabled(r.states[k], r.steps[k]) && r.states[k + 1] == Next(r.states[k], r.steps[k])
  }

  // ----- what one step does -----

  lemma ActConfs(s: System, t: Step)
    ensures Confs(Act(s, t).effects) ==
            (if t.Ask? then 1 else 0) - (if t.Ask? && Waiting(s.m) then 1 else 0)
            + (if Waiting(s.m) then 1 else 0) - (if Waiting(Act(s, t).m) then 1 else 0)
  {
    var es := Act(s, t).effects;
    assert |es| <= 1;
    if |es| == 1 {
      assert es[1..] == [];
    }
  }

  /**
   * A step wedges the machine exactly when it is the callback's enqueue that
   * fails, of a waiting machine with no other timeout on its way.
   */
  lemma WedgesExactlyWhen(s: System, t: Step)
    requires Enabled(s, t) && !Wedged(s)
    ensures Wedged(Next(s, t)) <==>
            t == Enqueue(false) && Waiting(s.m) && !s.m.pending && s.timeouts == 0
  {
  }

  /** A wedged machine is freed by nothing but a matching frame or another request. */
  lemma WedgedStays(s: System, t: Step)
    requires Enabled(s, t) && Wedged(s) && !t.Ask? && !Waits(s.m, t)
    ensures Wedged(Next(s, t)) && Act(s, t).effects == []
  {
  }

  // ----- what causes what -----

  /** A request is acceptable: one of the two algorithms, to an individual address, association not blocked. */
  predicate Acceptable(m: Machine, t: Step) {
    t.Ask? && m.curr == ReqIdle && !t.env.blocked && t.req.alg in {OpenSystem, SharedKey} && !t.req.addr.group
  }

  /** The frame numbered seqNo of the station that was asked last. */
  predicate AnswersAs(m: Machine, t: Step, seqNo: nat) {
    t.Hear? && t.f.sane && t.f.addr == m.bssid && t.f.seqNo == seqNo
  }

  /**
   * Which status is confirmed, and when: a frame that ends an exchange is
   * confirmed with its own status, the second one of an open-system exchange or
   * of any that was refused, and the fourth one in any case.
   */
  lemma ConfirmsExactlyWhen(s: System, t: Step, status: nat)
    ensures Conf(status) in Act(s, t).effects <==>
      || (AnswersAs(s.m, t, 2) && s.m.curr == WaitSeq2 && (t.f.status != 0 || s.m.alg == OpenSystem) && status == t.f.status)
      || (AnswersAs(s.m, t, 4) && s.m.curr == WaitSeq4 && status == t.f.status)
      || (t.TakeTimeout? && s.m.curr != ReqIdle && status == 16)
      || (t.Ask? && (s.m.curr != ReqIdle || t.env.blocked) && status == 0x53)
      || (t.Ask? && s.m.curr == ReqIdle && !t.env.blocked && !Acceptable(s.m, t) && status == 0x51)
      || (Acceptable(s.m, t) && t.env.noMemory && status == 0x52)
      || (AnswersAs(s.m, t, 2) && s.m.curr == WaitSeq2 && t.f.status == 0 && s.m.alg != OpenSystem
          && t.env.noMemory && status == 0x52)
  {
  }

  /** Which frame goes out, and when: the first one on an acceptable request, the third one on a successful
      second one of a shared-key exchange. */
  lemma TransmitsExactlyWhen(s: System, t: Step, addr: Mac, seqNo: nat, alg: Alg)
    ensures Transmit(addr, seqNo, alg) in Act(s, t).effects <==>
      || (Acceptable(s.m, t) && !t.env.noMemory && seqNo == 1 && addr == t.req.addr && alg == t.req.alg)
      || (AnswersAs(s.m, t, 2) && s.m.curr == WaitSeq2 && t.f.status == 0 && s.m.alg != OpenSystem && !t.env.noMemory
          && seqNo == 3 && addr == s.m.bssid && alg == s.m.alg)
  {
  }

  /** The machine waits exactly for the answer to the frame it sent, with its timer started anew, and is
      idle after every confirmation; a step without either changes neither state nor algorithm. */
  lemma MachineFollows(s: System, t: Step)
    ensures var n := Act(s, t).m; var es := Act(s, t).effects;
      && |es| <= 1
      && (|es| == 1 && es[0].Conf? ==> n.curr == ReqIdle)
      && (|es| == 1 && es[0].Transmit? ==>
            n == Machine(if es[0].seqNo == 1 then WaitSeq2 else WaitSeq4, es[0].alg, es[0].addr, true))
      && (es == [] ==> n.curr == s.m.curr && n.alg == s.m.alg && n.bssid == (if t.SetBssid? then t.b else s.m.bssid)
                       && n.pending == (s.m.pending && !t.Expire?))
  {
  }

  /** A confirmed request leaves no timer behind, unless it was refused unread or timed out. */
  lemma ConfirmationStopsTimer(s: System, t: Step)
    requires Act(s, t).effects != [] && Act(s, t).effects[0].Conf?
    ensures Act(s, t).m.pending <==> s.m.pending && !t.Hear? && !Acceptable(s.m, t)
    ensures Act(s, t).m.alg == (if Acceptable(s.m, t) then t.req.alg else s.m.alg)
    ensures Act(s, t).m.bssid == (if Acceptable(s.m, t) then t.req.addr else s.m.bssid)
  {
  }

  // ----- on every run -----

  /** No accounting is ever lost: every request was confirmed, overridden, or is being served. */
  lemma {:induction false} EveryRequestAccountedFor(r: Run, k: nat)
    requires IsRun(r) && k <= |r.steps|
    ensures Balanced(r.states[k])
  {
    if k > 0 {
      EveryRequestAccountedFor(r, k - 1);
      assert StepAt(r, k - 1);
      ActConfs(r.states[k - 1], r.steps[k - 1]);
    }
  }

  /** While the callback's enqueues succeed a waiting machine always has a timeout coming. */
  lemma {:induction false} NeverWedges(r: Run, k: nat)
    requires IsRun(r) && k <= |r.steps| && Enqueue(false) !in r.steps[..k]
    ensures Waiting(r.states[k].m) ==> Attended(r.states[k])
  {
    if k > 0 {
      assert r.steps[..k] == r.steps[..k - 1] + [r.steps[k - 1]];
      NeverWedges(r, k - 1);
      assert StepAt(r, k - 1);
      WedgesExactlyWhen(r.states[k - 1], r.steps[k - 1]);
    }
  }

  /** The shortest way a waiting, attended machine gets its timeout. */
  function Rescue(s: System): seq<Step> {
    if s.timeouts > 0 then [TakeTimeout]
    else if s.firing then [Enqueue(true), TakeTimeout]
    else [Expire, Enqueue(true), TakeTimeout]
  }

  ghost predicate Leads(s: System, ts: seq<Step>, to: System)
    decreases |ts|
  {
    if ts == [] then s == to
    else Enabled(s, ts[0]) && Leads(Next(s, ts[0]), ts[1..], to)
  }

  /** With no help from the peer, a waiting machine that is not wedged confirms after at most three steps. */
  lemma TimerAlwaysAnswers(s: System) returns (to: System)
    requires Waiting(s.m) && Attended(s)
    ensures Leads(s, Rescue(s), to) && to.m.curr == ReqIdle && to.confs == s.confs + 1
  {
    if s.timeouts > 0 {
      to := TakesTimeout(s);
    } else {
      var fired := if s.firing then s else Next(s, Expire);
      var queued := Next(fired, Enqueue(true));
      to := TakesTimeout(queued);
      assert [Enqueue(true), TakeTimeout][1..] == [TakeTimeout];
      assert [Expire, Enqueue(true), TakeTimeout][1..] == [Enqueue(true), TakeTimeout];
      assert Leads(fired, [Enqueue(true), TakeTimeout], to);
    }
  }

  lemma TakesTimeout(s: System) returns (to: System)
    requires Waiting(s.m) && s.timeouts > 0
    ensures Leads(s, [TakeTimeout], to) && to.m.curr == ReqIdle && to.confs == s.confs + 1
  {
    to := Next(s, TakeTimeout);
    assert Leads(to, [], to);
    assert [TakeTimeout][1..] == [];
    assert Confs([]) == 0;
    assert [Conf(MLME_REJ_TIMEOUT)][1..] == [];
  }

  // ----- what a success rests on -----

  /** From after step i up to k the machine kept serving the request of step i. */
  ghost predicate ServingSince(r: Run, i: nat, k: nat)
    requires IsRun(r)
  {
    && i < k <= |r.steps|
    && r.steps[i].Ask? && Sane(r.steps[i].req)
    && Act(r.states[i], r.steps[i]).effects == [Transmit(r.steps[i].req.addr, 1, r.steps[i].req.alg)]
    && forall t: nat :: i < t <= k ==> Waiting(r.states[t].m) && r.states[t].m.alg == r.steps[i].req.alg
  }

  /** At step j the second frame of the shared-key exchange was accepted and the third one sent. */
  ghost predicate ChallengedSince(r: Run, j: nat, k: nat)
    requires IsRun(r)
  {
    && j < k <= |r.steps|
    && r.steps[j].Hear? && r.states[j].m.curr == WaitSeq2
    && Answers(r.states[j].m, r.steps[j].f, 2) && r.steps[j].f.status == MLME_SUCCESS
    && Act(r.states[j], r.steps[j]).effects == [Transmit(r.steps[j].f.addr, 3, r.states[j].m.alg)]
    && forall t: nat :: j < t <= k ==> r.states[t].m.curr == WaitSeq4
  }

  lemma {:induction false} FindRequest(r: Run, k: nat) returns (i: nat)
    requires IsRun(r) && k <= |r.steps| && Waiting(r.states[k].m)
    ensures ServingSince(r, i, k)
  {
    assert StepAt(r, k - 1);
    if Waiting(r.states[k - 1].m) {
      i := FindRequest(r, k - 1);
    } else {
      i := k - 1;
    }
  }

  lemma {:induction false} FindChallenge(r: Run, k: nat) returns (j: nat)
    requires IsRun(r) && k <= |r.steps| && r.states[k].m.curr == WaitSeq4
    ensures ChallengedSince(r, j, k) && r.states[j].m.alg != OpenSystem && r.states[j].m.alg == r.states[k].m.alg
  {
    assert StepAt(r, k - 1);
    if r.states[k - 1].m.curr == WaitSeq4 {
      j := FindChallenge(r, k - 1);
    } else {
      j := k - 1;
    }
  }

  lemma RequestComesFirst(r: Run, i: nat, j: nat, k: nat)
    requires IsRun(r) && ServingSince(r, i, k) && ChallengedSince(r, j, k)
    ensures i < j
  {
    assert !Waiting(r.states[i].m);
    assert forall t: nat :: j <= t < k ==> Waiting(r.states[t].m);
  }

  /** MlmeAux.Bssid after some steps of the machine serving one request: what was written last. */
  function LastBssid(b: Mac, steps: seq<Step>): Mac {
    if steps == [] then b
    else
      var last := steps[|steps| - 1];
      if last.SetBssid? then last.b else LastBssid(b, steps[..|steps| - 1])
  }

  lemma {:induction false} BssidSince(r: Run, i: nat, k: nat)
    requires IsRun(r) && ServingSince(r, i, k)
    ensures r.states[k].m.bssid == LastBssid(r.steps[i].req.addr, r.steps[i + 1..k])
    decreases k
  {
    assert StepAt(r, k - 1);
    if k > i + 1 {
      BssidSince(r, i, k - 1);
      assert r.steps[i + 1..k][..k - i - 2] == r.steps[i + 1..k - 1];
      assert r.steps[i + 1..k][k - i - 2] == r.steps[k - 1];
    }
  }

  /** With nothing else written the address is the one requested. */
  lemma {:induction false} BssidKept(b: Mac, steps: seq<Step>)
    requires forall t: nat :: t < |steps| && steps[t].SetBssid? ==> steps[t].b == b
    ensures LastBssid(b, steps) == b
  {
    if steps != [] && !steps[|steps| - 1].SetBssid? {
      BssidKept(b, steps[..|steps| - 1]);
    }
  }

  /**
   * A success is confirmed only at the end of a whole exchange for one request:
   * two messages for an open-system request, four for a shared-key one. The
   * answering station is the one that MlmeAux.Bssid was last set to, by the
   * request or by others since.
   */
  lemma SuccessNeedsTheExchange(r: Run, k: nat) returns (i: nat, j: nat)
    requires IsRun(r) && k < |r.steps| && Conf(MLME_SUCCESS) in Act(r.states[k], r.steps[k]).effects
    ensures ServingSince(r, i, k) && r.steps[k].Hear? && r.steps[k].f.status == MLME_SUCCESS
    ensures r.steps[k].f.addr == LastBssid(r.steps[i].req.addr, r.steps[i + 1..k])
    ensures r.steps[i].req.alg == OpenSystem ==> Answers(r.states[k].m, r.steps[k].f, 2)
    ensures r.steps[i].req.alg == SharedKey ==>
              ChallengedSince(r, j, k) && i < j && Answers(r.states[k].m, r.steps[k].f, 4)
              && r.steps[j].f.addr == LastBssid(r.steps[i].req.addr, r.steps[i + 1..j])
  {
    i := FindRequest(r, k);
    BssidSince(r, i, k);
    j := k;
    if r.states[k].m.curr == WaitSeq4 {
      j := FindChallenge(r, k);
      RequestComesFirst(r, i, j, k);
      BssidSince(r, i, j);
    }
  }

  /** So a success comes from the station asked, if nobody wrote another address meanwhile. */
  lemma SuccessFromTheAddressAsked(r: Run, k: nat) returns (i: nat)
    requires IsRun(r) && k < |r.steps| && Conf(MLME_SUCCESS) in Act(r.states[k], r.steps[k]).effects
    ensures ServingSince(r, i, k)
    ensures (forall t: nat :: i < t < k && r.steps[t].SetBssid? ==> r.steps[t].b == r.steps[i].req.addr) ==>
              r.steps[k].f.addr == r.steps[i].req.addr
  {
    var j;
    i, j := SuccessNeedsTheExchange(r, k);
    var between := r.steps[i + 1..k];
    if forall t: nat :: i < t < k && r.steps[t].SetBssid? ==> r.steps[t].b == r.steps[i].req.addr {
      forall t: nat | t < |between| && between[t].SetBssid? ensures between[t].b == r.steps[i].req.addr {
        assert between[t] == r.steps[i + 1 + t];
      }
      BssidKept(r.steps[i].req.addr, between);
    }
  }

  function Fresh(b: Mac): System {
    System(Machine(ReqIdle, OpenSystem, b, false), false, 0, 0, 0, 0)
  }

  /** A run of three steps from the start. */
  function ThreeSteps(s: System, a: Step, b: Step, c: Step): Run
    requires Enabled(s, a) && Enabled(Next(s, a), b) && Enabled(Next(Next(s, a), b), c)
  {
    var s1 := Next(s, a);
    var s2 := Next(s1, b);
    Run([s, s1, s2, Next(s2, c)], [a, b, c])
  }

  /** Otherwise another may answer: a request to x, MlmeAux.Bssid rewritten to y, and the answer of y is a success. */
  lemma AnotherMayAnswer(x: Mac, y: Mac) returns (r: Run)
    requires !x.group
    ensures IsRun(r) && |r.steps| == 3 && r.steps[0].Ask? && r.steps[0].req.addr == x && ServingSince(r, 0, 2)
    ensures r.steps[1] == SetBssid(y) && r.steps[2].Hear? && r.steps[2].f.addr == y
    ensures Act(r.states[2], r.steps[2]).effects == [Conf(MLME_SUCCESS)]
  {
    var env := Env(false, false);
    r := ThreeSteps(Fresh(x), Ask(Request(x, OpenSystem), env), SetBssid(y), Hear(Frame(true, y, 2, MLME_SUCCESS), env));
    forall k: nat | k < 3 ensures StepAt(r, k) {
    }
  }

  /** A shared-key exchange can succeed: the request, the challenge, and the answer to the third frame. */
  lemma SharedKeyCanSucceed(x: Mac) returns (r: Run)
    requires !x.group
    ensures IsRun(r) && |r.steps| == 3 && r.steps[0].Ask? && r.steps[0].req == Request(x, SharedKey)
    ensures r.steps[1].Hear? && r.steps[1].f.seqNo == 2 && Act(r.states[1], r.steps[1]).effects == [Transmit(x, 3, SharedKey)]
    ensures r.steps[2].Hear? && r.steps[2].f.seqNo == 4 && Act(r.states[2], r.steps[2]).effects == [Conf(0)]
  {
    var env := Env(false, false);
    r := ThreeSteps(Fresh(x), Ask(Request(x, SharedKey), env), Hear(Frame(true, x, 2, 0), env), Hear(Frame(true, x, 4, 0), env));
    forall k: nat | k < 3 ensures StepAt(r, k) {
    }
  }

  /** The machine can be wedged: a request, the timer runs out, and its callback finds the queue full. */
  lemma WedgeIsReachable(x: Mac) returns (r: Run)
    requires !x.group
    ensures IsRun(r) && |r.steps| == 3 && Wedged(r.states[3])
    ensures r.steps[0].Ask? && r.steps[0].req.addr == x && r.steps[1] == Expire && r.steps[2] == Enqueue(false)
  {
    r := ThreeSteps(Fresh(x), Ask(Request(x, OpenSystem), Env(false, false)), Expire, Enqueue(false));
    forall k: nat | k < 3 ensures StepAt(r, k) {
    }
  }

  // ----- the machine in place -----

  class AuthMachine {
    var curr: AuthState
    var alg: Alg
    var bssid: Mac
    var pending: bool
    var out: seq<Effect>

    ghost function View(): Machine
      reads this
    {
      Machine(curr, alg, bssid, pending)
    }

    ghost predicate Did(o: Outcome, before: seq<Effect>)
      reads this
    {
      View() == o.m && out == before + o.effects
    }

    constructor ()
      ensures View() == Machine(ReqIdle, OpenSystem, Mac(false, 0), false) && out == []
    {
      curr, alg, bssid, pending, out := ReqIdle, OpenSystem, Mac(false, 0), false, [];
    }

    method StartTimer()
      requires !pending
      modifies this`pending
      ensures View() == AddTimer(old(View()))
    {
      pending := true;
    }

    method StopTimer()
      modifies this`pending
      ensures View() == DelTimer(old(View()))
    {
      pending := false;
    }

    method Report(status: nat)
      modifies this`curr, this`out
      ensures Did(Confirm(old(View()), status), old(out))
    {
      curr := ReqIdle;
      out := out + [Conf(status)];
    }

    method MlmeAuthReqAction(req: Request, env: Env)
      modifies this
      ensures Did(AuthReqAction(old(View()), req, env), old(out))
    {
      if env.blocked {
        Report(MLME_STATE_MACHINE_REJECT);
      } else if Sane(req) {
        if pending {
          StopTimer();
        }
        bssid := req.addr;
        alg := req.alg;
        if env.noMemory {
          Report(MLME_FAIL_NO_RESOURCE);
          return;
        }
        out := out + [Transmit(req.addr, 1, req.alg)];
        StartTimer();
        curr := WaitSeq2;
      } else {
        Report(MLME_INVALID_FORMAT);
      }
    }

    method PeerAuthRspAtSeq2Action(f: Frame, env: Env)
      modifies this
      ensures Did(PeerAtSeq2(old(View()), f, env), old(out))
    {
      if f.sane && bssid == f.addr && f.seqNo == 2 {
        StopTimer();
        if f.status == MLME_SUCCESS {
          if alg == OpenSystem {
            Report(f.status);
          } else {
            if env.noMemory {
              Report(MLME_FAIL_NO_RESOURCE);
              return;
            }
            out := out + [Transmit(f.addr, 3, alg)];
            StartTimer();
            curr := WaitSeq4;
          }
        } else {
          Report(f.status);
        }
      }
    }

    method PeerAuthRspAtSeq4Action(f: Frame)
      modifies this
      ensures Did(PeerAtSeq4(old(View()), f), old(out))
    {
      if f.sane && bssid == f.addr && f.seqNo == 4 {
        StopTimer();
        Report(f.status);
      }
    }

    method InvalidStateWhenAuth()
      modifies this
      ensures Did(Confirm(old(View()), MLME_STATE_MACHINE_REJECT), old(out))
    {
      Report(MLME_STATE_MACHINE_REJECT);
    }

    method AuthTimeoutAction()
      modifies this
      ensures Did(Confirm(old(View()), MLME_REJ_TIMEOUT), old(out))
    {
      Report(MLME_REJ_TIMEOUT);
    }

    /** The row of the transition table for MT2_MLME_AUTH_REQ. */
    method PerformRequest(req: Request, env: Env)
      modifies this
      ensures Did(OnRequest(old(View()), req, env), old(out))
    {
      match curr {
        case ReqIdle => MlmeAuthReqAction(req, env);
        case WaitSeq2 => InvalidStateWhenAuth();
        case WaitSeq4 => InvalidStateWhenAuth();
      }
    }

    /** The row for MT2_PEER_AUTH_EVEN. */
    method PerformPeer(f: Frame, env: Env)
      modifies this
      ensures Did(OnPeer(old(View()), f, env), old(out))
    {
      match curr {
        case ReqIdle =>
        case WaitSeq2 => PeerAuthRspAtSeq2Action(f, env);
        case WaitSeq4 => PeerAuthRspAtSeq4Action(f);
      }
    }

    /** The row for MT2_AUTH_TIMEOUT. */
    method PerformTimeout()
      modifies this
      ensures Did(OnTimeout(old(View())), old(out))
    {
      match curr {
        case ReqIdle =>
        case WaitSeq2 => AuthTimeoutAction();
        case WaitSeq4 => AuthTimeoutAction();
      }
    }
  }
}
