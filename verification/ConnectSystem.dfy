// The control machine, the authentication machine and the message queue
// together, with SYNC and ASSOC reduced to "takes a request, answers it later".
//
// The question is whether a connection attempt always ends. One message is
// outstanding at any time while the control machine is not idle, and what is
// left to do shrinks with every confirmation, so the answer is yes, unless a
// candidate is tried while association is blocked in one configuration
// (module ConnectLoop).
module ConnectSystem {
  import A = Auth
  import C = Connect

  datatype Item =
    | ToCntl(msg: C.Message)
    | ToSync(req: C.Request)
    | ToAssoc(req: C.Request)
    | ToAuth(ask: A.Request)
    | AuthFrame(f: A.Frame)
    | AuthTimeout

  datatype Job = Free | Busy(req: C.Request)

  datatype Sys = Sys(
    cntl: C.State,
    m: A.Machine,
    firing: bool,           // the AUTH timer callback has not enqueued yet
    queue: seq<Item>,
    sync: Job,
    assoc: Job,
    blocked: bool)          // PortCfg.bBlockAssoc, unchanged during an attempt

  datatype Step =
    | Dispatch(noMemory: bool, mac: A.Mac)
    | SyncAnswers(ok: bool, bssType: C.BssType)
    | AssocAnswers(ok: bool)
    | Expire
    | CallbackEnqueues
    | FrameArrives(f: A.Frame)

  function Env(s: Sys, t: Step): A.Env
    requires t.Dispatch?
  {
    A.Env(s.blocked, t.noMemory)
  }

  /** MLME actions that call del_timer_sync wait for a running callback. */
  predicate HeadWaits(s: Sys, t: Step)
    requires t.Dispatch? && s.queue != []
  {
    match s.queue[0]
    case ToAuth(r) => A.Waits(s.m, A.Ask(r, Env(s, t)))
    case AuthFrame(f) => A.Waits(s.m, A.Hear(f, Env(s, t)))
    case _ => false
  }

  predicate Enabled(s: Sys, t: Step) {
    match t
    case Dispatch(_, mac) => !mac.group && s.queue != [] && (s.firing ==> !HeadWaits(s, t))
    case SyncAnswers(_, _) => s.sync.Busy?
    case AssocAnswers(_) => s.assoc.Busy?
    case Expire => s.m.pending && !s.firing
    case CallbackEnqueues => s.firing
    case FrameArrives(_) => true
  }

  // ----- messages -----

  /** The queue item a request of the control machine becomes. */
  function ItemOf(req: C.Request, bssid: A.Mac): Item {
    match req
    case AuthReq(alg) => ToAuth(A.Request(bssid, alg))
    case AssocReq => ToAssoc(req)
    case ReassocReq(_) => ToAssoc(req)
    case DisassocReq => ToAssoc(req)
    case _ => ToSync(req)
  }

  function Sent(es: seq<C.Effect>, bssid: A.Mac): seq<Item> {
    if es == [] then []
    else (if es[0].Send? then [ItemOf(es[0].req, bssid)] else []) + Sent(es[1..], bssid)
  }

  /** What AUTH enqueues; transmitted frames leave the system. */
  function Reported(es: seq<A.Effect>): seq<Item> {
    if es == [] then []
    else (if es[0].Conf? then [ToCntl(C.AuthConf(es[0].status == A.MLME_SUCCESS))] else []) + Reported(es[1..])
  }

  function SyncConf(req: C.Request, ok: bool): C.Message {
    match req
    case JoinReq(_) => C.JoinConf(ok)
    case StartReq => C.StartConf(ok)
    case _ => C.ScanConf
  }

  function AssocConf(req: C.Request, ok: bool): C.Message {
    match req
    case AssocReq => C.AssocConf(ok)
    case ReassocReq(_) => C.ReassocConf(ok)
    case _ => C.DisassocConf
  }

  // ----- steps -----

  /** The control machine runs on one message; MlmeAux.Alg is the one AUTH wrote. */
  function CntlOutcome(s: Sys, msg: C.Message): C.Outcome {
    C.Perform(s.cntl.(alg := s.m.alg), msg)
  }

  function TakeCntl(s: Sys, msg: C.Message, rest: seq<Item>): Sys {
    var o := CntlOutcome(s, msg);
    s.(cntl := o.s, queue := rest + Sent(o.effects, s.m.bssid))
  }

  function TakeAuth(s: Sys, o: A.Outcome, rest: seq<Item>): Sys {
    s.(m := o.m, queue := rest + Reported(o.effects))
  }

  function TakeHead(s: Sys, t: Step): Sys
    requires t.Dispatch? && s.queue != []
  {
    var rest := s.queue[1..];
    match s.queue[0]
    case ToCntl(msg) => TakeCntl(s, msg, rest)
    case ToSync(req) =>
      s.(sync := Busy(req), queue := rest, m := if req.JoinReq? then s.m.(bssid := t.mac) else s.m)
    case ToAssoc(req) => s.(assoc := Busy(req), queue := rest)
    case ToAuth(r) => TakeAuth(s, A.OnRequest(s.m, r, Env(s, t)), rest)
    case AuthFrame(f) => TakeAuth(s, A.OnPeer(s.m, f, Env(s, t)), rest)
    case AuthTimeout => TakeAuth(s, A.OnTimeout(s.m), rest)
  }

  function Next(s: Sys, t: Step): Sys
    requires Enabled(s, t)
  {
    match t
    case Dispatch(_, _) => TakeHead(s, t)
    case SyncAnswers(ok, b) =>
      s.(sync := Free, queue := s.queue + [ToCntl(SyncConf(s.sync.req, ok))],
         cntl := if s.sync.req.JoinReq? then s.cntl.(auxBssType := b) else s.cntl)
    case AssocAnswers(ok) => s.(assoc := Free, queue := s.queue + [ToCntl(AssocConf(s.assoc.req, ok))])
    case Expire => s.(m := s.m.(pending := false), firing := true)
    case CallbackEnqueues => s.(firing := false, queue := s.queue + [AuthTimeout])
    case FrameArrives(f) => s.(queue := s.queue + [AuthFrame(f)])
  }

  // ----- one thing outstanding -----

  predicate Noise(it: Item) {
    it.AuthFrame? || it.AuthTimeout?
  }

  /** The queued items that carry the attempt forward. */
  function Tokens(q: seq<Item>): seq<Item> {
    if q == [] then []
    else (if Noise(q[0]) then [] else [q[0]]) + Tokens(q[1..])
  }

  function Count(b: bool): nat {
    if b then 1 else 0
  }

  predicate RequestFits(c: C.CntlState, req: C.Request) {
    match req
    case JoinReq(_) => c == C.WaitJoin
    case StartReq => c == C.WaitStart
    case AssocReq => c == C.WaitAssoc
    case DisassocReq => c == C.WaitDisassoc || c == C.WaitOidDisassoc
    case ScanReq => c == C.WaitListScan
    case _ => false
  }

  predicate ConfFits(c: C.CntlState, msg: C.Message) {
    match msg
    case JoinConf(_) => c == C.WaitJoin
    case StartConf(_) => c == C.WaitStart
    case AuthConf(_) => C.Authenticating(c)
    case AssocConf(_) => c == C.WaitAssoc
    case ScanConf => c == C.WaitListScan
    case DisassocConf => c == C.WaitDisassoc || c == C.WaitOidDisassoc
    case _ => false
  }

  predicate Fits(c: C.CntlState, it: Item) {
    match it
    case ToCntl(msg) => ConfFits(c, msg)
    case ToSync(req) => RequestFits(c, req) && (req.JoinReq? || req.StartReq? || req.ScanReq?)
    case ToAssoc(req) => RequestFits(c, req) && (req.AssocReq? || req.DisassocReq?)
    case ToAuth(r) => C.Authenticating(c) && A.Sane(r)
    case _ => false
  }

  function Outstanding(s: Sys): nat {
    |Tokens(s.queue)| + Count(s.sync.Busy?) + Count(s.assoc.Busy?) + Count(A.Waiting(s.m))
  }

  /** Exactly one outstanding request or answer while an attempt runs, and it is the one awaited. */
  predicate OneOutstanding(s: Sys) {
    && Outstanding(s) == Count(s.cntl.curr != C.Idle)
    && (Tokens(s.queue) != [] ==> Fits(s.cntl.curr, Tokens(s.queue)[0]))
    && (s.sync.Busy? ==> Fits(s.cntl.curr, ToSync(s.sync.req)))
    && (s.assoc.Busy? ==> Fits(s.cntl.curr, ToAssoc(s.assoc.req)))
    && (A.Waiting(s.m) ==> C.Authenticating(s.cntl.curr))
  }

  /** A waiting AUTH machine has its timeout coming. */
  predicate Attended(s: Sys) {
    A.Waiting(s.m) ==> s.m.pending || s.firing || AuthTimeout in s.queue
  }

  predicate Trying(c: C.CntlState) {
    c == C.WaitJoin || C.PastJoin(c)
  }

  /** The configuration in which a blocked attempt repeats itself. */
  predicate Loops(s: Sys) {
    s.blocked && s.cntl.cfg.authMode == C.ModeAutoSwitch && s.m.alg == A.SharedKey
  }

  /** No candidate is being tried, nor will one be. */
  predicate JoinsNothing(c: C.State) {
    !Trying(c.curr) && (c.curr == C.WaitDisassoc ==> c.bssNr == 0)
  }

  predicate Inv(s: Sys) {
    && OneOutstanding(s)
    && Attended(s)
    && (s.cntl.curr != C.Idle ==> !s.m.bssid.group)
    && (Trying(s.cntl.curr) ==> s.cntl.bssIdx < s.cntl.bssNr)
    && s.cntl.curr != C.WaitReassoc
    && (Loops(s) ==> JoinsNothing(s.cntl))
  }

  // ----- queue lemmas -----

  lemma {:induction false} TokensAppend(q: seq<Item>, x: Item)
    ensures Tokens(q + [x]) == Tokens(q) + (if Noise(x) then [] else [x])
  {
    if q == [] {
      assert q + [x] == [x];
      assert [x][1..] == [];
    } else {
      assert (q + [x])[1..] == q[1..] + [x];
      TokensAppend(q[1..], x);
    }
  }

  /** Appending the zero or one items a handler enqueues. */
  lemma TokensGrow(q: seq<Item>, xs: seq<Item>)
    requires |xs| <= 1 && (xs != [] ==> !Noise(xs[0]))
    ensures Tokens(q + xs) == Tokens(q) + xs
  {
    if xs == [] {
      assert q + xs == q;
    } else {
      assert xs == [xs[0]];
      TokensAppend(q, xs[0]);
    }
  }

  lemma SentIs(es: seq<C.Effect>, bssid: A.Mac)
    requires |es| <= 2 && (|es| == 2 ==> es[0] == C.LinkDown && es[1].Send?)
    ensures es == [] ==> Sent(es, bssid) == []
    ensures es != [] && es[|es| - 1].Send? ==> Sent(es, bssid) == [ItemOf(es[|es| - 1].req, bssid)]
    ensures es != [] && !es[|es| - 1].Send? ==> Sent(es, bssid) == []
  {
    if |es| == 2 {
      assert es[1..] == [es[1]];
      assert es[1..][1..] == [];
    } else if |es| == 1 {
      assert es[1..] == [];
    }
  }

  lemma ReportedIs(es: seq<A.Effect>)
    requires |es| <= 1
    ensures es != [] && es[0].Conf? ==> Reported(es) == [ToCntl(C.AuthConf(es[0].status == A.MLME_SUCCESS))]
    ensures es == [] || !es[0].Conf? ==> Reported(es) == []
  {
    if es != [] {
      assert es[1..] == [];
    }
  }

  // ----- what is left to do -----

  function Rest(c: C.State): nat {
    if c.bssIdx + 1 < c.bssNr then c.bssNr - c.bssIdx - 1 else 0
  }

  /** The algorithm MlmeAux.Alg will hold when the awaited AUTH confirmation is handled. */
  function AlgThen(s: Sys): A.Alg {
    var q := Tokens(s.queue);
    if q != [] && q[0].ToAuth? && !s.blocked then q[0].ask.alg else s.m.alg
  }

  /** How many confirmations can still be awaited: five per candidate left, one for starting an IBSS. */
  function Budget(c: C.State, alg: A.Alg): nat {
    match c.curr
    case Idle => 0
    case WaitDisassoc => 5 * c.bssNr + 2
    case WaitJoin => 5 + 5 * Rest(c) + 1
    case WaitAuth => 4 + 5 * Rest(c) + 1
    case WaitAuth2 => (if c.cfg.authMode == C.ModeAutoSwitch && alg == A.SharedKey then 3 else 2) + 5 * Rest(c) + 1
    case WaitAssoc => 1 + 5 * Rest(c) + 1
    case _ => 1
  }

  function Left(s: Sys): nat {
    Budget(s.cntl, AlgThen(s))
  }

  /** What an awaited confirmation leads to: the next request, or idle, and always less left to do. */
  predicate Spends(c: C.State, o: C.Outcome, bssid: A.Mac, blocked: bool) {
    var sent := Sent(o.effects, bssid);
    && |sent| == Count(o.s.curr != C.Idle)
    && (sent != [] ==> Fits(o.s.curr, sent[0]) && !sent[0].ToCntl?)
    && (Trying(o.s.curr) ==> o.s.bssIdx < o.s.bssNr)
    && o.s.curr != C.WaitReassoc && o.s.cfg == c.cfg
    && (JoinsNothing(c) ==> JoinsNothing(o.s))
    && Budget(o.s, if sent != [] && sent[0].ToAuth? && !blocked then sent[0].ask.alg else c.alg)
       < Budget(c, c.alg)
  }

  predicate LoopsAt(c: C.State, blocked: bool) {
    blocked && c.cfg.authMode == C.ModeAutoSwitch && c.alg == A.SharedKey
  }

  lemma TryingSpends(c: C.State, msg: C.Message, bssid: A.Mac, blocked: bool)
    requires c.curr in {C.WaitJoin, C.WaitAssoc} && ConfFits(c.curr, msg) && !bssid.group
    requires c.bssIdx < c.bssNr && !LoopsAt(c, blocked)
    ensures Spends(c, C.Perform(c, msg), bssid, blocked)
  {
    SentIs(C.Perform(c, msg).effects, bssid);
  }

  lemma AuthSpends(c: C.State, msg: C.Message, bssid: A.Mac, blocked: bool)
    requires C.Authenticating(c.curr) && ConfFits(c.curr, msg) && !bssid.group
    requires c.bssIdx < c.bssNr && !LoopsAt(c, blocked)
    ensures Spends(c, C.Perform(c, msg), bssid, blocked)
  {
    SentIs(C.Perform(c, msg).effects, bssid);
  }

  lemma OthersSpend(c: C.State, msg: C.Message, bssid: A.Mac, blocked: bool)
    requires !Trying(c.curr) && ConfFits(c.curr, msg)
    ensures Spends(c, C.Perform(c, msg), bssid, blocked)
  {
    C.PerformMoves(c, msg);
    SentIs(C.Perform(c, msg).effects, bssid);
  }

  lemma ConfSpends(c: C.State, msg: C.Message, bssid: A.Mac, blocked: bool)
    requires ConfFits(c.curr, msg) && !bssid.group
    requires (Trying(c.curr) ==> c.bssIdx < c.bssNr) && (LoopsAt(c, blocked) ==> JoinsNothing(c))
    ensures Spends(c, C.Perform(c, msg), bssid, blocked)
  {
    if C.Authenticating(c.curr) {
      AuthSpends(c, msg, bssid, blocked);
    } else if Trying(c.curr) {
      TryingSpends(c, msg, bssid, blocked);
    } else {
      OthersSpend(c, msg, bssid, blocked);
    }
  }

  /** Steps until the next confirmation is handled. */
  function Stage(s: Sys): nat {
    var q := Tokens(s.queue);
    if q != [] then (if q[0].ToAuth? then 10 else if q[0].ToCntl? then 0 else 4)
    else if s.m.curr == A.WaitSeq2 then 6
    else if s.m.curr == A.WaitSeq4 then 2
    else if s.sync.Busy? || s.assoc.Busy? then 2
    else 0
  }

  /** Bounds the steps of every kind but the arrival of frames. */
  function Work(s: Sys): nat {
    12 * Left(s) + Stage(s) + |s.queue| + 3 * Count(s.m.pending) + 2 * Count(s.firing)
  }

  /** One step, with how many confirmations it handled and how many frames it let in. */
  predicate Progress(s: Sys, n: Sys, handled: nat, arrived: nat) {
    && Inv(n)
    && n.blocked == s.blocked && n.cntl.cfg == s.cntl.cfg
    && Left(n) + handled <= Left(s)
    && Work(n) + 1 <= Work(s) + 2 * arrived
  }

  lemma CntlQueue(s: Sys, n: Sys, o: C.Outcome)
    requires Inv(s) && s.queue != [] && s.queue[0].ToCntl?
    requires Spends(s.cntl.(alg := s.m.alg), o, s.m.bssid, s.blocked)
    requires n == s.(cntl := o.s, queue := s.queue[1..] + Sent(o.effects, s.m.bssid))
    ensures Tokens(n.queue) == Sent(o.effects, s.m.bssid)
    ensures s.sync == Free && s.assoc == Free && !A.Waiting(s.m)
    ensures Stage(s) == 0 && AlgThen(s) == s.m.alg && |n.queue| <= |s.queue|
  {
    var rest := s.queue[1..];
    assert Tokens(s.queue) == [s.queue[0]] + Tokens(rest);
    assert Tokens(rest) == [];
    var xs := Sent(o.effects, s.m.bssid);
    TokensGrow(rest, xs);
    assert [] + xs == xs;
  }

  lemma CntlConcludes(s: Sys, n: Sys, o: C.Outcome)
    requires Inv(s) && s.queue != [] && s.queue[0].ToCntl?
    requires Spends(s.cntl.(alg := s.m.alg), o, s.m.bssid, s.blocked)
    requires n == s.(cntl := o.s, queue := s.queue[1..] + Sent(o.effects, s.m.bssid))
    ensures Progress(s, n, 1, 0)
  {
    CntlQueue(s, n, o);
    CntlShrinks(s, n, o);
    assert Inv(n);
  }

  lemma CntlShrinks(s: Sys, n: Sys, o: C.Outcome)
    requires Inv(s) && s.queue != [] && s.queue[0].ToCntl?
    requires Spends(s.cntl.(alg := s.m.alg), o, s.m.bssid, s.blocked)
    requires n == s.(cntl := o.s, queue := s.queue[1..] + Sent(o.effects, s.m.bssid))
    ensures Left(n) < Left(s) && Stage(n) <= 10
  {
    CntlQueue(s, n, o);
  }

  lemma CntlProgress(s: Sys, t: Step)
    requires Inv(s) && Enabled(s, t) && t.Dispatch? && s.queue[0].ToCntl?
    ensures Progress(s, Next(s, t), 1, 0)
  {
    assert Tokens(s.queue)[0] == s.queue[0];
    var c := s.cntl.(alg := s.m.alg);
    var msg := s.queue[0].msg;
    ConfSpends(c, msg, s.m.bssid, s.blocked);
    CntlConcludes(s, Next(s, t), C.Perform(c, msg));
  }

  lemma RequestProgress(s: Sys, t: Step)
    requires Inv(s) && Enabled(s, t) && t.Dispatch? && (s.queue[0].ToSync? || s.queue[0].ToAssoc?)
    ensures Progress(s, Next(s, t), 0, 0)
  {
    var rest := s.queue[1..];
    assert Tokens(s.queue) == [s.queue[0]] + Tokens(rest);
    assert Tokens(rest) == [];
  }

  /** What a request may do to an idle machine: a refusal, or the first frame goes out. */
  predicate Refused(m: A.Machine, req: A.Request, env: A.Env, o: A.Outcome) {
    && !A.Waiting(o.m) && (o.m.pending ==> m.pending) && (o.m.bssid.group ==> m.bssid.group)
    && o.m.alg == (if env.blocked then m.alg else req.alg)
    && |o.effects| == 1 && o.effects[0].Conf?
  }

  predicate WentOut(req: A.Request, env: A.Env, o: A.Outcome) {
    && !env.blocked && o.m == A.Machine(A.WaitSeq2, req.alg, req.addr, true)
    && |o.effects| == 1 && !o.effects[0].Conf?
  }

  lemma RequestDoes(m: A.Machine, req: A.Request, env: A.Env)
    requires !A.Waiting(m) && A.Sane(req)
    ensures var o := A.OnRequest(m, req, env); Refused(m, req, env, o) || WentOut(req, env, o)
  {
  }

  lemma AskRefused(s: Sys, n: Sys, env: A.Env, o: A.Outcome)
    requires Inv(s) && s.queue != [] && s.queue[0].ToAuth? && env.blocked == s.blocked
    requires Refused(s.m, s.queue[0].ask, env, o)
    requires n == s.(m := o.m, queue := s.queue[1..] + Reported(o.effects))
    ensures Progress(s, n, 0, 0)
  {
    assert Tokens(s.queue) == [s.queue[0]] + Tokens(s.queue[1..]);
    assert Tokens(s.queue[1..]) == [];
    ReportedIs(o.effects);
    TokensGrow(s.queue[1..], Reported(o.effects));
  }

  lemma AskWentOut(s: Sys, n: Sys, env: A.Env, o: A.Outcome)
    requires Inv(s) && s.queue != [] && s.queue[0].ToAuth? && env.blocked == s.blocked
    requires WentOut(s.queue[0].ask, env, o)
    requires n == s.(m := o.m, queue := s.queue[1..])
    ensures Progress(s, n, 0, 0)
  {
    assert Tokens(s.queue) == [s.queue[0]] + Tokens(s.queue[1..]);
    assert Tokens(s.queue[1..]) == [];
  }

  lemma AskProgress(s: Sys, t: Step)
    requires Inv(s) && Enabled(s, t) && t.Dispatch? && s.queue[0].ToAuth?
    ensures Progress(s, Next(s, t), 0, 0)
  {
    var ask, env := s.queue[0].ask, Env(s, t);
    assert Tokens(s.queue)[0] == s.queue[0];
    RequestDoes(s.m, ask, env);
    var o := A.OnRequest(s.m, ask, env);
    if Refused(s.m, ask, env, o) {
      AskRefused(s, Next(s, t), env, o);
    } else {
      ReportedIs(o.effects);
      assert s.queue[1..] + [] == s.queue[1..];
      AskWentOut(s, Next(s, t), env, o);
    }
  }

  /** What a frame or a timeout may do to the machine: nothing, confirm, or ask for the fourth frame. */
  predicate HeardNothing(m: A.Machine, o: A.Outcome, timeout: bool) {
    o == A.Outcome(m, []) && (timeout ==> !A.Waiting(m))
  }

  predicate Concluded(m: A.Machine, o: A.Outcome) {
    && A.Waiting(m) && !A.Waiting(o.m) && (o.m.pending ==> m.pending)
    && o.m.alg == m.alg && o.m.bssid == m.bssid
    && |o.effects| == 1 && o.effects[0].Conf?
  }

  predicate WentOn(m: A.Machine, o: A.Outcome) {
    && m.curr == A.WaitSeq2 && o.m == m.(curr := A.WaitSeq4, pending := true)
    && |o.effects| == 1 && !o.effects[0].Conf?
  }

  lemma FrameDoes(m: A.Machine, f: A.Frame, env: A.Env)
    ensures var o := A.OnPeer(m, f, env); HeardNothing(m, o, false) || Concluded(m, o) || WentOn(m, o)
  {
  }

  lemma TimeoutDoes(m: A.Machine)
    ensures var o := A.OnTimeout(m); HeardNothing(m, o, true) || Concluded(m, o)
  {
  }

  lemma NoiseIsNoToken(q: seq<Item>)
    requires q != [] && Noise(q[0])
    ensures Tokens(q) == Tokens(q[1..])
  {
  }

  lemma NothingHeard(s: Sys, n: Sys)
    requires Inv(s) && s.queue != [] && Noise(s.queue[0])
    requires s.queue[0].AuthTimeout? ==> !A.Waiting(s.m)
    requires n == s.(queue := s.queue[1..])
    ensures Progress(s, n, 0, 0)
  {
    NoiseIsNoToken(s.queue);
    assert Attended(n) by {
      assert s.queue == [s.queue[0]] + s.queue[1..];
    }
  }

  lemma Confirmed(s: Sys, n: Sys, o: A.Outcome)
    requires Inv(s) && s.queue != [] && Noise(s.queue[0])
    requires Concluded(s.m, o)
    requires n == s.(m := o.m, queue := s.queue[1..] + Reported(o.effects))
    ensures Progress(s, n, 0, 0)
  {
    NoiseIsNoToken(s.queue);
    ReportedIs(o.effects);
    TokensGrow(s.queue[1..], Reported(o.effects));
  }

  lemma Challenged(s: Sys, n: Sys, o: A.Outcome)
    requires Inv(s) && s.queue != [] && Noise(s.queue[0])
    requires WentOn(s.m, o)
    requires n == s.(m := o.m, queue := s.queue[1..])
    ensures Progress(s, n, 0, 0)
  {
    NoiseIsNoToken(s.queue);
  }

  lemma NoiseProgress(s: Sys, t: Step)
    requires Inv(s) && Enabled(s, t) && t.Dispatch? && Noise(s.queue[0])
    ensures Progress(s, Next(s, t), 0, 0)
  {
    var rest := s.queue[1..];
    var o := if s.queue[0].AuthFrame? then A.OnPeer(s.m, s.queue[0].f, Env(s, t)) else A.OnTimeout(s.m);
    if s.queue[0].AuthFrame? {
      FrameDoes(s.m, s.queue[0].f, Env(s, t));
    } else {
      TimeoutDoes(s.m);
    }
    ReportedIs(o.effects);
    assert rest + [] == rest;
    if HeardNothing(s.m, o, s.queue[0].AuthTimeout?) {
      NothingHeard(s, Next(s, t));
    } else if Concluded(s.m, o) {
      Confirmed(s, Next(s, t), o);
    } else {
      Challenged(s, Next(s, t), o);
    }
  }

  lemma SyncProgress(s: Sys, t: Step)
    requires Inv(s) && Enabled(s, t) && t.SyncAnswers?
    ensures Progress(s, Next(s, t), 0, 0)
  {
    TokensAppend(s.queue, ToCntl(SyncConf(s.sync.req, t.ok)));
  }

  lemma AssocProgress(s: Sys, t: Step)
    requires Inv(s) && Enabled(s, t) && t.AssocAnswers?
    ensures Progress(s, Next(s, t), 0, 0)
  {
    TokensAppend(s.queue, ToCntl(AssocConf(s.assoc.req, t.ok)));
  }

  lemma ExpireProgress(s: Sys)
    requires Inv(s) && Enabled(s, Expire)
    ensures Progress(s, Next(s, Expire), 0, 0)
  {
  }

  lemma CallbackProgress(s: Sys)
    requires Inv(s) && Enabled(s, CallbackEnqueues)
    ensures Progress(s, Next(s, CallbackEnqueues), 0, 0)
  {
    TokensAppend(s.queue, AuthTimeout);
  }

  lemma FrameProgress(s: Sys, f: A.Frame)
    requires Inv(s)
    ensures Progress(s, Next(s, FrameArrives(f)), 0, 1)
  {
    TokensAppend(s.queue, AuthFrame(f));
  }

  predicate Handles(s: Sys, t: Step)
    requires Enabled(s, t)
  {
    t.Dispatch? && s.queue[0].ToCntl?
  }

  lemma StepProgress(s: Sys, t: Step)
    requires Inv(s) && Enabled(s, t)
    ensures Progress(s, Next(s, t), Count(Handles(s, t)), Count(t.FrameArrives?))
  {
    match t {
      case Dispatch(_, _) =>
        match s.queue[0] {
          case ToCntl(_) => CntlProgress(s, t);
          case ToSync(_) => RequestProgress(s, t);
          case ToAssoc(_) => RequestProgress(s, t);
          case ToAuth(_) => AskProgress(s, t);
          case _ => NoiseProgress(s, t);
        }
      case SyncAnswers(_, _) => SyncProgress(s, t);
      case AssocAnswers(_) => AssocProgress(s, t);
      case Expire => ExpireProgress(s);
      case CallbackEnqueues => CallbackProgress(s);
      case FrameArrives(f) => FrameProgress(s, f);
    }
  }

  // ----- whole attempts -----

  datatype Run = Run(states: seq<Sys>, steps: seq<Step>)

  ghost predicate StepAt(r: Run, k: nat)
    requires k < |r.steps| && |r.states| == |r.steps| + 1
  {
    Enabled(r.states[k], r.steps[k]) && r.states[k + 1] == Next(r.states[k], r.steps[k])
  }

  ghost predicate IsRun(r: Run) {
    && |r.states| == |r.steps| + 1
    && forall k: nat :: k < |r.steps| ==> StepAt(r, k)
  }

  /** Confirmations handled by the control machine in the first k steps. */
  ghost function HandledBy(r: Run, k: nat): nat
    requires IsRun(r) && k <= |r.steps|
  {
    if k == 0 then 0
    else
      assert StepAt(r, k - 1);
      HandledBy(r, k - 1) + Count(Handles(r.states[k - 1], r.steps[k - 1]))
  }

  function ArrivedBy(ts: seq<Step>, k: nat): nat
    requires k <= |ts|
  {
    if k == 0 then 0 else ArrivedBy(ts, k - 1) + Count(ts[k - 1].FrameArrives?)
  }

  /** What is left to do before and after one step of a run. */
  lemma StepBounds(s: Sys, t: Step, n: Sys, handled: nat, taken: nat, arrived: nat, left: nat, work: nat)
    requires Inv(s) && Enabled(s, t) && n == Next(s, t)
    requires handled + Left(s) <= left && taken + Work(s) <= work + 2 * arrived
    ensures Inv(n) && handled + Count(Handles(s, t)) + Left(n) <= left
    ensures taken + 1 + Work(n) <= work + 2 * (arrived + Count(t.FrameArrives?))
  {
    StepProgress(s, t);
  }

  lemma {:induction false} RunProgress(r: Run, k: nat, left: nat, work: nat)
    requires IsRun(r) && Inv(r.states[0]) && k <= |r.steps| && left == Left(r.states[0]) && work == Work(r.states[0])
    ensures Inv(r.states[k])
    ensures HandledBy(r, k) + Left(r.states[k]) <= left
    ensures k + Work(r.states[k]) <= work + 2 * ArrivedBy(r.steps, k)
  {
    if k > 0 {
      RunProgress(r, k - 1, left, work);
      assert StepAt(r, k - 1);
      StepBounds(r.states[k - 1], r.steps[k - 1], r.states[k],
                 HandledBy(r, k - 1), k - 1, ArrivedBy(r.steps, k - 1), left, work);
    }
  }

  /** The driver at rest before an attempt: nobody serves a request, none is queued. */
  predicate AtRest(s: Sys) {
    && s.cntl.curr == C.Idle && s.sync == Free && s.assoc == Free && !A.Waiting(s.m)
    && Tokens(s.queue) == []
  }

  /** The messages that may begin an attempt at rest: a network named by SSID or by BSSID, and roaming. */
  predicate Begin(msg: C.Message) {
    msg.OidSsid? || msg.OidBssid? || msg == C.RoamingReq
  }

  /** How many candidates the attempt has. */
  function Candidates(c: C.State, msg: C.Message): nat {
    match msg
    case OidSsid(n, _, _) => n
    case OidBssid(found, _) => if found then 1 else 0
    case _ => c.roamNr
  }

  /** The control machine takes such a message. MlmeAux.Bssid is cleared by an SSID and set by a BSSID. */
  function Start(s: Sys, msg: C.Message, to: A.Mac): Sys {
    var b := if msg.OidSsid? then A.Mac(false, 0) else if msg.OidBssid? then to else s.m.bssid;
    var at := s.(m := s.m.(bssid := b));
    TakeCntl(at, msg, at.queue)
  }

  /** How an attempt on n candidates may begin: its first request sent, or nothing to do. */
  predicate Begins(o: C.Outcome, bssid: A.Mac, alg: A.Alg, n: nat) {
    var sent := Sent(o.effects, bssid);
    && |sent| == Count(o.s.curr != C.Idle)
    && (sent != [] ==> Fits(o.s.curr, sent[0]) && !sent[0].ToAuth?)
    && (Trying(o.s.curr) ==> o.s.bssIdx < o.s.bssNr)
    && o.s.curr != C.WaitReassoc
    && (o.s.curr != C.Idle ==> o.s.bssNr == n)
    && Budget(o.s, alg) <= 5 * n + 2
  }

  lemma FreshBegins(c: C.State, mayScan: bool, bssid: A.Mac, alg: A.Alg)
    ensures Begins(C.FreshAttempt(c, mayScan), bssid, alg, c.bssNr)
    ensures C.FreshAttempt(c, mayScan).s.cfg == c.cfg
    ensures |C.FreshAttempt(c, mayScan).effects| <= 1
  {
    SentIs(C.FreshAttempt(c, mayScan).effects, bssid);
  }

  lemma AfterLinkDownBegins(o: C.Outcome, bssid: A.Mac, alg: A.Alg, n: nat)
    requires Begins(o, bssid, alg, n)
    ensures Begins(C.AfterLinkDown(o), bssid, alg, n)
  {
    assert ([C.LinkDown] + o.effects)[1..] == o.effects;
    assert [] + Sent(o.effects, bssid) == Sent(o.effects, bssid);
  }

  lemma StartAsks(c: C.State, msg: C.Message, bssid: A.Mac, alg: A.Alg)
    requires msg.OidSsid?
    ensures Begins(C.OidSsidProc(c, msg), bssid, alg, msg.matches)
    ensures C.OidSsidProc(c, msg).s.cfg == c.cfg
  {
    var d := c.(auxBssType := c.cfg.bssType, bssNr := msg.matches);
    if (d.link.connected && msg.firstIsCurrent) || d.link.infraOn {
      SentIs([], bssid);
      SentIs([C.Send(C.DisassocReq)], bssid);
    } else if d.link.adhocOn {
      FreshBegins(C.Dropped(d), msg.mayScan, bssid, alg);
      AfterLinkDownBegins(C.FreshAttempt(C.Dropped(d), msg.mayScan), bssid, alg, msg.matches);
    } else {
      FreshBegins(d, msg.mayScan, bssid, alg);
    }
  }

  lemma BssidAsks(c: C.State, msg: C.Message, bssid: A.Mac, alg: A.Alg)
    requires msg.OidBssid?
    ensures Begins(C.OidBssidProc(c, msg), bssid, alg, if msg.found then 1 else 0)
    ensures C.OidBssidProc(c, msg).s.cfg == c.cfg
  {
    SentIs(C.OidBssidProc(c, msg).effects, bssid);
  }

  lemma RoamingAsks(c: C.State, bssid: A.Mac, alg: A.Alg)
    requires c.curr == C.Idle
    ensures Begins(C.IdleProc(c, C.RoamingReq), bssid, alg, c.roamNr)
    ensures C.IdleProc(c, C.RoamingReq).s.cfg == c.cfg
  {
    SentIs(C.IdleProc(c, C.RoamingReq).effects, bssid);
  }

  lemma MessageAsks(c: C.State, msg: C.Message, bssid: A.Mac, alg: A.Alg)
    requires Begin(msg) && c.curr == C.Idle
    ensures Begins(C.Perform(c, msg), bssid, alg, Candidates(c, msg)) && C.Perform(c, msg).s.cfg == c.cfg
  {
    if msg.OidSsid? {
      StartAsks(c, msg, bssid, alg);
    } else if msg.OidBssid? {
      BssidAsks(c, msg, bssid, alg);
    } else {
      RoamingAsks(c, bssid, alg);
    }
  }

  lemma StartConcludes(s: Sys, o: C.Outcome, n: nat)
    requires AtRest(s) && (o.s.curr != C.Idle ==> !s.m.bssid.group) && (Loops(s) ==> JoinsNothing(o.s))
    requires Begins(o, s.m.bssid, s.m.alg, n) && o.s.cfg == s.cntl.cfg
    ensures var to := s.(cntl := o.s, queue := s.queue + Sent(o.effects, s.m.bssid));
            Inv(to) && Left(to) <= 5 * n + 2
  {
    var xs := Sent(o.effects, s.m.bssid);
    TokensGrow(s.queue, xs);
    assert [] + xs == xs;
  }

  /** The message leads to an attempt on a candidate: there is one, and the present link will not do. */
  predicate Tries(c: C.State, msg: C.Message) {
    match msg
    case OidSsid(n, current, _) =>
      && n >= 1
      && !(c.link.connected && current && !c.link.configChanged && (C.NeedsPort(c.cfg) ==> c.link.portSecured))
    case OidBssid(found, current) => found && !(c.link.connected && current)
    case _ => !c.link.radioOff && c.roamNr >= 1
  }

  /** Candidates have individual addresses. */
  predicate Individual(s: Sys, msg: C.Message, to: A.Mac) {
    match msg
    case OidSsid(_, _, _) => true
    case OidBssid(found, _) => found ==> !to.group
    case _ => !s.m.bssid.group
  }

  lemma StartIsSound(s: Sys, msg: C.Message, to: A.Mac)
    requires AtRest(s) && Begin(msg) && Individual(s, msg, to) && !(Loops(s) && Tries(s.cntl, msg))
    ensures Inv(Start(s, msg, to)) && Left(Start(s, msg, to)) <= 5 * Candidates(s.cntl, msg) + 2
  {
    var at := s.(m := Start(s, msg, to).m);
    MessageAsks(at.cntl.(alg := at.m.alg), msg, at.m.bssid, at.m.alg);
    StartConcludes(at, CntlOutcome(at, msg), Candidates(s.cntl, msg));
  }

  /** Some step other than the arrival of a frame can be taken. */
  lemma NeverStuck(s: Sys) returns (t: Step)
    requires Inv(s) && s.cntl.curr != C.Idle
    ensures Enabled(s, t) && !t.FrameArrives?
  {
    if s.firing {
      t := CallbackEnqueues;
    } else if s.queue != [] {
      t := Dispatch(false, A.Mac(false, 0));
    } else if s.sync.Busy? {
      t := SyncAnswers(true, C.Infra);
    } else if s.assoc.Busy? {
      t := AssocAnswers(true);
    } else {
      assert A.Waiting(s.m);
      t := Expire;
    }
  }

  /**
   * Every connection attempt ends, unless it tries a candidate in the looping
   * configuration. From any state at rest, for a network named by SSID or BSSID
   * or for roaming, for any number of candidates and any answers, losses and
   * late timeouts: at most 5n+2 confirmations are handled, the number of steps
   * is bounded up to the frames that arrive, and an attempt that cannot go on by
   * itself is back at idle.
   */
  lemma EveryAttemptEnds(s: Sys, msg: C.Message, to: A.Mac, r: Run)
    requires AtRest(s) && Begin(msg) && Individual(s, msg, to) && !(Loops(s) && Tries(s.cntl, msg))
    requires IsRun(r) && r.states[0] == Start(s, msg, to)
    ensures HandledBy(r, |r.steps|) <= 5 * Candidates(s.cntl, msg) + 2
    ensures |r.steps| <= Work(r.states[0]) + 2 * ArrivedBy(r.steps, |r.steps|)
    ensures r.states[|r.steps|].cntl.curr == C.Idle
            || exists t :: Enabled(r.states[|r.steps|], t) && !t.FrameArrives?
  {
    StartIsSound(s, msg, to);
    RunProgress(r, |r.steps|, Left(r.states[0]), Work(r.states[0]));
    if r.states[|r.steps|].cntl.curr != C.Idle {
      var t := NeverStuck(r.states[|r.steps|]);
    }
  }

  // ----- an attempt that succeeds -----

  /** The steps lead from s to `to`, and the attempt is under way until then. */
  ghost predicate Leads(s: Sys, ts: seq<Step>, to: Sys)
    decreases |ts|
  {
    if ts == [] then s == to
    else s.cntl.curr != C.Idle && Enabled(s, ts[0]) && Leads(Next(s, ts[0]), ts[1..], to)
  }

  lemma LeadsOn(s: Sys, t: Step, ts: seq<Step>, to: Sys)
    requires s.cntl.curr != C.Idle && Enabled(s, t) && Leads(Next(s, t), ts, to)
    ensures Leads(s, [t] + ts, to)
  {
    assert ([t] + ts)[1..] == ts;
  }

  lemma {:induction false} LeadsThen(a: Sys, xs: seq<Step>, b: Sys, ys: seq<Step>, c: Sys)
    requires Leads(a, xs, b) && Leads(b, ys, c)
    ensures Leads(a, xs + ys, c)
    decreases |xs|
  {
    if xs == [] {
      assert xs + ys == ys;
    } else {
      LeadsThen(Next(a, xs[0]), xs[1..], b, ys, c);
      assert (xs + ys)[1..] == xs[1..] + ys;
    }
  }

  const GO: Step := Dispatch(false, A.Mac(false, 0))

  /** Nothing under way but what is queued, association not blocked. */
  predicate Calm(s: Sys, c: C.CntlState, q: seq<Item>) {
    && s.cntl.curr == c && s.queue == q && !s.blocked
    && s.sync == Free && s.assoc == Free
    && !A.Waiting(s.m) && !s.firing && !s.m.pending && !s.m.bssid.group
  }

  /** The present network is left, if there is one to leave. */
  lemma LeaveSucceeds(s: Sys) returns (ts: seq<Step>, to: Sys)
    requires Calm(s, C.WaitDisassoc, [ToAssoc(C.DisassocReq)]) && s.cntl.bssNr >= 1
    ensures Leads(s, ts, to) && Calm(to, C.WaitJoin, [ToSync(C.JoinReq(0))])
  {
    var a := Next(s, GO);
    assert a.queue == [];
    var b := Next(a, AssocAnswers(true));
    assert b.queue == [ToCntl(C.DisassocConf)];
    SentIs(CntlOutcome(b, C.DisassocConf).effects, b.m.bssid);
    to := Next(b, GO);
    assert Leads(to, [], to);
    LeadsOn(b, GO, [], to);
    LeadsOn(a, AssocAnswers(true), [GO] + [], to);
    LeadsOn(s, GO, [AssocAnswers(true)] + ([GO] + []), to);
    ts := [GO] + ([AssocAnswers(true)] + ([GO] + []));
  }

  lemma JoinSucceeds(s: Sys, i: nat) returns (ts: seq<Step>, to: Sys, alg: A.Alg)
    requires Calm(s, C.WaitJoin, [ToSync(C.JoinReq(i))])
    ensures Leads(s, ts, to) && Calm(to, C.WaitAuth, [ToAuth(A.Request(to.m.bssid, alg))]) && !alg.OtherAlg?
  {
    var yes := SyncAnswers(true, C.Infra);
    var a := Next(s, GO);
    assert a.queue == [];
    var b := Next(a, yes);
    assert b.queue == [ToCntl(C.JoinConf(true))];
    SentIs(CntlOutcome(b, C.JoinConf(true)).effects, b.m.bssid);
    to := Next(b, GO);
    alg := to.queue[0].ask.alg;
    assert Leads(to, [], to);
    LeadsOn(b, GO, [], to);
    LeadsOn(a, yes, [GO] + [], to);
    LeadsOn(s, GO, [yes] + ([GO] + []), to);
    ts := [GO] + ([yes] + ([GO] + []));
  }

  /** An authentication frame is out and its answer awaited. */
  predicate Asked(s: Sys, alg: A.Alg, waits: A.AuthState) {
    && s.cntl.curr == C.WaitAuth && s.queue == [] && !s.blocked
    && s.sync == Free && s.assoc == Free && !s.firing
    && s.m == A.Machine(waits, alg, s.m.bssid, true) && !s.m.bssid.group
  }

  lemma AuthAsks(s: Sys, alg: A.Alg)
    requires Calm(s, C.WaitAuth, [ToAuth(A.Request(s.m.bssid, alg))]) && !alg.OtherAlg?
    ensures Enabled(s, GO) && Asked(Next(s, GO), alg, A.WaitSeq2)
  {
    ReportedIs(A.OnRequest(s.m, s.queue[0].ask, Env(s, GO)).effects);
  }

  /** The last answer of an exchange: the second frame of an open-system one, the fourth of a shared-key one. */
  lemma AuthAnswered(s: Sys, alg: A.Alg, waits: A.AuthState, f: A.Frame)
    requires Asked(s, alg, waits) && waits == (if alg == A.OpenSystem then A.WaitSeq2 else A.WaitSeq4)
    requires f == A.Frame(true, s.m.bssid, if alg == A.OpenSystem then 2 else 4, A.MLME_SUCCESS)
    ensures var b := Next(s, FrameArrives(f));
            Enabled(b, GO) && Calm(Next(b, GO), C.WaitAuth, [ToCntl(C.AuthConf(true))])
  {
    var b := Next(s, FrameArrives(f));
    assert b.queue == [AuthFrame(f)];
    ReportedIs(A.OnPeer(b.m, f, Env(b, GO)).effects);
  }

  /** The second frame of a shared-key exchange: the challenge is answered. */
  lemma AuthChallenged(s: Sys, f: A.Frame)
    requires Asked(s, A.SharedKey, A.WaitSeq2) && f == A.Frame(true, s.m.bssid, 2, A.MLME_SUCCESS)
    ensures var b := Next(s, FrameArrives(f)); Enabled(b, GO) && Asked(Next(b, GO), A.SharedKey, A.WaitSeq4)
  {
    var b := Next(s, FrameArrives(f));
    assert b.queue == [AuthFrame(f)];
    ReportedIs(A.OnPeer(b.m, f, Env(b, GO)).effects);
  }

  lemma LastAnswer(s: Sys, alg: A.Alg, waits: A.AuthState) returns (ts: seq<Step>, to: Sys)
    requires Asked(s, alg, waits) && waits == (if alg == A.OpenSystem then A.WaitSeq2 else A.WaitSeq4)
    ensures Leads(s, ts, to) && Calm(to, C.WaitAssoc, [ToAssoc(C.AssocReq)])
  {
    var f := A.Frame(true, s.m.bssid, if alg == A.OpenSystem then 2 else 4, A.MLME_SUCCESS);
    AuthAnswered(s, alg, waits, f);
    var b := Next(s, FrameArrives(f));
    var d := Next(b, GO);
    SentIs(CntlOutcome(d, C.AuthConf(true)).effects, d.m.bssid);
    to := Next(d, GO);
    assert Leads(to, [], to);
    LeadsOn(d, GO, [], to);
    LeadsOn(b, GO, [GO] + [], to);
    LeadsOn(s, FrameArrives(f), [GO] + ([GO] + []), to);
    ts := [FrameArrives(f)] + ([GO] + ([GO] + []));
  }

  /** A whole exchange, of two frames or of four. */
  lemma AuthSucceeds(s: Sys, alg: A.Alg) returns (ts: seq<Step>, to: Sys)
    requires Calm(s, C.WaitAuth, [ToAuth(A.Request(s.m.bssid, alg))]) && !alg.OtherAlg?
    ensures Leads(s, ts, to) && Calm(to, C.WaitAssoc, [ToAssoc(C.AssocReq)])
  {
    AuthAsks(s, alg);
    var a := Next(s, GO);
    if alg == A.OpenSystem {
      ts, to := LastAnswer(a, alg, A.WaitSeq2);
    } else {
      var f := A.Frame(true, a.m.bssid, 2, A.MLME_SUCCESS);
      AuthChallenged(a, f);
      var b := Next(a, FrameArrives(f));
      ts, to := LastAnswer(Next(b, GO), alg, A.WaitSeq4);
      LeadsOn(b, GO, ts, to);
      LeadsOn(a, FrameArrives(f), [GO] + ts, to);
      ts := [FrameArrives(f)] + ([GO] + ts);
    }
    LeadsOn(s, GO, ts, to);
    ts := [GO] + ts;
  }

  lemma AssocSucceeds(s: Sys) returns (ts: seq<Step>, to: Sys)
    requires Calm(s, C.WaitAssoc, [ToAssoc(C.AssocReq)])
    ensures Leads(s, ts, to) && Calm(to, C.Idle, []) && to.cntl.link.infraOn
  {
    var a := Next(s, GO);
    assert a.queue == [];
    var b := Next(a, AssocAnswers(true));
    assert b.queue == [ToCntl(C.AssocConf(true))];
    SentIs(CntlOutcome(b, C.AssocConf(true)).effects, b.m.bssid);
    to := Next(b, GO);
    assert Leads(to, [], to);
    LeadsOn(b, GO, [], to);
    LeadsOn(a, AssocAnswers(true), [GO] + [], to);
    LeadsOn(s, GO, [AssocAnswers(true)] + ([GO] + []), to);
    ts := [GO] + ([AssocAnswers(true)] + ([GO] + []));
  }

  lemma JoinedSucceeds(s: Sys) returns (ts: seq<Step>, to: Sys)
    requires Calm(s, C.WaitJoin, [ToSync(C.JoinReq(0))])
    ensures Leads(s, ts, to) && Calm(to, C.Idle, []) && to.cntl.link.infraOn
  {
    var join, a, alg := JoinSucceeds(s, 0);
    var auth, b := AuthSucceeds(a, alg);
    var assoc;
    assoc, to := AssocSucceeds(b);
    LeadsThen(a, auth, b, assoc, to);
    LeadsThen(s, join, a, auth + assoc, to);
    ts := join + (auth + assoc);
  }

  /** A message that tries a candidate first leaves the present network, or joins the candidate at once. */
  lemma FirstRequest(c: C.State, msg: C.Message, bssid: A.Mac)
    requires Begin(msg) && c.curr == C.Idle && Tries(c, msg)
    ensures var o := C.Perform(c, msg); var sent := Sent(o.effects, bssid);
      && o.s.cfg == c.cfg && o.s.bssNr >= 1
      && ((o.s.curr == C.WaitJoin && sent == [ToSync(C.JoinReq(0))])
          || (o.s.curr == C.WaitDisassoc && sent == [ToAssoc(C.DisassocReq)]))
  {
    SentIs(C.Perform(c, msg).effects, bssid);
  }

  /** Whatever the authentication mode and the present link: from rest, an attempt on any candidate can
      end with the link up. */
  lemma AttemptCanSucceed(s: Sys, msg: C.Message, addr: A.Mac) returns (ts: seq<Step>, to: Sys)
    requires Calm(s, C.Idle, []) && Begin(msg) && Individual(s, msg, addr) && Tries(s.cntl, msg)
    ensures AtRest(s) && !Loops(s)
    ensures Leads(Start(s, msg, addr), ts, to) && Calm(to, C.Idle, []) && to.cntl.link.infraOn
  {
    var s0 := Start(s, msg, addr);
    var at := s.(m := s0.m);
    FirstRequest(at.cntl.(alg := at.m.alg), msg, at.m.bssid);
    var sent := Sent(CntlOutcome(at, msg).effects, at.m.bssid);
    assert [] + sent == sent;
    if s0.cntl.curr == C.WaitJoin {
      ts, to := JoinedSucceeds(s0);
    } else {
      var leave, a := LeaveSucceeds(s0);
      ts, to := JoinedSucceeds(a);
      LeadsThen(s0, leave, a, ts, to);
      ts := leave + ts;
    }
  }
}
