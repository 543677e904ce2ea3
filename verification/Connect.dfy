// The connection control (CNTL) state machine of Module/connect.c.
//
// One message in, one handler run to completion: every handler is a function
// from the control state to the new state and the calls it made on the rest
// of the driver (requests enqueued for the other machines, link up, link down).
module Connect {
  import Auth

  datatype CntlState =
    | Idle
    | WaitDisassoc
    | WaitJoin
    | WaitReassoc
    | WaitStart
    | WaitAuth
    | WaitAuth2
    | WaitAssoc
    | WaitListScan
    | WaitOidDisassoc

  datatype BssType = Adhoc | Infra | AnyBss

  datatype AuthMode =
    | ModeOpen
    | ModeShared
    | ModeAutoSwitch
    | ModeWpa
    | ModeWpaPsk
    | ModeWpaNone
    | ModeWpa2
    | ModeWpa2Psk

  /** The user's settings the machine reads. */
  datatype Config = Config(bssType: BssType, authMode: AuthMode, ieee8021x: bool)

  /** Status flags and link bookkeeping. */
  datatype Link = Link(
    infraOn: bool,
    adhocOn: bool,
    connected: bool,
    portSecured: bool,
    reqFromNdis: bool,
    radioOff: bool,
    configChanged: bool)

  datatype State = State(
    curr: CntlState,
    bssIdx: nat,            // MlmeAux.BssIdx, the candidate being tried
    bssNr: nat,             // MlmeAux.SsidBssTab.BssNr, how many candidates
    roamIdx: nat,
    roamNr: nat,            // MlmeAux.RoamTab.BssNr
    auxBssType: BssType,    // MlmeAux.BssType, set by SYNC when it joins
    alg: Auth.Alg,               // MlmeAux.Alg, written by AUTH only
    cfg: Config,
    link: Link)

  datatype Message =
    // OID_802_11_SSID: how many scanned networks match, whether the first of
    // them is the present one, and whether a scan may be started for it
    | OidSsid(matches: nat, firstIsCurrent: bool, mayScan: bool)
    // OID_802_11_BSSID: whether the address was scanned, and is the present one
    | OidBssid(found: bool, isCurrent: bool)
    | OidListScan
    | OidDisassociate
    | RoamingReq
    | JoinConf(ok: bool)
    | StartConf(ok: bool)
    | AuthConf(ok: bool)
    | AssocConf(ok: bool)
    | ReassocConf(ok: bool)
    | ScanConf
    | DisassocConf
    | OtherMessage

  datatype Request =
    | JoinReq(bssIdx: nat)
    | StartReq
    | AuthReq(alg: Auth.Alg)
    | AssocReq
    | ReassocReq(roamIdx: nat)
    | DisassocReq
    | ScanReq

  datatype Effect = Send(req: Request) | LinkUp(bssType: BssType) | LinkDown

  datatype Outcome = Outcome(s: State, effects: seq<Effect>)

  // ----- the link flags -----

  /** The flag part of LinkUp. */
  function Up(l: Link, t: BssType): Link {
    if t == Adhoc then l.(adhocOn := true, infraOn := false, configChanged := false)
    else l.(infraOn := true, adhocOn := false, connected := true, configChanged := false)
  }

  /** The flag part of LinkDown: it drops the IBSS if there is one, else the infrastructure link. */
  function Down(l: Link): Link {
    if l.adhocOn then l.(adhocOn := false, connected := l.connected && !l.radioOff, portSecured := false)
    else l.(infraOn := false, connected := false, reqFromNdis := false, portSecured := false)
  }

  // ----- the handlers -----

  /** Tries candidate BssIdx; with none left starts an IBSS of its own, or gives up. */
  function Iterate(s: State): Outcome {
    if s.bssIdx < s.bssNr then Outcome(s.(curr := WaitJoin), [Send(JoinReq(s.bssIdx))])
    else if s.cfg.bssType == Adhoc then Outcome(s.(curr := WaitStart), [Send(StartReq)])
    else Outcome(s.(curr := Idle), [])
  }

  function IterateRoam(s: State): Outcome {
    if s.roamIdx < s.roamNr then Outcome(s.(curr := WaitReassoc), [Send(ReassocReq(s.roamIdx))])
    else Outcome(s.(curr := Idle), [])
  }

  function NextCandidate(s: State): Outcome {
    Iterate(s.(bssIdx := s.bssIdx + 1))
  }

  /** A LinkDown, then whatever the handler goes on to do. */
  function AfterLinkDown(o: Outcome): Outcome {
    o.(effects := [LinkDown] + o.effects)
  }

  function Disassociate(s: State): Outcome {
    Outcome(s.(curr := WaitDisassoc), [Send(DisassocReq)])
  }

  /** The link down of the two OID handlers, which also clear the connected flag. */
  function Dropped(s: State): State {
    s.(link := Down(s.link).(connected := false))
  }

  predicate NeedsPort(cfg: Config) {
    cfg.authMode in {ModeWpa, ModeWpaPsk, ModeWpa2, ModeWpa2Psk} || cfg.ieee8021x
  }

  function OidSsidProc(s: State, m: Message): Outcome
    requires m.OidSsid?
  {
    var t := s.(auxBssType := s.cfg.bssType, bssNr := m.matches);
    if t.link.connected && m.firstIsCurrent then
      if NeedsPort(t.cfg) && !t.link.portSecured then Disassociate(t)
      else if t.link.configChanged then Disassociate(t)
      else Outcome(t.(curr := Idle), [])
    else if t.link.infraOn then Disassociate(t)
    else if t.link.adhocOn then AfterLinkDown(FreshAttempt(Dropped(t), m.mayScan))
    else FreshAttempt(t, m.mayScan)
  }

  function FreshAttempt(s: State, mayScan: bool): Outcome {
    if s.bssNr == 0 && mayScan && s.auxBssType == Infra
    then Outcome(s.(curr := WaitListScan), [Send(ScanReq)])
    else Iterate(s.(bssIdx := 0))
  }

  function OidBssidProc(s: State, m: Message): Outcome
    requires m.OidBssid?
  {
    var t := s.(auxBssType := s.cfg.bssType);
    if !m.found then Outcome(t.(curr := Idle), [])
    else
      var u := t.(bssIdx := 0, bssNr := 1);
      if u.link.connected && m.isCurrent then Outcome(u.(curr := Idle), [])
      else if u.link.infraOn then Disassociate(u)
      else if u.link.adhocOn then AfterLinkDown(JoinNow(Dropped(u)))
      else JoinNow(u)
  }

  function JoinNow(s: State): Outcome {
    Outcome(s.(curr := WaitJoin), [Send(JoinReq(s.bssIdx))])
  }

  function IdleProc(s: State, m: Message): Outcome {
    if s.link.radioOff then Outcome(s.(link := s.link.(reqFromNdis := false)), [])
    else match m
      case OidDisassociate => Outcome(s.(curr := WaitOidDisassoc), [Send(DisassocReq)])
      case RoamingReq => Iterate(s.(bssNr := s.roamNr, bssIdx := 0))
      case _ => Outcome(s, [])
  }

  function WaitDisassocProc(s: State, m: Message): Outcome {
    if m != DisassocConf then Outcome(s, [])
    else
      var t := s.(link := Down(s.link));
      AfterLinkDown(
        if t.bssNr == 0 && t.cfg.bssType == Adhoc
        then Outcome(t.(curr := WaitStart), [Send(StartReq)])
        else Iterate(t.(bssIdx := 0)))
  }

  /** Shared key and auto switch try shared key first. */
  function FirstAlg(mode: AuthMode): Auth.Alg {
    if mode == ModeShared || mode == ModeAutoSwitch then Auth.SharedKey else Auth.OpenSystem
  }

  function WaitJoinProc(s: State, m: Message): Outcome {
    if !m.JoinConf? then Outcome(s, [])
    else if !m.ok then NextCandidate(s)
    else if s.auxBssType == Adhoc then Outcome(s.(curr := Idle, link := Up(s.link, Adhoc)), [LinkUp(Adhoc)])
    else Outcome(s.(curr := WaitAuth), [Send(AuthReq(FirstAlg(s.cfg.authMode)))])
  }

  function WaitStartProc(s: State, m: Message): Outcome {
    if !m.StartConf? then Outcome(s, [])
    else if m.ok then Outcome(s.(curr := Idle, link := Up(s.link, Adhoc)), [LinkUp(Adhoc)])
    else Outcome(s.(curr := Idle), [])
  }

  function WaitAuthProc(s: State, m: Message): Outcome {
    if !m.AuthConf? then Outcome(s, [])
    else if m.ok then Outcome(s.(curr := WaitAssoc), [Send(AssocReq)])
    else Outcome(s.(curr := WaitAuth2), [Send(AuthReq(FirstAlg(s.cfg.authMode)))])
  }

  function WaitAuth2Proc(s: State, m: Message): Outcome {
    if !m.AuthConf? then Outcome(s, [])
    else if m.ok then Outcome(s.(curr := WaitAssoc), [Send(AssocReq)])
    else if s.cfg.authMode == ModeAutoSwitch && s.alg == Auth.SharedKey
    then Outcome(s.(curr := WaitAuth2), [Send(AuthReq(Auth.OpenSystem))])
    else NextCandidate(s)
  }

  function WaitAssocProc(s: State, m: Message): Outcome {
    if !m.AssocConf? then Outcome(s, [])
    else if m.ok then Outcome(s.(curr := Idle, link := Up(s.link, Infra)), [LinkUp(Infra)])
    else NextCandidate(s)
  }

  function WaitReassocProc(s: State, m: Message): Outcome {
    if !m.ReassocConf? then Outcome(s, [])
    else if m.ok then Outcome(s.(curr := Idle, link := Up(s.link, Infra)), [LinkUp(Infra)])
    else IterateRoam(s.(roamIdx := s.roamIdx + 1))
  }

  /** MlmeCntlMachinePerformAction: three requests are taken in any state, the rest by state. */
  function Perform(s: State, m: Message): Outcome {
    if m.OidSsid? then OidSsidProc(s, m)
    else if m.OidBssid? then OidBssidProc(s, m)
    else if m.OidListScan? then Outcome(s.(curr := WaitListScan), [Send(ScanReq)])
    else match s.curr
      case Idle => IdleProc(s, m)
      case WaitDisassoc => WaitDisassocProc(s, m)
      case WaitJoin => WaitJoinProc(s, m)
      case WaitReassoc => WaitReassocProc(s, m)
      case WaitStart => WaitStartProc(s, m)
      case WaitAuth => WaitAuthProc(s, m)
      case WaitAuth2 => WaitAuth2Proc(s, m)
      case WaitAssoc => WaitAssocProc(s, m)
      case WaitListScan => Outcome(if m == ScanConf then s.(curr := Idle) else s, [])
      case WaitOidDisassoc =>
        if m == DisassocConf then AfterLinkDown(Outcome(s.(curr := Idle, link := Down(s.link)), [])) else Outcome(s, [])
  }

  // ----- the rest of the driver -----

  /** What happens between two steps of a run. */
  datatype Input =
    | Deliver(m: Message)
    | LinkDownElsewhere                      // lost beacons, a deauthentication, a radio switch
    | ForceDisassoc                          // MIC counter-measures
    | ForceScan                              // periodic scan while not connected or roaming
    | Restart                                // MlmeRestartStateMachine
    // the rest of the driver changes anything but the machine's own fields and the two link flags
    | Environment(auxBssType: BssType, alg: Auth.Alg, cfg: Config, roamNr: nat, flags: Link)

  function Step(s: State, i: Input): Outcome {
    match i
    case Deliver(m) => Perform(s, m)
    case LinkDownElsewhere => Outcome(s.(link := Down(s.link)), [LinkDown])
    case ForceDisassoc => Disassociate(s)
    case ForceScan => Outcome(s.(curr := WaitListScan), [Send(ScanReq)])
    case Restart => Outcome(s.(curr := Idle), [])
    case Environment(t, a, cfg, n, f) =>
      Outcome(s.(auxBssType := t, alg := a, cfg := cfg, roamNr := n,
                 link := f.(infraOn := s.link.infraOn, adhocOn := s.link.adhocOn)), [])
  }

  /** Control machine after initialisation: idle, no link. */
  predicate Initial(s: State) {
    s.curr == Idle && !s.link.infraOn && !s.link.adhocOn
  }

  /** A run: inputs, the states between them, and the calls each input caused. */
  datatype Run = Run(states: seq<State>, inputs: seq<Input>, effects: seq<seq<Effect>>)

  ghost predicate Shaped(r: Run) {
    |r.states| == |r.inputs| + 1 && |r.effects| == |r.inputs| && Initial(r.states[0])
  }

  ghost predicate IsRun(r: Run) {
    && Shaped(r)
    && forall k: nat :: k < |r.inputs| ==> Step(r.states[k], r.inputs[k]) == Outcome(r.states[k + 1], r.effects[k])
  }

  // ----- what any one step does to the flags, the state and the candidate -----

  /** The pair of link flags after a list of calls. */
  datatype Lights = Lights(infra: bool, adhoc: bool)

  function Lit(s: State): Lights {
    Lights(s.link.infraOn, s.link.adhocOn)
  }

  function Light(was: Lights, e: Effect): Lights {
    match e
    case Send(_) => was
    case LinkUp(t) => Lights(t != Adhoc, t == Adhoc)
    case LinkDown => Lights(was.infra && was.adhoc, false)
  }

  function LightAll(was: Lights, effects: seq<Effect>): Lights
    decreases |effects|
  {
    if effects == [] then was
    else Light(LightAll(was, effects[..|effects| - 1]), effects[|effects| - 1])
  }

  /** How the machine may move: the flags follow the calls, and each state is entered only as listed. */
  predicate Moves(s: State, i: Input, o: Outcome) {
    && |o.effects| <= 2
    && (|o.effects| == 2 ==> o.effects[0] == LinkDown && o.effects[1].Send?)
    && Lit(o.s) == LightAll(Lit(s), o.effects)
    && (o.s.curr == WaitReassoc ==> s.curr == WaitReassoc)
    && (PastJoin(o.s.curr) ==>
          && o.s.bssIdx == s.bssIdx
          && (PastJoin(s.curr) || (s.curr == WaitJoin && i == Deliver(JoinConf(true)))))
    && (o.s.curr == WaitAssoc ==>
          s.curr == WaitAssoc || (Authenticating(s.curr) && i == Deliver(AuthConf(true))))
    && (LinkUp(Infra) in o.effects ==>
          || (s.curr == WaitAssoc && i == Deliver(AssocConf(true)))
          || s.curr == WaitReassoc)
    && (o.s.curr == WaitJoin ==>
          if AsksJoin(o.effects) then JoinAsked(o.effects) == o.s.bssIdx < o.s.bssNr
          else s.curr == WaitJoin && o.s.bssIdx == s.bssIdx && o.s.bssNr == s.bssNr)
  }

  predicate AsksJoin(es: seq<Effect>) {
    es != [] && es[|es| - 1].Send? && es[|es| - 1].req.JoinReq?
  }

  function JoinAsked(es: seq<Effect>): nat
    requires AsksJoin(es)
  {
    es[|es| - 1].req.bssIdx
  }

  predicate Authenticating(c: CntlState) {
    c == WaitAuth || c == WaitAuth2
  }

  predicate PastJoin(c: CntlState) {
    Authenticating(c) || c == WaitAssoc
  }

  lemma LightTwo(was: Lights, a: Effect, b: Effect)
    ensures LightAll(was, []) == was
    ensures LightAll(was, [a]) == Light(was, a)
    ensures LightAll(was, [a, b]) == Light(Light(was, a), b)
  {
    assert [a][..0] == [];
    assert [a, b][..1] == [a];
  }

  lemma EffectsLit(was: Lights, effects: seq<Effect>)
    requires |effects| <= 2
    ensures effects == [] ==> LightAll(was, effects) == was
    ensures |effects| == 1 ==> LightAll(was, effects) == Light(was, effects[0])
    ensures |effects| == 2 ==> LightAll(was, effects) == Light(Light(was, effects[0]), effects[1])
  {
    if |effects| == 1 {
      assert effects == [effects[0]];
      LightTwo(was, effects[0], effects[0]);
    } else if |effects| == 2 {
      assert effects == [effects[0], effects[1]];
      LightTwo(was, effects[0], effects[1]);
    }
  }

  lemma OidSsidMoves(s: State, m: Message)
    requires m.OidSsid?
    ensures Moves(s, Deliver(m), OidSsidProc(s, m))
  {
    EffectsLit(Lit(s), OidSsidProc(s, m).effects);
  }

  lemma OidBssidMoves(s: State, m: Message)
    requires m.OidBssid?
    ensures Moves(s, Deliver(m), OidBssidProc(s, m))
  {
    EffectsLit(Lit(s), OidBssidProc(s, m).effects);
  }

  lemma IdleMoves(s: State, m: Message)
    requires s.curr == Idle
    ensures Moves(s, Deliver(m), IdleProc(s, m))
  {
    EffectsLit(Lit(s), IdleProc(s, m).effects);
  }

  lemma WaitDisassocMoves(s: State, m: Message)
    requires s.curr == WaitDisassoc
    ensures Moves(s, Deliver(m), WaitDisassocProc(s, m))
  {
    EffectsLit(Lit(s), WaitDisassocProc(s, m).effects);
  }

  lemma WaitJoinMoves(s: State, m: Message)
    requires s.curr == WaitJoin
    ensures Moves(s, Deliver(m), WaitJoinProc(s, m))
  {
    EffectsLit(Lit(s), WaitJoinProc(s, m).effects);
  }

  lemma WaitAuthMoves(s: State, m: Message)
    requires Authenticating(s.curr)
    ensures Moves(s, Deliver(m), if s.curr == WaitAuth then WaitAuthProc(s, m) else WaitAuth2Proc(s, m))
  {
    EffectsLit(Lit(s), WaitAuthProc(s, m).effects);
    EffectsLit(Lit(s), WaitAuth2Proc(s, m).effects);
  }

  lemma WaitAssocMoves(s: State, m: Message)
    requires s.curr == WaitAssoc
    ensures Moves(s, Deliver(m), WaitAssocProc(s, m))
  {
    EffectsLit(Lit(s), WaitAssocProc(s, m).effects);
  }

  lemma OtherMoves(s: State, m: Message)
    requires s.curr in {WaitReassoc, WaitStart, WaitListScan, WaitOidDisassoc}
    requires !m.OidSsid? && !m.OidBssid?
    ensures Moves(s, Deliver(m), Perform(s, m))
  {
    EffectsLit(Lit(s), Perform(s, m).effects);
  }

  lemma PerformMoves(s: State, m: Message)
    ensures Moves(s, Deliver(m), Perform(s, m))
  {
    if m.OidSsid? {
      OidSsidMoves(s, m);
    } else if m.OidBssid? {
      OidBssidMoves(s, m);
    } else if m.OidListScan? {
      EffectsLit(Lit(s), Perform(s, m).effects);
    } else {
      match s.curr {
        case Idle => IdleMoves(s, m);
        case WaitDisassoc => WaitDisassocMoves(s, m);
        case WaitJoin => WaitJoinMoves(s, m);
        case WaitAuth => WaitAuthMoves(s, m);
        case WaitAuth2 => WaitAuthMoves(s, m);
        case WaitAssoc => WaitAssocMoves(s, m);
        case _ => OtherMoves(s, m);
      }
    }
  }

  lemma StepMoves(s: State, i: Input)
    ensures Moves(s, i, Step(s, i))
  {
    if i.Deliver? {
      PerformMoves(s, i.m);
    } else {
      EffectsLit(Lit(s), Step(s, i).effects);
    }
  }

  // ----- safety on every run -----

  ghost predicate Moving(r: Run) {
    && Shaped(r)
    && forall k: nat :: k < |r.inputs| ==> MovesAt(r, k)
  }

  ghost predicate MovesAt(r: Run, k: nat)
    requires Shaped(r) && k < |r.inputs|
  {
    Moves(r.states[k], r.inputs[k], Outcome(r.states[k + 1], r.effects[k]))
  }

  lemma RunsMove(r: Run)
    requires IsRun(r)
    ensures Moving(r)
  {
    forall k: nat | k < |r.inputs| ensures MovesAt(r, k) {
      StepMoves(r.states[k], r.inputs[k]);
    }
  }

  lemma {:induction false} MovingKeeps(r: Run, k: nat)
    requires Moving(r) && k <= |r.inputs|
    ensures r.states[k].curr != WaitReassoc
    ensures !(r.states[k].link.infraOn && r.states[k].link.adhocOn)
  {
    if k > 0 {
      MovingKeeps(r, k - 1);
      assert MovesAt(r, k - 1);
      EffectsLit(Lit(r.states[k - 1]), r.effects[k - 1]);
    }
  }

  /** The reassociation state cannot be reached, and no run ever has both links on. */
  lemma NeverBothLinks(r: Run, k: nat)
    requires IsRun(r) && k <= |r.inputs|
    ensures r.states[k].curr != WaitReassoc
    ensures !(r.states[k].link.infraOn && r.states[k].link.adhocOn)
  {
    RunsMove(r);
    MovingKeeps(r, k);
  }

  /** The last link event among some calls, `was` if there is none. */
  function LinkLeft(was: Effect, effects: seq<Effect>): Effect
    decreases |effects|
  {
    if effects == [] then was
    else if effects[|effects| - 1].Send? then LinkLeft(was, effects[..|effects| - 1])
    else effects[|effects| - 1]
  }

  /** The last link event before input k; a machine starts with its link down. */
  function LinkAfter(effects: seq<seq<Effect>>, k: nat): Effect
    requires k <= |effects|
  {
    if k == 0 then LinkDown else LinkLeft(LinkAfter(effects, k - 1), effects[k - 1])
  }

  /** The flags a link event stands for. */
  predicate Shows(l: Lights, e: Effect) {
    && !e.Send?
    && (l.infra <==> e.LinkUp? && e.bssType != Adhoc)
    && (l.adhoc <==> e == LinkUp(Adhoc))
  }

  lemma {:induction false} LightShows(was: Lights, e: Effect, effects: seq<Effect>)
    requires Shows(was, e)
    ensures Shows(LightAll(was, effects), LinkLeft(e, effects))
    decreases |effects|
  {
    if effects != [] {
      LightShows(was, e, effects[..|effects| - 1]);
    }
  }

  lemma {:induction false} MovingShows(r: Run, k: nat)
    requires Moving(r) && k <= |r.inputs|
    ensures Shows(Lit(r.states[k]), LinkAfter(r.effects, k))
  {
    if k > 0 {
      MovingShows(r, k - 1);
      assert MovesAt(r, k - 1);
      LightShows(Lit(r.states[k - 1]), LinkAfter(r.effects, k - 1), r.effects[k - 1]);
    }
  }

  /** On every run the two status flags say exactly what the last link event was. */
  lemma FlagsTellTheLastLinkEvent(r: Run, k: nat)
    requires IsRun(r) && k <= |r.inputs|
    ensures r.states[k].link.infraOn <==> LinkAfter(r.effects, k).LinkUp? && LinkAfter(r.effects, k).bssType != Adhoc
    ensures r.states[k].link.adhocOn <==> LinkAfter(r.effects, k) == LinkUp(Adhoc)
  {
    RunsMove(r);
    MovingShows(r, k);
  }

  // ----- what LinkUp(Infra) rests on -----

  /** From after input i up to k the attempt went on, past its join, on the candidate it had at i. */
  ghost predicate JoinedAt(r: Run, i: nat, k: nat)
    requires Shaped(r)
  {
    && i < k <= |r.inputs|
    && r.inputs[i] == Deliver(JoinConf(true))
    && r.states[i].curr == WaitJoin
    && forall t: nat :: i < t <= k ==> PastJoin(r.states[t].curr) && r.states[t].bssIdx == r.states[i].bssIdx
  }

  /** From after input j up to k the attempt awaited its association, on the candidate it had at j. */
  ghost predicate AuthenticatedAt(r: Run, j: nat, k: nat)
    requires Shaped(r)
  {
    && j < k <= |r.inputs|
    && r.inputs[j] == Deliver(AuthConf(true))
    && Authenticating(r.states[j].curr)
    && forall t: nat :: j < t <= k ==> r.states[t].curr == WaitAssoc && r.states[t].bssIdx == r.states[j].bssIdx
  }

  lemma {:induction false} FindJoin(r: Run, k: nat) returns (i: nat)
    requires Moving(r) && k <= |r.inputs| && PastJoin(r.states[k].curr)
    ensures JoinedAt(r, i, k)
  {
    assert MovesAt(r, k - 1);
    if PastJoin(r.states[k - 1].curr) {
      i := FindJoin(r, k - 1);
    } else {
      i := k - 1;
    }
  }

  lemma {:induction false} FindAuth(r: Run, k: nat) returns (j: nat)
    requires Moving(r) && k <= |r.inputs| && r.states[k].curr == WaitAssoc
    ensures AuthenticatedAt(r, j, k)
  {
    assert MovesAt(r, k - 1);
    if r.states[k - 1].curr == WaitAssoc {
      j := FindAuth(r, k - 1);
    } else {
      j := k - 1;
    }
  }

  lemma JoinComesFirst(r: Run, i: nat, j: nat, k: nat)
    requires Shaped(r) && JoinedAt(r, i, k) && AuthenticatedAt(r, j, k)
    ensures i < j
  {
  }

  lemma LinkUpRests(r: Run, k: nat) returns (i: nat, j: nat)
    requires Moving(r) && k < |r.inputs| && LinkUp(Infra) in r.effects[k]
    ensures r.inputs[k] == Deliver(AssocConf(true)) && r.states[k].curr == WaitAssoc
    ensures i < j < k && JoinedAt(r, i, k) && AuthenticatedAt(r, j, k)
  {
    MovingKeeps(r, k);
    assert MovesAt(r, k);
    i := FindJoin(r, k);
    j := FindAuth(r, k);
    JoinComesFirst(r, i, j, k);
  }

  /**
   * An infrastructure link comes up only on an association success, after an
   * authentication success, after a join success, all three on one candidate,
   * with nothing in between that left the attempt: whatever other requests,
   * forced states and link losses the run contains.
   */
  lemma LinkUpNeedsJoinAuthAssoc(r: Run, k: nat) returns (i: nat, j: nat)
    requires IsRun(r) && k < |r.inputs| && LinkUp(Infra) in r.effects[k]
    ensures r.inputs[k] == Deliver(AssocConf(true)) && r.states[k].curr == WaitAssoc
    ensures i < j < k && JoinedAt(r, i, k) && AuthenticatedAt(r, j, k)
  {
    RunsMove(r);
    i, j := LinkUpRests(r, k);
  }

  /** The candidate named by the last join request before input k, 0 if there was none. */
  function LastJoin(effects: seq<seq<Effect>>, k: nat): nat
    requires k <= |effects|
  {
    if k == 0 then 0
    else if AsksJoin(effects[k - 1]) then JoinAsked(effects[k - 1])
    else LastJoin(effects, k - 1)
  }

  lemma {:induction false} MovingJoins(r: Run, k: nat)
    requires Moving(r) && k <= |r.inputs| && r.states[k].curr == WaitJoin
    ensures LastJoin(r.effects, k) == r.states[k].bssIdx < r.states[k].bssNr
  {
    assert MovesAt(r, k - 1);
    if !AsksJoin(r.effects[k - 1]) {
      MovingJoins(r, k - 1);
    }
  }

  /** Every awaited join is the one last asked for: of the current candidate, which is in the table. */
  lemma JoinsTheCurrentCandidate(r: Run, k: nat)
    requires IsRun(r) && k <= |r.inputs| && r.states[k].curr == WaitJoin
    ensures LastJoin(r.effects, k) == r.states[k].bssIdx < r.states[k].bssNr
  {
    RunsMove(r);
    MovingJoins(r, k);
  }

  // ----- the machine in place -----

  /** The control machine's share of the adapter, changed in place by its handlers. */
  class Cntl {
    var curr: CntlState
    var bssIdx: nat
    var bssNr: nat
    var roamIdx: nat
    var roamNr: nat
    var auxBssType: BssType
    var alg: Auth.Alg
    var cfg: Config
    var infraOn: bool
    var adhocOn: bool
    var connected: bool
    var portSecured: bool
    var reqFromNdis: bool
    var radioOff: bool
    var configChanged: bool
    var calls: seq<Effect>

    ghost function Flags(): Link
      reads this
    {
      Link(infraOn, adhocOn, connected, portSecured, reqFromNdis, radioOff, configChanged)
    }

    ghost function View(): State
      reads this
    {
      State(curr, bssIdx, bssNr, roamIdx, roamNr, auxBssType, alg, cfg, Flags())
    }

    /** The handler that ran from `was` did what the outcome says and nothing else. */
    ghost predicate Did(o: Outcome, before: seq<Effect>)
      reads this
    {
      View() == o.s && calls == before + o.effects
    }

    constructor (cfg: Config)
      ensures Initial(View()) && calls == [] && this.cfg == cfg
    {
      curr, bssIdx, bssNr, roamIdx, roamNr := Idle, 0, 0, 0, 0;
      auxBssType, alg, this.cfg := AnyBss, Auth.OpenSystem, cfg;
      infraOn, adhocOn, connected, portSecured := false, false, false, false;
      reqFromNdis, radioOff, configChanged := false, false, false;
      calls := [];
    }

    method MlmeEnqueue(req: Request)
      modifies this`calls
      ensures calls == old(calls) + [Send(req)]
    {
      calls := calls + [Send(req)];
    }

    method DoLinkUp(t: BssType)
      modifies this
      ensures Did(Outcome(old(View()).(link := Up(old(Flags()), t)), [LinkUp(t)]), old(calls))
    {
      if t == Adhoc {
        adhocOn := true;
        infraOn := false;
      } else {
        infraOn := true;
        adhocOn := false;
        connected := true;
      }
      configChanged := false;
      calls := calls + [LinkUp(t)];
    }

    method DoLinkDown()
      modifies this
      ensures Did(Outcome(old(View()).(link := Down(old(Flags()))), [LinkDown]), old(calls))
    {
      if adhocOn {
        adhocOn := false;
        if radioOff {
          connected := false;
        }
      } else {
        infraOn := false;
        connected := false;
        if reqFromNdis {
          reqFromNdis := false;
        }
      }
      portSecured := false;
      calls := calls + [LinkDown];
    }

    method IterateOnBssTab()
      modifies this
      ensures Did(Iterate(old(View())), old(calls))
    {
      if bssIdx < bssNr {
        MlmeEnqueue(JoinReq(bssIdx));
        curr := WaitJoin;
      } else if cfg.bssType == Adhoc {
        MlmeEnqueue(StartReq);
        curr := WaitStart;
      } else {
        curr := Idle;
      }
    }

    method IterateOnBssTab2()
      modifies this
      ensures Did(IterateRoam(old(View())), old(calls))
    {
      if roamIdx < roamNr {
        MlmeEnqueue(ReassocReq(roamIdx));
        curr := WaitReassoc;
      } else {
        curr := Idle;
      }
    }

    method DisassociateFirst()
      modifies this
      ensures Did(Disassociate(old(View())), old(calls))
    {
      MlmeEnqueue(DisassocReq);
      curr := WaitDisassoc;
    }

    method StartScan()
      modifies this
      ensures Did(Outcome(old(View()).(curr := WaitListScan), [Send(ScanReq)]), old(calls))
    {
      MlmeEnqueue(ScanReq);
      curr := WaitListScan;
    }

    method DropAdhoc()
      modifies this
      ensures Did(Outcome(Dropped(old(View())), [LinkDown]), old(calls))
    {
      DoLinkDown();
      connected := false;
    }

    method ScanOrIterate(mayScan: bool)
      modifies this
      ensures Did(FreshAttempt(old(View()), mayScan), old(calls))
    {
      if bssNr == 0 && mayScan && auxBssType == Infra {
        StartScan();
      } else {
        bssIdx := 0;
        IterateOnBssTab();
      }
    }

    method CntlOidSsidProc(m: Message)
      requires m.OidSsid?
      modifies this
      ensures Did(OidSsidProc(old(View()), m), old(calls))
    {
      auxBssType := cfg.bssType;
      bssNr := m.matches;
      if connected && m.firstIsCurrent {
        if NeedsPort(cfg) && !portSecured {
          DisassociateFirst();
        } else if configChanged {
          DisassociateFirst();
        } else {
          curr := Idle;
        }
      } else if infraOn {
        DisassociateFirst();
      } else {
        if adhocOn {
          DropAdhoc();
        }
        ScanOrIterate(m.mayScan);
      }
    }

    method CntlOidRTBssidProc(m: Message)
      requires m.OidBssid?
      modifies this
      ensures Did(OidBssidProc(old(View()), m), old(calls))
    {
      auxBssType := cfg.bssType;
      if !m.found {
        curr := Idle;
        return;
      }
      bssIdx := 0;
      bssNr := 1;
      if connected && m.isCurrent {
        curr := Idle;
      } else if infraOn {
        DisassociateFirst();
      } else {
        if adhocOn {
          DropAdhoc();
        }
        MlmeEnqueue(JoinReq(bssIdx));
        curr := WaitJoin;
      }
    }

    method CntlIdleProc(m: Message)
      modifies this
      ensures Did(IdleProc(old(View()), m), old(calls))
    {
      if radioOff {
        if reqFromNdis {
          reqFromNdis := false;
        }
        return;
      }
      match m {
        case OidDisassociate =>
          MlmeEnqueue(DisassocReq);
          curr := WaitOidDisassoc;
        case RoamingReq =>
          bssNr := roamNr;
          bssIdx := 0;
          IterateOnBssTab();
        case _ =>
      }
    }

    method CntlWaitDisassocProc(m: Message)
      modifies this
      ensures Did(WaitDisassocProc(old(View()), m), old(calls))
    {
      if m == DisassocConf {
        DoLinkDown();
        if bssNr == 0 && cfg.bssType == Adhoc {
          MlmeEnqueue(StartReq);
          curr := WaitStart;
        } else {
          bssIdx := 0;
          IterateOnBssTab();
        }
      }
    }

    method CntlWaitJoinProc(m: Message)
      modifies this
      ensures Did(WaitJoinProc(old(View()), m), old(calls))
    {
      if m.JoinConf? {
        if m.ok {
          if auxBssType == Adhoc {
            DoLinkUp(Adhoc);
            curr := Idle;
          } else {
            if cfg.authMode == ModeShared || cfg.authMode == ModeAutoSwitch {
              MlmeEnqueue(AuthReq(Auth.SharedKey));
            } else {
              MlmeEnqueue(AuthReq(Auth.OpenSystem));
            }
            curr := WaitAuth;
          }
        } else {
          bssIdx := bssIdx + 1;
          IterateOnBssTab();
        }
      }
    }

    method CntlWaitStartProc(m: Message)
      modifies this
      ensures Did(WaitStartProc(old(View()), m), old(calls))
    {
      if m.StartConf? {
        if m.ok {
          DoLinkUp(Adhoc);
        }
        curr := Idle;
      }
    }

    method CntlWaitAuthProc(m: Message)
      modifies this
      ensures Did(WaitAuthProc(old(View()), m), old(calls))
    {
      if m.AuthConf? {
        if m.ok {
          MlmeEnqueue(AssocReq);
          curr := WaitAssoc;
        } else {
          if cfg.authMode == ModeShared || cfg.authMode == ModeAutoSwitch {
            MlmeEnqueue(AuthReq(Auth.SharedKey));
          } else {
            MlmeEnqueue(AuthReq(Auth.OpenSystem));
          }
          curr := WaitAuth2;
        }
      }
    }

    method CntlWaitAuthProc2(m: Message)
      modifies this
      ensures Did(WaitAuth2Proc(old(View()), m), old(calls))
    {
      if m.AuthConf? {
        if m.ok {
          MlmeEnqueue(AssocReq);
          curr := WaitAssoc;
        } else if cfg.authMode == ModeAutoSwitch && alg == Auth.SharedKey {
          MlmeEnqueue(AuthReq(Auth.OpenSystem));
          curr := WaitAuth2;
        } else {
          bssIdx := bssIdx + 1;
          IterateOnBssTab();
        }
      }
    }

    method CntlWaitAssocProc(m: Message)
      modifies this
      ensures Did(WaitAssocProc(old(View()), m), old(calls))
    {
      if m.AssocConf? {
        if m.ok {
          DoLinkUp(Infra);
          curr := Idle;
        } else {
          bssIdx := bssIdx + 1;
          IterateOnBssTab();
        }
      }
    }

    method CntlWaitReassocProc(m: Message)
      modifies this
      ensures Did(WaitReassocProc(old(View()), m), old(calls))
    {
      if m.ReassocConf? {
        if m.ok {
          DoLinkUp(Infra);
          curr := Idle;
        } else {
          roamIdx := roamIdx + 1;
          IterateOnBssTab2();
        }
      }
    }

    /** Dispatches one message exactly as the specification function does. */
    method MlmeCntlMachinePerformAction(m: Message)
      modifies this
      ensures Did(Perform(old(View()), m), old(calls))
    {
      match m {
        case OidSsid(_, _, _) => CntlOidSsidProc(m); return;
        case OidBssid(_, _) => CntlOidRTBssidProc(m); return;
        case OidListScan => StartScan(); return;
        case _ =>
      }
      match curr {
        case Idle => CntlIdleProc(m);
        case WaitDisassoc => CntlWaitDisassocProc(m);
        case WaitJoin => CntlWaitJoinProc(m);
        case WaitReassoc => CntlWaitReassocProc(m);
        case WaitStart => CntlWaitStartProc(m);
        case WaitAuth => CntlWaitAuthProc(m);
        case WaitAuth2 => CntlWaitAuthProc2(m);
        case WaitAssoc => CntlWaitAssocProc(m);
        case WaitListScan =>
          if m == ScanConf {
            curr := Idle;
          }
        case WaitOidDisassoc =>
          if m == DisassocConf {
            DoLinkDown();
            curr := Idle;
          }
      }
    }
  }
}
