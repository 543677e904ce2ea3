// What makes the control machine call the rest of the driver: for each request
// and each link event, exactly which messages in which states lead to it.
module ConnectCauses {
  import A = Auth
  import opened Connect

  /** The machine acts on a request of the user: it does not keep the connected network. */
  predicate Leaving(s: State, m: Message) {
    || (m.OidSsid? && !(s.link.connected && m.firstIsCurrent))
    || (m.OidBssid? && m.found && !(s.link.connected && m.isCurrent))
  }

  /** The present candidate was given up. */
  predicate GivenUp(s: State, m: Message) {
    || (s.curr == WaitJoin && m == JoinConf(false))
    || (s.curr == WaitAssoc && m == AssocConf(false))
    || (s.curr == WaitAuth2 && m == AuthConf(false) && !(s.cfg.authMode == ModeAutoSwitch && s.alg == A.SharedKey))
  }

  /** The attempt begins with the first of n candidates. */
  predicate BeginsWith(s: State, m: Message, n: nat) {
    || (Leaving(s, m) && !s.link.infraOn && n == if m.OidSsid? then m.matches else 1)
    || (s.curr == Idle && m == RoamingReq && !s.link.radioOff && n == s.roamNr)
    || (s.curr == WaitDisassoc && m == DisassocConf && n == s.bssNr)
  }

  /** A join is asked for exactly of the first candidate of a new attempt and of the one after a
      candidate given up. */
  lemma JoinAskedExactlyWhen(s: State, m: Message, i: nat)
    ensures Send(JoinReq(i)) in Perform(s, m).effects <==>
            || (i == 0 && exists n: nat :: n > 0 && BeginsWith(s, m, n))
            || (GivenUp(s, m) && i == s.bssIdx + 1 && i < s.bssNr)
  {
    if Send(JoinReq(i)) in Perform(s, m).effects && !GivenUp(s, m) {
      assert BeginsWith(s, m, Perform(s, m).s.bssNr);
    }
  }

  /** The attempt's table: candidates are counted anew when one begins, and the index moves with the joins. */
  lemma CandidateFollows(s: State, m: Message, i: nat)
    requires Send(JoinReq(i)) in Perform(s, m).effects
    ensures Perform(s, m).s.bssIdx == i
    ensures GivenUp(s, m) ==> Perform(s, m).s.bssNr == s.bssNr
    ensures !GivenUp(s, m) ==> BeginsWith(s, m, Perform(s, m).s.bssNr)
  {
  }

  /** How many candidates an attempt has is said by the message that begins it, and by no other. */
  lemma CandidatesCounted(s: State, m: Message)
    ensures Perform(s, m).s.bssNr ==
            match m
            case OidSsid(n, _, _) => n
            case OidBssid(found, _) => if found then 1 else s.bssNr
            case RoamingReq => if s.curr == Idle && !s.link.radioOff then s.roamNr else s.bssNr
            case _ => s.bssNr
  {
  }

  /** An IBSS is started exactly when no candidate is left and the user wants an IBSS. */
  lemma StartAskedExactlyWhen(s: State, m: Message)
    ensures Send(StartReq) in Perform(s, m).effects <==>
            s.cfg.bssType == Adhoc && (BeginsWith(s, m, 0) || (GivenUp(s, m) && s.bssIdx + 1 >= s.bssNr))
  {
  }

  /** Which algorithm is asked for: shared key first in the shared-key and the automatic mode, open
      system first in all others; once more after a first refusal; open system after a shared-key one
      in the automatic mode. */
  lemma AuthAskedExactlyWhen(s: State, m: Message, alg: A.Alg)
    ensures Send(AuthReq(alg)) in Perform(s, m).effects <==>
            || (&& ((s.curr == WaitJoin && m == JoinConf(true) && s.auxBssType != Adhoc)
                    || (s.curr == WaitAuth && m == AuthConf(false)))
                && alg == (match s.cfg.authMode
                           case ModeShared => A.SharedKey
                           case ModeAutoSwitch => A.SharedKey
                           case _ => A.OpenSystem))
            || (s.curr == WaitAuth2 && m == AuthConf(false) && s.cfg.authMode == ModeAutoSwitch
                && s.alg == A.SharedKey && alg == A.OpenSystem)
  {
  }

  lemma AssocAskedExactlyWhen(s: State, m: Message)
    ensures Send(AssocReq) in Perform(s, m).effects <==> s.curr in {WaitAuth, WaitAuth2} && m == AuthConf(true)
  {
  }

  /** A link is left by disassociation exactly when it is an infrastructure link the user wants to leave,
      or the wanted network's own link whose port was never secured or whose configuration changed. */
  lemma DisassocAskedExactlyWhen(s: State, m: Message)
    ensures Send(DisassocReq) in Perform(s, m).effects <==>
            || (Leaving(s, m) && s.link.infraOn)
            || (&& m.OidSsid? && s.link.connected && m.firstIsCurrent
                && (s.link.configChanged
                    || (!s.link.portSecured
                        && (s.cfg.ieee8021x || s.cfg.authMode in {ModeWpa, ModeWpaPsk, ModeWpa2, ModeWpa2Psk}))))
            || (s.curr == Idle && m == OidDisassociate && !s.link.radioOff)
  {
  }

  lemma ScanAskedExactlyWhen(s: State, m: Message)
    ensures Send(ScanReq) in Perform(s, m).effects <==>
            || m == OidListScan
            || (m.OidSsid? && Leaving(s, m) && !s.link.infraOn && m.matches == 0 && m.mayScan && s.cfg.bssType == Infra)
  {
  }

  lemma ReassocAskedExactlyWhen(s: State, m: Message, i: nat)
    ensures Send(ReassocReq(i)) in Perform(s, m).effects <==>
            s.curr == WaitReassoc && m == ReassocConf(false) && i == s.roamIdx + 1 < s.roamNr
  {
  }

  /** An infrastructure link comes up exactly on an association; an IBSS link exactly when one was
      started or an existing one joined. */
  lemma LinkUpExactlyWhen(s: State, m: Message)
    ensures LinkUp(Infra) in Perform(s, m).effects <==>
            (s.curr == WaitAssoc && m == AssocConf(true)) || (s.curr == WaitReassoc && m == ReassocConf(true))
    ensures LinkUp(Adhoc) in Perform(s, m).effects <==>
            || (s.curr == WaitStart && m == StartConf(true))
            || (s.curr == WaitJoin && m == JoinConf(true) && s.auxBssType == Adhoc)
    ensures LinkUp(AnyBss) !in Perform(s, m).effects
  {
  }

  lemma LinkDownExactlyWhen(s: State, m: Message)
    ensures LinkDown in Perform(s, m).effects <==>
            || (Leaving(s, m) && !s.link.infraOn && s.link.adhocOn)
            || (s.curr in {WaitDisassoc, WaitOidDisassoc} && m == DisassocConf)
  {
  }

  /** What the machine waits for once it has asked for something. */
  function Awaits(m: Message, req: Request): CntlState {
    match req
    case JoinReq(_) => WaitJoin
    case StartReq => WaitStart
    case AuthReq(_) => if m.JoinConf? then WaitAuth else WaitAuth2
    case AssocReq => WaitAssoc
    case ReassocReq(_) => WaitReassoc
    case DisassocReq => if m.OidDisassociate? then WaitOidDisassoc else WaitDisassoc
    case ScanReq => WaitListScan
  }

  /** The message a waiting machine waits for. */
  predicate Awaited(c: CntlState, m: Message) {
    match m
    case JoinConf(_) => c == WaitJoin
    case StartConf(_) => c == WaitStart
    case AuthConf(_) => c == WaitAuth || c == WaitAuth2
    case AssocConf(_) => c == WaitAssoc
    case ReassocConf(_) => c == WaitReassoc
    case ScanConf => c == WaitListScan
    case DisassocConf => c == WaitDisassoc || c == WaitOidDisassoc
    case _ => false
  }

  /** Messages of the user, which are taken in any state. */
  predicate OfTheUser(m: Message) {
    m.OidSsid? || m.OidBssid? || m.OidListScan?
  }

  ghost predicate Follows(o: Outcome, m: Message, req: Request) {
    o.s.curr == Awaits(m, req) && forall other :: Send(other) in o.effects ==> other == req
  }

  lemma UserStateFollows(s: State, m: Message, req: Request)
    requires OfTheUser(m) && Send(req) in Perform(s, m).effects
    ensures Follows(Perform(s, m), m, req)
  {
  }

  lemma EarlyStateFollows(s: State, m: Message, req: Request)
    requires !OfTheUser(m) && s.curr in {Idle, WaitDisassoc, WaitJoin} && Send(req) in Perform(s, m).effects
    ensures Follows(Perform(s, m), m, req)
  {
  }

  lemma LateStateFollows(s: State, m: Message, req: Request)
    requires !OfTheUser(m) && s.curr !in {Idle, WaitDisassoc, WaitJoin} && Send(req) in Perform(s, m).effects
    ensures Follows(Perform(s, m), m, req)
  {
  }

  /** One request at most goes out for a message, and tells what the machine waits for then. */
  lemma StateFollows(s: State, m: Message, req: Request)
    requires Send(req) in Perform(s, m).effects
    ensures Perform(s, m).s.curr == Awaits(m, req)
    ensures forall other :: Send(other) in Perform(s, m).effects ==> other == req
  {
    if OfTheUser(m) {
      UserStateFollows(s, m, req);
    } else if s.curr in {Idle, WaitDisassoc, WaitJoin} {
      EarlyStateFollows(s, m, req);
    } else {
      LateStateFollows(s, m, req);
    }
  }

  predicate Silent(es: seq<Effect>) {
    forall e :: e in es ==> !e.Send?
  }

  /** Without a request the machine is idle after an awaited message or a user's request, and stays where
      it was after any other. */
  lemma SilenceFollows(s: State, m: Message)
    requires Silent(Perform(s, m).effects)
    ensures Perform(s, m).s.curr == if Awaited(s.curr, m) || m.OidSsid? || m.OidBssid? then Idle else s.curr
  {
    var es := Perform(s, m).effects;
    assert |es| > 0 ==> es[0] in es;
    assert |es| > 1 ==> es[1] in es;
  }

  /** An infrastructure link counts as connected, and with any link the configuration is as wanted. */
  lemma MarksOfLinkUp(s: State, m: Message, t: BssType)
    requires LinkUp(t) in Perform(s, m).effects
    ensures var l := Perform(s, m).s.link;
            && l.connected == (t == Infra || s.link.connected) && !l.configChanged
            && l.portSecured == s.link.portSecured && l.reqFromNdis == s.link.reqFromNdis
  {
    LinkUpExactlyWhen(s, m);
  }

  /** A link that goes down is no longer secured, nor connected: an infrastructure link in any case, an
      IBSS when the user asks for another network or the radio is off. */
  lemma MarksOfLinkDown(s: State, m: Message)
    requires LinkDown in Perform(s, m).effects
    ensures var l := Perform(s, m).s.link;
            && !l.portSecured && l.configChanged == s.link.configChanged
            && (l.connected <==> s.link.connected && s.link.adhocOn && m == DisassocConf && !s.link.radioOff)
            && (l.reqFromNdis <==> s.link.reqFromNdis && s.link.adhocOn)
  {
    LinkDownExactlyWhen(s, m);
  }

  predicate NoLinkEvent(es: seq<Effect>) {
    forall e :: e in es ==> e.Send?
  }

  /** Nothing else touches the link: but a request that meets a radio switched off is no longer pending. */
  lemma MarksOtherwise(s: State, m: Message)
    requires NoLinkEvent(Perform(s, m).effects)
    ensures Perform(s, m).s.link ==
            if s.curr == Idle && s.link.radioOff && !m.OidSsid? && !m.OidBssid? && !m.OidListScan?
            then s.link.(reqFromNdis := false) else s.link
  {
    var es := Perform(s, m).effects;
    assert |es| > 0 ==> es[0] in es;
    assert |es| > 1 ==> es[1] in es;
  }

  predicate Keeps(s: State, m: Message, t: State) {
    && t.cfg == s.cfg && t.alg == s.alg && t.roamNr == s.roamNr && t.link.radioOff == s.link.radioOff
    && t.auxBssType == if m.OidSsid? || m.OidBssid? then s.cfg.bssType else s.auxBssType
  }

  lemma UserKeeps(s: State, m: Message)
    requires OfTheUser(m)
    ensures Keeps(s, m, Perform(s, m).s)
  {
  }

  lemma OthersKeep(s: State, m: Message)
    requires !OfTheUser(m)
    ensures Keeps(s, m, Perform(s, m).s)
  {
  }

  /** No message changes the settings; the two that name a network take over the wanted kind of network. */
  lemma SettingsKept(s: State, m: Message)
    ensures var t := Perform(s, m).s;
            && t.cfg == s.cfg && t.alg == s.alg && t.roamNr == s.roamNr && t.link.radioOff == s.link.radioOff
            && t.auxBssType == if m.OidSsid? || m.OidBssid? then s.cfg.bssType else s.auxBssType
  {
    if OfTheUser(m) {
      UserKeeps(s, m);
    } else {
      OthersKeep(s, m);
    }
  }
}
