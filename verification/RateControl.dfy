// Transmit rate adaptation: the once-a-second tuner, the quick response timer,
// the transmit-done feedback and the (re)initialisation at link changes
// (Module/mlme.c and Module/rtmp_data.c). Rates are numbered 0 (1 Mbps) to 11.
module RateControl {
  const RATE_1: nat := 0
  const RATE_2: nat := 1
  const RATE_5_5: nat := 2
  const RATE_11: nat := 3
  const RATE_6: nat := 4
  const RATE_9: nat := 5
  const RATE_12: nat := 6
  const RATE_18: nat := 7
  const RATE_24: nat := 8
  const RATE_36: nat := 9
  const RATE_48: nat := 10
  const RATE_54: nat := 11
  const RATES: nat := 12
  const WORST: nat := 3        // DRS_TX_QUALITY_WORST_BOUND

  const B_DOWN: seq<nat> := [0, 0, 1, 2]
  const B_UP: seq<nat> := [1, 2, 3, 3]
  const BG_DOWN: seq<nat> := [0, 0, 1, 2, 3, 4, 3, 6, 7, 8, 9, 10]
  const BG_UP: seq<nat> := [1, 2, 3, 6, 5, 6, 7, 8, 9, 10, 11, 11]
  const A_DOWN: seq<nat> := [4, 4, 4, 4, 4, 4, 5, 6, 7, 8, 9, 10]
  const A_UP: seq<nat> := [5, 5, 5, 5, 5, 6, 7, 8, 9, 10, 11, 11]
  const UP_PER: seq<nat> := [40, 40, 35, 20, 20, 20, 20, 16, 10, 16, 10, 6]
  const DOWN_PER: seq<nat> := [50, 50, 45, 45, 35, 35, 35, 35, 25, 25, 25, 13]
  const SAFE_RSSI: seq<int> := [-92, -91, -90, -87, -88, -86, -85, -83, -81, -78, -72, -71, -40, -40]

  function AUp(r: nat): (u: nat)
    requires r < RATES
    ensures RATE_9 <= u < RATES && u >= r
  {
    A_UP[r]
  }

  function ADown(r: nat): (d: nat)
    requires r < RATES
    ensures RATE_6 <= d < RATES && (r >= RATE_6 ==> d <= r)
  {
    A_DOWN[r]
  }

  function BgUp(r: nat): (u: nat)
    requires r < RATES
    ensures u < RATES && u >= r
  {
    BG_UP[r]
  }

  function BgDown(r: nat): (d: nat)
    requires r < RATES
    ensures d <= r
  {
    BG_DOWN[r]
  }

  function BUp(r: nat): (u: nat)
    requires r < RATE_6
    ensures r <= u < RATE_6
  {
    B_UP[r]
  }

  function BDown(r: nat): (d: nat)
    requires r < RATE_6
    ensures d <= r
  {
    B_DOWN[r]
  }

  datatype Action = NoChange | WentUp | WentDown

  datatype Drs = Drs(
    txRate: nat,
    maxTxRate: nat,
    quality: seq<nat>,     // TxQuality: 0 best, 3 worst
    per: seq<nat>,         // error percentage when the rate was last used
    penalty: nat,
    stableTime: nat,
    lastAction: Action,
    noisy: bool,
    timerRunning: bool)

  /** The last second's counters, the signal, and whether only OFDM rates exist (11a band or 11g-only). */
  datatype Sample = Sample(ok: nat, retried: nat, failed: nat, dbm: int, ofdmOnly: bool)

  predicate Inv(s: Drs) {
    && s.txRate <= s.maxTxRate < RATES
    && |s.quality| == RATES && |s.per| == RATES
    && forall r: nat :: r < RATES ==> s.quality[r] <= WORST
  }

  function Min(a: nat, b: nat): nat {
    if a <= b then a else b
  }

  function Total(m: Sample): nat {
    m.ok + m.retried + m.failed
  }

  /** Retries and failures in percent of everything sent. */
  function ErrorRatio(m: Sample): (p: nat)
    requires Total(m) > 0
    ensures p <= 100
  {
    (m.retried + m.failed) * 100 / Total(m)
  }

  function Zeros(): seq<nat> {
    seq(RATES, _ => 0)
  }

  // ----- MlmeDynamicTxRateSwitching -----

  /** With few samples the signal decides. */
  function RateBySignal(m: Sample): (r: nat)
    ensures r < RATES && (m.ofdmOnly ==> r >= RATE_6)
  {
    if m.dbm >= -65 then RATE_54
    else if m.dbm >= -66 then RATE_48
    else if m.dbm >= -70 then RATE_36
    else if m.dbm >= -74 then RATE_24
    else if m.dbm >= -77 then RATE_18
    else if m.dbm >= -79 then RATE_12
    else if m.dbm >= -81 then (if m.ofdmOnly then RATE_9 else RATE_11)
    else if m.ofdmOnly then RATE_6
    else if m.dbm >= -82 then RATE_11
    else if m.dbm >= -84 then RATE_5_5
    else if m.dbm >= -85 then RATE_2
    else RATE_1
  }

  function Up(s: Drs, m: Sample): nat
    requires Inv(s)
  {
    Min(if m.ofdmOnly then AUp(s.txRate) else BgUp(s.txRate), s.maxTxRate)
  }

  function Down(s: Drs, m: Sample): nat
    requires Inv(s)
  {
    if m.ofdmOnly then ADown(s.txRate) else BgDown(s.txRate)
  }

  function Less(q: seq<nat>, r: nat): seq<nat>
    requires r < |q|
  {
    if q[r] > 0 then q[r := q[r] - 1] else q
  }

  predicate Good(s: Drs, m: Sample)
    requires Inv(s) && Total(m) > 0
  {
    ErrorRatio(m) < DOWN_PER[s.txRate] && ErrorRatio(m) <= UP_PER[s.txRate]
  }

  /** The history after this second, before the rate is decided. */
  function Graded(s: Drs, m: Sample): Drs
    requires Inv(s) && Total(m) > 0
  {
    var c, up := s.txRate, Up(s, m);
    var p := ErrorRatio(m);
    var t := s.(stableTime := s.stableTime + 1, per := s.per[c := p]);
    if p >= DOWN_PER[c] then t.(quality := s.quality[c := WORST])
    else if p <= UP_PER[c] then Rewarded(t, up)
    else t
  }

  /** The present rate's quality improves, and the penalty or else the next rate's. */
  function Rewarded(s: Drs, up: nat): Drs
    requires |s.quality| == RATES && s.txRate < RATES && up < RATES
  {
    var q := Less(s.quality, s.txRate);
    if s.penalty > 0 then s.(quality := q, penalty := s.penalty - 1) else s.(quality := Less(q, up))
  }

  /** A rate-down did not help: claim a noisy environment. */
  predicate EntersNoisy(g: Drs, up: nat)
    requires Inv(g) && up < RATES
  {
    var p := g.per[g.txRate];
    && up != g.txRate && g.lastAction == WentDown && p < 75 && (p > 20 || g.noisy) && p + 5 > g.per[up]
  }

  /** One more rate up, past the two lowest OFDM rates. */
  function Bolder(up: nat, max: nat): nat {
    Min(if up + 1 == RATE_6 || up + 1 == RATE_9 then RATE_12 else up + 1, max)
  }

  predicate LeavesNoisy(g: Drs)
    requires Inv(g)
  {
    g.noisy && g.per[g.txRate] <= 12
  }

  /** The highest rate the signal is safe for. */
  function SafeRate(dbm: int, from: nat): (r: nat)
    requires from < RATES
    ensures r <= from
  {
    if from == RATE_1 || dbm > SAFE_RSSI[from] then from else SafeRate(dbm, from - 1)
  }

  /** Where a rate-down goes: to the least rate the signal guarantees, or to the next one down. */
  function DownTo(m: Sample, down: nat): nat {
    if m.dbm >= -45 && down < RATE_48 then RATE_48
    else if m.dbm >= -50 && down < RATE_36 then RATE_36
    else if m.dbm >= -55 && down < RATE_24 then RATE_24
    else if m.dbm >= -60 && down < RATE_18 then RATE_18
    else if m.dbm >= -65 && down < RATE_12 then RATE_12
    else if m.dbm >= -70 && down < RATE_9 then (if m.ofdmOnly then RATE_9 else RATE_11)
    else if m.dbm >= -75 && down < RATE_11 then RATE_11
    else down
  }

  predicate Bad(g: Drs, down: nat)
    requires Inv(g)
  {
    g.quality[g.txRate] >= WORST && g.txRate != down
  }

  predicate Clean(g: Drs, up: nat)
    requires Inv(g) && up < RATES
  {
    g.quality[g.txRate] == 0 && g.quality[up] == 0 && g.txRate != up
  }

  function ByHistory(g: Drs, m: Sample, up: nat, down: nat): nat
    requires Inv(g) && up < RATES
  {
    Min(if Bad(g, down) then DownTo(m, down) else if Clean(g, up) then up else g.txRate, g.maxTxRate)
  }

  function Jump(g: Drs, m: Sample): nat
    requires Inv(g)
  {
    Min(SafeRate(m.dbm, RATE_54), g.maxTxRate)
  }

  /** The rate and the noisy flag after the graded history g is judged. */
  function Decided(g: Drs, m: Sample, up: nat, down: nat): Drs
    requires Inv(g) && up < RATES
  {
    if EntersNoisy(g, up) then g.(noisy := true, txRate := Bolder(up, g.maxTxRate))
    else if LeavesNoisy(g) then
      g.(noisy := false,
         txRate := if Jump(g, m) > g.txRate then Jump(g, m) else ByHistory(g, m, up, down))
    else g.(txRate := ByHistory(g, m, up, down))
  }

  /** Whether an infrastructure link is up, and whether it uses APSD. */
  datatype Station = Station(infraOn: bool, apsd: bool)

  /** Neither rule for noisy environments settles the rate. */
  predicate Quiet(g: Drs, m: Sample, up: nat)
    requires Inv(g) && up < RATES
  {
    !EntersNoisy(g, up) && !(LeavesNoisy(g) && Jump(g, m) > g.txRate)
  }

  /** How many null frames try the next rate. */
  function Probes(g: Drs, m: Sample, up: nat, upgraded: bool, st: Station): nat
    requires Inv(g) && up < RATES
  {
    if Quiet(g, m, up) && upgraded && st.infraOn && up != g.txRate && up > RATE_11
       && g.quality[g.txRate] <= 1 && g.quality[up] <= 1 && !st.apsd
    then 2 else 0
  }

  /** A rate-up clears all bad history and starts the quick timer; a rate-down clears the new rate's. */
  function Settled(d: Drs, before: nat): Drs
    requires d.txRate < |d.quality| && d.txRate < |d.per|
  {
    if d.txRate > before then
      d.(stableTime := 0, penalty := 0, lastAction := WentUp, quality := Zeros(), per := Zeros(), timerRunning := true)
    else if d.txRate < before then
      d.(penalty := 0, stableTime := 0, lastAction := WentDown,
         quality := d.quality[d.txRate := 0], per := d.per[d.txRate := 0])
    else d.(lastAction := NoChange)
  }

  lemma GradedKeeps(s: Drs, m: Sample)
    requires Inv(s) && Total(m) > 0
    ensures Inv(Graded(s, m)) && Up(s, m) < RATES && Down(s, m) < RATES
    ensures Graded(s, m).txRate == s.txRate && Graded(s, m).maxTxRate == s.maxTxRate
  {
  }

  lemma DecidedKeeps(g: Drs, m: Sample, up: nat, down: nat)
    requires Inv(g) && up < RATES
    ensures Inv(Decided(g, m, up, down))
  {
  }

  function Tune(s: Drs, m: Sample, enabled: bool): Drs
    requires Inv(s)
  {
    if !enabled then s
    else if Total(m) <= 15 then
      s.(txRate := Min(RateBySignal(m), s.maxTxRate), penalty := 0, quality := Zeros(), per := Zeros())
    else
      GradedKeeps(s, m);
      DecidedKeeps(Graded(s, m), m, Up(s, m), Down(s, m));
      Settled(Decided(Graded(s, m), m, Up(s, m), Down(s, m)), s.txRate)
  }

  // ----- StaQuickResponeForRateUpExec -----

  /** Next rates as the quick response takes them: no rate above the maximum, 11b tables for an 11b maximum. */
  function QuickDown(s: Drs, ofdmOnly: bool): nat
    requires Inv(s)
  {
    if ofdmOnly then ADown(s.txRate)
    else if s.maxTxRate < RATE_6 then BDown(s.txRate)
    else BgDown(s.txRate)
  }

  /** Few samples say nothing about quality and count as no errors. */
  function QuickGraded(s: Drs, m: Sample): Drs
    requires Inv(s) && Total(m) > 0
  {
    var c := s.txRate;
    var p := if Total(m) > 15 then ErrorRatio(m) else 0;
    s.(per := s.per[c := p],
       quality := if Total(m) > 15 && p >= DOWN_PER[c] then s.quality[c := WORST] else s.quality)
  }

  function QuickDecided(g: Drs, ofdmOnly: bool): Drs
    requires Inv(g)
  {
    var down := QuickDown(g, ofdmOnly);
    if Bad(g, down) then g.(txRate := down) else g
  }

  function QuickSettled(d: Drs, before: nat): Drs
    requires d.txRate < |d.quality| && d.txRate < |d.per|
  {
    if d.txRate < before then
      d.(penalty := 0, stableTime := 0, lastAction := WentDown,
         quality := d.quality[d.txRate := 0], per := d.per[d.txRate := 0])
    else d.(lastAction := NoChange)
  }

  function Quick(s: Drs, m: Sample, connected: bool): Drs
    requires Inv(s)
  {
    if !connected || Total(m) == 0 then s.(timerRunning := false)
    else
      var g := QuickGraded(s, m);
      QuickSettled(QuickDecided(g, m.ofdmOnly), s.txRate).(timerRunning := false)
  }

  /** The counters it leaves: used up when there were any. */
  function Spent(m: Sample, connected: bool): Sample {
    if connected && Total(m) > 0 then m.(ok := 0, retried := 0, failed := 0) else m
  }

  // ----- feedback from the transmit-done interrupt -----

  /** A null frame sent at the next rate was retried, or failed. */
  function NullFrameResult(s: Drs, failed: bool): Drs
    requires Inv(s)
  {
    var up := BgUp(s.txRate);
    s.(quality := s.quality[up := if failed then WORST else Min(s.quality[up] + 2, WORST)])
  }

  // ----- MlmeUpdateTxRates -----

  function FreshRate(max: nat, dbm: int, adapts: bool, linkUp: bool): nat {
    if !adapts then max
    else if dbm < -75 then Min(RATE_11, max)
    else if dbm < -70 then Min(RATE_24, max)
    else if linkUp && max >= RATE_24 then RATE_24
    else max
  }

  /** New maximum and a rate to start from; adapts when rate switching is on and the link is up. */
  function Update(s: Drs, maxSupport: nat, maxDesire: nat, dbm: int, adapts: bool, linkUp: bool): Drs {
    var max := Min(maxSupport, maxDesire);
    s.(maxTxRate := max, txRate := FreshRate(max, dbm, adapts, linkUp))
  }

  // ----- what every step keeps -----

  lemma TuneKeeps(s: Drs, m: Sample, enabled: bool)
    requires Inv(s)
    ensures Inv(Tune(s, m, enabled)) && Tune(s, m, enabled).maxTxRate == s.maxTxRate
  {
    if enabled && Total(m) > 15 {
      GradedKeeps(s, m);
      DecidedKeeps(Graded(s, m), m, Up(s, m), Down(s, m));
    }
  }

  /** OFDM-only while the maximum is a CCK rate: a setting the quick response does not allow for. */
  predicate Mismatched(s: Drs, ofdmOnly: bool) {
    ofdmOnly && s.maxTxRate < RATE_6
  }

  /**
   * The quick response keeps the bounds except when it steps down under a CCK
   * maximum in an OFDM-only configuration: its next lower rate is then 6 Mbps,
   * above that maximum. It steps down when the present rate's quality is at its
   * worst already, or too many of more than fifteen frames went wrong.
   */
  lemma QuickKeepsExactly(s: Drs, m: Sample, connected: bool)
    requires Inv(s)
    ensures Inv(Quick(s, m, connected)) <==>
              !(connected && Total(m) > 0 && Mismatched(s, m.ofdmOnly)
                && (s.quality[s.txRate] >= WORST || (Total(m) > 15 && ErrorRatio(m) >= DOWN_PER[s.txRate])))
  {
    if connected && Total(m) > 0 {
      var g := QuickGraded(s, m);
      assert Inv(g) && g.txRate == s.txRate && g.maxTxRate == s.maxTxRate;
      QuickStep(g, m.ofdmOnly);
    }
  }

  lemma QuickStep(g: Drs, ofdmOnly: bool)
    requires Inv(g)
    ensures Inv(QuickSettled(QuickDecided(g, ofdmOnly), g.txRate)) <==>
              !(Mismatched(g, ofdmOnly) && g.quality[g.txRate] >= WORST)
  {
  }

  /** The same frames are not held against the rate twice: firing again on what is left changes nothing. */
  lemma QuickTwiceIsOnce(s: Drs, m: Sample, connected: bool)
    requires Inv(s) && Inv(Quick(s, m, connected))
    ensures Quick(Quick(s, m, connected), Spent(m, connected), connected) == Quick(s, m, connected)
  {
  }

  /**
   * How that comes about, in an OFDM-only configuration: the tuner raises the rate
   * and so starts the timer, a link change lowers the maximum to 11 Mbps, and the
   * timer fires on a bad second.
   */
  lemma QuickExceedsTheMaximum() returns (s: Drs, up: Sample, bad: Sample)
    ensures Inv(s) && up.ofdmOnly && bad.ofdmOnly && s.txRate >= RATE_6 && s.maxTxRate >= RATE_6
    ensures Inv(Tune(s, up, true)) && Tune(s, up, true).txRate > s.txRate && Tune(s, up, true).timerRunning
    ensures var t := Update(Tune(s, up, true), RATE_11, RATE_54, -60, true, false);
            && Inv(t) && t.timerRunning && t.txRate == t.maxTxRate == RATE_11
            && Quick(t, bad, true).txRate == RATE_6 && !Inv(Quick(t, bad, true))
  {
    s := Drs(RATE_24, RATE_54, Zeros(), Zeros(), 0, 0, NoChange, false, false);
    up, bad := Sample(100, 0, 0, -60, true), Sample(0, 100, 0, -60, true);
    assert ErrorRatio(up) == 0 && ErrorRatio(bad) == 100;
    TuneKeeps(s, up, true);
    var g := Graded(s, up);
    assert Up(s, up) == RATE_36 && Clean(g, RATE_36);
    var raised := Tune(s, up, true);
    assert raised.txRate == RATE_36 && raised.timerRunning;
    UpdateKeeps(raised, RATE_11, RATE_54, -60, true, false);
    var t := Update(raised, RATE_11, RATE_54, -60, true, false);
    QuickKeepsExactly(t, bad, true);
  }

  lemma NullFrameKeeps(s: Drs, failed: bool)
    requires Inv(s)
    ensures Inv(NullFrameResult(s, failed)) && NullFrameResult(s, failed).txRate == s.txRate
  {
  }

  lemma UpdateKeeps(s: Drs, maxSupport: nat, maxDesire: nat, dbm: int, adapts: bool, linkUp: bool)
    requires Inv(s) && maxSupport < RATES && maxDesire < RATES
    ensures Inv(Update(s, maxSupport, maxDesire, dbm, adapts, linkUp))
  {
  }

  // ----- OFDM-only configurations -----

  lemma DecidedOfdm(g: Drs, m: Sample, up: nat, down: nat)
    requires Inv(g) && m.ofdmOnly && g.maxTxRate >= RATE_6 && g.txRate >= RATE_6
    requires RATE_6 <= up < RATES && down >= RATE_6
    ensures Decided(g, m, up, down).txRate >= RATE_6
  {
  }

  /** The tuner never leaves the OFDM rates. */
  lemma TuneStaysOfdm(s: Drs, m: Sample, enabled: bool)
    requires Inv(s) && m.ofdmOnly && s.maxTxRate >= RATE_6 && s.txRate >= RATE_6
    ensures Tune(s, m, enabled).txRate >= RATE_6
  {
    if enabled && Total(m) > 15 {
      GradedKeeps(s, m);
      DecidedKeeps(Graded(s, m), m, Up(s, m), Down(s, m));
      DecidedOfdm(Graded(s, m), m, Up(s, m), Down(s, m));
    }
  }

  /** Nor does the quick response. */
  lemma QuickStaysOfdm(s: Drs, m: Sample, connected: bool)
    requires Inv(s) && m.ofdmOnly && s.maxTxRate >= RATE_6 && s.txRate >= RATE_6
    ensures Quick(s, m, connected).txRate >= RATE_6
  {
  }

  /** A link change does: to a CCK rate exactly when it adapts to a signal below -75 dBm. */
  lemma UpdateFallsToCckExactly(s: Drs, maxSupport: nat, maxDesire: nat, dbm: int, adapts: bool, linkUp: bool)
    requires Inv(s) && RATE_6 <= maxSupport < RATES && RATE_6 <= maxDesire < RATES
    ensures Update(s, maxSupport, maxDesire, dbm, adapts, linkUp).txRate < RATE_6 <==> adapts && dbm < -75
  {
  }

  /** It does fall: 54 Mbps throughout, a link change at -80 dBm. */
  lemma UpdateFalls(s: Drs) returns (dbm: int)
    requires Inv(s)
    ensures dbm < -75 && Update(s, RATE_54, RATE_54, dbm, true, true).txRate == RATE_11
  {
    dbm := -80;
  }

  // ----- few samples -----

  /** The least signal at which each rate is taken, in an OFDM-only configuration and otherwise, where 6
      and 9 Mbps are not used. The lowest rate needs none. */
  const LEAST_DBM_OFDM: seq<int> := [-81, -79, -77, -74, -70, -66, -65]          // from RATE_9 up
  const LEAST_DBM: seq<int> := [-85, -84, -82, -79, -79, -79, -77, -74, -70, -66, -65]  // from RATE_2 up

  /** With at most fifteen frames the tuner reaches a rate if and only if the maximum allows it and the
      signal is at or above that rate's least level. */
  lemma FewSamplesReach(s: Drs, m: Sample, r: nat)
    requires Inv(s) && Total(m) <= 15 && r < RATES
    ensures Tune(s, m, true).txRate >= r <==>
            && s.maxTxRate >= r
            && if m.ofdmOnly then r <= RATE_6 || m.dbm >= LEAST_DBM_OFDM[r - RATE_9]
               else r == RATE_1 || m.dbm >= LEAST_DBM[r - RATE_2]
  {
  }

  /** So a stronger signal never gives a lower rate. */
  lemma FewSamplesMonotone(s: Drs, m: Sample, n: Sample)
    requires Inv(s) && Total(m) <= 15 && Total(n) <= 15 && m.ofdmOnly == n.ofdmOnly && m.dbm <= n.dbm
    ensures Tune(s, m, true).txRate <= Tune(s, n, true).txRate
  {
    var r := Tune(s, m, true).txRate;
    TuneKeeps(s, m, true);
    FewSamplesReach(s, m, r);
    FewSamplesReach(s, n, r);
  }

  /** Few samples clear the history and touch nothing but it and the rate; switched off, the tuner touches nothing. */
  lemma FewSamplesForget(s: Drs, m: Sample, enabled: bool)
    requires Inv(s) && (Total(m) <= 15 || !enabled)
    ensures var t := Tune(s, m, enabled);
      if !enabled then t == s
      else t == s.(txRate := t.txRate, penalty := 0, quality := t.quality, per := t.per)
           && forall r: nat :: r < RATES ==> t.quality[r] == 0 && t.per[r] == 0
  {
  }

  // ----- enough samples -----

  /** One step towards the best. */
  function Improved(q: nat): nat {
    if q > 0 then q - 1 else 0
  }

  /**
   * What a second with enough samples is judged by: the error ratio p, the next
   * rate up within the maximum and the next one down, and the qualities then of
   * the present rate and of the next one up. Too many errors make the present
   * quality the worst; few enough improve it, and the next rate's with it when
   * no penalty is to be worked off first.
   */
  predicate Judged(s: Drs, m: Sample, p: nat, up: nat, down: nat, qc: nat, qu: nat)
    requires Inv(s)
  {
    var c := s.txRate;
    && Total(m) > 15 && p == (m.retried + m.failed) * 100 / (m.ok + m.retried + m.failed)
    && up == Min(if m.ofdmOnly then A_UP[c] else BG_UP[c], s.maxTxRate)
    && down == (if m.ofdmOnly then A_DOWN[c] else BG_DOWN[c])
    && qc == (if p >= DOWN_PER[c] then WORST
              else if p > UP_PER[c] then s.quality[c]
              else if up == c && s.penalty == 0 then Improved(Improved(s.quality[c]))
              else Improved(s.quality[c]))
    && qu == (if up == c then qc
              else if p < DOWN_PER[c] && p <= UP_PER[c] && s.penalty == 0 then Improved(s.quality[up])
              else s.quality[up])
  }

  lemma GradedIs(s: Drs, m: Sample, p: nat, up: nat, down: nat, qc: nat, qu: nat)
    requires Inv(s) && Judged(s, m, p, up, down, qc, qu)
    ensures var g := Graded(s, m);
      && Inv(g) && up == Up(s, m) && down == Down(s, m) && up >= s.txRate
      && g.quality[s.txRate] == qc && g.quality[up] == qu && g.per[s.txRate] == p
      && (up != s.txRate ==> g.per[up] == s.per[up])
      && g.txRate == s.txRate && g.maxTxRate == s.maxTxRate && g.noisy == s.noisy && g.lastAction == s.lastAction
  {
    UpNotLower(s, m);
    GradedKeeps(s, m);
  }

  /** The rate-down of the last second was in vain: it did not improve the error ratio by five percent. */
  predicate InVain(s: Drs, p: nat, up: nat)
    requires Inv(s) && up < RATES
  {
    up != s.txRate && s.lastAction == WentDown && p < 75 && (p > 20 || s.noisy) && p + 5 > s.per[up]
  }

  /** The highest rate the signal is safe for; one megabit needs no signal. */
  predicate HighestSafe(dbm: int, h: nat) {
    && h < RATES && (h == RATE_1 || dbm > SAFE_RSSI[h])
    && forall k: nat :: h < k < RATES ==> dbm <= SAFE_RSSI[k]
  }

  /** The interference is gone, and the signal is safe for more than the present rate, within the maximum. */
  predicate Cleared(s: Drs, p: nat, h: nat) {
    s.noisy && p <= 12 && Min(h, s.maxTxRate) > s.txRate
  }

  lemma NoisyRulesAre(s: Drs, m: Sample, p: nat, up: nat, down: nat, qc: nat, qu: nat, h: nat)
    requires Inv(s) && Judged(s, m, p, up, down, qc, qu) && HighestSafe(m.dbm, h)
    ensures Inv(Graded(s, m)) && up < RATES
    ensures EntersNoisy(Graded(s, m), up) <==> InVain(s, p, up)
    ensures LeavesNoisy(Graded(s, m)) && Jump(Graded(s, m), m) > s.txRate <==> Cleared(s, p, h)
    ensures Jump(Graded(s, m), m) == Min(h, s.maxTxRate)
  {
    GradedIs(s, m, p, up, down, qc, qu);
    SafeRateIsHighest(m.dbm, RATE_54);
  }

  lemma TunedIs(s: Drs, m: Sample)
    requires Inv(s) && Total(m) > 15
    ensures Inv(Graded(s, m)) && Up(s, m) < RATES && Inv(Decided(Graded(s, m), m, Up(s, m), Down(s, m)))
    ensures Tune(s, m, true) == Settled(Decided(Graded(s, m), m, Up(s, m), Down(s, m)), s.txRate)
  {
    GradedKeeps(s, m);
    DecidedKeeps(Graded(s, m), m, Up(s, m), Down(s, m));
  }

  /** In a noisy environment a rate-down in vain is undone by one rate more than the next one up, where 6
      and 9 Mbps give way to 12. */
  lemma UndoneWhenInVain(s: Drs, m: Sample, p: nat, up: nat, down: nat, qc: nat, qu: nat)
    requires Inv(s) && Judged(s, m, p, up, down, qc, qu) && InVain(s, p, up)
    ensures Tune(s, m, true).noisy
    ensures Tune(s, m, true).txRate ==
            Min(if up == RATE_11 || up == RATE_6 then RATE_12 else up + 1, s.maxTxRate) > s.txRate
  {
    SafeRateIsHighest(m.dbm, RATE_54);
    NoisyRulesAre(s, m, p, up, down, qc, qu, SafeRate(m.dbm, RATE_54));
    GradedIs(s, m, p, up, down, qc, qu);
    TunedIs(s, m);
  }

  /** Otherwise a noisy environment ends at an error ratio of at most 12 percent, and the rate jumps to
      what the signal is safe for when that is higher. */
  lemma JumpsWhenCleared(s: Drs, m: Sample, p: nat, up: nat, down: nat, qc: nat, qu: nat, h: nat)
    requires Inv(s) && Judged(s, m, p, up, down, qc, qu) && !InVain(s, p, up) && HighestSafe(m.dbm, h)
    ensures Tune(s, m, true).noisy <==> s.noisy && p > 12
    ensures Cleared(s, p, h) ==> Tune(s, m, true).txRate == Min(h, s.maxTxRate)
  {
    NoisyRulesAre(s, m, p, up, down, qc, qu, h);
    GradedIs(s, m, p, up, down, qc, qu);
    TunedIs(s, m);
  }

  /** The least signal that guarantees each rate from 2 to 48 Mbps; in a mixed configuration 6 and 9 Mbps
      are guaranteed only along with 12. */
  const GUARANTEE_DBM_OFDM: seq<int> := [-75, -75, -75, -70, -70, -65, -60, -55, -50, -45]
  const GUARANTEE_DBM: seq<int> := [-75, -75, -75, -65, -65, -65, -60, -55, -50, -45]

  predicate Guaranteed(m: Sample, r: nat) {
    r == RATE_1 || (r <= RATE_48 && m.dbm >= (if m.ofdmOnly then GUARANTEE_DBM_OFDM else GUARANTEE_DBM)[r - 1])
  }

  lemma DownToReaches(m: Sample, down: nat, r: nat)
    requires r < RATES && down < RATES
    ensures DownTo(m, down) >= r <==>
            Guaranteed(m, r) || (down >= r && !(-70 <= m.dbm < -65 && down == RATE_6 && !m.ofdmOnly))
  {
  }

  /** Then history decides. On the worst quality the rate reaches what the next lower rate reaches or the
      signal guarantees, within the maximum; from 9 Mbps between -70 and -66 dBm the guarantee alone
      counts. On the best quality of both it goes one up. Else it stays. */
  lemma HistoryDecides(s: Drs, m: Sample, p: nat, up: nat, down: nat, qc: nat, qu: nat, h: nat, r: nat)
    requires Inv(s) && Judged(s, m, p, up, down, qc, qu) && HighestSafe(m.dbm, h) && r < RATES
    requires !InVain(s, p, up) && !Cleared(s, p, h)
    ensures Tune(s, m, true).txRate >= r <==>
            if qc == WORST && down != s.txRate then
              && s.maxTxRate >= r
              && (Guaranteed(m, r) || (down >= r && !(-70 <= m.dbm < -65 && down == RATE_6 && !m.ofdmOnly)))
            else if qc == 0 && qu == 0 then up >= r
            else s.txRate >= r
  {
    NoisyRulesAre(s, m, p, up, down, qc, qu, h);
    GradedIs(s, m, p, up, down, qc, qu);
    TunedIs(s, m);
    DownToReaches(m, down, r);
  }

  predicate CountersAfter(s: Drs, t: Drs, good: bool) {
    && t.maxTxRate == s.maxTxRate
    && t.lastAction == (if t.txRate > s.txRate then WentUp else if t.txRate < s.txRate then WentDown else NoChange)
    && t.timerRunning == (s.timerRunning || t.txRate > s.txRate)
    && t.stableTime == (if t.txRate == s.txRate then s.stableTime + 1 else 0)
    && t.penalty == (if t.txRate != s.txRate then 0 else if good then Improved(s.penalty) else s.penalty)
  }

  lemma GradedCounters(s: Drs, m: Sample, p: nat)
    requires Inv(s) && Total(m) > 0 && p == ErrorRatio(m)
    ensures var g := Graded(s, m);
      && g.maxTxRate == s.maxTxRate && g.timerRunning == s.timerRunning && g.stableTime == s.stableTime + 1
      && g.penalty == if p < DOWN_PER[s.txRate] && p <= UP_PER[s.txRate] then Improved(s.penalty) else s.penalty
  {
  }

  lemma DecidedCounters(g: Drs, m: Sample, up: nat, down: nat)
    requires Inv(g) && up < RATES
    ensures var d := Decided(g, m, up, down);
      && d.maxTxRate == g.maxTxRate && d.timerRunning == g.timerRunning && d.stableTime == g.stableTime
      && d.penalty == g.penalty
  {
  }

  lemma SettledCounters(s: Drs, d: Drs, good: bool)
    requires d.txRate < |d.quality| && d.txRate < |d.per|
    requires d.maxTxRate == s.maxTxRate && d.timerRunning == s.timerRunning && d.stableTime == s.stableTime + 1
    requires d.penalty == if good then Improved(s.penalty) else s.penalty
    ensures CountersAfter(s, Settled(d, s.txRate), good)
  {
  }

  /** A change of the rate starts the counters anew, and a rise the quick timer. */
  lemma CountersFollow(s: Drs, m: Sample, p: nat, up: nat, down: nat, qc: nat, qu: nat)
    requires Inv(s) && Judged(s, m, p, up, down, qc, qu)
    ensures CountersAfter(s, Tune(s, m, true), p < DOWN_PER[s.txRate] && p <= UP_PER[s.txRate])
  {
    TunedIs(s, m);
    GradedCounters(s, m, p);
    var g, up', down' := Graded(s, m), Up(s, m), Down(s, m);
    DecidedCounters(g, m, up', down');
    SettledCounters(s, Decided(g, m, up', down'), p < DOWN_PER[s.txRate] && p <= UP_PER[s.txRate]);
  }

  lemma SettledHistory(d: Drs, before: nat, r: nat)
    requires d.txRate < |d.quality| == RATES && |d.per| == RATES && r < RATES
    ensures var t := Settled(d, before);
      && t.txRate == d.txRate && |t.quality| == RATES && |t.per| == RATES
      && t.quality[r] == (if t.txRate > before || t.txRate == r < before then 0 else d.quality[r])
      && t.per[r] == (if t.txRate > before || t.txRate == r < before then 0 else d.per[r])
  {
  }

  lemma GradedHistory(s: Drs, m: Sample, p: nat, up: nat, down: nat, qc: nat, qu: nat, r: nat)
    requires Inv(s) && Judged(s, m, p, up, down, qc, qu) && r < RATES
    ensures var g := Graded(s, m);
      && |g.quality| == RATES && |g.per| == RATES
      && g.quality[r] == (if r == s.txRate then qc else if r == up then qu else s.quality[r])
      && g.per[r] == (if r == s.txRate then p else s.per[r])
  {
    GradedIs(s, m, p, up, down, qc, qu);
  }

  /** A higher rate starts with no history at all, a lower one with none of its own, an unchanged one with
      the history as judged. */
  lemma HistoryFollows(s: Drs, m: Sample, p: nat, up: nat, down: nat, qc: nat, qu: nat, r: nat)
    requires Inv(s) && Judged(s, m, p, up, down, qc, qu) && r < RATES
    ensures var t := Tune(s, m, true);
      && |t.quality| == RATES && |t.per| == RATES
      && t.quality[r] == (if t.txRate > s.txRate || t.txRate == r < s.txRate then 0
                          else if r == s.txRate then qc else if r == up then qu else s.quality[r])
      && t.per[r] == (if t.txRate > s.txRate || t.txRate == r < s.txRate then 0
                      else if r == s.txRate then p else s.per[r])
  {
    TunedIs(s, m);
    var d := Decided(Graded(s, m), m, Up(s, m), Down(s, m));
    GradedHistory(s, m, p, up, down, qc, qu, r);
    SettledHistory(d, s.txRate, r);
  }

  /** Two null frames probe the next rate exactly when neither noisy rule settles the rate, the error ratio is
      low, the link is an infrastructure one without APSD, and a higher OFDM rate is within one step of a
      clean history. */
  lemma ProbesExactlyWhen(s: Drs, m: Sample, st: Station, p: nat, up: nat, down: nat, qc: nat, qu: nat, h: nat)
    requires Inv(s) && Judged(s, m, p, up, down, qc, qu) && HighestSafe(m.dbm, h)
    ensures Inv(Graded(s, m)) && up < RATES
    ensures Probes(Graded(s, m), m, up, Good(s, m), st) ==
            if !InVain(s, p, up) && !Cleared(s, p, h) && p < DOWN_PER[s.txRate] && p <= UP_PER[s.txRate]
               && st.infraOn && !st.apsd && up != s.txRate && up >= RATE_6 && qc <= 1 && qu <= 1
            then 2 else 0
  {
    NoisyRulesAre(s, m, p, up, down, qc, qu, h);
    GradedIs(s, m, p, up, down, qc, qu);
  }

  // ----- the other updaters -----

  /** The quick response lowers the rate, to the next one down of the table in force, exactly when frames
      were sent over a link that is up and the quality is the worst or becomes it. */
  lemma QuickIs(s: Drs, m: Sample, connected: bool, down: nat, p: nat)
    requires Inv(s)
    requires down == if m.ofdmOnly then A_DOWN[s.txRate]
                     else if s.maxTxRate < RATE_6 then B_DOWN[s.txRate] else BG_DOWN[s.txRate]
    requires Total(m) > 15 ==> p == (m.retried + m.failed) * 100 / (m.ok + m.retried + m.failed)
    ensures var t := Quick(s, m, connected);
      var live := connected && Total(m) > 0;
      var bad := live && (s.quality[s.txRate] == WORST || (Total(m) > 15 && p >= DOWN_PER[s.txRate]));
      var lower := t.txRate < s.txRate;
      && t.txRate == (if bad then down else s.txRate)
      && !t.timerRunning && t.noisy == s.noisy && t.maxTxRate == s.maxTxRate
      && (!live ==> t == s.(timerRunning := false))
      && (live ==> t.lastAction == (if lower then WentDown else NoChange))
      && t.stableTime == (if lower then 0 else s.stableTime) && t.penalty == (if lower then 0 else s.penalty)
  {
  }

  lemma QuickRemembers(s: Drs, m: Sample, p: nat, r: nat)
    requires Inv(s) && Total(m) > 0 && r < RATES
    requires p == if Total(m) > 15 then (m.retried + m.failed) * 100 / (m.ok + m.retried + m.failed) else 0
    ensures var t := Quick(s, m, true);
      && |t.quality| == RATES && |t.per| == RATES
      && t.quality[r] == (if t.txRate == r < s.txRate then 0
                          else if r == s.txRate && Total(m) > 15 && p >= DOWN_PER[r] then WORST else s.quality[r])
      && t.per[r] == (if t.txRate == r < s.txRate then 0 else if r == s.txRate then p else s.per[r])
  {
  }

  /** The counters are used up by a quick response that looked at them. */
  lemma SpentIs(m: Sample, connected: bool)
    ensures connected ==> Total(Spent(m, connected)) == 0
    ensures !connected ==> Spent(m, connected) == m
    ensures Spent(m, connected).dbm == m.dbm && Spent(m, connected).ofdmOnly == m.ofdmOnly
  {
  }

  /** A probe that was retried counts two against the next rate's quality, one that failed everything. */
  lemma NullFrameIs(s: Drs, failed: bool, r: nat)
    requires Inv(s) && r < RATES
    ensures var t := NullFrameResult(s, failed);
      && t == s.(quality := t.quality) && |t.quality| == RATES
      && t.quality[r] == if r != BG_UP[s.txRate] then s.quality[r]
                         else if failed || s.quality[r] > 1 then WORST else s.quality[r] + 2
  {
  }

  /** A link change reaches a rate exactly when the lesser maximum does and, where it adapts, the signal and
      the cautious start after a link-up allow it. */
  lemma UpdateReaches(s: Drs, maxSupport: nat, maxDesire: nat, dbm: int, adapts: bool, linkUp: bool, r: nat)
    ensures var t := Update(s, maxSupport, maxDesire, dbm, adapts, linkUp);
      && t == s.(txRate := t.txRate, maxTxRate := t.maxTxRate)
      && (t.maxTxRate >= r <==> maxSupport >= r && maxDesire >= r)
      && (t.txRate >= r <==>
            && maxSupport >= r && maxDesire >= r
            && (adapts && dbm < -75 ==> r <= RATE_11)
            && (adapts && dbm < -70 ==> r <= RATE_24)
            && (adapts && linkUp ==> r <= RATE_24))
  {
  }

  // ----- when the rate goes up -----

  /**
   * Outside the noisy-environment rules the tuner raises the rate exactly in two
   * cases: both the present and the next rate have a clean history, or the
   * present rate is at its worst and the signal guarantees a higher one anyway.
   */
  lemma RaisesExactlyWhen(s: Drs, m: Sample)
    requires Inv(s) && Total(m) > 15
    requires !EntersNoisy(Graded(s, m), Up(s, m))
    requires LeavesNoisy(Graded(s, m)) ==> Jump(Graded(s, m), m) <= s.txRate
    ensures var g, up, down := Graded(s, m), Up(s, m), Down(s, m);
            Tune(s, m, true).txRate > s.txRate <==>
              if Bad(g, down) then DownTo(m, down) > s.txRate && s.maxTxRate > s.txRate
              else g.quality[s.txRate] == 0 && g.quality[up] == 0 && up > s.txRate
  {
    GradedKeeps(s, m);
    DecidedKeeps(Graded(s, m), m, Up(s, m), Down(s, m));
    UpNotLower(s, m);
  }

  lemma UpNotLower(s: Drs, m: Sample)
    requires Inv(s)
    ensures Up(s, m) >= s.txRate
  {
  }

  /** So a rate can go up on a bad history: from 36 to 48 Mbps, on three quarters errors and a strong signal. */
  lemma RaisedByBadHistory() returns (s: Drs, m: Sample)
    ensures Inv(s) && Total(m) > 15 && Graded(s, m).quality[s.txRate] == WORST
    ensures Tune(s, m, true).txRate > s.txRate
  {
    s := Drs(RATE_36, RATE_54, Zeros(), Zeros(), 0, 0, NoChange, false, false);
    m := Sample(25, 75, 0, -40, false);
    assert ErrorRatio(m) == 75;
    assert DOWN_PER[RATE_36] == 25;
    assert Down(s, m) == RATE_24;
    RaisesExactlyWhen(s, m);
  }

  /** Probes go out only at an OFDM rate above the present one, in a second that does not lower the rate. */
  lemma ProbesTryTheNextRate(s: Drs, m: Sample, st: Station)
    requires Inv(s) && Total(m) > 15
    ensures Inv(Graded(s, m)) && Up(s, m) < RATES
    ensures Probes(Graded(s, m), m, Up(s, m), Good(s, m), st) > 0 ==>
              && RATE_6 <= Up(s, m) && s.txRate < Up(s, m) <= s.maxTxRate
              && Tune(s, m, true).txRate in {s.txRate, Up(s, m)}
  {
    var g, up, down := Graded(s, m), Up(s, m), Down(s, m);
    GradedKeeps(s, m);
    UpNotLower(s, m);
    DecidedKeeps(g, m, up, down);
    assert Tune(s, m, true).txRate == Decided(g, m, up, down).txRate;
  }

  /** A probe that fails keeps the history from raising the rate in the next second. */
  lemma FailedProbeHoldsBack(s: Drs, m: Sample)
    requires Inv(s) && Total(m) > 15 && Up(NullFrameResult(s, true), m) == BgUp(s.txRate) != s.txRate
    ensures var t := NullFrameResult(s, true);
            && Inv(t) && Inv(Graded(t, m)) && Up(t, m) < RATES
            && (Quiet(Graded(t, m), m, Up(t, m)) && Tune(t, m, true).txRate > s.txRate ==>
                  Bad(Graded(t, m), Down(t, m)))
  {
    var t := NullFrameResult(s, true);
    NullFrameKeeps(s, true);
    GradedKeeps(t, m);
    var g := Graded(t, m);
    assert g.quality[Up(t, m)] >= WORST - 1;
    if Quiet(g, m, Up(t, m)) {
      RaisesExactlyWhen(t, m);
    }
  }

  // ----- when it goes down, and how far -----

  /** The least rate a signal guarantees. */
  function Floor(m: Sample): nat {
    if m.dbm < -75 then RATE_1
    else if m.dbm < -70 then RATE_11
    else if m.dbm < -65 then (if m.ofdmOnly then RATE_9 else RATE_11)
    else if m.dbm < -60 then RATE_12
    else if m.dbm < -55 then RATE_18
    else if m.dbm < -50 then RATE_24
    else if m.dbm < -45 then RATE_36
    else RATE_48
  }

  /**
   * A rate-down goes to the greater of the next rate down and the floor, with
   * one exception: between -70 and -66 dBm from 9 Mbps it goes past 6 Mbps to
   * 11 Mbps, the floor there.
   */
  lemma DownToIs(m: Sample, down: nat)
    requires down < RATES
    ensures DownTo(m, down) ==
              if down >= Floor(m) && !(-70 <= m.dbm < -65 && down == RATE_6 && !m.ofdmOnly) then down else Floor(m)
  {
  }

  lemma DecidedFalls(g: Drs, m: Sample, up: nat, down: nat)
    requires Inv(g) && g.txRate <= up < RATES && Decided(g, m, up, down).txRate < g.txRate
    ensures Bad(g, down) && !EntersNoisy(g, up) && Decided(g, m, up, down).txRate == DownTo(m, down)
  {
  }

  /**
   * With enough samples the tuner lowers the rate only on the worst quality, never below
   * what the signal guarantees, and only when no rule for noisy environments applies.
   */
  lemma FallsOnlyToTheFloor(s: Drs, m: Sample)
    requires Inv(s) && Total(m) > 15 && Tune(s, m, true).txRate < s.txRate
    ensures Inv(Graded(s, m)) && Up(s, m) < RATES
    ensures Graded(s, m).quality[s.txRate] == WORST && !EntersNoisy(Graded(s, m), Up(s, m))
    ensures Floor(m) <= Tune(s, m, true).txRate == DownTo(m, Down(s, m))
  {
    var g, up, down := Graded(s, m), Up(s, m), Down(s, m);
    GradedKeeps(s, m);
    UpNotLower(s, m);
    DecidedKeeps(g, m, up, down);
    assert Tune(s, m, true).txRate == Decided(g, m, up, down).txRate;
    DecidedFalls(g, m, up, down);
    DownToIs(m, down);
  }

  /** Leaving a noisy environment jumps to the highest rate whose safe level the signal exceeds. */
  lemma {:induction false} SafeRateIsHighest(dbm: int, from: nat)
    requires from < RATES
    ensures var r := SafeRate(dbm, from);
            && (r == RATE_1 || dbm > SAFE_RSSI[r])
            && forall k: nat :: r < k <= from ==> dbm <= SAFE_RSSI[k]
  {
    if from != RATE_1 && dbm <= SAFE_RSSI[from] {
      SafeRateIsHighest(dbm, from - 1);
    }
  }

  // ----- over whole runs -----

  datatype Op =
    | DoTune(m: Sample, enabled: bool)
    | DoQuick(m: Sample, connected: bool)
    | DoNull(failed: bool)
    | DoUpdate(maxSupport: nat, maxDesire: nat, dbm: int, adapts: bool, linkUp: bool)

  /** In an OFDM-only configuration every maximum is an OFDM rate. */
  predicate Fits(op: Op, ofdmOnly: bool) {
    match op
    case DoTune(m, _) => m.ofdmOnly == ofdmOnly
    case DoQuick(m, _) => m.ofdmOnly == ofdmOnly
    case DoNull(_) => true
    case DoUpdate(a, b, _, _, _) => a < RATES && b < RATES && (ofdmOnly ==> a >= RATE_6 && b >= RATE_6)
  }

  predicate Sound(s: Drs, ofdmOnly: bool) {
    Inv(s) && !Mismatched(s, ofdmOnly)
  }

  function Apply(s: Drs, op: Op, ofdmOnly: bool): (r: Drs)
    requires Sound(s, ofdmOnly) && Fits(op, ofdmOnly)
    ensures Sound(r, ofdmOnly)
  {
    match op
    case DoTune(m, b) => TuneKeeps(s, m, b); Tune(s, m, b)
    case DoQuick(m, b) => QuickKeepsExactly(s, m, b); Quick(s, m, b)
    case DoNull(f) => NullFrameKeeps(s, f); NullFrameResult(s, f)
    case DoUpdate(a, d, dbm, ad, l) => UpdateKeeps(s, a, d, dbm, ad, l); Update(s, a, d, dbm, ad, l)
  }

  function After(s: Drs, ops: seq<Op>, ofdmOnly: bool): (r: Drs)
    requires Sound(s, ofdmOnly) && forall k: nat :: k < |ops| ==> Fits(ops[k], ofdmOnly)
    ensures Sound(r, ofdmOnly)
  {
    if ops == [] then s else Apply(After(s, ops[..|ops| - 1], ofdmOnly), ops[|ops| - 1], ofdmOnly)
  }

  /** With no link change adapting to a signal below -75 dBm, an OFDM-only run stays on OFDM rates. */
  lemma {:induction false} OfdmOnlyRunStaysOfdm(s: Drs, ops: seq<Op>)
    requires Sound(s, true) && s.txRate >= RATE_6 && forall k: nat :: k < |ops| ==> Fits(ops[k], true)
    requires forall k: nat :: k < |ops| && ops[k].DoUpdate? ==> !(ops[k].adapts && ops[k].dbm < -75)
    ensures After(s, ops, true).txRate >= RATE_6
  {
    if ops != [] {
      var before, op := ops[..|ops| - 1], ops[|ops| - 1];
      OfdmOnlyRunStaysOfdm(s, before);
      var t := After(s, before, true);
      match op {
        case DoTune(m, b) => TuneStaysOfdm(t, m, b);
        case DoQuick(m, b) => QuickStaysOfdm(t, m, b);
        case DoNull(_) =>
        case DoUpdate(a, d, dbm, ad, l) => UpdateFallsToCckExactly(t, a, d, dbm, ad, l);
      }
    }
  }

  // ----- the counters in place -----

  class RateAdapter {
    var txRate: nat
    var maxTxRate: nat
    const txQuality: array<nat>
    const PER: array<nat>
    var txRateUpPenalty: nat
    var currTxRateStableTime: nat
    var lastAction: Action
    var fNoisyEnvironment: bool
    var timerRunning: bool

    ghost function View(): Drs
      reads this, txQuality, PER
    {
      Drs(txRate, maxTxRate, txQuality[..], PER[..], txRateUpPenalty, currTxRateStableTime, lastAction,
          fNoisyEnvironment, timerRunning)
    }

    ghost predicate Valid()
      reads this, txQuality, PER
    {
      Inv(View()) && txQuality != PER
    }

    constructor (max: nat)
      requires max < RATES
      ensures Valid() && fresh(txQuality) && fresh(PER) && maxTxRate == max
    {
      txRate, maxTxRate := max, max;
      txQuality := new nat[12](_ => 0);
      PER := new nat[12](_ => 0);
      txRateUpPenalty, currTxRateStableTime, lastAction := 0, 0, NoChange;
      fNoisyEnvironment, timerRunning := false, false;
    }

    method Clear(a: array<nat>)
      requires a.Length == RATES
      modifies a
      ensures a[..] == Zeros()
    {
      for i := 0 to RATES
        invariant forall j: nat :: j < i ==> a[j] == 0
      {
        a[i] := 0;
      }
      assert a[..] == Zeros();
    }

    method SignalRate(m: Sample) returns (r: nat)
      ensures r == RateBySignal(m)
    {
      if m.dbm >= -65 {
        r := RATE_54;
      } else if m.dbm >= -66 {
        r := RATE_48;
      } else if m.dbm >= -70 {
        r := RATE_36;
      } else if m.dbm >= -74 {
        r := RATE_24;
      } else if m.dbm >= -77 {
        r := RATE_18;
      } else if m.dbm >= -79 {
        r := RATE_12;
      } else if m.dbm >= -81 {
        r := if m.ofdmOnly then RATE_9 else RATE_11;
      } else if m.ofdmOnly {
        r := RATE_6;
      } else if m.dbm >= -82 {
        r := RATE_11;
      } else if m.dbm >= -84 {
        r := RATE_5_5;
      } else if m.dbm >= -85 {
        r := RATE_2;
      } else {
        r := RATE_1;
      }
    }

    method Reward(upRate: nat)
      requires Valid() && upRate < RATES
      modifies this`txRateUpPenalty, txQuality
      ensures View() == Rewarded(old(View()), upRate)
    {
      if txQuality[txRate] > 0 {
        txQuality[txRate] := txQuality[txRate] - 1;
      }
      if txRateUpPenalty > 0 {
        txRateUpPenalty := txRateUpPenalty - 1;
      } else if txQuality[upRate] > 0 {
        txQuality[upRate] := txQuality[upRate] - 1;
      }
    }

    /** The quality bookkeeping of a second with enough samples; says whether the quality went up. */
    method Grade(m: Sample, upRate: nat) returns (upgraded: bool)
      requires Valid() && Total(m) > 0 && upRate == Up(View(), m)
      modifies this`txRateUpPenalty, this`currTxRateStableTime, txQuality, PER
      ensures View() == Graded(old(View()), m) && txQuality != PER
      ensures upgraded <==> old(Good(View(), m))
    {
      var currRate := txRate;
      GradedKeeps(View(), m);
      currTxRateStableTime := currTxRateStableTime + 1;
      var txErrorRatio := (m.retried + m.failed) * 100 / (m.ok + m.retried + m.failed);
      upgraded := false;
      if txErrorRatio >= DOWN_PER[currRate] {
        txQuality[currRate] := WORST;
      } else if txErrorRatio <= UP_PER[currRate] {
        upgraded := true;
        Reward(upRate);
      }
      PER[currRate] := txErrorRatio;
    }

    /** The two rules for noisy environments; says whether they settle the rate. */
    method NoisyRules(m: Sample, up: nat) returns (settled: bool)
      requires Valid() && up < RATES
      modifies this`txRate, this`fNoisyEnvironment
      ensures var g := old(View());
              && settled == !Quiet(g, m, up)
              && View() == if EntersNoisy(g, up) then g.(noisy := true, txRate := Bolder(up, g.maxTxRate))
                           else if LeavesNoisy(g) then g.(noisy := false, txRate := if settled then Jump(g, m) else g.txRate)
                           else g
    {
      var currRate := txRate;
      if up != currRate && lastAction == WentDown && PER[currRate] < 75
         && (PER[currRate] > 20 || fNoisyEnvironment) && PER[currRate] + 5 > PER[up] {
        fNoisyEnvironment := true;
        var upRate := up + 1;
        if upRate == RATE_6 || upRate == RATE_9 {
          upRate := RATE_12;
        }
        if upRate > maxTxRate {
          upRate := maxTxRate;
        }
        txRate := upRate;
        return true;
      }
      if fNoisyEnvironment && PER[currRate] <= 12 {
        fNoisyEnvironment := false;
        var jumpUpRate := HighestSafe(m);
        if jumpUpRate > maxTxRate {
          jumpUpRate := maxTxRate;
        }
        if jumpUpRate > currRate {
          txRate := jumpUpRate;
          return true;
        }
      }
      return false;
    }

    method HighestSafe(m: Sample) returns (jumpUpRate: nat)
      ensures jumpUpRate == SafeRate(m.dbm, RATE_54)
    {
      jumpUpRate := RATE_54;
      while jumpUpRate > RATE_1 && !(m.dbm > SAFE_RSSI[jumpUpRate])
        invariant jumpUpRate <= RATE_54
        invariant SafeRate(m.dbm, RATE_54) == SafeRate(m.dbm, jumpUpRate)
      {
        jumpUpRate := jumpUpRate - 1;
      }
    }

    /** A rate-down on the worst quality, a rate-up on the best. */
    method FollowHistory(m: Sample, up: nat, downRate: nat)
      requires Valid() && up < RATES
      modifies this`txRate
      ensures View() == old(View()).(txRate := ByHistory(old(View()), m, up, downRate))
    {
      var currRate := txRate;
      if txQuality[currRate] >= WORST && currRate != downRate {
        txRate := DownTo(m, downRate);
      } else if txQuality[currRate] <= 0 && txQuality[up] <= 0 && currRate != up {
        txRate := up;
      }
      if txRate > maxTxRate {
        txRate := maxTxRate;
      }
    }

    /** The rate decision; leaves the noisy flag and the rate, and the probes to send. */
    method Decide(m: Sample, up: nat, downRate: nat, upgraded: bool, st: Station) returns (probes: nat)
      requires Valid() && up < RATES
      modifies this`txRate, this`fNoisyEnvironment
      ensures View() == Decided(old(View()), m, up, downRate)
      ensures probes == Probes(old(View()), m, up, upgraded, st)
    {
      var currRate := txRate;
      probes := 0;
      var settled := NoisyRules(m, up);
      if settled {
        return;
      }
      if upgraded && st.infraOn && up != currRate && up > RATE_11 && txQuality[currRate] <= 1 && txQuality[up] <= 1 {
        if !st.apsd {
          probes := 2;
        }
      }
      FollowHistory(m, up, downRate);
    }

    method Settle(currRate: nat)
      requires Valid()
      modifies this, txQuality, PER
      ensures View() == Settled(old(View()), currRate)
    {
      if txRate > currRate {
        currTxRateStableTime := 0;
        txRateUpPenalty := 0;
        lastAction := WentUp;
        Clear(txQuality);
        Clear(PER);
        if !timerRunning {
          timerRunning := true;
        }
      } else if txRate < currRate {
        txRateUpPenalty := 0;
        currTxRateStableTime := 0;
        lastAction := WentDown;
        txQuality[txRate] := 0;
        PER[txRate] := 0;
      } else {
        lastAction := NoChange;
      }
    }

    /** The once-a-second tuner. */
    method MlmeDynamicTxRateSwitching(m: Sample, enabled: bool, st: Station) returns (probes: nat)
      requires Valid()
      modifies this, txQuality, PER
      ensures View() == Tune(old(View()), m, enabled) && Valid()
      ensures enabled && Total(m) > 15 ==>
                Inv(Graded(old(View()), m)) && Up(old(View()), m) < RATES
                && probes == Probes(Graded(old(View()), m), m, Up(old(View()), m), old(Good(View(), m)), st)
      ensures !enabled || Total(m) <= 15 ==> probes == 0
    {
      probes := 0;
      TuneKeeps(View(), m, enabled);
      var currRate := txRate;
      if !enabled {
        return;
      }
      if m.ok + m.retried + m.failed <= 15 {
        txRateUpPenalty := 0;
        Clear(txQuality);
        Clear(PER);
        txRate := SignalRate(m);
        if txRate > maxTxRate {
          txRate := maxTxRate;
        }
        return;
      }
      GradedKeeps(View(), m);
      DecidedKeeps(Graded(View(), m), m, Up(View(), m), Down(View(), m));
      var upRate := if m.ofdmOnly then AUp(currRate) else BgUp(currRate);
      var downRate := if m.ofdmOnly then ADown(currRate) else BgDown(currRate);
      if upRate > maxTxRate {
        upRate := maxTxRate;
      }
      var upgraded := Grade(m, upRate);
      probes := Decide(m, upRate, downRate, upgraded, st);
      Settle(currRate);
    }

    /** The quick response timer. */
    method StaQuickResponeForRateUpExec(m: Sample, connected: bool) returns (left: Sample)
      requires Valid()
      modifies this, txQuality, PER
      ensures View() == Quick(old(View()), m, connected) && left == Spent(m, connected)
    {
      left := m;
      if connected && m.ok + m.retried + m.failed != 0 {
        var currRate := txRate;
        var upRate, downRate;
        if m.ofdmOnly {
          upRate, downRate := AUp(currRate), ADown(currRate);
        } else if maxTxRate < RATE_6 {
          upRate, downRate := BUp(currRate), BDown(currRate);
        } else {
          upRate, downRate := BgUp(currRate), BgDown(currRate);
        }
        QuickGrade(m);
        if txQuality[currRate] >= WORST && currRate != downRate {
          txRate := downRate;
        }
        QuickSettle(currRate);
        left := m.(failed := 0, ok := 0, retried := 0);
      }
      timerRunning := false;
    }

    /** Part one: the quality of the present rate. */
    method QuickGrade(m: Sample)
      requires Valid() && Total(m) > 0
      modifies txQuality, PER
      ensures View() == QuickGraded(old(View()), m) && Valid()
    {
      var txErrorRatio := 0;
      if m.ok + m.retried + m.failed > 15 {
        txErrorRatio := (m.retried + m.failed) * 100 / (m.ok + m.retried + m.failed);
        if txErrorRatio >= DOWN_PER[txRate] {
          txQuality[txRate] := WORST;
        }
      }
      PER[txRate] := txErrorRatio;
    }

    /** Part three: what a rate-down leaves behind. */
    method QuickSettle(currRate: nat)
      requires txRate < RATES && txQuality.Length == RATES && PER.Length == RATES && txQuality != PER
      modifies this, txQuality, PER
      ensures View() == QuickSettled(old(View()), currRate)
    {
      if txRate < currRate {
        txRateUpPenalty := 0;
        currTxRateStableTime := 0;
        lastAction := WentDown;
        txQuality[txRate] := 0;
        PER[txRate] := 0;
      } else {
        lastAction := NoChange;
      }
    }

    /** The transmit-done interrupt on a null frame sent at the next rate. */
    method NullFrameDone(failed: bool)
      requires Valid()
      modifies txQuality
      ensures View() == NullFrameResult(old(View()), failed)
    {
      var upRate := BgUp(txRate);
      if failed {
        txQuality[upRate] := WORST;
      } else {
        txQuality[upRate] := txQuality[upRate] + 2;
        if txQuality[upRate] > WORST {
          txQuality[upRate] := WORST;
        }
      }
    }

    /** The rate part of MlmeUpdateTxRates. */
    method MlmeUpdateTxRates(maxSupport: nat, maxDesire: nat, dbm: int, adapts: bool, linkUp: bool)
      modifies this`txRate, this`maxTxRate
      ensures View() == Update(old(View()), maxSupport, maxDesire, dbm, adapts, linkUp)
    {
      maxTxRate := if maxSupport < maxDesire then maxSupport else maxDesire;
      if adapts {
        if linkUp && maxTxRate >= RATE_24 {
          txRate := RATE_24;
        } else {
          txRate := maxTxRate;
        }
        if dbm < -75 {
          txRate := RATE_11;
        } else if dbm < -70 {
          txRate := RATE_24;
        }
        if txRate > maxTxRate {
          txRate := maxTxRate;
        }
      } else {
        txRate := maxTxRate;
      }
    }
  }
}
