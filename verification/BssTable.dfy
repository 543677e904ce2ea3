// The scan table of Module/mlme.c: search with hidden names, set, delete.
module BssTable {
  /** The contention-free parameters, cfp, and the ATIM window are kept when a report carries none. */
  datatype Entry = Entry(
    bssid: nat, ssid: seq<nat>, channel: nat, hidden: bool, infra: bool, cfp: nat, atim: nat, info: nat)

  datatype Cfp = NoCfp | Cfp(value: nat)

  /** What a beacon or a probe response reports; info stands for everything else it carries. */
  datatype Report = Report(bssid: nat, ssid: seq<nat>, channel: nat, infra: bool, cfp: Cfp, atim: nat, info: nat)

  /** BssNr entries are in use; what is beyond them is left over from earlier ones. */
  datatype Table = Table(es: seq<Entry>, nr: nat, overlap: nat)

  /** A name of zeros, or no name: the network hides it. */
  predicate Blank(ssid: seq<nat>) {
    forall i :: 0 <= i < |ssid| ==> ssid[i] == 0
  }

  predicate SameBand(a: nat, b: nat) {
    (a <= 14 && b <= 14) || (a > 14 && b > 14)
  }

  predicate SameRadio(e: Entry, bssid: nat, channel: nat) {
    SameBand(e.channel, channel) && e.bssid == bssid
  }

  /** The condition of BssTableSearchWithSSID. */
  predicate Matches(e: Entry, r: Report) {
    SameRadio(e, r.bssid, r.channel) && (r.ssid == e.ssid || Blank(r.ssid) || Blank(e.ssid))
  }

  /**
   * BssEntrySet: a hidden report leaves the name that is there, one without
   * contention-free parameters leaves those, and only an IBSS has an ATIM window.
   */
  function EntrySet(e: Entry, r: Report): Entry {
    var named := r.ssid != [] && !Blank(r.ssid);
    Entry(r.bssid, if named then r.ssid else e.ssid, r.channel, !named, r.infra,
          if r.infra && r.cfp.Cfp? then r.cfp.value else e.cfp,
          if r.infra then e.atim else r.atim, r.info)
  }

  predicate Sized(t: Table) {
    t.nr <= |t.es| && t.overlap < |t.es|
  }

  /** The first match, or nr. */
  function Search(es: seq<Entry>, nr: nat, r: Report): (i: nat)
    requires nr <= |es|
    ensures i <= nr && (i < nr ==> Matches(es[i], r)) && forall j: nat :: j < i ==> !Matches(es[j], r)
  {
    if nr == 0 then 0
    else
      var i := Search(es, nr - 1, r);
      if i < nr - 1 then i else if Matches(es[nr - 1], r) then nr - 1 else nr
  }

  datatype Found = Found(index: nat) | NotFound

  function SetAt(t: Table, i: nat, r: Report): Table
    requires i < |t.es|
  {
    t.(es := t.es[i := EntrySet(t.es[i], r)])
  }

  /**
   * BssTableSetEntry. A full table gives up an entry only to the network the
   * station is looking for, and only while it is not connected.
   */
  function Set(t: Table, r: Report, connected: bool, wanted: bool): (Table, Found)
    requires Sized(t)
  {
    var i := Search(t.es, t.nr, r);
    if i < t.nr then (SetAt(t, i, r), Found(i))
    else if t.nr < |t.es| then (SetAt(t, t.nr, r).(nr := t.nr + 1), Found(t.nr))
    else if connected || !wanted then (t, NotFound)
    else
      var next := if t.overlap + 1 == |t.es| then 0 else t.overlap + 1;
      (SetAt(t, t.overlap, r).(overlap := next), Found(t.overlap))
  }

  /** The first entry on exactly this channel, or nr. */
  function SearchExact(es: seq<Entry>, nr: nat, bssid: nat, channel: nat): (i: nat)
    requires nr <= |es|
    ensures i <= nr && (i < nr ==> es[i].channel == channel && es[i].bssid == bssid)
    ensures forall j: nat :: j < i ==> !(es[j].channel == channel && es[j].bssid == bssid)
  {
    if nr == 0 then 0
    else
      var i := SearchExact(es, nr - 1, bssid, channel);
      if i < nr - 1 then i
      else if es[nr - 1].channel == channel && es[nr - 1].bssid == bssid then nr - 1 else nr
  }

  /** BssTableDeleteEntry: the entries behind move up; the last one's content stays where it was. */
  function Delete(t: Table, bssid: nat, channel: nat): Table
    requires Sized(t)
  {
    var i := SearchExact(t.es, t.nr, bssid, channel);
    if i == t.nr then t
    else t.(es := t.es[..i] + t.es[i + 1..t.nr] + t.es[t.nr - 1..], nr := t.nr - 1)
  }

  // ----- the invariant -----

  /** Two entries of one radio have different names, and both have one. */
  predicate Separate(es: seq<Entry>, i: nat, j: nat)
    requires i < |es| && j < |es|
  {
    SameRadio(es[i], es[j].bssid, es[j].channel) ==>
      es[i].ssid != es[j].ssid && !Blank(es[i].ssid) && !Blank(es[j].ssid)
  }

  ghost predicate Inv(t: Table) {
    && Sized(t)
    && forall i: nat, j: nat :: i < t.nr && j < t.nr && i != j ==> Separate(t.es, i, j)
  }

  /** A report that no entry matches, or only this one's, can go into this one's place. */
  lemma SetAtKeeps(t: Table, i: nat, nr: nat, r: Report)
    requires Sized(t) && i < |t.es| && nr <= |t.es| && nr <= t.nr + 1 && i < nr && (t.nr < nr ==> i == t.nr)
    requires forall j: nat, k: nat :: j < t.nr && k < t.nr && j != k ==> Separate(t.es, j, k)
    requires (i < t.nr && Matches(t.es[i], r)) || forall j: nat :: j < t.nr ==> !Matches(t.es[j], r)
    ensures var u := SetAt(t, i, r);
            forall j: nat, k: nat :: j < nr && k < nr && j != k ==> Separate(u.es, j, k)
  {
    var u := SetAt(t, i, r);
    forall j: nat, k: nat | j < nr && k < nr && j != k ensures Separate(u.es, j, k) {
      if j != i && k != i {
        assert Separate(t.es, j, k);
      } else {
        var other := if j == i then k else j;
        OtherSeparate(t, i, other, r);
      }
    }
  }

  lemma OtherSeparate(t: Table, i: nat, j: nat, r: Report)
    requires Sized(t) && i < |t.es| && j < t.nr && j != i
    requires i < t.nr ==> Separate(t.es, i, j) && Separate(t.es, j, i)
    requires (i < t.nr && Matches(t.es[i], r)) || !Matches(t.es[j], r)
    ensures var e := EntrySet(t.es[i], r);
            SameRadio(e, t.es[j].bssid, t.es[j].channel) ==>
              e.ssid != t.es[j].ssid && !Blank(e.ssid) && !Blank(t.es[j].ssid)
  {
    assert Blank([]);
  }

  lemma SetKeeps(t: Table, r: Report, connected: bool, wanted: bool)
    requires Inv(t)
    ensures Inv(Set(t, r, connected, wanted).0)
  {
    var i := Search(t.es, t.nr, r);
    if i < t.nr {
      SetAtKeeps(t, i, t.nr, r);
    } else if t.nr < |t.es| {
      SetAtKeeps(t, t.nr, t.nr + 1, r);
    } else {
      SetAtKeeps(t, t.overlap, t.nr, r);
    }
  }

  lemma DeleteKeeps(t: Table, bssid: nat, channel: nat)
    requires Inv(t)
    ensures Inv(Delete(t, bssid, channel))
  {
    var i := SearchExact(t.es, t.nr, bssid, channel);
    if i < t.nr {
      var u := Delete(t, bssid, channel);
      forall j: nat, k: nat | j < u.nr && k < u.nr && j != k ensures Separate(u.es, j, k) {
        var j', k' := if j < i then j else j + 1, if k < i then k else k + 1;
        assert u.es[j] == t.es[j'] && u.es[k] == t.es[k'];
        assert Separate(t.es, j', k');
      }
    }
  }

  // ----- over any sequence of operations -----

  datatype Op = DoSet(r: Report, connected: bool, wanted: bool) | DoDelete(bssid: nat, channel: nat) | DoInit

  function Empty(n: nat): Table {
    Table(seq(n, _ => Entry(0, [], 0, false, false, 0, 0, 0)), 0, 0)
  }

  function Apply(t: Table, op: Op): Table
    requires Sized(t)
  {
    match op
    case DoSet(r, c, w) => Set(t, r, c, w).0
    case DoDelete(b, ch) => Delete(t, b, ch)
    case DoInit => Empty(|t.es|)
  }

  lemma ApplySized(t: Table, op: Op)
    requires Sized(t)
    ensures Sized(Apply(t, op)) && |Apply(t, op).es| == |t.es|
  {
  }

  function After(n: nat, ops: seq<Op>): (t: Table)
    requires n >= 1
    ensures Sized(t) && |t.es| == n
  {
    if ops == [] then Empty(n)
    else
      var t := After(n, ops[..|ops| - 1]);
      ApplySized(t, ops[|ops| - 1]);
      Apply(t, ops[|ops| - 1])
  }

  /**
   * After any sequence of operations the table is no larger than its room, and
   * any two entries of one radio carry different names, neither of them blank.
   */
  lemma {:induction false} AlwaysSeparate(n: nat, ops: seq<Op>)
    requires n >= 1
    ensures Inv(After(n, ops)) && After(n, ops).nr <= n
  {
    if ops != [] {
      var before, op := ops[..|ops| - 1], ops[|ops| - 1];
      AlwaysSeparate(n, before);
      var t := After(n, before);
      match op {
        case DoSet(r, c, w) => SetKeeps(t, r, c, w);
        case DoDelete(b, ch) => DeleteKeeps(t, b, ch);
        case DoInit =>
      }
    }
  }

  /** A report that shows its name matches at most one entry, so the search is unambiguous. */
  lemma NamedMatchIsUnique(t: Table, r: Report, i: nat, j: nat)
    requires Inv(t) && !Blank(r.ssid) && i < t.nr && j < t.nr && Matches(t.es[i], r) && Matches(t.es[j], r)
    ensures i == j
  {
    assert i != j ==> Separate(t.es, i, j);
  }

  /** Right after a report was accepted, the same search finds the place it was put. */
  lemma SearchFindsWhatWasSet(t: Table, r: Report, connected: bool, wanted: bool)
    requires Inv(t) && Set(t, r, connected, wanted).1.Found?
    ensures var (u, f) := Set(t, r, connected, wanted);
            Search(u.es, u.nr, r) == f.index < u.nr && u.es[f.index].bssid == r.bssid && u.es[f.index].info == r.info
  {
    var (u, f) := Set(t, r, connected, wanted);
    var i := f.index;
    assert Blank([]);
    assert Matches(u.es[i], r);
    assert forall j: nat :: j < i ==> u.es[j] == t.es[j];
  }

  /** What a report changes besides: nothing but one place. */
  lemma SetTouchesOnePlace(t: Table, r: Report, connected: bool, wanted: bool, j: nat)
    requires Inv(t) && j < |t.es| && Set(t, r, connected, wanted).1 != Found(j)
    ensures Set(t, r, connected, wanted).0.es[j] == t.es[j]
  {
  }

  // ----- what a report does, on the report and the table alone -----

  /** A report is about an entry of the same station in the same band that shows no other name. */
  lemma MatchesExactlyWhen(e: Entry, r: Report)
    ensures Matches(e, r) <==>
      && e.bssid == r.bssid && (e.channel <= 14 <==> r.channel <= 14)
      && (e.ssid == r.ssid || (forall k: nat :: k < |r.ssid| ==> r.ssid[k] == 0)
                           || (forall k: nat :: k < |e.ssid| ==> e.ssid[k] == 0))
  {
  }

  /**
   * Where a report goes: to the first entry it is about; else behind the last
   * one; else, in a full table, in turn to one place after the other, but only
   * when the station looks for this network and is not connected.
   */
  lemma ReportGoesTo(t: Table, r: Report, connected: bool, wanted: bool)
    requires Sized(t)
    ensures var (u, f) := Set(t, r, connected, wanted);
      var known := exists i: nat :: i < t.nr && Matches(t.es[i], r);
      && (f == NotFound <==> !known && t.nr == |t.es| && (connected || !wanted))
      && (f == NotFound ==> u == t)
      && (known ==> f.Found? && f.index < t.nr && Matches(t.es[f.index], r) && u.nr == t.nr && u.overlap == t.overlap)
      && (known ==> forall i: nat :: i < f.index ==> !Matches(t.es[i], r))
      && (!known && t.nr < |t.es| ==> f == Found(t.nr) && u.nr == t.nr + 1 && u.overlap == t.overlap)
      && (!known && t.nr == |t.es| && f.Found? ==> f == Found(t.overlap) && u.nr == t.nr)
      && (!known && t.nr == |t.es| && f.Found? ==> u.overlap == if t.overlap == |t.es| - 1 then 0 else t.overlap + 1)
  {
    var i := Search(t.es, t.nr, r);
    assert i < t.nr ==> Matches(t.es[i], r);
  }

  /**
   * What it leaves there: all it carries, but the name only when it shows one,
   * the contention-free parameters only when it has them and comes from an
   * access point, the ATIM window only when it comes from an IBSS.
   */
  lemma ReportLeaves(t: Table, r: Report, connected: bool, wanted: bool, k: nat)
    requires Sized(t) && Set(t, r, connected, wanted).1.Found?
    ensures var (u, f) := Set(t, r, connected, wanted); f.index < |t.es| && |u.es| == |t.es|
    ensures var (u, f) := Set(t, r, connected, wanted); var e, was := u.es[f.index], t.es[f.index];
      && e.bssid == r.bssid && e.channel == r.channel && e.infra == r.infra && e.info == r.info
      && (k < |r.ssid| && r.ssid[k] != 0 ==> e.ssid == r.ssid && !e.hidden)
      && ((forall j: nat :: j < |r.ssid| ==> r.ssid[j] == 0) ==> e.ssid == was.ssid && e.hidden)
      && e.cfp == (if r.infra && r.cfp.Cfp? then r.cfp.value else was.cfp)
      && e.atim == (if r.infra then was.atim else r.atim)
  {
  }

  /** Deleting takes out the first entry of that station on exactly that channel and moves up those behind
      it; without such an entry nothing happens. */
  lemma DeleteTakesOut(t: Table, bssid: nat, channel: nat, i: nat, j: nat)
    requires Sized(t) && i < t.nr && t.es[i].bssid == bssid && t.es[i].channel == channel && j < |t.es|
    requires forall k: nat :: k < i ==> t.es[k].bssid != bssid || t.es[k].channel != channel
    ensures var u := Delete(t, bssid, channel);
      && u.nr == t.nr - 1 && u.overlap == t.overlap && |u.es| == |t.es|
      && u.es[j] == if i <= j < u.nr then t.es[j + 1] else t.es[j]
  {
    assert SearchExact(t.es, t.nr, bssid, channel) == i;
  }

  lemma DeleteFindsNone(t: Table, bssid: nat, channel: nat)
    requires Sized(t) && forall k: nat :: k < t.nr ==> t.es[k].bssid != bssid || t.es[k].channel != channel
    ensures Delete(t, bssid, channel) == t
  {
  }

  // ----- the name of a new entry -----

  /** A report that no entry matches, and that gets a place nevertheless. */
  ghost predicate Newcomer(t: Table, r: Report, connected: bool, wanted: bool) {
    Inv(t) && Search(t.es, t.nr, r) == t.nr && Set(t, r, connected, wanted).1.Found?
  }

  /**
   * A new entry ought to show what its report shows. It does exactly when the
   * report is named or no name was left in the place; otherwise a hidden network
   * goes by the name of whoever had the place before it.
   */
  lemma HiddenTakesLeftoverName(t: Table, r: Report, connected: bool, wanted: bool)
    requires Newcomer(t, r, connected, wanted)
    ensures var (u, f) := Set(t, r, connected, wanted);
            && (Blank(u.es[f.index].ssid) <==> Blank(r.ssid) && Blank(t.es[f.index].ssid))
            && u.es[f.index].ssid == (if Blank(r.ssid) then t.es[f.index].ssid else r.ssid)
            && (u.es[f.index].hidden <==> Blank(r.ssid))
  {
    assert Blank([]);
  }

  /** The same goes for the contention-free parameters: a newcomer that sends none has those of whoever was there. */
  lemma NewcomerInheritsCfp(t: Table, r: Report, connected: bool, wanted: bool)
    requires Newcomer(t, r, connected, wanted)
    ensures var (u, f) := Set(t, r, connected, wanted);
            u.es[f.index].cfp == t.es[f.index].cfp <==>
              !r.infra || r.cfp == NoCfp || r.cfp.value == t.es[f.index].cfp
  {
  }

  /** In a new entry's table no other entry has its radio. */
  lemma AloneOnItsRadio(t: Table, r: Report, connected: bool, wanted: bool, j: nat)
    requires Newcomer(t, r, connected, wanted) && Blank(r.ssid)
    ensures var (u, f) := Set(t, r, connected, wanted);
            j < u.nr && j != f.index ==> !SameRadio(u.es[j], r.bssid, r.channel)
  {
    var (u, f) := Set(t, r, connected, wanted);
    if j < u.nr && j != f.index {
      assert u.es[j] == t.es[j] && !Matches(t.es[j], r);
    }
  }

  /**
   * What follows: when the network later shows its name, the search misses its
   * own entry if and only if that entry goes by another name.
   */
  lemma MissesItsOwnEntry(t: Table, r: Report, connected: bool, wanted: bool, shown: Report)
    requires Newcomer(t, r, connected, wanted) && Blank(r.ssid)
    requires shown.bssid == r.bssid && SameBand(shown.channel, r.channel) && !Blank(shown.ssid)
    ensures var (u, f) := Set(t, r, connected, wanted);
            Search(u.es, u.nr, shown) == u.nr <==> !Blank(t.es[f.index].ssid) && t.es[f.index].ssid != shown.ssid
  {
    var (u, f) := Set(t, r, connected, wanted);
    HiddenTakesLeftoverName(t, r, connected, wanted);
    forall j: nat | j < u.nr && j != f.index ensures !Matches(u.es[j], shown) {
      AloneOnItsRadio(t, r, connected, wanted, j);
    }
    assert Matches(u.es[f.index], shown) <==> Blank(t.es[f.index].ssid) || t.es[f.index].ssid == shown.ssid;
  }

  /** And then, while there is room, the network is entered a second time. */
  lemma EnteredTwice(t: Table, r: Report, connected: bool, wanted: bool, shown: Report)
    requires Newcomer(t, r, connected, wanted) && Blank(r.ssid)
    requires shown.bssid == r.bssid && SameBand(shown.channel, r.channel) && !Blank(shown.ssid)
    requires Set(t, r, connected, wanted).0.nr < |t.es|
    ensures var (u, f) := Set(t, r, connected, wanted);
            var (v, g) := Set(u, shown, connected, wanted);
            g.Found? && (f != g <==> !Blank(t.es[f.index].ssid) && t.es[f.index].ssid != shown.ssid)
            && v.es[f.index].bssid == v.es[g.index].bssid == r.bssid && f.index < v.nr && g.index < v.nr
  {
    var (u, f) := Set(t, r, connected, wanted);
    MissesItsOwnEntry(t, r, connected, wanted, shown);
    if Search(u.es, u.nr, shown) < u.nr && Search(u.es, u.nr, shown) != f.index {
      AloneOnItsRadio(t, r, connected, wanted, Search(u.es, u.nr, shown));
    }
  }

  lemma AfterOneMore(n: nat, ops: seq<Op>, op: Op)
    requires n >= 1
    ensures After(n, ops + [op]) == Apply(After(n, ops), op)
  {
    assert (ops + [op])[..|ops|] == ops;
  }

  /** Set, delete, set hidden: the network that is gone lends its name, in a table of any size. */
  lemma LeftoverNameIsReachable(n: nat, gone: Report, hidden: Report)
    requires n >= 1 && !Blank(gone.ssid) && Blank(hidden.ssid)
    ensures var t := After(n, [DoSet(gone, false, false), DoDelete(gone.bssid, gone.channel)]);
            Newcomer(t, hidden, false, false) && !Blank(t.es[0].ssid)
    ensures var u := After(n, [DoSet(gone, false, false), DoDelete(gone.bssid, gone.channel), DoSet(hidden, false, false)]);
            u.nr == 1 && u.es[0].bssid == hidden.bssid && u.es[0].ssid == gone.ssid
  {
    var a, b, c := DoSet(gone, false, false), DoDelete(gone.bssid, gone.channel), DoSet(hidden, false, false);
    AfterOneMore(n, [], a);
    AfterOneMore(n, [a], b);
    AfterOneMore(n, [a, b], c);
    assert [] + [a] == [a] && [a] + [b] == [a, b] && [a, b] + [c] == [a, b, c];
    var t1 := After(n, [a]);
    assert t1.nr == 1 && t1.es[0] == EntrySet(Empty(n).es[0], gone);
    assert SearchExact(t1.es, 1, gone.bssid, gone.channel) == 0;
    AlwaysSeparate(n, [a, b]);
    HiddenTakesLeftoverName(After(n, [a, b]), hidden, false, false);
  }

  /** A full table: the hidden network the station looks for takes the name of the one it evicts. */
  lemma EvictedNameIsReachable(live: Report, hidden: Report)
    requires !Blank(live.ssid) && Blank(hidden.ssid)
    requires !SameRadio(EntrySet(Empty(1).es[0], live), hidden.bssid, hidden.channel)
    ensures var t := After(1, [DoSet(live, false, false)]);
            t.nr == |t.es| && Newcomer(t, hidden, false, true)
    ensures var u := After(1, [DoSet(live, false, false), DoSet(hidden, false, true)]);
            u.nr == 1 && u.es[0].bssid == hidden.bssid && u.es[0].ssid == live.ssid
  {
    var a, b := DoSet(live, false, false), DoSet(hidden, false, true);
    AfterOneMore(1, [], a);
    AfterOneMore(1, [a], b);
    assert [] + [a] == [a] && [a] + [b] == [a, b];
    AlwaysSeparate(1, [a]);
    var t := After(1, [a]);
    assert t.nr == 1 && t.es[0] == EntrySet(Empty(1).es[0], live);
    HiddenTakesLeftoverName(t, hidden, false, true);
  }

  // ----- the table in place -----

  class BssTableClass {
    const es: array<Entry>
    var nr: nat
    var overlap: nat

    ghost function View(): Table
      reads this, es
    {
      Table(es[..], nr, overlap)
    }

    constructor (n: nat)
      requires n >= 1
      ensures View() == Empty(n) && fresh(es)
    {
      es := new Entry[n](_ => Entry(0, [], 0, false, false, 0, 0, 0));
      nr, overlap := 0, 0;
    }

    method SearchWithSsid(r: Report) returns (f: Found)
      requires Sized(View())
      ensures var i := Search(es[..], nr, r); f == if i < nr then Found(i) else NotFound
    {
      for i := 0 to nr
        invariant forall j: nat :: j < i ==> !Matches(es[j], r)
      {
        if Matches(es[i], r) {
          return Found(i);
        }
      }
      return NotFound;
    }

    method BssEntrySet(i: nat, r: Report)
      requires i < es.Length
      modifies es
      ensures es[..] == old(es[..])[i := EntrySet(old(es[i]), r)]
    {
      var e := es[i].(bssid := r.bssid, hidden := true);
      if |r.ssid| > 0 {
        if !Blank(r.ssid) {
          e := e.(ssid := r.ssid, hidden := false);
        }
      }
      e := e.(infra := r.infra);
      if r.infra {
        if r.cfp.Cfp? {
          e := e.(cfp := r.cfp.value);
        }
      } else {
        e := e.(atim := r.atim);
      }
      es[i] := e.(channel := r.channel, info := r.info);
    }

    method SetEntry(r: Report, connected: bool, wanted: bool) returns (f: Found)
      requires Sized(View())
      modifies this, es
      ensures (View(), f) == Set(old(View()), r, connected, wanted)
    {
      f := SearchWithSsid(r);
      if f == NotFound {
        if nr >= es.Length {
          if !connected {
            if wanted {
              f := Found(overlap);
              BssEntrySet(overlap, r);
              overlap := if overlap + 1 == es.Length then 0 else overlap + 1;
            }
            return;
          } else {
            return NotFound;
          }
        }
        f := Found(nr);
        BssEntrySet(nr, r);
        nr := nr + 1;
      } else {
        BssEntrySet(f.index, r);
      }
    }

    /** Moves the entries behind place i up by one. */
    method MoveUp(i: nat)
      requires nr <= es.Length && i < nr
      modifies es
      ensures es[..] == old(es[..i] + es[i + 1..nr] + es[nr - 1..])
    {
      ghost var before := es[..];
      var j := i;
      while j < nr - 1
        invariant i <= j <= nr - 1
        invariant forall k: nat :: k < i ==> es[k] == before[k]
        invariant forall k: nat :: i <= k < j ==> es[k] == before[k + 1]
        invariant forall k: nat :: j <= k < es.Length ==> es[k] == before[k]
      {
        es[j] := es[j + 1];
        j := j + 1;
      }
      assert before == old(es[..]);
      ghost var after := before[..i] + before[i + 1..nr] + before[nr - 1..];
      assert |after| == es.Length;
      assert forall k: nat :: k < es.Length ==> es[k] == after[k];
    }

    method DeleteEntry(bssid: nat, channel: nat)
      requires Sized(View())
      modifies this, es
      ensures View() == Delete(old(View()), bssid, channel)
    {
      for i := 0 to nr
        invariant es[..] == old(es[..]) && nr == old(nr) && overlap == old(overlap)
        invariant forall j: nat :: j < i ==> !(es[j].channel == channel && es[j].bssid == bssid)
      {
        if es[i].channel == channel && es[i].bssid == bssid {
          MoveUp(i);
          nr := nr - 1;
          return;
        }
      }
    }
  }
}
