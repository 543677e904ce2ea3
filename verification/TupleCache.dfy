// The duplicate-frame cache of Module/rtmp_data.c against the history of frames
// it has recorded. The number of entries is a parameter.
module TupleCache {

  /** Sender address, sequence number, fragment number. */
  datatype Tuple = Tuple(mac: nat, seqNo: nat, frag: nat)

  // ----- the cache as a queue, longest-inserted first -----

  function Find(q: seq<Tuple>, mac: nat): (i: nat)
    ensures i <= |q| && (i < |q| ==> q[i].mac == mac) && forall j: nat :: j < i ==> q[j].mac != mac
  {
    if q == [] then 0 else if q[0].mac == mac then 0 else 1 + Find(q[1..], mac)
  }

  /** A known sender's entry is replaced where it is; a new one goes last, the first leaving if need be. */
  function Record(q: seq<Tuple>, n: nat, t: Tuple): seq<Tuple>
    requires n >= 1
  {
    var i := Find(q, t.mac);
    if i < |q| then q[i := t]
    else if |q| < n then q + [t]
    else if q == [] then [t]
    else q[1..] + [t]
  }

  /** When each entry's sender was inserted, in numbers of recorded frames. */
  function RecordBirth(q: seq<Tuple>, births: seq<nat>, n: nat, t: Tuple, now: nat): seq<nat>
    requires n >= 1
  {
    if Find(q, t.mac) < |q| then births
    else if |q| < n then births + [now]
    else if births == [] then [now]
    else births[1..] + [now]
  }

  function Cache(hist: seq<Tuple>, n: nat): seq<Tuple>
    requires n >= 1
  {
    if hist == [] then [] else Record(Cache(hist[..|hist| - 1], n), n, hist[|hist| - 1])
  }

  function Births(hist: seq<Tuple>, n: nat): seq<nat>
    requires n >= 1
  {
    if hist == [] then []
    else
      var before := hist[..|hist| - 1];
      RecordBirth(Cache(before, n), Births(before, n), n, hist[|hist| - 1], |hist| - 1)
  }

  // ----- the full history -----

  /** Whether the sender's most recently recorded frame is this one. */
  predicate LastIs(hist: seq<Tuple>, t: Tuple) {
    hist != [] &&
    (if hist[|hist| - 1].mac == t.mac then hist[|hist| - 1] == t else LastIs(hist[..|hist| - 1], t))
  }

  predicate Heard(hist: seq<Tuple>, mac: nat) {
    hist != [] && (hist[|hist| - 1].mac == mac || Heard(hist[..|hist| - 1], mac))
  }

  function Senders(hist: seq<Tuple>): set<nat> {
    if hist == [] then {} else Senders(hist[..|hist| - 1]) + {hist[|hist| - 1].mac}
  }

  predicate Distinct(q: seq<Tuple>) {
    forall i: nat, j: nat :: i < j < |q| ==> q[i].mac != q[j].mac
  }

  predicate Increasing(births: seq<nat>, now: nat) {
    && (forall i: nat, j: nat :: i < j < |births| ==> births[i] < births[j])
    && (forall i: nat :: i < |births| ==> births[i] < now)
  }

  lemma FindIs(q: seq<Tuple>, i: nat)
    requires i < |q| && Distinct(q)
    ensures Find(q, q[i].mac) == i
  {
    var j := Find(q, q[i].mac);
    assert j <= i;
  }

  lemma RecordDistinct(q: seq<Tuple>, n: nat, t: Tuple)
    requires n >= 1 && Distinct(q) && |q| <= n
    ensures Distinct(Record(q, n, t)) && |Record(q, n, t)| <= n
  {
  }

  /**
   * On every history the entries have distinct senders, each entry is its
   * sender's last recorded frame, and they stand in order of insertion.
   */
  lemma {:induction false} CacheAgrees(hist: seq<Tuple>, n: nat)
    requires n >= 1
    ensures var q := Cache(hist, n);
            && Distinct(q) && |q| <= n
            && (forall i: nat :: i < |q| ==> LastIs(hist, q[i]))
  {
    if hist != [] {
      var before := hist[..|hist| - 1];
      CacheAgrees(before, n);
      RecordDistinct(Cache(before, n), n, hist[|hist| - 1]);
    }
  }

  /** Each entry's sender is the sender of the frame it was inserted with. */
  predicate Named(hist: seq<Tuple>, births: seq<nat>, q: seq<Tuple>) {
    |births| == |q| && forall i: nat :: i < |births| ==> births[i] < |hist| && hist[births[i]].mac == q[i].mac
  }

  lemma BirthsIncrease(q: seq<Tuple>, b: seq<nat>, n: nat, t: Tuple, now: nat)
    requires n >= 1 && Increasing(b, now)
    ensures Increasing(RecordBirth(q, b, n, t, now), now + 1)
  {
    if b != [] {
      Younger(b[1..], now);
    }
    Younger(b, now);
  }

  lemma BirthsNamed(hist: seq<Tuple>, q: seq<Tuple>, b: seq<nat>, n: nat)
    requires n >= 1 && hist != [] && Named(hist, b, q)
    ensures var t, now := hist[|hist| - 1], |hist| - 1;
            Named(hist, RecordBirth(q, b, n, t, now), Record(q, n, t))
  {
  }

  lemma Younger(b: seq<nat>, now: nat)
    requires Increasing(b, now)
    ensures Increasing(b + [now], now + 1)
  {
    var c := b + [now];
    forall i: nat, j: nat | i < j < |c| ensures c[i] < c[j] {
      assert c[i] == b[i];
      assert j < |b| ==> c[j] == b[j];
    }
  }

  lemma {:induction false} OldestFirst(hist: seq<Tuple>, n: nat)
    requires n >= 1
    ensures Increasing(Births(hist, n), |hist|) && Named(hist, Births(hist, n), Cache(hist, n))
  {
    if hist != [] {
      var before := hist[..|hist| - 1];
      OldestFirst(before, n);
      var b, q := Births(before, n), Cache(before, n);
      assert forall i: nat :: i < |b| ==> before[b[i]] == hist[b[i]];
      BirthsIncrease(q, b, n, hist[|hist| - 1], |hist| - 1);
      BirthsNamed(hist, q, b, n);
    }
  }

  /** An eviction removes the entry whose sender was inserted longest ago. */
  lemma EvictsLongestInserted(hist: seq<Tuple>, n: nat, t: Tuple)
    requires n >= 1 && |Cache(hist, n)| == n && Find(Cache(hist, n), t.mac) == n
    ensures Cache(hist + [t], n) == Cache(hist, n)[1..] + [t]
    ensures |Births(hist, n)| == n && forall i: nat :: 0 < i < n ==> Births(hist, n)[0] < Births(hist, n)[i]
  {
    assert (hist + [t])[..|hist|] == hist;
    OldestFirst(hist, n);
  }

  /** What is cached after a frame is recorded: that frame, and what was cached before, but for an older
      frame of its sender, and but for the longest-inserted entry when a new sender meets a full cache. */
  lemma CachedAfterwards(hist: seq<Tuple>, n: nat, t: Tuple, s: Tuple)
    requires n >= 1
    ensures var q := Cache(hist, n);
      s in Cache(hist + [t], n) <==>
        || s == t
        || (s in q && s.mac != t.mac && !(|q| == n && q[0] == s && forall i: nat :: i < n ==> q[i].mac != t.mac))
  {
    CacheAgrees(hist, n);
    OneMore(hist, n, t);
    var q := Cache(hist, n);
    var r := Record(q, n, t);
    if s in q {
      var i: nat :| i < |q| && q[i] == s;
      assert Find(q, t.mac) < |q| && s.mac != t.mac ==> r[i] == s;
      assert Find(q, t.mac) == |q| && |q| < n ==> r[i] == s;
      assert Find(q, t.mac) == |q| == n && i > 0 ==> r[i - 1] == s;
    }
    assert Find(q, t.mac) < |q| ==> r[Find(q, t.mac)] == t;
    assert Find(q, t.mac) == |q| ==> r[|r| - 1] == t;
  }

  // ----- hits -----

  lemma {:induction false} OneLast(hist: seq<Tuple>, s: Tuple, t: Tuple)
    requires LastIs(hist, s) && LastIs(hist, t) && s.mac == t.mac
    ensures s == t
  {
    if hist[|hist| - 1].mac != s.mac {
      OneLast(hist[..|hist| - 1], s, t);
    }
  }

  /** A hit is never false: the frame really is the last one recorded from its sender. */
  lemma HitIsDuplicate(hist: seq<Tuple>, n: nat, t: Tuple)
    requires n >= 1 && t in Cache(hist, n)
    ensures LastIs(hist, t)
  {
    CacheAgrees(hist, n);
  }

  lemma {:induction false} CachedSenders(hist: seq<Tuple>, n: nat)
    requires n >= 1 && |Senders(hist)| <= n
    ensures forall mac :: mac in Senders(hist) ==> Find(Cache(hist, n), mac) < |Cache(hist, n)|
    ensures |Cache(hist, n)| == |Senders(hist)|
  {
    if hist != [] {
      var before, t := hist[..|hist| - 1], hist[|hist| - 1];
      assert Senders(before) <= Senders(hist);
      SubsetSmaller(Senders(before), Senders(hist));
      CachedSenders(before, n);
      var q, r := Cache(before, n), Cache(hist, n);
      CachedAreSenders(before, n);
      if t.mac in Senders(before) {
        assert Senders(hist) == Senders(before);
      } else {
        assert Find(q, t.mac) == |q|;
      }
      forall mac | mac in Senders(hist) ensures Find(r, mac) < |r| {
        if mac in Senders(before) {
          FindStays(q, n, t, mac);
        } else {
          FindLast(q, t);
        }
      }
    }
  }

  lemma SubsetSmaller(a: set<nat>, b: set<nat>)
    requires a <= b
    ensures |a| <= |b|
  {
    assert b == a + (b - a);
  }

  lemma FindStays(q: seq<Tuple>, n: nat, t: Tuple, mac: nat)
    requires n >= 1 && Find(q, mac) < |q| && (Find(q, t.mac) < |q| || |q| < n)
    ensures Find(Record(q, n, t), mac) < |Record(q, n, t)|
  {
    var i, r := Find(q, mac), Record(q, n, t);
    assert r[i].mac == mac;
  }

  lemma FindLast(q: seq<Tuple>, t: Tuple)
    ensures Find(q + [t], t.mac) < |q + [t]|
  {
    assert (q + [t])[|q|].mac == t.mac;
  }

  lemma {:induction false} CachedAreSenders(hist: seq<Tuple>, n: nat)
    requires n >= 1
    ensures forall i: nat :: i < |Cache(hist, n)| ==> Cache(hist, n)[i].mac in Senders(hist)
  {
    if hist != [] {
      CachedAreSenders(hist[..|hist| - 1], n);
    }
  }

  lemma {:induction false} LastSender(hist: seq<Tuple>, t: Tuple)
    requires LastIs(hist, t)
    ensures t.mac in Senders(hist)
  {
    if hist[|hist| - 1].mac != t.mac {
      LastSender(hist[..|hist| - 1], t);
    }
  }

  /** With no more senders than entries the cache is exact: it hits on every duplicate and nothing else. */
  lemma ExactForFewSenders(hist: seq<Tuple>, n: nat, t: Tuple)
    requires n >= 1 && |Senders(hist)| <= n
    ensures t in Cache(hist, n) <==> LastIs(hist, t)
  {
    CacheAgrees(hist, n);
    if LastIs(hist, t) {
      LastSender(hist, t);
      CachedSenders(hist, n);
      var i := Find(Cache(hist, n), t.mac);
      OneLast(hist, Cache(hist, n)[i], t);
    }
  }

  // ----- the cache in place -----

  datatype Entry = Entry(valid: bool, tuple: Tuple)

  /** The entries from the longest-inserted on: from the start while there is room, else after the last update. */
  function Ordered(entries: seq<Entry>, used: nat, last: nat): seq<Tuple>
    requires used <= |entries| && last < |entries|
  {
    var tuples := seq(|entries|, i requires 0 <= i < |entries| => entries[i].tuple);
    if used < |entries| then tuples[..used] else tuples[last + 1..] + tuples[..last + 1]
  }

  /** Where the entry of an array cell stands in that order. */
  function Position(cells: nat, used: nat, last: nat, cell: nat): nat
    requires last < cells && cell < used <= cells
  {
    if used < cells then cell else if cell <= last then cells - 1 - last + cell else cell - last - 1
  }

  lemma PositionOf(entries: seq<Entry>, used: nat, last: nat, cell: nat)
    requires cell < used <= |entries| && last < |entries|
    ensures var p := Position(|entries|, used, last, cell);
            p < used == |Ordered(entries, used, last)| && Ordered(entries, used, last)[p] == entries[cell].tuple
  {
  }

  lemma ReplaceOrdered(entries: seq<Entry>, used: nat, last: nat, cell: nat, t: Tuple)
    requires cell < used <= |entries| && last < |entries|
    ensures var p := Position(|entries|, used, last, cell);
            p < |Ordered(entries, used, last)| &&
            Ordered(entries[cell := Entry(true, t)], used, last) == Ordered(entries, used, last)[p := t]
  {
  }

  lemma AddOrdered(entries: seq<Entry>, used: nat, last: nat, t: Tuple)
    requires used < |entries| && last < |entries|
    ensures Ordered(entries[used := Entry(true, t)], used + 1, used) == Ordered(entries, used, last) + [t]
  {
  }

  lemma EvictOrdered(entries: seq<Entry>, last: nat, next: nat, t: Tuple)
    requires last < |entries| && next == if last + 1 >= |entries| then 0 else last + 1
    ensures Ordered(entries[next := Entry(true, t)], |entries|, next)
            == Ordered(entries, |entries|, last)[1..] + [t]
  {
  }

  /** A sender that no cell holds is not found in the ordered view. */
  lemma NotFound(entries: seq<Entry>, used: nat, last: nat, mac: nat)
    requires used <= |entries| && last < |entries|
    requires forall i: nat :: i < used ==> entries[i].tuple.mac != mac
    ensures Find(Ordered(entries, used, last), mac) == |Ordered(entries, used, last)| == used
  {
  }

  lemma OneMore(hist: seq<Tuple>, n: nat, t: Tuple)
    requires n >= 1
    ensures Cache(hist + [t], n) == Record(Cache(hist, n), n, t)
  {
    assert (hist + [t])[..|hist|] == hist;
  }

  class Duplicates {
    const entries: array<Entry>
    var lastUpdate: nat
    ghost var hist: seq<Tuple>   // every frame recorded
    ghost var used: nat          // the valid entries are the first ones

    ghost predicate Valid()
      reads this, entries
    {
      && lastUpdate < entries.Length && used <= entries.Length
      && (forall i: nat :: i < entries.Length ==> (entries[i].valid <==> i < used))
      && Ordered(entries[..], used, lastUpdate) == Cache(hist, entries.Length)
    }

    constructor (maxClient: nat)
      requires maxClient >= 1
      ensures Valid() && hist == [] && entries.Length == maxClient && fresh(entries)
    {
      entries := new Entry[maxClient](_ => Entry(false, Tuple(0, 0, 0)));
      lastUpdate, hist, used := 0, [], 0;
    }

    /** RTMPSearchTupleCache: a valid entry with this sender, sequence and fragment. */
    method Search(t: Tuple) returns (hit: bool)
      requires Valid()
      ensures hit <==> t in Cache(hist, entries.Length)
      ensures hit ==> LastIs(hist, t)
      ensures |Senders(hist)| <= entries.Length ==> (hit <==> LastIs(hist, t))
    {
      CacheAgrees(hist, entries.Length);
      if |Senders(hist)| <= entries.Length {
        ExactForFewSenders(hist, entries.Length, t);
      }
      ghost var q := Ordered(entries[..], used, lastUpdate);
      for index := 0 to entries.Length
        invariant forall i: nat :: i < index && i < used ==> entries[i].tuple != t
      {
        if !entries[index].valid {
          continue;
        }
        if entries[index].tuple.mac == t.mac && entries[index].tuple.seqNo == t.seqNo
           && entries[index].tuple.frag == t.frag {
          PositionOf(entries[..], used, lastUpdate, index);
          return true;
        }
      }
      NotHeld(t);
      return false;
    }

    lemma NotHeld(t: Tuple)
      requires lastUpdate < entries.Length && used <= entries.Length
      requires forall i: nat :: i < used ==> entries[i].tuple != t
      ensures t !in Ordered(entries[..], used, lastUpdate)
    {
    }

    ghost predicate Unheard(mac: nat)
      requires used <= entries.Length
      reads this, entries
    {
      forall i: nat :: i < used ==> entries[i].tuple.mac != mac
    }

    /** RTMPUpdateTupleCache: the cache of the history with this frame appended. */
    method Update(t: Tuple)
      requires Valid()
      modifies this, entries
      ensures Valid() && hist == old(hist) + [t]
    {
      var index := 0;
      while index < entries.Length
        invariant Valid() && index <= used && hist == old(hist)
        invariant forall i: nat :: i < index ==> entries[i].tuple.mac != t.mac
      {
        if !entries[index].valid {
          AddEntry(t, index);
          return;
        } else if entries[index].tuple.mac == t.mac {
          ReplaceEntry(t, index);
          return;
        }
        index := index + 1;
      }
      EvictEntry(t);
    }

    method AddEntry(t: Tuple, index: nat)
      requires Valid() && index == used < entries.Length && Unheard(t.mac)
      modifies this, entries
      ensures Valid() && hist == old(hist) + [t]
    {
      NotFound(entries[..], used, lastUpdate, t.mac);
      AddOrdered(entries[..], used, lastUpdate, t);
      OneMore(hist, entries.Length, t);
      Store(index, t);
      lastUpdate := index;
      used := used + 1;
      hist := hist + [t];
    }

    method ReplaceEntry(t: Tuple, index: nat)
      requires Valid() && index < used && entries[index].tuple.mac == t.mac
      modifies this, entries
      ensures Valid() && hist == old(hist) + [t]
    {
      CacheAgrees(hist, entries.Length);
      PositionOf(entries[..], used, lastUpdate, index);
      FindIs(Ordered(entries[..], used, lastUpdate), Position(entries.Length, used, lastUpdate, index));
      ReplaceOrdered(entries[..], used, lastUpdate, index, t);
      OneMore(hist, entries.Length, t);
      Store(index, t);
      hist := hist + [t];
    }

    method EvictEntry(t: Tuple)
      requires Valid() && used == entries.Length && Unheard(t.mac)
      modifies this, entries
      ensures Valid() && hist == old(hist) + [t]
    {
      NotFound(entries[..], used, lastUpdate, t.mac);
      var next := lastUpdate + 1;
      if next >= entries.Length {
        next := 0;
      }
      EvictOrdered(entries[..], lastUpdate, next, t);
      OneMore(hist, entries.Length, t);
      lastUpdate := next;
      Store(next, t);
      hist := hist + [t];
    }

    method Store(index: nat, t: Tuple)
      requires index < entries.Length
      modifies entries
      ensures entries[..] == old(entries[..])[index := Entry(true, t)]
    {
      entries[index] := Entry(true, t);
    }
  }
}
