/** How many batches a burst under one key becomes when Adds run one at a time and the window timer
    is on time. Built from the same critical sections as every interleaving. */
module CoalesceRate {
  import opened Coalesce

  /** The coalescer restricted to one key; `since` is when its latest batch was opened. */
  datatype Clocked = Clocked(sh: Shared, since: int)

  /** The timer armed at `since` has expired by `t`, so the callback ran before the arrival. */
  function Expire(c: Clocked, k: Key, window: int, t: int): Shared
    requires c.sh.WellFormed()
  {
    if k in c.sh.reg && c.since + window <= t then TimerSection(c.sh, c.sh.reg[k]) else c.sh
  }

  function Arrive(cap: nat, window: int, k: Key, c: Clocked, t: int, item: Item): (c': Clocked)
    requires c.sh.WellFormed()
    ensures c'.sh.WellFormed()
  {
    var sh := Expire(c, k, window, t);
    Clocked(AddAlone(sh, cap, k, item).0, if k in sh.reg then c.since else t)
  }

  function Timeline(cap: nat, window: int, k: Key, arrivals: seq<(int, Item)>): (c: Clocked)
    ensures c.sh.WellFormed()
  {
    if arrivals == [] then Clocked(Shared([], map[]), 0)
    else
      var last := |arrivals| - 1;
      Arrive(cap, window, k, Timeline(cap, window, k, arrivals[..last]), arrivals[last].0, arrivals[last].1)
  }

  ghost predicate InOrder(arrivals: seq<(int, Item)>) {
    forall i, j :: 0 <= i <= j < |arrivals| ==> arrivals[i].0 <= arrivals[j].0
  }

  /** What AddAlone does to the counts. */
  lemma AloneCounts(sh: Shared, cap: nat, k: Key, item: Item)
    requires Below(sh, cap) && cap >= 1
    ensures var sh', hit := AddAlone(sh, cap, k, item).0, |Open(sh, k)| + 1 == cap;
            && Below(sh', cap) && (k in sh'.reg <==> !hit)
            && |sh'.batches| == |sh.batches| + (if k in sh.reg then 0 else 1)
            && |Open(sh', k)| == if hit then 0 else |Open(sh, k)| + 1
  {
    Joined(sh, k, item);
    AloneStaysBelow(sh, cap, k, item);
  }

  /** `n` arrivals so far: `full` batches were closed by the cap and `timed` by the timer; a timed
      batch pushes the next opening at least one window later. */
  ghost predicate Books(c: Clocked, cap: nat, window: int, k: Key, n: nat, start: int, full: nat, timed: nat) {
    && Below(c.sh, cap)
    && |c.sh.batches| == full + timed + (if k in c.sh.reg then 1 else 0)
    && cap * full + timed + |Open(c.sh, k)| <= n <= cap * (full + timed) + |Open(c.sh, k)|
    && start + window * timed <= c.since
  }

  lemma BooksArrive(c: Clocked, cap: nat, window: int, k: Key, n: nat, start: int, full: nat, timed: nat, t: int, item: Item)
      returns (full': nat, timed': nat)
    requires cap >= 1 && window >= 1 && Books(c, cap, window, k, n, start, full, timed) && c.since <= t
    ensures var c' := Arrive(cap, window, k, c, t, item);
            Books(c', cap, window, k, n + 1, start, full', timed') && c'.since <= t
  {
    var sh := Expire(c, k, window, t);
    timed' := if k in c.sh.reg && c.since + window <= t then timed + 1 else timed;
    assert window * (timed + 1) == window * timed + window;
    assert cap * (full + timed + 1) == cap * (full + timed) + cap;
    assert Books(Clocked(sh, if k in sh.reg then c.since else t), cap, window, k, n, start, full, timed');
    full' := if |Open(sh, k)| + 1 == cap then full + 1 else full;
    AloneCounts(sh, cap, k, item);
    assert cap * (full + 1) == cap * full + cap;
    assert cap * (full + timed' + 1) == cap * (full + timed') + cap;
  }

  lemma {:induction false} Account(cap: nat, window: int, k: Key, arrivals: seq<(int, Item)>) returns (full: nat, timed: nat)
    requires cap >= 1 && window >= 1 && arrivals != [] && InOrder(arrivals)
    ensures var c := Timeline(cap, window, k, arrivals);
            && Books(c, cap, window, k, |arrivals|, arrivals[0].0, full, timed)
            && c.since <= arrivals[|arrivals| - 1].0
  {
    var last := |arrivals| - 1;
    var t, item := arrivals[last].0, arrivals[last].1;
    if last == 0 {
      AloneCounts(Shared([], map[]), cap, k, item);
      assert arrivals[..0] == [];
      full, timed := if cap == 1 then 1 else 0, 0;
    } else {
      full, timed := Account(cap, window, k, arrivals[..last]);
      assert arrivals[last - 1].0 <= t;
      full, timed := BooksArrive(Timeline(cap, window, k, arrivals[..last]), cap, window, k, last, arrivals[0].0, full, timed, t, item);
    }
  }

  /** n events spread over `span` make at most n/cap + span/window + 1 batches, and no fewer than
      are needed to hold them. */
  lemma BatchesForBurst(cap: nat, window: int, k: Key, arrivals: seq<(int, Item)>)
    requires cap >= 1 && window >= 1 && arrivals != [] && InOrder(arrivals)
    ensures var n, span := |arrivals|, arrivals[|arrivals| - 1].0 - arrivals[0].0;
            var batches := |Timeline(cap, window, k, arrivals).sh.batches|;
            batches <= n / cap + span / window + 1 && n <= cap * batches
  {
    var full, timed := Account(cap, window, k, arrivals);
    var c := Timeline(cap, window, k, arrivals);
    var n, span := |arrivals|, arrivals[|arrivals| - 1].0 - arrivals[0].0;
    AtMostQuotient(n, cap, full);
    AtMostQuotient(span, window, timed);
    assert cap * (full + timed + 1) == cap * (full + timed) + cap;
  }

  function ItemsFrom(arrivals: seq<(int, Item)>, from: nat): seq<Item>
    requires from <= |arrivals|
  {
    seq(|arrivals| - from, i requires 0 <= i < |arrivals| - from => arrivals[from + i].1)
  }

  /** The items `open` are exactly the latest of `arrivals`, from the one at `since` on, all within less
      than one window. */
  ghost predicate Within(open: seq<Item>, since: int, window: int, arrivals: seq<(int, Item)>) {
    var n := |arrivals|;
    && 0 < |open| <= n && open == ItemsFrom(arrivals, n - |open|)
    && arrivals[n - |open|].0 == since && arrivals[n - 1].0 < since + window
  }

  lemma WithinPush(open: seq<Item>, since: int, window: int, arrivals: seq<(int, Item)>, t: int, item: Item)
    requires window >= 1
    ensures Within(open, since, window, arrivals) && t < since + window ==>
              Within(open + [item], since, window, arrivals + [(t, item)])
    ensures Within([item], t, window, arrivals + [(t, item)])
  {
    var all := arrivals + [(t, item)];
    if Within(open, since, window, arrivals) {
      var first := |arrivals| - |open|;
      assert ItemsFrom(all, first) == ItemsFrom(arrivals, first) + [item];
    }
    assert ItemsFrom(all, |arrivals|) == [item];
  }

  /** What an arrival does to the open batch: it joins one whose window has not passed, else it opens
      one; it is closed at once if it is full. */
  lemma ArriveEffect(cap: nat, window: int, k: Key, c: Clocked, t: int, item: Item)
    requires cap >= 1 && Below(c.sh, cap)
    ensures var c', joins := Arrive(cap, window, k, c, t, item), k in c.sh.reg && t < c.since + window;
            && Below(c'.sh, cap)
            && (k in c'.sh.reg ==>
                  && Open(c'.sh, k) == (if joins then Open(c.sh, k) else []) + [item]
                  && c'.since == if joins then c.since else t)
  {
    var sh := Expire(c, k, window, t);
    assert Below(sh, cap);
    AloneCounts(sh, cap, k, item);
    Joined(sh, k, item);
  }

  /** A window is never longer than it should be: the open batch holds exactly the latest arrivals since
      it was opened by the first of them, all within less than one window. */
  lemma {:induction false} OpenWithinWindow(cap: nat, window: int, k: Key, arrivals: seq<(int, Item)>)
    requires cap >= 1 && window >= 1
    ensures var c := Timeline(cap, window, k, arrivals);
            Below(c.sh, cap) && (k in c.sh.reg ==> Within(Open(c.sh, k), c.since, window, arrivals))
  {
    hide Arrive;
    hide Below;
    hide Within;
    if arrivals != [] {
      var last := |arrivals| - 1;
      var init, t, item := arrivals[..last], arrivals[last].0, arrivals[last].1;
      var c := Timeline(cap, window, k, init);
      OpenWithinWindow(cap, window, k, init);
      ArriveEffect(cap, window, k, c, t, item);
      assert arrivals == init + [(t, item)];
      WithinPush(Open(c.sh, k), c.since, window, init, t, item);
      assert [] + [item] == [item];
    } else {
      EmptyBelow(cap);
    }
  }

  lemma EmptyBelow(cap: nat)
    ensures Below(Shared([], map[]), cap)
  {
  }

  lemma BeyondQuotient(a: int, d: int, q: int)
    requires d >= 1 && q >= a / d + 1
    ensures d * q > a
  {
    assert d * q >= d * (a / d + 1);
  }

  lemma AtMostQuotient(a: int, d: int, q: int)
    requires d >= 1 && d * q <= a
    ensures q <= a / d
  {
    if q >= a / d + 1 {
      BeyondQuotient(a, d, q);
    }
  }
}
