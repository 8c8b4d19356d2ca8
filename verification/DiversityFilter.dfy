/** The IP diversity filter of the routing table: how many peers each IP group has in the table
    and in each of its buckets, which are named by a common prefix length (cpl). */
module DiversityFilter {
  import opened Base

  /** Counts of groups; a group that is not stored counts zero. */
  type Tally = map<Group, int>

  function CountOf(t: Tally, g: Group): int {
    if g in t then t[g] else 0
  }

  function Plus(t: Tally, g: Group): Tally {
    t[g := CountOf(t, g) + 1]
  }

  /** One less, and no entry for a group without peers. */
  function Minus(t: Tally, g: Group): Tally {
    if CountOf(t, g) == 1 then t - {g} else t[g := CountOf(t, g) - 1]
  }

  datatype Counts = Counts(table: Tally, cpls: map<int, Tally>)

  function InCpl(s: Counts, cpl: int, g: Group): int {
    if cpl in s.cpls then CountOf(s.cpls[cpl], g) else 0
  }

  function Incremented(s: Counts, cpl: int, g: Group): Counts {
    Counts(Plus(s.table, g), s.cpls[cpl := Plus(if cpl in s.cpls then s.cpls[cpl] else map[], g)])
  }

  function Decremented(s: Counts, cpl: int, g: Group): Counts
    requires cpl in s.cpls
  {
    var rest := Minus(s.cpls[cpl], g);
    Counts(Minus(s.table, g), if rest == map[] then s.cpls - {cpl} else s.cpls[cpl := rest])
  }

  datatype Limits = Limits(perCpl: int, forTable: int)

  predicate Allows(l: Limits, s: Counts, cpl: int, g: Group) {
    CountOf(s.table, g) < l.forTable && (cpl !in s.cpls || CountOf(s.cpls[cpl], g) < l.perCpl)
  }

  // ---------- Runs of the filter ----------

  datatype Event = Increment(cpl: int, g: Group) | Decrement(cpl: int, g: Group)

  /** Each increment follows an allowing answer and each decrement matches an increment. */
  ghost predicate Step(l: Limits, s: Counts, e: Event, t: Counts) {
    match e
    case Increment(cpl, g) => Allows(l, s, cpl, g) && t == Incremented(s, cpl, g)
    case Decrement(cpl, g) => InCpl(s, cpl, g) > 0 && t == Decremented(s, cpl, g)
  }

  ghost predicate IsRun(l: Limits, states: seq<Counts>, events: seq<Event>) {
    && |states| == |events| + 1
    && states[0] == Counts(map[], map[])
    && forall i | 0 <= i < |events| :: Step(l, states[i], events[i], states[i + 1])
  }

  /** The peers of a group in all buckets together. */
  ghost function Total(cpls: map<int, Tally>, g: Group): int
    decreases |cpls|
  {
    if c :| c in cpls then CountOf(cpls[c], g) + Total(cpls - {c}, g)
    else 0
  }

  /** The total does not depend on the order of summation. */
  lemma {:induction false} TotalSplits(cpls: map<int, Tally>, c: int, g: Group)
    requires c in cpls
    ensures Total(cpls, g) == CountOf(cpls[c], g) + Total(cpls - {c}, g)
    decreases |cpls|
  {
    var d :| d in cpls.Keys && Total(cpls, g) == CountOf(cpls[d], g) + Total(cpls - {d}, g);
    if d != c {
      TotalSplits(cpls - {d}, c, g);
      TotalSplits(cpls - {c}, d, g);
      assert cpls - {d} - {c} == cpls - {c} - {d};
    }
  }

  lemma TotalUpdated(cpls: map<int, Tally>, c: int, tally: Tally, g: Group)
    ensures Total(cpls[c := tally], g) ==
            Total(cpls, g) - (if c in cpls then CountOf(cpls[c], g) else 0) + CountOf(tally, g)
  {
    TotalSplits(cpls[c := tally], c, g);
    assert cpls[c := tally] - {c} == cpls - {c};
    if c in cpls {
      TotalSplits(cpls, c, g);
    } else {
      assert cpls - {c} == cpls;
    }
  }

  ghost predicate Positive(t: Tally) {
    forall g | g in t :: t[g] > 0
  }

  /** Stored counts are positive, no bucket is stored empty, and the table counts the peers of
      all buckets. */
  ghost predicate Consistent(s: Counts) {
    && Positive(s.table)
    && (forall c | c in s.cpls :: Positive(s.cpls[c]) && s.cpls[c] != map[])
    && forall g :: CountOf(s.table, g) == Total(s.cpls, g)
  }

  lemma {:induction false} TotalNonnegative(cpls: map<int, Tally>, g: Group)
    requires forall c | c in cpls :: Positive(cpls[c])
    ensures Total(cpls, g) >= 0
    decreases |cpls|
  {
    if c :| c in cpls {
      TotalSplits(cpls, c, g);
      TotalNonnegative(cpls - {c}, g);
    }
  }

  lemma IncrementKeepsConsistent(s: Counts, cpl: int, g: Group)
    requires Consistent(s)
    ensures Consistent(Incremented(s, cpl, g))
  {
    var t := Incremented(s, cpl, g);
    forall h
      ensures CountOf(t.table, h) == Total(t.cpls, h)
    {
      TotalUpdated(s.cpls, cpl, t.cpls[cpl], h);
    }
  }

  lemma DecrementKeepsConsistent(s: Counts, cpl: int, g: Group)
    requires Consistent(s) && InCpl(s, cpl, g) > 0
    ensures Consistent(Decremented(s, cpl, g))
  {
    var t := Decremented(s, cpl, g);
    var rest := Minus(s.cpls[cpl], g);
    forall h
      ensures CountOf(t.table, h) == Total(t.cpls, h)
    {
      TotalUpdated(s.cpls, cpl, rest, h);
      if rest == map[] {
        TotalSplits(s.cpls, cpl, h);
      }
    }
    TotalSplits(s.cpls, cpl, g);
    TotalNonnegative(s.cpls - {cpl}, g);
  }

  ghost predicate WithinLimits(l: Limits, s: Counts) {
    && (forall g | g in s.table :: s.table[g] <= l.forTable)
    && forall c, g | c in s.cpls && g in s.cpls[c] :: s.cpls[c][g] <= l.perCpl
  }

  /** In every state of a run the counts agree; and both limits hold in it as long as the one
      for buckets admits any peer at all. */
  lemma {:induction false} RunIsConsistent(l: Limits, states: seq<Counts>, events: seq<Event>, i: nat)
    requires IsRun(l, states, events) && i < |states|
    ensures Consistent(states[i])
    ensures l.perCpl > 0 ==> WithinLimits(l, states[i])
  {
    if i > 0 {
      RunIsConsistent(l, states, events, i - 1);
      var s, e := states[i - 1], events[i - 1];
      assert Step(l, s, e, states[i]);
      if e.Increment? {
        IncrementKeepsConsistent(s, e.cpl, e.g);
      } else {
        DecrementKeepsConsistent(s, e.cpl, e.g);
      }
    }
  }

  /** Both limits hold throughout every run exactly if the limit for buckets is positive or the one
      for the table admits nobody: an empty bucket is never checked against its limit. */
  lemma LimitsHoldIff(l: Limits)
    ensures (forall states: seq<Counts>, events: seq<Event>, i: nat |
               IsRun(l, states, events) && i < |states| :: WithinLimits(l, states[i]))
            <==> l.perCpl > 0 || l.forTable <= 0
  {
    if l.perCpl > 0 || l.forTable <= 0 {
      forall states: seq<Counts>, events: seq<Event>, i: nat | IsRun(l, states, events) && i < |states|
        ensures WithinLimits(l, states[i])
      {
        if l.perCpl > 0 {
          RunIsConsistent(l, states, events, i);
        } else if i > 0 {
          ClosedTableAdmitsNobody(l, events[0], states[1]);
        }
      }
    } else {
      var g: Group := "";
      var start := Counts(map[], map[]);
      var states, events := [start, Incremented(start, 0, g)], [Increment(0, g)];
      assert IsRun(l, states, events);
      assert states[1].cpls[0][g] == 1;
      assert !WithinLimits(l, states[1]);
    }
  }

  lemma ClosedTableAdmitsNobody(l: Limits, e: Event, t: Counts)
    requires l.forTable <= 0
    ensures !Step(l, Counts(map[], map[]), e, t)
  {
  }

  /** How many more increments than decrements a run had for a bucket and a group. */
  function Balance(events: seq<Event>, cpl: int, g: Group): int {
    if events == [] then 0
    else
      var e := events[|events| - 1];
      Balance(events[..|events| - 1], cpl, g) +
      (if e == Increment(cpl, g) then 1 else if e == Decrement(cpl, g) then -1 else 0)
  }

  /** No count is ever lost: each is what was incremented less what was decremented. */
  lemma {:induction false} CountsBalance(l: Limits, states: seq<Counts>, events: seq<Event>, i: nat, cpl: int, g: Group)
    requires IsRun(l, states, events) && i < |states|
    ensures InCpl(states[i], cpl, g) == Balance(events[..i], cpl, g)
  {
    if i > 0 {
      CountsBalance(l, states, events, i - 1, cpl, g);
      var s, e := states[i - 1], events[i - 1];
      assert Step(l, s, e, states[i]);
      assert events[..i][..i - 1] == events[..i - 1];
      StepBalance(l, s, e, states[i], cpl, g);
    }
  }

  lemma StepBalance(l: Limits, s: Counts, e: Event, t: Counts, cpl: int, g: Group)
    requires Step(l, s, e, t)
    ensures InCpl(t, cpl, g) ==
            InCpl(s, cpl, g) + (if e == Increment(cpl, g) then 1 else if e == Decrement(cpl, g) then -1 else 0)
  {
    if e.Decrement? {
      var rest := Minus(s.cpls[e.cpl], e.g);
      assert CountOf(rest, e.g) == CountOf(s.cpls[e.cpl], e.g) - 1;
      assert g != e.g ==> CountOf(rest, g) == CountOf(s.cpls[e.cpl], g);
      assert rest == map[] ==> CountOf(rest, g) == 0;
    }
  }

  /** The same for a group in all buckets together. */
  function TableBalance(events: seq<Event>, g: Group): int {
    if events == [] then 0
    else
      var e := events[|events| - 1];
      TableBalance(events[..|events| - 1], g) + (if e.g != g then 0 else if e.Increment? then 1 else -1)
  }

  lemma {:induction false} TableBalances(l: Limits, states: seq<Counts>, events: seq<Event>, i: nat, g: Group)
    requires IsRun(l, states, events) && i < |states|
    ensures CountOf(states[i].table, g) == TableBalance(events[..i], g)
  {
    if i > 0 {
      TableBalances(l, states, events, i - 1, g);
      assert Step(l, states[i - 1], events[i - 1], states[i]);
      assert events[..i][..i - 1] == events[..i - 1];
    }
  }

  /** Nobody counted in is left in the bucket. */
  predicate EmptyAfter(events: seq<Event>, cpl: int) {
    forall e | e in events && e.cpl == cpl :: Balance(events, cpl, e.g) == 0
  }

  lemma {:induction false} NeverCounted(events: seq<Event>, cpl: int, g: Group)
    requires forall e | e in events :: e.cpl != cpl || e.g != g
    ensures Balance(events, cpl, g) == 0
  {
    if events != [] {
      NeverCounted(events[..|events| - 1], cpl, g);
    }
  }

  lemma BucketIsEmpty(l: Limits, states: seq<Counts>, events: seq<Event>, i: nat, cpl: int)
    requires IsRun(l, states, events) && i < |states|
    ensures cpl !in states[i].cpls <==> EmptyAfter(events[..i], cpl)
  {
    RunIsConsistent(l, states, events, i);
    forall g
      ensures InCpl(states[i], cpl, g) == Balance(events[..i], cpl, g)
    {
      CountsBalance(l, states, events, i, cpl, g);
    }
    if cpl in states[i].cpls {
      var g :| g in states[i].cpls[cpl];
      if forall e | e in events[..i] :: e.cpl != cpl || e.g != g {
        NeverCounted(events[..i], cpl, g);
      }
    }
  }

  /** What the filter answers, in terms of what was counted in and out: yes exactly if the group has room in
      the table, and the bucket is empty or the group has room in it. */
  lemma AllowsIff(l: Limits, states: seq<Counts>, events: seq<Event>, i: nat, cpl: int, g: Group)
    requires IsRun(l, states, events) && i < |states|
    ensures Allows(l, states[i], cpl, g) <==>
            && TableBalance(events[..i], g) < l.forTable
            && (EmptyAfter(events[..i], cpl) || Balance(events[..i], cpl, g) < l.perCpl)
  {
    TableBalances(l, states, events, i, g);
    CountsBalance(l, states, events, i, cpl, g);
    BucketIsEmpty(l, states, events, i, cpl);
  }

  // ---------- The filter ----------

  class PeerIPGroupFilter {
    const maxPerCpl: int
    const maxForTable: int
    var cplIpGroupCount: map<int, Tally>
    var tableIpGroupCount: Tally

    ghost function View(): Counts
      reads this
    {
      Counts(tableIpGroupCount, cplIpGroupCount)
    }

    constructor (maxPerCpl: int, maxForTable: int)
      ensures View() == Counts(map[], map[])
      ensures this.maxPerCpl == maxPerCpl && this.maxForTable == maxForTable
    {
      this.maxPerCpl, this.maxForTable := maxPerCpl, maxForTable;
      cplIpGroupCount, tableIpGroupCount := map[], map[];
    }

    method Allow(cpl: int, g: Group) returns (allow: bool)
      ensures allow <==> Allows(Limits(maxPerCpl, maxForTable), View(), cpl, g)
    {
      if CountOf(tableIpGroupCount, g) >= maxForTable {
        return false;
      }
      return cpl !in cplIpGroupCount || CountOf(cplIpGroupCount[cpl], g) < maxPerCpl;
    }

    method Increment(cpl: int, g: Group)
      requires Consistent(View())
      modifies this
      ensures View() == Incremented(old(View()), cpl, g) && Consistent(View())
      ensures old(Allows(Limits(maxPerCpl, maxForTable), View(), cpl, g)) ==>
                Step(Limits(maxPerCpl, maxForTable), old(View()), Event.Increment(cpl, g), View())
    {
      IncrementKeepsConsistent(View(), cpl, g);
      tableIpGroupCount := OneMore(tableIpGroupCount, g);
      if cpl !in cplIpGroupCount {
        cplIpGroupCount := cplIpGroupCount[cpl := map[]];
      }
      var c := OneMore(cplIpGroupCount[cpl], g);
      cplIpGroupCount := cplIpGroupCount[cpl := c];
      assert cplIpGroupCount == old(cplIpGroupCount)[cpl := c];
    }

    /** Counts a peer of a group in. */
    static method OneMore(t: Tally, g: Group) returns (u: Tally)
      ensures u == Plus(t, g)
    {
      u := t[g := CountOf(t, g) + 1];
    }

    method Decrement(cpl: int, g: Group)
      requires Consistent(View()) && InCpl(View(), cpl, g) > 0
      modifies this
      ensures View() == Decremented(old(View()), cpl, g) && Consistent(View())
      ensures Step(Limits(maxPerCpl, maxForTable), old(View()), Event.Decrement(cpl, g), View())
    {
      DecrementKeepsConsistent(View(), cpl, g);
      tableIpGroupCount := OneLess(tableIpGroupCount, g);
      var c := OneLess(cplIpGroupCount[cpl], g);
      cplIpGroupCount := cplIpGroupCount[cpl := c];
      if |c| == 0 {
        cplIpGroupCount := cplIpGroupCount - {cpl};
        assert cplIpGroupCount == old(cplIpGroupCount) - {cpl};
      }
    }

    /** Counts a peer of a group out, and deletes a count that reaches zero. */
    static method OneLess(t: Tally, g: Group) returns (u: Tally)
      ensures u == Minus(t, g)
    {
      u := t[g := CountOf(t, g) - 1];
      if u[g] == 0 {
        u := u - {g};
      }
    }
  }
}
