/**
 Bearer selection with hysteresis: leave an active bearer that stays unhealthy, return to
 a more preferred one that stays healthy. The monitor keeps two timestamps per bearer;
 the contracts speak of the whole history of observations instead.
 */
module LinkMonitor {
  import opened WireTypes

  /** Lower priority numbers win. */
  datatype Bearer = Bearer(name: string, priority: int, rttBudgetMs: real)

  datatype Observation = Observation(now: real, connected: bool, rttMs: Option<real>, lossPct: real)

  predicate Good(b: Bearer, lossLimit: real, o: Observation) {
    o.connected && o.rttMs.Some? && o.rttMs.value < b.rttBudgetMs && o.lossPct < lossLimit
  }

  lemma {:induction false} GoodMeans(b: Bearer, lossLimit: real, o: Observation)
    ensures !Good(b, lossLimit, o)
            <==> !o.connected || o.rttMs.None? || o.rttMs.value >= b.rttBudgetMs || o.lossPct >= lossLimit
  {
  }

  /** An observation no worse in any field than a healthy one is healthy, and a budget at least as large keeps it so. */
  lemma {:induction false} NoWorseIsHealthy(b: Bearer, c: Bearer, lossLimit: real, o: Observation, p: Observation)
    requires Good(b, lossLimit, o) && b.rttBudgetMs <= c.rttBudgetMs
    requires o.connected ==> p.connected
    requires o.rttMs.Some? ==> p.rttMs.Some? && p.rttMs.value <= o.rttMs.value
    requires p.lossPct <= o.lossPct
    ensures Good(c, lossLimit, p)
  {
  }

  // ---------------------------------------------------------------------------
  // History
  // ---------------------------------------------------------------------------

  /** The verdicts of one bearer's observations, oldest first. */
  datatype Verdict = Verdict(now: real, good: bool)

  /** Where the current unbroken run of equal verdicts began. */
  function RunStart(h: seq<Verdict>): (r: nat)
    requires h != []
    ensures r < |h|
    ensures forall i :: r <= i < |h| ==> h[i].good == h[|h| - 1].good
    ensures r > 0 ==> h[r - 1].good != h[|h| - 1].good
    decreases |h|
  {
    var n := |h| - 1;
    if n > 0 && h[n - 1].good == h[n].good then RunStart(h[..n]) else n
  }

  predicate HealthyNow(h: seq<Verdict>) {
    h != [] && h[|h| - 1].good
  }

  function HealthyFor(h: seq<Verdict>, now: real): real {
    if HealthyNow(h) then now - h[RunStart(h)].now else 0.0
  }

  function UnhealthyFor(h: seq<Verdict>, now: real): real {
    if h != [] && !HealthyNow(h) then now - h[RunStart(h)].now else 0.0
  }

  predicate AllFrom(h: seq<Verdict>, r: nat, good: bool) {
    forall i :: r <= i < |h| ==> h[i].good == good
  }

  /** For at least `span`, and since some observation, every observation had this verdict. */
  ghost predicate Throughout(h: seq<Verdict>, now: real, span: real, good: bool) {
    exists r: nat :: r < |h| && now - h[r].now >= span && AllFrom(h, r, good)
  }

  lemma {:induction false} RunIsMaximal(h: seq<Verdict>, r: nat, good: bool)
    requires r < |h| && AllFrom(h, r, good)
    ensures good == h[|h| - 1].good && RunStart(h) <= r
  {
    var s := RunStart(h);
    assert s > 0 ==> h[s - 1].good != h[|h| - 1].good;
    assert h[|h| - 1].good == good;
  }

  /** With positive spans, "healthy for" is exactly "nothing but healthy observations throughout". */
  lemma {:induction false} ForMeansThroughout(h: seq<Verdict>, now: real, span: real)
    requires span > 0.0 && forall i, j :: 0 <= i < j < |h| ==> h[i].now <= h[j].now
    ensures HealthyFor(h, now) >= span <==> Throughout(h, now, span, true)
    ensures UnhealthyFor(h, now) >= span <==> Throughout(h, now, span, false)
  {
    if h != [] {
      var s := RunStart(h);
      assert AllFrom(h, s, h[|h| - 1].good);
      hide RunStart, AllFrom;
      forall r: nat, good | r < |h| && AllFrom(h, r, good)
        ensures good == h[|h| - 1].good && now - h[r].now <= now - h[s].now
      {
        RunIsMaximal(h, r, good);
      }
    }
  }

  // ---------------------------------------------------------------------------
  // Observations behind the verdicts
  // ---------------------------------------------------------------------------

  /** The verdicts are those of the observations, one for one. */
  ghost predicate Judges(b: Bearer, lossLimit: real, seen: seq<Observation>, h: seq<Verdict>) {
    |h| == |seen| && forall k :: 0 <= k < |seen| ==> h[k] == Verdict(seen[k].now, Good(b, lossLimit, seen[k]))
  }

  /** From observation `r` on the link was up, measured, under its budget and under the loss limit. */
  ghost predicate Serving(seen: seq<Observation>, r: nat, budget: real, lossLimit: real) {
    forall k :: r <= k < |seen| ==>
      seen[k].connected && seen[k].rttMs.Some? && seen[k].rttMs.value < budget && seen[k].lossPct < lossLimit
  }

  /** From observation `r` on each one found the link down, unmeasured, or at or over a limit. */
  ghost predicate Failing(seen: seq<Observation>, r: nat, budget: real, lossLimit: real) {
    forall k :: r <= k < |seen| ==>
      !seen[k].connected || seen[k].rttMs.None? || seen[k].rttMs.value >= budget || seen[k].lossPct >= lossLimit
  }

  ghost predicate ServingFor(seen: seq<Observation>, budget: real, lossLimit: real, now: real, span: real) {
    exists r: nat :: r < |seen| && now - seen[r].now >= span && Serving(seen, r, budget, lossLimit)
  }

  ghost predicate FailingFor(seen: seq<Observation>, budget: real, lossLimit: real, now: real, span: real) {
    exists r: nat :: r < |seen| && now - seen[r].now >= span && Failing(seen, r, budget, lossLimit)
  }

  lemma {:induction false} HealthyMeansServing(b: Bearer, lossLimit: real, seen: seq<Observation>,
                                               h: seq<Verdict>, now: real)
    requires Judges(b, lossLimit, seen, h) && HealthyNow(h)
    ensures Serving(seen, |seen| - 1, b.rttBudgetMs, lossLimit)
    ensures forall span :: span <= HealthyFor(h, now) ==> ServingFor(seen, b.rttBudgetMs, lossLimit, now, span)
  {
    var r := RunStart(h);
    assert AllFrom(h, r, true);
    hide RunStart;
    assert Serving(seen, r, b.rttBudgetMs, lossLimit);
  }

  lemma {:induction false} UnhealthyMeansFailing(b: Bearer, lossLimit: real, seen: seq<Observation>,
                                                 h: seq<Verdict>, now: real)
    requires Judges(b, lossLimit, seen, h) && h != [] && !HealthyNow(h)
    ensures forall span :: span <= UnhealthyFor(h, now) ==> FailingFor(seen, b.rttBudgetMs, lossLimit, now, span)
  {
    var r := RunStart(h);
    assert AllFrom(h, r, false);
    hide RunStart;
    assert Failing(seen, r, b.rttBudgetMs, lossLimit);
  }

  // ---------------------------------------------------------------------------
  // The timestamps
  // ---------------------------------------------------------------------------

  datatype State = State(healthy: bool, healthySince: Option<real>, unhealthySince: Option<real>)

  const UNSEEN := State(false, None, None)

  /** The stored times are the start of the current run of the history. */
  predicate Remembers(st: State, h: seq<Verdict>) {
    if h == [] then st == UNSEEN
    else
      var since := Some(h[RunStart(h)].now);
      if HealthyNow(h) then st == State(true, since, None) else st == State(false, None, since)
  }

  ghost predicate AllRemembered(states: map<string, State>, hist: map<string, seq<Verdict>>) {
    states.Keys == hist.Keys && forall name :: name in states ==> Remembers(states[name], hist[name])
  }

  lemma {:induction false} OneMoreRemembered(states: map<string, State>, hist: map<string, seq<Verdict>>,
                                             name: string, st: State, h: seq<Verdict>)
    requires AllRemembered(states, hist) && name in states && Remembers(st, h)
    ensures AllRemembered(states[name := st], hist[name := h])
    ensures states[name := st].Keys == states.Keys
  {
    hide Remembers;
  }

  lemma {:induction false} RunStartExtends(h: seq<Verdict>, v: Verdict)
    ensures RunStart(h + [v]) == if h != [] && h[|h| - 1].good == v.good then RunStart(h) else |h|
  {
    assert (h + [v])[..|h|] == h;
  }

  lemma {:induction false} RunStartStays(h: seq<Verdict>, v: Verdict)
    requires h != []
    ensures (h + [v])[RunStart(h)] == h[RunStart(h)]
  {
  }

  /** The three cases of an observation keep the stored times at the start of the current run. */
  lemma {:induction false} StampsKept(st: State, h: seq<Verdict>, v: Verdict, st': State)
    requires Remembers(st, h)
    requires st' == if v.good && !st.healthy then State(true, Some(v.now), None)
                    else if !v.good && st.healthy then State(false, None, Some(v.now))
                    else if !v.good && st.unhealthySince.None? then State(false, st.healthySince, Some(v.now))
                    else State(v.good, st.healthySince, st.unhealthySince)
    ensures Remembers(st', h + [v])
  {
    hide RunStart;
    RunStartExtends(h, v);
    if h != [] {
      RunStartStays(h, v);
    }
  }

  // ---------------------------------------------------------------------------
  // Choosing
  // ---------------------------------------------------------------------------

  predicate Ascending(order: seq<Bearer>) {
    forall i, j :: 0 <= i < j < |order| ==> order[i].priority <= order[j].priority
  }

  /** The bearers of one priority, in order. */
  function WithPriority(bs: seq<Bearer>, prio: int): seq<Bearer>
    decreases |bs|
  {
    if bs == [] then []
    else WithPriority(bs[..|bs| - 1], prio) + if bs[|bs| - 1].priority == prio then [bs[|bs| - 1]] else []
  }

  lemma {:induction false} WithPrioritySnoc(bs: seq<Bearer>, b: Bearer, prio: int)
    ensures WithPriority(bs + [b], prio) == WithPriority(bs, prio) + if b.priority == prio then [b] else []
  {
    assert (bs + [b])[..|bs|] == bs;
  }

  function Insert(b: Bearer, order: seq<Bearer>): (r: seq<Bearer>)
    requires Ascending(order)
    ensures Ascending(r) && multiset(r) == multiset(order) + multiset{b}
    decreases |order|
  {
    if order == [] || order[|order| - 1].priority <= b.priority then order + [b]
    else
      var n := |order| - 1;
      var front := Insert(b, order[..n]);
      InsertAscends(b, order, front);
      front + [order[n]]
  }

  lemma {:induction false} InsertAscends(b: Bearer, order: seq<Bearer>, front: seq<Bearer>)
    requires order != [] && Ascending(order) && b.priority < order[|order| - 1].priority
    requires Ascending(front) && multiset(front) == multiset(order[..|order| - 1]) + multiset{b}
    ensures Ascending(front + [order[|order| - 1]])
    ensures multiset(front + [order[|order| - 1]]) == multiset(order) + multiset{b}
  {
    var n := |order| - 1;
    assert order == order[..n] + [order[n]];
    forall i | 0 <= i < |front| ensures front[i].priority <= order[n].priority {
      assert front[i] in multiset(front);
      assert front[i] == b || front[i] in order[..n];
    }
  }

  /** Insertion goes behind the bearers of the same priority. */
  lemma {:induction false} InsertStable(b: Bearer, order: seq<Bearer>, prio: int)
    requires Ascending(order)
    ensures WithPriority(Insert(b, order), prio) == WithPriority(order, prio) + if b.priority == prio then [b] else []
    decreases |order|
  {
    hide WithPriority;
    if order == [] || order[|order| - 1].priority <= b.priority {
      WithPrioritySnoc(order, b, prio);
    } else {
      var n := |order| - 1;
      InsertStable(b, order[..n], prio);
      WithPrioritySnoc(order[..n], order[n], prio);
      WithPrioritySnoc(Insert(b, order[..n]), order[n], prio);
      assert order[..n] + [order[n]] == order;
      if order[n].priority == prio {
        assert WithPriority(order[..n], prio) + [] == WithPriority(order[..n], prio);
      }
    }
  }

  /** The bearers by priority. */
  function ByPriority(given: seq<Bearer>): (r: seq<Bearer>)
    ensures Ascending(r) && multiset(r) == multiset(given)
    decreases |given|
  {
    if given == [] then []
    else
      assert given == given[..|given| - 1] + [given[|given| - 1]];
      Insert(given[|given| - 1], ByPriority(given[..|given| - 1]))
  }

  /** Bearers of equal priority keep the order in which they were given. */
  lemma {:induction false} ByPriorityStable(given: seq<Bearer>, prio: int)
    ensures WithPriority(ByPriority(given), prio) == WithPriority(given, prio)
    decreases |given|
  {
    if given == [] {
    } else {
      var n := |given| - 1;
      ByPriorityStable(given[..n], prio);
      InsertStable(given[n], ByPriority(given[..n]), prio);
    }
  }

  lemma {:induction false} SameBearers(given: seq<Bearer>, b: Bearer)
    ensures b in ByPriority(given) <==> b in given
  {
    hide ByPriority;
    assert b in multiset(ByPriority(given)) <==> b in multiset(given);
  }

  /** The table by name: a name listed twice means its last entry. */
  function Table(given: seq<Bearer>): map<string, Bearer>
    decreases |given|
  {
    if given == [] then map[] else Table(given[..|given| - 1])[given[|given| - 1].name := given[|given| - 1]]
  }

  lemma {:induction false} TableIsLast(given: seq<Bearer>, name: string)
    ensures name in Table(given) <==> exists i: nat :: IsLast(given, name, i)
    ensures forall i: nat :: IsLast(given, name, i) ==> i < |given| && Table(given)[name] == given[i]
    decreases |given|
  {
    if given == [] {
    } else {
      hide IsLast;
      var n := |given| - 1;
      TableIsLast(given[..n], name);
      forall i: nat ensures IsLast(given, name, i)
                            <==> if given[n].name == name then i == n else IsLast(given[..n], name, i)
                    ensures IsLast(given[..n], name, i) ==> i < n && given[..n][i] == given[i] {
        IsLastStep(given, name, i);
      }
      assert given[n].name == name ==> IsLast(given, name, n);
      if given[n].name != name && name in Table(given[..n]) {
        var i: nat :| IsLast(given[..n], name, i);
        assert IsLast(given, name, i);
      }
    }
  }

  lemma {:induction false} IsLastStep(given: seq<Bearer>, name: string, i: nat)
    requires given != []
    ensures var n := |given| - 1;
            && (IsLast(given, name, i) <==> if given[n].name == name then i == n else IsLast(given[..n], name, i))
            && (IsLast(given[..n], name, i) ==> i < n && given[..n][i] == given[i])
  {
  }

  lemma {:induction false} ListedHasLast(given: seq<Bearer>, b: Bearer) returns (i: nat)
    requires b in given
    ensures IsLast(given, b.name, i)
    decreases |given|
  {
    i := |given| - 1;
    if given[i].name != b.name {
      assert given == given[..i] + [given[i]];
      i := ListedHasLast(given[..i], b);
    }
  }

  predicate IsLast(given: seq<Bearer>, name: string, i: nat) {
    i < |given| && given[i].name == name && forall j :: i < j < |given| ==> given[j].name != name
  }

  lemma {:induction false} AllListed(given: seq<Bearer>)
    ensures forall b :: b in ByPriority(given) ==> b.name in Table(given)
  {
    hide ByPriority, Table, IsLast;
    forall b | b in ByPriority(given) ensures b.name in Table(given) {
      SameBearers(given, b);
      var i := ListedHasLast(given, b);
      TableIsLast(given, b.name);
    }
  }

  type History = map<string, seq<Verdict>>

  function Of(hist: History, name: string): seq<Verdict> {
    if name in hist then hist[name] else []
  }

  predicate Eligible(hist: History, b: Bearer, exclude: Option<string>) {
    Some(b.name) != exclude && HealthyNow(Of(hist, b.name))
  }

  /** `c` is the first bearer in order that is healthy and not excluded, or there is none. */
  ghost predicate FirstHealthy(order: seq<Bearer>, hist: History, exclude: Option<string>, c: Option<string>) {
    if c.None? then forall i :: 0 <= i < |order| ==> !Eligible(hist, order[i], exclude)
    else exists i :: 0 <= i < |order| && order[i].name == c.value && Eligible(hist, order[i], exclude)
                     && forall j :: 0 <= j < i ==> !Eligible(hist, order[j], exclude)
  }

  /** A candidate whose name is empty counts as no candidate when attaching or switching away. */
  function Usable(c: Option<string>): Option<string> {
    if c == Some("") then None else c
  }

  predicate Outranks(hist: History, b: Bearer, prio: int, now: real, span: real) {
    b.priority < prio && HealthyFor(Of(hist, b.name), now) >= span
  }

  /** `c` is the first bearer in order that outranks the active one for long enough, or there is none. */
  ghost predicate FirstOutranking(order: seq<Bearer>, hist: History, prio: int, now: real, span: real,
                                  c: Option<string>) {
    if c.None? then forall i :: 0 <= i < |order| ==> !Outranks(hist, order[i], prio, now, span)
    else exists i :: 0 <= i < |order| && order[i].name == c.value && Outranks(hist, order[i], prio, now, span)
                     && forall j :: 0 <= j < i ==> !Outranks(hist, order[j], prio, now, span)
  }

  /** The policy preempts `act` with `to`. */
  ghost predicate Preempts(bearers: map<string, Bearer>, order: seq<Bearer>, hist: History, now: real, span: real,
                           act: string, to: string) {
    && act in bearers && HealthyNow(Of(hist, act))
    && FirstOutranking(order, hist, bearers[act].priority, now, span, Some(to))
  }

  type Sightings = map<string, seq<Observation>>

  ghost predicate AllJudged(bearers: map<string, Bearer>, lossLimit: real, seen: Sightings, hist: History) {
    bearers.Keys == seen.Keys == hist.Keys
    && forall name :: name in bearers ==> Judges(bearers[name], lossLimit, seen[name], hist[name])
  }

  lemma {:induction false} OneMoreJudged(bearers: map<string, Bearer>, lossLimit: real, seen: Sightings, hist: History,
                                         name: string, o: Observation)
    requires AllJudged(bearers, lossLimit, seen, hist) && name in bearers
    ensures AllJudged(bearers, lossLimit, seen[name := seen[name] + [o]],
                      hist[name := hist[name] + [Verdict(o.now, Good(bearers[name], lossLimit, o))]])
  {
    hide Good;
  }

  lemma {:induction false} Known(bearers: map<string, Bearer>, lossLimit: real, states: map<string, State>,
                                 seen: Sightings, hist: History, name: string)
    requires AllJudged(bearers, lossLimit, seen, hist) && AllRemembered(states, hist) && name in bearers
    ensures name in states && name in seen && name in hist && Remembers(states[name], hist[name])
  {
    hide Remembers, Judges;
  }

  lemma {:induction false} NoneObserved(bearers: map<string, Bearer>, lossLimit: real, states: map<string, State>,
                                        seen: Sightings, hist: History)
    requires bearers.Keys == states.Keys == seen.Keys == hist.Keys
    requires forall name :: name in bearers ==> states[name] == UNSEEN && seen[name] == [] && hist[name] == []
    ensures AllJudged(bearers, lossLimit, seen, hist) && AllRemembered(states, hist)
  {
    hide RunStart, Good;
  }

  /** At its last observation the link `name` served. */
  ghost predicate ServesNow(bearers: map<string, Bearer>, lossLimit: real, seen: Sightings, name: string) {
    && name in bearers && name in seen && seen[name] != []
    && Serving(seen[name], |seen[name]| - 1, bearers[name].rttBudgetMs, lossLimit)
  }

  lemma {:induction false} PickedServes(bearers: map<string, Bearer>, lossLimit: real, seen: Sightings, hist: History,
                                        order: seq<Bearer>, exclude: Option<string>, name: string)
    requires AllJudged(bearers, lossLimit, seen, hist) && FirstHealthy(order, hist, exclude, Some(name))
    ensures ServesNow(bearers, lossLimit, seen, name) && Some(name) != exclude
  {
    hide Good;
    var i :| 0 <= i < |order| && order[i].name == name && Eligible(hist, order[i], exclude);
    HealthyMeansServing(bearers[name], lossLimit, seen[name], hist[name], 0.0);
  }

  lemma {:induction false} PreemptingServes(bearers: map<string, Bearer>, lossLimit: real, seen: Sightings, hist: History,
                                            order: seq<Bearer>, prio: int, now: real, span: real, name: string)
    requires AllJudged(bearers, lossLimit, seen, hist) && FirstOutranking(order, hist, prio, now, span, Some(name))
    requires span > 0.0
    ensures ServesNow(bearers, lossLimit, seen, name) && name in bearers && name in seen
    ensures ServingFor(seen[name], bearers[name].rttBudgetMs, lossLimit, now, span)
  {
    hide Good, RunStart;
    var i :| 0 <= i < |order| && order[i].name == name && Outranks(hist, order[i], prio, now, span);
    HealthyMeansServing(bearers[name], lossLimit, seen[name], hist[name], now);
  }

  lemma {:induction false} LeftFails(bearers: map<string, Bearer>, lossLimit: real, seen: Sightings, hist: History,
                                     name: string, now: real, span: real)
    requires AllJudged(bearers, lossLimit, seen, hist) && name in bearers && !HealthyNow(Of(hist, name))
    requires UnhealthyFor(Of(hist, name), now) >= span > 0.0
    ensures name in seen && FailingFor(seen[name], bearers[name].rttBudgetMs, lossLimit, now, span)
  {
    hide Good, RunStart;
    assert Judges(bearers[name], lossLimit, seen[name], hist[name]);
    UnhealthyMeansFailing(bearers[name], lossLimit, seen[name], hist[name], now);
  }

  datatype Reason = Initial | NoHealthy | SwitchAway | NoAlternative | InsideGrace | Preempt | Steady

  datatype Decision =
    | Decision(active: Option<string>, switchTo: Option<string>, makeBeforeBreak: bool, reason: Reason)
    | UnknownBearer

  class Monitor {
    const bearers: map<string, Bearer>
    const order: seq<Bearer>
    const unhealthyS: real
    const preemptS: real
    const lossLimit: real
    var states: map<string, State>
    var active: Option<string>
    var switches: nat
    /** The observations fed so far, and the verdict on each. */
    ghost var seen: Sightings
    ghost var hist: History

    ghost predicate Valid()
      reads this
    {
      && Ascending(order)
      && (forall b :: b in order ==> b.name in bearers)
      && states.Keys == bearers.Keys && AllRemembered(states, hist)
      && AllJudged(bearers, lossLimit, seen, hist)
    }

    constructor (given: seq<Bearer>, unhealthyS: real, preemptS: real, lossLimit: real)
      requires given != []
      ensures Valid() && active == None && switches == 0
      ensures bearers == Table(given) && order == ByPriority(given)
      ensures this.unhealthyS == unhealthyS && this.preemptS == preemptS && this.lossLimit == lossLimit
      ensures forall name :: name in seen ==> seen[name] == []
    {
      hide RunStart;
      var named: map<string, Bearer> := map[];
      for i := 0 to |given|
        invariant named == Table(given[..i])
      {
        assert given[..i + 1][..i] == given[..i];
        named := named[given[i].name := given[i]];
      }
      assert given[..|given|] == given;
      bearers := named;
      order := ByPriority(given);
      this.unhealthyS, this.preemptS, this.lossLimit := unhealthyS, preemptS, lossLimit;
      states := map name | name in named :: UNSEEN;
      hist := map name | name in named :: [];
      seen := map name | name in named :: [];
      active, switches := None, 0;
      new;
      AllListed(given);
      NoneObserved(bearers, lossLimit, states, seen, hist);
      hide AllJudged, AllRemembered, Table, ByPriority;
    }

    /**
     Feed one observation; an unknown name is an error and changes nothing. The bearer is
     unhealthy from then on if the link is down, unmeasured, or at or over either limit.
     */
    method Update(name: string, o: Observation) returns (ok: bool)
      requires Valid()
      modifies this`states, this`seen, this`hist
      ensures Valid()
      ensures ok <==> name in bearers
      ensures ok ==> seen == old(seen)[name := old(seen)[name] + [o]]
      ensures ok ==> hist == old(hist)[name := old(hist)[name] + [Verdict(o.now, states[name].healthy)]]
      ensures ok ==>
                (states[name].healthy
                 <==> o.connected && o.rttMs.Some? && o.rttMs.value < bearers[name].rttBudgetMs && o.lossPct < lossLimit)
      ensures !ok ==> hist == old(hist) && seen == old(seen) && states == old(states)
    {
      hide RunStart, Good, AllJudged, AllRemembered, Remembers;
      if name !in bearers {
        return false;
      }
      Known(bearers, lossLimit, states, seen, hist, name);
      GoodMeans(bearers[name], lossLimit, o);
      var st := states[name];
      var healthy := Good(bearers[name], lossLimit, o);
      ghost var h, v := hist[name], Verdict(o.now, healthy);
      if healthy && !st.healthy {
        st := st.(healthySince := Some(o.now), unhealthySince := None);
      } else if !healthy && st.healthy {
        st := st.(unhealthySince := Some(o.now), healthySince := None);
      } else if !healthy && st.unhealthySince.None? {
        st := st.(unhealthySince := Some(o.now));
      }
      st := st.(healthy := healthy);
      StampsKept(states[name], h, v, st);
      OneMoreRemembered(states, hist, name, st, h + [v]);
      OneMoreJudged(bearers, lossLimit, seen, hist, name, o);
      states := states[name := st];
      hist := hist[name := h + [v]];
      seen := seen[name := seen[name] + [o]];
      return true;
    }

    method HealthySpan(name: string, now: real) returns (span: real)
      requires Valid() && name in states
      ensures span == HealthyFor(Of(hist, name), now)
    {
      var st := states[name];
      assert Remembers(st, hist[name]);
      if !st.healthy || st.healthySince.None? {
        return 0.0;
      }
      return now - st.healthySince.value;
    }

    method UnhealthySpan(name: string, now: real) returns (span: real)
      requires Valid() && name in states
      ensures span == UnhealthyFor(Of(hist, name), now)
    {
      var st := states[name];
      assert Remembers(st, hist[name]);
      if st.healthy || st.unhealthySince.None? {
        return 0.0;
      }
      return now - st.unhealthySince.value;
    }

    method PickHealthy(exclude: Option<string>) returns (c: Option<string>)
      requires Valid()
      ensures FirstHealthy(order, hist, exclude, c)
    {
      hide AllJudged, RunStart;
      for i := 0 to |order|
        invariant forall j :: 0 <= j < i ==> !Eligible(hist, order[j], exclude)
      {
        var b := order[i];
        assert b.name in states && Remembers(states[b.name], hist[b.name]);
        if Some(b.name) != exclude && states[b.name].healthy {
          return Some(b.name);
        }
      }
      return None;
    }

    method PickPreempting(prio: int, now: real) returns (c: Option<string>)
      requires Valid()
      ensures FirstOutranking(order, hist, prio, now, preemptS, c)
    {
      hide AllJudged, AllRemembered, HealthyFor;
      for i := 0 to |order|
        invariant forall j :: 0 <= j < i ==> !Outranks(hist, order[j], prio, now, preemptS)
      {
        var b := order[i];
        if b.priority >= prio {
          return None;
        }
        var span := HealthySpan(b.name, now);
        if span >= preemptS {
          return Some(b.name);
        }
      }
      return None;
    }

    /** The policy, stated on the history alone. */
    method Evaluate(now: real) returns (d: Decision)
      requires Valid()
      ensures active.Some? && active.value !in bearers <==> d.UnknownBearer?
      ensures d.Decision? ==> d.active == active && (d.makeBeforeBreak <==> active.Some? && d.switchTo.Some?)
      ensures active.None? ==>
                d.Decision? && exists c :: FirstHealthy(order, hist, None, c) && d.switchTo == Usable(c)
      ensures d.Decision? && active.Some? ==>
                var h := Of(hist, active.value);
                if HealthyNow(h) then
                  FirstOutranking(order, hist, bearers[active.value].priority, now, preemptS, d.switchTo)
                else if UnhealthyFor(h, now) >= unhealthyS then
                  exists c :: FirstHealthy(order, hist, active, c) && d.switchTo == Usable(c)
                else
                  d.switchTo == None
      ensures d.Decision? && d.switchTo.Some? && (d.reason != Preempt || preemptS > 0.0) ==>
                ServesNow(bearers, lossLimit, seen, d.switchTo.value)
      ensures d.Decision? && d.reason == Preempt && preemptS > 0.0 ==>
                && d.switchTo.Some? && d.switchTo.value in bearers && d.switchTo.value in seen
                && ServingFor(seen[d.switchTo.value], bearers[d.switchTo.value].rttBudgetMs, lossLimit, now, preemptS)
      ensures d.Decision? && d.reason == SwitchAway ==> active.Some? && d.switchTo.Some? && d.switchTo != active
      ensures d.Decision? && d.reason == SwitchAway && unhealthyS > 0.0 ==>
                && active.value in bearers && active.value in seen
                && FailingFor(seen[active.value], bearers[active.value].rttBudgetMs, lossLimit, now, unhealthyS)
      ensures d.Decision? ==> (d.switchTo.Some? <==> d.reason == Initial || d.reason == SwitchAway || d.reason == Preempt)
      ensures d.Decision? && d.reason != Preempt ==> d.switchTo != Some("")
      ensures d.Decision? ==> (active.None? <==> d.reason == Initial || d.reason == NoHealthy)
      ensures d.Decision? && active.Some? ==>
                var h := Of(hist, active.value);
                && (HealthyNow(h) <==> d.reason == Preempt || d.reason == Steady)
                && (!HealthyNow(h) && UnhealthyFor(h, now) < unhealthyS <==> d.reason == InsideGrace)
      ensures d.Decision? && active.Some? && d.switchTo.Some? ==>
                (d.reason == Preempt
                 <==> Preempts(bearers, order, hist, now, preemptS, active.value, d.switchTo.value))
    {
      hide FirstHealthy, FirstOutranking, UnhealthyFor, RunStart, AllJudged, ServesNow, ServingFor, FailingFor;
      if active.None? {
        var best := PickHealthy(None);
        var c := Usable(best);
        if c.Some? {
          PickedServes(bearers, lossLimit, seen, hist, order, None, c.value);
        }
        return Decision(None, c, false, if c.Some? then Initial else NoHealthy);
      }
      var act := active.value;
      if act !in bearers {
        return UnknownBearer;
      }
      assert Remembers(states[act], hist[act]);
      if !states[act].healthy {
        var span := UnhealthySpan(act, now);
        if span >= unhealthyS {
          var best := PickHealthy(Some(act));
          var c := Usable(best);
          if c.Some? {
            PickedServes(bearers, lossLimit, seen, hist, order, Some(act), c.value);
            if unhealthyS > 0.0 {
              LeftFails(bearers, lossLimit, seen, hist, act, now, unhealthyS);
            }
          }
          return Decision(active, c, c.Some?, if c.Some? then SwitchAway else NoAlternative);
        }
        return Decision(active, None, false, InsideGrace);
      }
      var c := PickPreempting(bearers[act].priority, now);
      if c.Some? && preemptS > 0.0 {
        PreemptingServes(bearers, lossLimit, seen, hist, order, bearers[act].priority, now, preemptS, c.value);
      }
      return Decision(active, c, c.Some?, if c.Some? then Preempt else Steady);
    }

    method Commit(name: string)
      modifies this`active, this`switches
      ensures active == Some(name)
      ensures switches == old(switches) + if old(active).Some? && old(active) != Some(name) then 1 else 0
    {
      if active.Some? && active.value != name {
        switches := switches + 1;
      }
      active := Some(name);
    }

    method DropActive()
      modifies this`active
      ensures active == None
    {
      active := None;
    }
  }

  const UNHEALTHY_SWITCH_S := 3.0
  const PREEMPT_SWITCH_S := 10.0
  const LOSS_LIMIT_PCT := 5.0

  /** A monitor with the default policy; an empty list of bearers is an error. */
  method Create(given: seq<Bearer>) returns (m: Option<Monitor>)
    ensures m.None? <==> given == []
    ensures m.Some? ==>
              && fresh(m.value) && m.value.Valid() && m.value.active == None
              && m.value.bearers == Table(given) && m.value.order == ByPriority(given)
              && m.value.unhealthyS == 3.0 && m.value.preemptS == 10.0 && m.value.lossLimit == 5.0
              && forall name :: name in m.value.seen ==> m.value.seen[name] == []
  {
    if given == [] {
      return None;
    }
    var monitor := new Monitor(given, UNHEALTHY_SWITCH_S, PREEMPT_SWITCH_S, LOSS_LIMIT_PCT);
    return Some(monitor);
  }

  // ---------------------------------------------------------------------------
  // Chains of preemptions
  // ---------------------------------------------------------------------------

  /** No entry of a bearer promises a better rank than the one its name ends up with. */
  predicate RanksHold(bearers: map<string, Bearer>, order: seq<Bearer>) {
    forall b :: b in order ==> RankHolds(bearers, b)
  }

  predicate RankHolds(bearers: map<string, Bearer>, b: Bearer) {
    b.name in bearers && bearers[b.name].priority <= b.priority
  }

  /** The same for a policy that waits for no healthy span: only the first in order is ever chosen. */
  predicate RanksMatter(bearers: map<string, Bearer>, order: seq<Bearer>, span: real) {
    if span > 0.0 then RanksHold(bearers, order) else order == [] || RankHolds(bearers, order[0])
  }

  /** Observations are only ever added. */
  predicate Grows(h: History, h': History) {
    forall name :: name in h ==> name in h' && h[name] <= h'[name]
  }

  /** The policy's view when it takes a decision. */
  datatype Look = Look(hist: History, now: real)

  /** Nothing is observed in the future. */
  predicate Timely(look: Look) {
    forall name, i :: name in look.hist && 0 <= i < |look.hist[name]| ==> look.hist[name][i].now <= look.now
  }

  /** Consecutive preemptions: at look `i` the policy replaces the active `names[i]` by `names[i + 1]`. */
  ghost predicate Chain(bearers: map<string, Bearer>, order: seq<Bearer>, span: real,
                        names: seq<string>, looks: seq<Look>) {
    && |names| == |looks| + 1
    && (forall i :: 0 <= i < |looks| ==> Timely(looks[i]))
    && (forall i :: 0 <= i < |looks| ==> Link(bearers, order, span, names, looks, i))
    && (forall i :: 0 < i < |looks| ==> Grows(looks[i - 1].hist, looks[i].hist) && looks[i - 1].now <= looks[i].now)
  }

  ghost predicate Link(bearers: map<string, Bearer>, order: seq<Bearer>, span: real,
                       names: seq<string>, looks: seq<Look>, i: nat)
    requires i < |looks| && |names| == |looks| + 1
  {
    Preempts(bearers, order, looks[i].hist, looks[i].now, span, names[i], names[i + 1])
  }

  lemma {:induction false} PreemptionDescends(bearers: map<string, Bearer>, order: seq<Bearer>, hist: History,
                                              now: real, span: real, act: string, to: string)
    requires RanksHold(bearers, order) && Preempts(bearers, order, hist, now, span, act, to)
    ensures act in bearers && to in bearers && bearers[to].priority < bearers[act].priority
  {
    var i :| 0 <= i < |order| && order[i].name == to && Outranks(hist, order[i], bearers[act].priority, now, span);
    assert order[i] in order;
  }

  lemma {:induction false} ChainDescends(bearers: map<string, Bearer>, order: seq<Bearer>, span: real,
                                         names: seq<string>, looks: seq<Look>, i: nat, j: nat)
    requires RanksHold(bearers, order) && Chain(bearers, order, span, names, looks) && i < j < |names|
    ensures names[i] in bearers && names[j] in bearers
    ensures bearers[names[j]].priority < bearers[names[i]].priority
    decreases j
  {
    hide RanksHold, Preempts;
    assert Link(bearers, order, span, names, looks, j - 1);
    PreemptionDescends(bearers, order, looks[j - 1].hist, looks[j - 1].now, span, names[j - 1], names[j]);
    if i < j - 1 {
      ChainDescends(bearers, order, span, names, looks, i, j - 1);
    }
  }

  /** Where ranks hold, preemptions strictly descend in priority number, so there are fewer of them than bearers. */
  lemma {:induction false} ChainsEnd(bearers: map<string, Bearer>, order: seq<Bearer>, span: real,
                                     names: seq<string>, looks: seq<Look>)
    requires RanksHold(bearers, order) && Chain(bearers, order, span, names, looks) && |looks| > 0
    ensures forall i, j :: 0 <= i < j < |names| ==>
              && names[i] in bearers && names[j] in bearers
              && bearers[names[j]].priority < bearers[names[i]].priority
    ensures |looks| < |bearers|
  {
    assert |names| == |looks| + 1;
    hide RanksHold, Chain;
    forall i, j | 0 <= i < j < |names|
      ensures names[i] in bearers && names[j] in bearers && bearers[names[j]].priority < bearers[names[i]].priority
    {
      ChainDescends(bearers, order, span, names, looks, i, j);
    }
    forall i | 0 <= i < |names| ensures names[i] in bearers.Keys {
      ChainDescends(bearers, order, span, names, looks, 0, if i == 0 then 1 else i);
    }
    DistinctFit(names, bearers.Keys);
    assert |bearers.Keys| == |bearers|;
  }

  lemma {:induction false} DistinctFit(names: seq<string>, within: set<string>)
    requires forall i :: 0 <= i < |names| ==> names[i] in within
    requires forall i, j :: 0 <= i < j < |names| ==> names[i] != names[j]
    ensures |names| <= |within|
    decreases |names|
  {
    if names == [] {
    } else {
      var n := |names| - 1;
      DistinctFit(names[..n], within - {names[n]});
    }
  }

  /** Looks at a lone healthy bearer, one a second once it has been healthy for the span. */
  function LoneLooks(name: string, span: real, n: nat): seq<Look> {
    var first := if span > 0.0 then span else 0.0;
    seq(n, i => Look(map[name := [Verdict(0.0, true)]], first + i as real))
  }

  /** An entry with a better rank than its name ends up with. */
  predicate Undercut(bearers: map<string, Bearer>, order: seq<Bearer>, b: Bearer, span: real) {
    && b in order && b.name in bearers && b.priority < bearers[b.name].priority
    && (span > 0.0 || b == order[0])
  }

  /** A name listed under a better rank than its own preempts itself. */
  lemma {:induction false} SelfPreempts(bearers: map<string, Bearer>, order: seq<Bearer>, b: Bearer, span: real, now: real)
    requires Undercut(bearers, order, b, span) && now >= span && now >= 0.0
    ensures Preempts(bearers, order, map[b.name := [Verdict(0.0, true)]], now, span, b.name, b.name)
  {
    var hist := map[b.name := [Verdict(0.0, true)]];
    var prio := bearers[b.name].priority;
    assert RunStart([Verdict(0.0, true)]) == 0;
    var k :| 0 <= k < |order| && order[k] == b && (span > 0.0 || k == 0);
    assert Outranks(hist, order[k], prio, now, span);
    var i := FirstSuch(order, hist, prio, now, span, k);
    assert order[i].name == b.name;
  }

  lemma {:induction false} FirstSuch(order: seq<Bearer>, hist: History, prio: int, now: real, span: real, k: nat)
      returns (i: nat)
    requires k < |order| && Outranks(hist, order[k], prio, now, span)
    ensures i <= k && Outranks(hist, order[i], prio, now, span)
    ensures forall j :: 0 <= j < i ==> !Outranks(hist, order[j], prio, now, span)
    decreases k
  {
    hide Outranks;
    i := k;
    if j :| 0 <= j < k && Outranks(hist, order[j], prio, now, span) {
      i := FirstSuch(order, hist, prio, now, span, j);
    }
  }

  lemma {:induction false} SelfChain(bearers: map<string, Bearer>, order: seq<Bearer>, b: Bearer, span: real, n: nat)
    requires Undercut(bearers, order, b, span)
    ensures Chain(bearers, order, span, seq(n + 1, _ => b.name), LoneLooks(b.name, span, n))
  {
    hide Preempts, Undercut;
    var names, looks := seq(n + 1, _ => b.name), LoneLooks(b.name, span, n);
    forall i | 0 <= i < |looks| ensures Link(bearers, order, span, names, looks, i) {
      SelfPreempts(bearers, order, b, span, looks[i].now);
    }
  }

  /** A policy that waits for no span takes the first bearer in order, whether observed or not. */
  lemma {:induction false} EagerTakesFirst(bearers: map<string, Bearer>, order: seq<Bearer>, look: Look, span: real,
                                           act: string, to: string)
    requires span <= 0.0 && Ascending(order) && Timely(look)
    requires Preempts(bearers, order, look.hist, look.now, span, act, to)
    ensures order != [] && to == order[0].name && act in bearers && order[0].priority < bearers[act].priority
  {
    var prio := bearers[act].priority;
    var i :| 0 <= i < |order| && order[i].name == to && Outranks(look.hist, order[i], prio, look.now, span)
             && forall j :: 0 <= j < i ==> !Outranks(look.hist, order[j], prio, look.now, span);
    NeverNegative(look, order[0].name);
    assert Outranks(look.hist, order[0], prio, look.now, span);
  }

  lemma {:induction false} NeverNegative(look: Look, name: string)
    requires Timely(look)
    ensures HealthyFor(Of(look.hist, name), look.now) >= 0.0
  {
  }

  /** So it preempts at most once where the first entry's rank holds. */
  lemma {:induction false} EagerChainsEnd(bearers: map<string, Bearer>, order: seq<Bearer>, span: real,
                                          names: seq<string>, looks: seq<Look>)
    requires span <= 0.0 && Ascending(order) && (order == [] || RankHolds(bearers, order[0]))
    requires Chain(bearers, order, span, names, looks) && |looks| > 0
    ensures |looks| == 1 < |bearers|
  {
    hide Preempts, Timely;
    assert Link(bearers, order, span, names, looks, 0) && Timely(looks[0]);
    EagerTakesFirst(bearers, order, looks[0], span, names[0], names[1]);
    if |looks| > 1 {
      assert Link(bearers, order, span, names, looks, 1) && Timely(looks[1]);
      EagerTakesFirst(bearers, order, looks[1], span, names[1], names[2]);
    }
    DistinctFit([names[0], names[1]], bearers.Keys);
    assert |bearers.Keys| == |bearers|;
  }

  /** All preemptions in a row number fewer than the bearers. */
  ghost predicate ChainsBounded(bearers: map<string, Bearer>, order: seq<Bearer>, span: real) {
    forall names, looks :: Chain(bearers, order, span, names, looks) && |looks| > 0 ==> |looks| < |bearers|
  }

  /**
   For every list of bearers and every span: preemptions in a row are bounded by the number
   of bearers if and only if no entry the policy can choose outranks the entry that its name
   ends up with.
   */
  lemma {:induction false} ChainsEndExactly(given: seq<Bearer>, span: real)
    ensures ChainsBounded(Table(given), ByPriority(given), span) <==> RanksMatter(Table(given), ByPriority(given), span)
  {
    hide Chain, ByPriority, Table, RankHolds;
    var bearers, order := Table(given), ByPriority(given);
    if RanksMatter(bearers, order, span) {
      forall names, looks | Chain(bearers, order, span, names, looks) && |looks| > 0 ensures |looks| < |bearers| {
        if span > 0.0 {
          ChainsEnd(bearers, order, span, names, looks);
        } else {
          EagerChainsEnd(bearers, order, span, names, looks);
        }
      }
    } else {
      var b :| b in order && !RankHolds(bearers, b) && (span > 0.0 || b == order[0]);
      FoundUndercut(given, b, span);
      var n := |bearers| + 1;
      SelfChain(bearers, order, b, span, n);
      assert |LoneLooks(b.name, span, n)| == n;
    }
  }

  lemma {:induction false} FoundUndercut(given: seq<Bearer>, b: Bearer, span: real)
    requires b in ByPriority(given) && !RankHolds(Table(given), b) && (span > 0.0 || b == ByPriority(given)[0])
    ensures Undercut(Table(given), ByPriority(given), b, span)
  {
    hide ByPriority, Table;
    SameBearers(given, b);
    var i := ListedHasLast(given, b);
    TableIsLast(given, b.name);
  }
}
