/**
 * The sliding-window limit under interleaving: checks and recordings by many callers,
 * with grants and withdrawals between them, on one non-decreasing clock.
 */
module UsageWindow {
  import opened Common
  import opened CapabilityTypes
  import opened CapabilityService

  /** The tables, the exercises that passed a check and have not been recorded, and the clock. */
  datatype World = World(db: Db, inFlight: map<nat, nat>, clock: int)

  /** A caller's step. Exercises carry a name of their own, so one caller may hold several. */
  datatype Event =
    | CheckStep(exercise: nat, args: Exercise)
    | RecordStep(exercise: nat, now: int)
    | DropStep(exercise: nat)
    | GrantStep(capability: Capability)
    | AmendStep(id: nat, status: Status, amountLimit: Option<string>, expiresAt: Option<int>)
    | LeaseStep(leaseId: string, lease: Lease)

  /** A step the environment cannot take (a clock running back, a name reused) changes nothing. */
  function Step(w: World, e: Event): World {
    match e
    case CheckStep(x, args) =>
      if args.now < w.clock || x in w.inFlight then w
      else
        var r := CheckResult(w.db, args);
        World(w.db, if r.Allowed? then w.inFlight[x := r.id] else w.inFlight, args.now)
    case RecordStep(x, now) =>
      if now < w.clock || x !in w.inFlight then w
      else World(w.db.(usages := w.db.usages + [Usage(w.inFlight[x], now)]), w.inFlight - {x}, now)
    case DropStep(x) => w.(inFlight := w.inFlight - {x})
    case GrantStep(c) => w.(db := w.db.(caps := w.db.caps + [c]))
    case AmendStep(id, status, amountLimit, expiresAt) =>
      if id >= |w.db.caps| then w
      else
        var c := w.db.caps[id];
        var amended := c.(status := status, limits := c.limits.(amountLimit := amountLimit, expiresAt := expiresAt));
        w.(db := w.db.(caps := w.db.caps[id := amended]))
    case LeaseStep(id, lease) => w.(db := w.db.(leases := w.db.leases[id := lease]))
  }

  /** What the rest of the program may do between checks: grant, amend and re-lease as it likes, but not the limits. */
  lemma EnvironmentActs(w: World, c: Capability, id: nat, lease: string, l: Lease, x: nat)
    ensures Step(w, GrantStep(c)) == w.(db := w.db.(caps := w.db.caps + [c]))
    ensures lease in Step(w, LeaseStep(lease, l)).db.leases && Step(w, LeaseStep(lease, l)).db.leases[lease] == l
    ensures x !in Step(w, DropStep(x)).inFlight
    ensures id < |w.db.caps| ==>
      var row := w.db.caps[id];
      var amended := row.(status := c.status, limits := row.limits.(amountLimit := c.limits.amountLimit,
                                                                    expiresAt := c.limits.expiresAt));
      Step(w, AmendStep(id, c.status, c.limits.amountLimit, c.limits.expiresAt)).db.caps == w.db.caps[id := amended]
  {
  }

  function Run(w: World, events: seq<Event>): World {
    if events == [] then w else Step(Run(w, events[..|events| - 1]), events[|events| - 1])
  }

  function Holders(inFlight: map<nat, nat>, id: nat): set<nat> {
    set x | x in inFlight && inFlight[x] == id
  }

  function InFlight(w: World, id: nat): nat {
    |Holders(w.inFlight, id)|
  }

  /** The most exercises of one capability in flight at once, over the whole run. */
  function Peak(w: World, events: seq<Event>, id: nat): nat {
    if events == [] then InFlight(w, id)
    else
      var before := Peak(w, events[..|events| - 1], id);
      if InFlight(Run(w, events), id) > before then InFlight(Run(w, events), id) else before
  }

  /** Uses of a capability inside the closed window of `span` milliseconds that starts at `t`. */
  function InWindow(usages: seq<Usage>, id: nat, t: int, span: int): nat {
    if usages == [] then 0
    else
      var u := usages[|usages| - 1];
      InWindow(usages[..|usages| - 1], id, t, span)
        + (if u.capabilityId == id && t <= u.createdAt <= t + span then 1 else 0)
  }

  lemma InWindowStep(usages: seq<Usage>, u: Usage, id: nat, t: int, span: int)
    ensures InWindow(usages + [u], id, t, span)
         == InWindow(usages, id, t, span) + (if u.capabilityId == id && t <= u.createdAt <= t + span then 1 else 0)
  {
    assert (usages + [u])[..|usages|] == usages;
  }

  /** Nothing recorded and nothing under way. */
  predicate Fresh(w: World) {
    w.db.usages == [] && w.inFlight == map[]
  }

  lemma {:induction false} WindowWithinCount(usages: seq<Usage>, id: nat, t: int, span: int, since: int)
    requires since <= t
    ensures InWindow(usages, id, t, span) <= CountSince(usages, id, since)
  {
    if usages != [] { WindowWithinCount(usages[..|usages| - 1], id, t, span, since); }
  }

  lemma HoldersAdd(inFlight: map<nat, nat>, x: nat, id: nat, c: nat)
    requires x !in inFlight
    ensures |Holders(inFlight[x := id], c)| == |Holders(inFlight, c)| + (if c == id then 1 else 0)
  {
    var before, after := Holders(inFlight, c), Holders(inFlight[x := id], c);
    assert after == if c == id then before + {x} else before;
  }

  lemma HoldersRemove(inFlight: map<nat, nat>, x: nat, c: nat)
    ensures |Holders(inFlight, c)|
         == |Holders(inFlight - {x}, c)| + (if x in inFlight && inFlight[x] == c then 1 else 0)
  {
    var before, after := Holders(inFlight, c), Holders(inFlight - {x}, c);
    assert before == if x in inFlight && inFlight[x] == c then after + {x} else after;
  }

  /**
   * The bound for one capability: every window holds at most `bound` uses, and a window that can
   * still grow leaves room for everything in flight.
   */
  ghost predicate Bounded(w: World, id: nat, span: int, bound: int) {
    && (forall t :: InWindow(w.db.usages, id, t, span) <= bound)
    && (forall t :: t >= w.clock - span ==> InWindow(w.db.usages, id, t, span) + InFlight(w, id) <= bound)
  }

  /** References stay inside the capability table, so a row granted later starts unused. */
  ghost predicate Referenced(w: World) {
    && (forall u | u in w.db.usages :: u.capabilityId < |w.db.caps|)
    && (forall x | x in w.inFlight :: w.inFlight[x] < |w.db.caps|)
  }

  ghost predicate Limited(w: World, id: nat, limit: int, windowSeconds: int) {
    id < |w.db.caps| ==> w.db.caps[id].limits.frequencyLimit == Some(limit)
                         && w.db.caps[id].limits.frequencyWindowSeconds == Some(windowSeconds)
  }

  lemma CheckAllowsBelowLimit(w: World, args: Exercise, id: nat, limit: int, windowSeconds: int)
    requires Limited(w, id, limit, windowSeconds) && CheckResult(w.db, args) == Allowed(id)
    ensures id < |w.db.caps| && CountSince(w.db.usages, id, WindowStart(args.now, windowSeconds)) < limit
  {
    CheckExact(w.db, args);
  }

  lemma {:induction false} NoUse(usages: seq<Usage>, id: nat, t: int, span: int)
    requires forall u | u in usages :: u.capabilityId != id
    ensures InWindow(usages, id, t, span) == 0
  {
    if usages != [] {
      var front := usages[..|usages| - 1];
      assert usages[|usages| - 1] in usages && forall u | u in front :: u in usages;
      NoUse(front, id, t, span);
    }
  }

  lemma StepReferenced(w: World, e: Event)
    requires Referenced(w)
    ensures Referenced(Step(w, e)) && |w.db.caps| <= |Step(w, e).db.caps|
  {
    if e.CheckStep? { CheckExact(w.db, e.args); }
  }

  /** A check that passes leaves every open window below the limit. */
  lemma CheckBounded(w: World, e: Event, id: nat, limit: int, windowSeconds: int, peak: int)
    requires e.CheckStep? && Limited(w, id, limit, windowSeconds) && limit >= 1
    requires Bounded(w, id, windowSeconds * 1000, limit + peak - 1) && InFlight(Step(w, e), id) <= peak
    ensures Bounded(Step(w, e), id, windowSeconds * 1000, limit + peak - 1)
  {
    hide CheckResult, Holders;
    var span, r, next := windowSeconds * 1000, CheckResult(w.db, e.args), Step(w, e);
    if e.args.now >= w.clock && e.exercise !in w.inFlight && r.Allowed? {
      HoldersAdd(w.inFlight, e.exercise, r.id, id);
      if r.id == id {
        CheckAllowsBelowLimit(w, e.args, id, limit, windowSeconds);
        forall t | t >= next.clock - span
          ensures InWindow(next.db.usages, id, t, span) + InFlight(next, id) <= limit + peak - 1
        {
          WindowWithinCount(w.db.usages, id, t, span, WindowStart(e.args.now, windowSeconds));
        }
      }
    }
  }

  /** A recorded use takes the place it was leaving room for. */
  lemma RecordBounded(w: World, e: Event, id: nat, span: int, bound: int)
    requires (e.RecordStep? || e.DropStep?) && Bounded(w, id, span, bound)
    ensures Bounded(Step(w, e), id, span, bound)
  {
    hide Holders, InWindow;
    HoldersRemove(w.inFlight, e.exercise, id);
    var next := Step(w, e);
    if e.RecordStep? && e.now >= w.clock && e.exercise in w.inFlight {
      var u := Usage(w.inFlight[e.exercise], e.now);
      forall t
        ensures InWindow(next.db.usages, id, t, span) <= bound
        ensures t >= next.clock - span ==> InWindow(next.db.usages, id, t, span) + InFlight(next, id) <= bound
      {
        InWindowStep(w.db.usages, u, id, t, span);
        assert InWindow(w.db.usages, id, t, span) <= bound;
      }
    }
  }

  /** One step keeps the bound, as long as the capability's exercises in flight stay within `peak`. */
  lemma StepBounded(w: World, e: Event, id: nat, limit: int, windowSeconds: int, peak: int)
    requires Limited(w, id, limit, windowSeconds) && limit >= 1
    requires Bounded(w, id, windowSeconds * 1000, limit + peak - 1)
    requires InFlight(Step(w, e), id) <= peak
    ensures Bounded(Step(w, e), id, windowSeconds * 1000, limit + peak - 1)
  {
    hide CheckResult;
    if e.CheckStep? {
      CheckBounded(w, e, id, limit, windowSeconds, peak);
    } else if e.RecordStep? || e.DropStep? {
      RecordBounded(w, e, id, windowSeconds * 1000, limit + peak - 1);
    }
  }

  lemma {:induction false} PeakCovers(w: World, events: seq<Event>, id: nat)
    ensures InFlight(Run(w, events), id) <= Peak(w, events, id)
    ensures events != [] ==> Peak(w, events[..|events| - 1], id) <= Peak(w, events, id)
  {
  }

  /** Rows are never removed and their frequency bounds never change. */
  lemma LimitsFixed(w: World, e: Event, id: nat)
    requires id < |w.db.caps|
    ensures id < |Step(w, e).db.caps|
    ensures Step(w, e).db.caps[id].limits.frequencyLimit == w.db.caps[id].limits.frequencyLimit
    ensures Step(w, e).db.caps[id].limits.frequencyWindowSeconds == w.db.caps[id].limits.frequencyWindowSeconds
  {
  }

  lemma {:induction false} RunBounded(w: World, events: seq<Event>, id: nat, limit: int, windowSeconds: int, peak: int)
    requires Fresh(w) && limit >= 1 && Limited(Run(w, events), id, limit, windowSeconds)
    requires Peak(w, events, id) <= peak
    ensures Referenced(Run(w, events))
    ensures Bounded(Run(w, events), id, windowSeconds * 1000, limit + peak - 1)
  {
    if events == [] {
      assert InFlight(w, id) == 0 by { assert Holders(map[], id) == {}; }
    } else {
      var front, e := events[..|events| - 1], events[|events| - 1];
      var before := Run(w, front);
      if id < |before.db.caps| { LimitsFixed(before, e, id); }
      PeakCovers(w, events, id);
      RunBounded(w, front, id, limit, windowSeconds, peak);
      StepReferenced(before, e);
      StepBounded(before, e, id, limit, windowSeconds, peak);
    }
  }

  /**
   * In every interleaving from a fresh start, no closed window of a capability's frequency span holds
   * more than its limit plus K - 1 uses, where K is the most exercises of it ever in flight at once.
   */
  lemma FrequencyBound(w: World, events: seq<Event>, id: nat, limit: int, windowSeconds: int, t: int)
    requires Fresh(w) && limit >= 1
    requires var db := Run(w, events).db;
             && id < |db.caps| && db.caps[id].limits.frequencyLimit == Some(limit)
             && db.caps[id].limits.frequencyWindowSeconds == Some(windowSeconds)
    ensures InWindow(Run(w, events).db.usages, id, t, windowSeconds * 1000) <= limit + Peak(w, events, id) - 1
  {
    RunBounded(w, events, id, limit, windowSeconds, Peak(w, events, id));
  }

  /** With exercises taken one at a time the limit itself is the bound. */
  lemma SequentialBound(w: World, events: seq<Event>, id: nat, limit: int, windowSeconds: int, t: int)
    requires Fresh(w) && limit >= 1 && Peak(w, events, id) <= 1
    requires var db := Run(w, events).db;
             && id < |db.caps| && db.caps[id].limits.frequencyLimit == Some(limit)
             && db.caps[id].limits.frequencyWindowSeconds == Some(windowSeconds)
    ensures InWindow(Run(w, events).db.usages, id, t, windowSeconds * 1000) <= limit
  {
    FrequencyBound(w, events, id, limit, windowSeconds, t);
  }

  // The bound is reached: limit - 1 exercises one by one, then K checks before any of them is recorded.

  function Plain(limit: int, windowSeconds: int): Capability {
    Capability("actor", "CLAIM", "any", false, Limits(None, Some(limit), Some(windowSeconds), [], None),
               ACTIVE, None, None)
  }

  function Uses(n: nat): seq<Usage> { seq(n, _ => Usage(0, 0)) }

  /** Every exercise of the run holds capability 0. */
  function Held(exercise: nat): nat { 0 }

  function Open(from: nat, to: nat): map<nat, nat> { map x: nat | from <= x < to :: Held(x) }

  function At(limit: int, windowSeconds: int, uses: nat, from: nat, to: nat): World {
    World(Db([Plain(limit, windowSeconds)], Uses(uses), map[]), Open(from, to), 0)
  }

  const ASK := Exercise("actor", "CLAIM", None, None, 0)

  lemma {:induction false} UsesCount(n: nat, windowSeconds: int, t: int)
    requires windowSeconds >= 0 && t <= 0 <= t + windowSeconds * 1000
    ensures CountSince(Uses(n), 0, t) == n && InWindow(Uses(n), 0, t, windowSeconds * 1000) == n
  {
    if n > 0 {
      assert Uses(n)[..n - 1] == Uses(n - 1);
      UsesCount(n - 1, windowSeconds, t);
    }
  }

  lemma CheckPasses(limit: int, windowSeconds: int, uses: nat, from: nat, to: nat)
    requires uses < limit && windowSeconds >= 0 && from <= to
    ensures Step(At(limit, windowSeconds, uses, from, to), CheckStep(to, ASK)) ==
      At(limit, windowSeconds, uses, from, to + 1)
  {
    var w := At(limit, windowSeconds, uses, from, to);
    UsesCount(uses, windowSeconds, WindowStart(0, windowSeconds));
    assert Usable(w.db, 0, ASK);
    CheckExact(w.db, ASK);
    assert Open(from, to)[to := 0] == Open(from, to + 1);
  }

  lemma RecordLands(limit: int, windowSeconds: int, uses: nat, from: nat, to: nat)
    requires from < to
    ensures Step(At(limit, windowSeconds, uses, from, to), RecordStep(from, 0))
         == At(limit, windowSeconds, uses + 1, from + 1, to)
  {
    assert Open(from, to) - {from} == Open(from + 1, to);
    assert Uses(uses) + [Usage(0, 0)] == Uses(uses + 1);
  }

  lemma {:induction false} OpenSize(limit: int, windowSeconds: int, uses: nat, from: nat, to: nat)
    requires from <= to
    ensures InFlight(At(limit, windowSeconds, uses, from, to), 0) == to - from
  {
    if from == to {
      assert Holders(Open(from, to), 0) == {};
    } else {
      OpenSize(limit, windowSeconds, uses, from, to - 1);
      assert Open(from, to) == Open(from, to - 1)[to - 1 := 0];
      HoldersAdd(Open(from, to - 1), to - 1, 0, 0);
    }
  }

  lemma Extend(w: World, events: seq<Event>, e: Event, peak: nat)
    requires Peak(w, events, 0) <= peak && InFlight(Step(Run(w, events), e), 0) <= peak
    ensures Run(w, events + [e]) == Step(Run(w, events), e) && Peak(w, events + [e], 0) <= peak
  {
    assert (events + [e])[..|events|] == events;
  }

  /** `uses` exercises one at a time, then exercises up to number `to` left open, then the first ones recorded. */
  lemma {:induction false} Reach(limit: int, windowSeconds: int, solo: nat, from: nat, to: nat, peak: nat)
    returns (events: seq<Event>)
    requires windowSeconds >= 0 && solo < limit && solo <= from <= to <= solo + peak && peak >= 1
    ensures Run(At(limit, windowSeconds, 0, 0, 0), events) == At(limit, windowSeconds, from, from, to)
    ensures Peak(At(limit, windowSeconds, 0, 0, 0), events, 0) <= peak
    decreases solo, from, to
  {
    var start := At(limit, windowSeconds, 0, 0, 0);
    OpenSize(limit, windowSeconds, from, from, to);
    if from > solo {
      events := Reach(limit, windowSeconds, solo, from - 1, to, peak);
      RecordLands(limit, windowSeconds, from - 1, from - 1, to);
      Extend(start, events, RecordStep(from - 1, 0), peak);
      events := events + [RecordStep(from - 1, 0)];
    } else if to > solo {
      events := Reach(limit, windowSeconds, solo, solo, to - 1, peak);
      CheckPasses(limit, windowSeconds, solo, solo, to - 1);
      Extend(start, events, CheckStep(to - 1, ASK), peak);
      events := events + [CheckStep(to - 1, ASK)];
    } else if solo > 0 {
      events := Reach(limit, windowSeconds, solo - 1, solo, solo, peak);
    } else {
      events := [];
    }
  }

  /** For every limit, span and number K of concurrent exercises, some run fills a window with limit + K - 1 uses. */
  lemma BoundReached(limit: int, windowSeconds: int, k: nat) returns (w: World, events: seq<Event>)
    requires limit >= 1 && k >= 1 && windowSeconds >= 0
    ensures Fresh(w) && Peak(w, events, 0) == k
    ensures var db := Run(w, events).db;
            && |db.caps| == 1 && db.caps[0].limits.frequencyLimit == Some(limit)
            && db.caps[0].limits.frequencyWindowSeconds == Some(windowSeconds)
            && InWindow(db.usages, 0, 0, windowSeconds * 1000) == limit + k - 1
  {
    w := At(limit, windowSeconds, 0, 0, 0);
    assert w.inFlight == map[];
    events := Reach(limit, windowSeconds, limit - 1, limit - 1 + k, limit - 1 + k, k);
    UsesCount(limit - 1 + k, windowSeconds, 0);
    FrequencyBound(w, events, 0, limit, windowSeconds, 0);
  }
}
