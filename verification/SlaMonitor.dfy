/** The SLA monitor: a ticker that polls open executions and alerts once per workflow id. */
module SlaMonitor {
  import opened Temporal
  import opened Sequences

  const SECOND: Time := 1000000000
  const MINIMUM_INTERVAL: Time := 30 * SECOND

  /** Thresholds; zero disables. The type name is the key of the listing filter. */
  datatype Config = Config(workflowType: string, warnAfter: Time, alertAfter: Time)

  /** An open execution as listed, with the clock reading at which the loop reaches it. */
  datatype Listed = Listed(workflowId: string, startedAt: Time, readAt: Time)

  /** One tick: the listing failed (`None`) or returned a page of executions. */
  type Poll = Option<seq<Listed>>

  datatype BreachEvent = BreachEvent(
    workflowId: string, workflowType: string, runningFor: Time, threshold: Time, level: string)

  datatype Verdict = Alerted(event: BreachEvent) | Warned(workflowId: string, runningFor: Time) | Quiet

  /** Go's integer division truncates toward zero. */
  function Half(d: Time): Time {
    if d >= 0 then d / 2 else -((-d) / 2)
  }

  /** The smaller of the enabled thresholds; none if both are disabled. */
  function SmallerThreshold(cfg: Config): Option<Time> {
    if cfg.warnAfter > 0 && (cfg.alertAfter <= 0 || cfg.warnAfter <= cfg.alertAfter) then Some(cfg.warnAfter)
    else if cfg.alertAfter > 0 then Some(cfg.alertAfter)
    else None
  }

  /** What the comment in the code promises: half the smaller enabled threshold, and at least 30 seconds. */
  function DocumentedInterval(cfg: Config): Time {
    match SmallerThreshold(cfg)
    case None => MINIMUM_INTERVAL
    case Some(t) => if Half(t) < MINIMUM_INTERVAL then MINIMUM_INTERVAL else Half(t)
  }

  /**
   Whatever the thresholds, the monitor polls every 30 seconds. That is the documented interval exactly when
   both thresholds are disabled or half of an enabled one is at most 30 seconds.
   */
  method PollInterval(cfg: Config) returns (interval: Time)
    ensures interval == MINIMUM_INTERVAL == 30 * 1000000000
    ensures interval == DocumentedInterval(cfg) <==>
      || (cfg.warnAfter <= 0 && cfg.alertAfter <= 0)
      || (cfg.warnAfter > 0 && cfg.warnAfter / 2 <= 30 * 1000000000)
      || (cfg.alertAfter > 0 && cfg.alertAfter / 2 <= 30 * 1000000000)
  {
    interval := 30 * SECOND;
    if cfg.warnAfter > 0 && Half(cfg.warnAfter) < interval {
      interval := Half(cfg.warnAfter);
    }
    if cfg.alertAfter > 0 && Half(cfg.alertAfter) < interval {
      interval := Half(cfg.alertAfter);
    }
    if interval < 30 * SECOND {
      interval := 30 * SECOND;
    }
  }

  // ---- What one listed execution, one poll, and a run of polls do ----

  function RunningFor(x: Listed): Time { x.readAt - x.startedAt }

  predicate Overdue(cfg: Config, x: Listed) {
    cfg.alertAfter > 0 && RunningFor(x) >= cfg.alertAfter
  }

  function Judge(cfg: Config, alerted: set<string>, x: Listed): Verdict {
    if Overdue(cfg, x) && x.workflowId !in alerted then
      Alerted(BreachEvent(x.workflowId, cfg.workflowType, RunningFor(x), cfg.alertAfter, "alert"))
    else if cfg.warnAfter > 0 && RunningFor(x) >= cfg.warnAfter then Warned(x.workflowId, RunningFor(x))
    else Quiet
  }

  function Mark(cfg: Config, alerted: set<string>, x: Listed): set<string> {
    if Judge(cfg, alerted, x).Alerted? then alerted + {x.workflowId} else alerted
  }

  /** The alerted ids after a page. */
  function Marked(cfg: Config, alerted: set<string>, page: seq<Listed>): set<string> {
    if page == [] then alerted
    else Mark(cfg, Marked(cfg, alerted, page[..|page| - 1]), page[|page| - 1])
  }

  /** One verdict per listed execution. */
  function Verdicts(cfg: Config, alerted: set<string>, page: seq<Listed>): seq<Verdict> {
    if page == [] then []
    else
      var rest, last := page[..|page| - 1], page[|page| - 1];
      Verdicts(cfg, alerted, rest) + [Judge(cfg, Marked(cfg, alerted, rest), last)]
  }

  /** A failed listing lists nothing. */
  function Page(p: Poll): seq<Listed> {
    if p.Some? then p.value else []
  }

  /** All executions a run of polls looks at, in order. */
  function Seen(polls: seq<Poll>): seq<Listed> {
    if polls == [] then [] else Seen(polls[..|polls| - 1]) + Page(polls[|polls| - 1])
  }

  class Monitor {
    const cfg: Config
    var alerted: set<string>
    /** Everything logged or sent so far. */
    var output: seq<Verdict>

    constructor (cfg: Config)
      ensures this.cfg == cfg && alerted == {} && output == []
    {
      this.cfg, this.alerted, this.output := cfg, {}, [];
    }

    method CheckSla(poll: Poll)
      modifies this
      ensures alerted == Marked(cfg, old(alerted), Page(poll))
      ensures output == old(output) + Verdicts(cfg, old(alerted), Page(poll))
    {
      if poll.None? {
        return;
      }
      var page := poll.value;
      for k := 0 to |page|
        invariant alerted == Marked(cfg, old(alerted), page[..k])
        invariant output == old(output) + Verdicts(cfg, old(alerted), page[..k])
      {
        assert page[..k + 1][..k] == page[..k];
        var x := page[k];
        var runningFor := x.readAt - x.startedAt;
        if cfg.alertAfter > 0 && runningFor >= cfg.alertAfter && x.workflowId !in alerted {
          alerted := alerted + {x.workflowId};
          output := output +
            [Alerted(BreachEvent(x.workflowId, cfg.workflowType, runningFor, cfg.alertAfter, "alert"))];
        } else if cfg.warnAfter > 0 && runningFor >= cfg.warnAfter {
          output := output + [Warned(x.workflowId, runningFor)];
        } else {
          output := output + [Quiet];
        }
      }
      assert page[..|page|] == page;
    }

    /** The ticker loop, up to the tick after which the context is done. */
    method Run(polls: seq<Poll>)
      requires alerted == {} && output == []
      modifies this
      ensures alerted == Marked(cfg, {}, Seen(polls))
      ensures output == Verdicts(cfg, {}, Seen(polls))
    {
      for k := 0 to |polls|
        invariant alerted == Marked(cfg, {}, Seen(polls[..k]))
        invariant output == Verdicts(cfg, {}, Seen(polls[..k]))
      {
        assert polls[..k + 1][..k] == polls[..k];
        PagesConcatenate(cfg, {}, Seen(polls[..k]), Page(polls[k]));
        CheckSla(polls[k]);
      }
      assert polls[..|polls|] == polls;
    }
  }

  lemma {:induction false} PagesConcatenate(cfg: Config, alerted: set<string>, a: seq<Listed>, b: seq<Listed>)
    ensures Marked(cfg, alerted, a + b) == Marked(cfg, Marked(cfg, alerted, a), b)
    ensures Verdicts(cfg, alerted, a + b) == Verdicts(cfg, alerted, a) + Verdicts(cfg, Marked(cfg, alerted, a), b)
  {
    if b == [] {
      assert a + b == a;
    } else {
      assert (a + b)[..|a + b| - 1] == a + b[..|b| - 1];
      PagesConcatenate(cfg, alerted, a, b[..|b| - 1]);
    }
  }

  // ---- Theorems about every run of polls ----

  /** The ids alerted by a list of verdicts, in order. */
  function AlertedIds(vs: seq<Verdict>): seq<string> {
    if vs == [] then []
    else
      var last := vs[|vs| - 1];
      AlertedIds(vs[..|vs| - 1]) + if last.Alerted? then [last.event.workflowId] else []
  }

  /** Some listing showed the id running for at least the alert threshold. */
  ghost predicate OverdueListing(cfg: Config, seen: seq<Listed>, id: string) {
    exists x :: x in seen && x.workflowId == id && Overdue(cfg, x)
  }

  lemma OneMoreListing(cfg: Config, rest: seq<Listed>, last: Listed, id: string)
    ensures OverdueListing(cfg, rest + [last], id) <==>
      OverdueListing(cfg, rest, id) || (last.workflowId == id && Overdue(cfg, last))
  {
    if OverdueListing(cfg, rest, id) {
      var x :| x in rest && x.workflowId == id && Overdue(cfg, x);
      assert x in rest + [last];
    }
    assert last in rest + [last];
  }

  lemma {:induction false} MarkedIffOverdue(cfg: Config, seen: seq<Listed>, id: string)
    ensures id in Marked(cfg, {}, seen) <==> OverdueListing(cfg, seen, id)
  {
    if seen != [] {
      var rest, last := seen[..|seen| - 1], seen[|seen| - 1];
      MarkedIffOverdue(cfg, rest, id);
      OneMoreListing(cfg, rest, last, id);
      assert rest + [last] == seen;
    }
  }

  lemma {:induction false} AlertedIdsAreMarked(cfg: Config, seen: seq<Listed>)
    ensures var ids := AlertedIds(Verdicts(cfg, {}, seen));
      NoRepeats(ids) && forall id :: id in ids <==> id in Marked(cfg, {}, seen)
  {
    if seen != [] {
      var rest := seen[..|seen| - 1];
      AlertedIdsAreMarked(cfg, rest);
      assert Verdicts(cfg, {}, seen)[..|Verdicts(cfg, {}, seen)| - 1] == Verdicts(cfg, {}, rest);
    }
  }

  /**
   The alerted set is exactly the ids alerted so far, each alerted once, and an id is in it exactly when some
   listing showed it running for at least the alert threshold.
   */
  lemma {:induction false} AlertsAreExact(cfg: Config, seen: seq<Listed>)
    ensures var ids := AlertedIds(Verdicts(cfg, {}, seen));
      && NoRepeats(ids)
      && (forall id :: id in ids <==> id in Marked(cfg, {}, seen))
      && (forall id :: id in Marked(cfg, {}, seen) <==> OverdueListing(cfg, seen, id))
  {
    AlertedIdsAreMarked(cfg, seen);
    forall id ensures id in Marked(cfg, {}, seen) <==> OverdueListing(cfg, seen, id) {
      MarkedIffOverdue(cfg, seen, id);
    }
  }

  /** The alerted set only grows. */
  lemma AlertedOnlyGrows(cfg: Config, polls: seq<Poll>, k: nat)
    requires k <= |polls|
    ensures Marked(cfg, {}, Seen(polls[..k])) <= Marked(cfg, {}, Seen(polls))
  {
    SeenSplits(polls, k);
    PagesConcatenate(cfg, {}, Seen(polls[..k]), Seen(polls[k..]));
    MarkedGrows(cfg, Marked(cfg, {}, Seen(polls[..k])), Seen(polls[k..]));
  }

  lemma {:induction false} SeenSplits(polls: seq<Poll>, k: nat)
    requires k <= |polls|
    ensures Seen(polls) == Seen(polls[..k]) + Seen(polls[k..])
  {
    if k == |polls| {
      assert polls[..k] == polls;
    } else {
      var rest := polls[..|polls| - 1];
      SeenSplits(rest, k);
      assert rest[..k] == polls[..k];
      assert polls[k..][..|polls[k..]| - 1] == rest[k..];
      Associate(Seen(rest[..k]), Seen(rest[k..]), Page(polls[|polls| - 1]));
    }
  }

  lemma {:induction false} MarkedGrows(cfg: Config, alerted: set<string>, page: seq<Listed>)
    ensures alerted <= Marked(cfg, alerted, page)
  {
    if page != [] {
      MarkedGrows(cfg, alerted, page[..|page| - 1]);
    }
  }

  /** One verdict per listed execution, so never both an alert and a warning; every alert is a real breach. */
  lemma {:induction false} VerdictsAreSound(cfg: Config, alerted: set<string>, page: seq<Listed>)
    ensures var vs := Verdicts(cfg, alerted, page);
      && |vs| == |page|
      && forall k :: 0 <= k < |page| ==>
           && (vs[k].Alerted? ==>
                 vs[k].event.workflowId == page[k].workflowId && vs[k].event.workflowType == cfg.workflowType &&
                 vs[k].event.level == "alert" && vs[k].event.runningFor == page[k].readAt - page[k].startedAt &&
                 vs[k].event.runningFor >= vs[k].event.threshold == cfg.alertAfter > 0)
           && (vs[k].Warned? ==>
                 vs[k].workflowId == page[k].workflowId &&
                 vs[k].runningFor == page[k].readAt - page[k].startedAt >= cfg.warnAfter > 0)
           && (vs[k].Quiet? && cfg.warnAfter > 0 ==> page[k].readAt - page[k].startedAt < cfg.warnAfter)
  {
    if page != [] {
      VerdictsAreSound(cfg, alerted, page[..|page| - 1]);
    }
  }

  /** Some execution with this id and start time is listed by the poll, and read at this instant. */
  predicate ListedAt(p: Poll, id: string, startedAt: Time, readAt: Time) {
    Listed(id, startedAt, readAt) in Page(p)
  }

  lemma {:induction false} SeenMembers(polls: seq<Poll>)
    ensures forall x :: x in Seen(polls) <==> exists k :: 0 <= k < |polls| && x in Page(polls[k])
  {
    if polls != [] {
      var rest, last := polls[..|polls| - 1], polls[|polls| - 1];
      SeenMembers(rest);
      forall x ensures x in Seen(polls) <==> exists k :: 0 <= k < |polls| && x in Page(polls[k]) {
        if x in Seen(rest) {
          var k :| 0 <= k < |rest| && x in Page(rest[k]);
          assert x in Page(polls[k]);
        }
        if x in Page(last) {
          assert x in Page(polls[|polls| - 1]);
        }
        if k :| 0 <= k < |polls| && x in Page(polls[k]) {
          assert k < |rest| ==> x in Page(rest[k]);
        }
      }
    }
  }

  /** Up to poll k, whatever is listed under the id is one execution, read at the instant of its poll. */
  predicate OneExecution(polls: seq<Poll>, k: nat, id: string, startedAt: Time, clock: nat -> Time)
    requires k < |polls|
  {
    forall j: nat, x :: j <= k && x in Page(polls[j]) && x.workflowId == id ==> x == Listed(id, startedAt, clock(j))
  }

  lemma NotBefore(cfg: Config, polls: seq<Poll>, id: string, startedAt: Time, clock: nat -> Time, k: nat)
    requires k < |polls| && OneExecution(polls, k, id, startedAt, clock)
    requires forall j: nat :: j < k ==> clock(j) < startedAt + cfg.alertAfter
    ensures id !in Marked(cfg, {}, Seen(polls[..k]))
  {
    var before := polls[..k];
    MarkedIffOverdue(cfg, Seen(before), id);
    forall x | x in Seen(before) && x.workflowId == id ensures !Overdue(cfg, x) {
      SeenMembers(before);
      var j: nat :| j < k && x in Page(before[j]);
      assert before[j] == polls[j];
      assert x == Listed(id, startedAt, clock(j));
    }
  }

  lemma AtTheLatest(cfg: Config, polls: seq<Poll>, k: nat, x: Listed)
    requires k < |polls| && x in Page(polls[k]) && Overdue(cfg, x)
    ensures x.workflowId in Marked(cfg, {}, Seen(polls[..k + 1]))
  {
    var upTo := polls[..k + 1];
    MarkedIffOverdue(cfg, Seen(upTo), x.workflowId);
    SeenMembers(upTo);
    assert x in Page(upTo[k]);
  }

  /**
   An execution is alerted at the first poll that lists it at or after its start plus the threshold, and not
   before. If the monitor was already polling then, the reported running time stays below the threshold plus
   the time between the two polls.
   */
  lemma DetectionIsTimely(cfg: Config, polls: seq<Poll>, id: string, startedAt: Time, clock: nat -> Time, k: nat)
    requires cfg.alertAfter > 0 && k < |polls|
    requires OneExecution(polls, k, id, startedAt, clock)
    requires ListedAt(polls[k], id, startedAt, clock(k)) && clock(k) >= startedAt + cfg.alertAfter
    requires forall j: nat :: j < k ==> clock(j) < startedAt + cfg.alertAfter
    ensures id !in Marked(cfg, {}, Seen(polls[..k]))
    ensures id in Marked(cfg, {}, Seen(polls[..k + 1]))
    ensures k > 0 ==> clock(k) - startedAt < cfg.alertAfter + (clock(k) - clock(k - 1))
  {
    NotBefore(cfg, polls, id, startedAt, clock, k);
    AtTheLatest(cfg, polls, k, Listed(id, startedAt, clock(k)));
  }

  /** A ticker whose first tick is at `first`. */
  function TickAt(first: Time, k: nat): Time {
    if k == 0 then first else TickAt(first, k - 1) + MINIMUM_INTERVAL
  }

  function Ticker(first: Time): nat -> Time {
    (k: nat) => TickAt(first, k)
  }

  predicate AlertedBy(cfg: Config, polls: seq<Poll>, id: string, j: nat)
    requires j < |polls|
  {
    id !in Marked(cfg, {}, Seen(polls[..j])) && id in Marked(cfg, {}, Seen(polls[..j + 1]))
  }

  /** The first of the ticks 0 to k that is not before the given instant. */
  lemma {:induction false} FirstTickFrom(first: Time, instant: Time, k: nat) returns (j: nat)
    requires first < instant <= TickAt(first, k)
    ensures 0 < j <= k && TickAt(first, j - 1) < instant <= TickAt(first, j)
    ensures forall i: nat :: i < j ==> TickAt(first, i) < instant
  {
    j := 1;
    while TickAt(first, j) < instant
      invariant 0 < j <= k
      invariant forall i: nat :: i < j ==> TickAt(first, i) < instant
      decreases k - j
    {
      j := j + 1;
    }
  }

  lemma OneExecutionBefore(polls: seq<Poll>, j: nat, k: nat, id: string, startedAt: Time, clock: nat -> Time)
    requires j <= k < |polls| && OneExecution(polls, k, id, startedAt, clock)
    ensures OneExecution(polls, j, id, startedAt, clock)
  {
  }

  /** With polls read on the tick, an execution listed at every tick is alerted less than 30 seconds late. */
  lemma DetectedWithinAnInterval(cfg: Config, polls: seq<Poll>, id: string, startedAt: Time, first: Time, k: nat)
    returns (j: nat)
    requires cfg.alertAfter > 0 && k < |polls|
    requires OneExecution(polls, k, id, startedAt, Ticker(first))
    requires forall i: nat :: i <= k ==> ListedAt(polls[i], id, startedAt, TickAt(first, i))
    requires first < startedAt + cfg.alertAfter <= TickAt(first, k)
    ensures j <= k && AlertedBy(cfg, polls, id, j)
    ensures cfg.alertAfter <= TickAt(first, j) - startedAt < cfg.alertAfter + MINIMUM_INTERVAL
  {
    j := FirstTickFrom(first, startedAt + cfg.alertAfter, k);
    OneExecutionBefore(polls, j, k, id, startedAt, Ticker(first));
    DetectionIsTimely(cfg, polls, id, startedAt, Ticker(first), j);
  }

  /**
   The price of remembering ids instead of runs: after an alert, no later execution under the same id is ever
   alerted by this monitor.
   */
  lemma {:induction false} LaterRunsAreNeverAlerted(cfg: Config, alerted: set<string>, page: seq<Listed>, id: string)
    requires id in alerted
    ensures id !in AlertedIds(Verdicts(cfg, alerted, page))
  {
    if page != [] {
      var rest := page[..|page| - 1];
      LaterRunsAreNeverAlerted(cfg, alerted, rest, id);
      MarkedGrows(cfg, alerted, rest);
      assert Verdicts(cfg, alerted, page)[..|Verdicts(cfg, alerted, page)| - 1] == Verdicts(cfg, alerted, rest);
    }
  }

  /** Exactly when a listing is alerted: it is overdue, and no earlier listing under its id was. */
  lemma {:induction false} AlertedIff(cfg: Config, seen: seq<Listed>, k: nat)
    requires k < |seen|
    ensures |Verdicts(cfg, {}, seen)| == |seen|
    ensures Verdicts(cfg, {}, seen)[k].Alerted? <==>
      && cfg.alertAfter > 0 && seen[k].readAt - seen[k].startedAt >= cfg.alertAfter
      && forall j :: 0 <= j < k ==>
           !(seen[j].workflowId == seen[k].workflowId && seen[j].readAt - seen[j].startedAt >= cfg.alertAfter)
  {
    var rest := seen[..|seen| - 1];
    VerdictsAreSound(cfg, {}, seen);
    VerdictsAreSound(cfg, {}, rest);
    if k < |rest| {
      AlertedIff(cfg, rest, k);
    } else {
      AlertedIffLast(cfg, rest, seen[k]);
    }
  }

  lemma AlertedIffLast(cfg: Config, rest: seq<Listed>, last: Listed)
    ensures Judge(cfg, Marked(cfg, {}, rest), last).Alerted? <==>
      && Overdue(cfg, last)
      && forall j :: 0 <= j < |rest| ==> !(rest[j].workflowId == last.workflowId && Overdue(cfg, rest[j]))
  {
    MarkedIffOverdue(cfg, rest, last.workflowId);
  }

  /**
   A listing of a later run (its start differs) that is overdue but not alerted, because an earlier run under
   its id was: the documentation promises one call per workflow, and this run gets none.
   */
  lemma ReusedIdGetsNoAlert(cfg: Config, id: string, startedAt: Time, restartedAt: Time)
    requires cfg.alertAfter > 0 && startedAt < restartedAt
    ensures var first := Listed(id, startedAt, startedAt + cfg.alertAfter);
      var second := Listed(id, restartedAt, restartedAt + cfg.alertAfter);
      var vs := Verdicts(cfg, {}, Seen([Some([first]), Some([second])]));
      && Overdue(cfg, first) && Overdue(cfg, second)
      && |vs| == 2 && vs[0].Alerted? && !vs[1].Alerted?
  {
    var first := Listed(id, startedAt, startedAt + cfg.alertAfter);
    var second := Listed(id, restartedAt, restartedAt + cfg.alertAfter);
    SeenOfTwo([first], [second]);
    AlertedIff(cfg, [first] + [second], 0);
    AlertedIff(cfg, [first] + [second], 1);
  }

  lemma SeenOfTwo(a: seq<Listed>, b: seq<Listed>)
    ensures Seen([Some(a), Some(b)]) == a + b
  {
    assert [Some(a), Some(b)][..1] == [Some(a)];
    assert Seen([Some(a)]) == a by {
      assert [Some(a)][..0] == [];
      assert Seen([]) + a == a;
    }
  }
}
