/** Named version decisions over the markers recorded in a run's history. */
module Versioning {
  import opened Temporal

  datatype Definition = Definition(name: string, maxVersion: int)

  /** The recorded markers of a run and the answers collected by its change set. */
  datatype Session = Session(markers: map<string, int>, results: map<string, int>)

  /**
   What Temporal answers: the recorded marker if there is one; the default while re-executing a
   run that has none; otherwise the highest supported version, which is then recorded. A recorded
   version above the supported maximum panics (`None`).
   */
  function GetVersion(markers: map<string, int>, replaying: bool, d: Definition): Option<(int, map<string, int>)> {
    if d.name in markers then
      if markers[d.name] > d.maxVersion then None else Some((markers[d.name], markers))
    else if replaying then Some((DEFAULT_VERSION, markers))
    else Some((d.maxVersion, markers[d.name := d.maxVersion]))
  }

  function DefineOne(s: Session, replaying: bool, d: Definition): Option<Session> {
    match GetVersion(s.markers, replaying, d)
    case None => None
    case Some((v, markers)) => Some(Session(markers, s.results[d.name := v]))
  }

  class ChangeSet {
    const ctx: Context
    var results: map<string, int>

    constructor (ctx: Context)
      ensures this.ctx == ctx && results == map[]
    {
      this.ctx, this.results := ctx, map[];
    }

    method Define(name: string, maxVersion: int) returns (panicked: bool)
      modifies this`results, ctx`markers
      ensures
        var before, d := Session(old(ctx.markers), old(results)), Definition(name, maxVersion);
        var after := DefineOne(before, ctx.replaying, d);
        if after.None? then panicked && ctx.markers == old(ctx.markers) && results == old(results)
        else !panicked && Session(ctx.markers, results) == after.value
    {
      var answer := GetVersion(ctx.markers, ctx.replaying, Definition(name, maxVersion));
      if answer.None? {
        panicked := true;
        return;
      }
      panicked := false;
      ctx.markers := answer.value.1;
      results := results[name := answer.value.0];
    }

    function IsEnabled(name: string): (enabled: bool)
      reads this
      ensures enabled <==> name in results && results[name] >= 1
    {
      Enabled(results, name)
    }

    function Version(name: string): (version: int)
      reads this
      ensures name in results ==> version == results[name]
      ensures name !in results ==> version == -1
    {
      VersionOf(results, name)
    }
  }

  predicate Enabled(results: map<string, int>, name: string) {
    name in results && results[name] >= 1
  }

  function VersionOf(results: map<string, int>, name: string): int {
    if name in results then results[name] else DEFAULT_VERSION
  }

  /** A change is enabled exactly from its first version on; without an answer it is on the default, -1. */
  lemma EnabledIffVersioned(results: map<string, int>, name: string)
    ensures Enabled(results, name) <==> VersionOf(results, name) >= 1
    ensures name !in results ==> VersionOf(results, name) == -1
    ensures name in results ==> VersionOf(results, name) == results[name]
  {
  }

  // ---- A workflow's block of Define calls ----

  function DefineAll(defs: seq<Definition>, replaying: bool, s: Session): Option<Session> {
    if defs == [] then Some(s)
    else
      match DefineOne(s, replaying, defs[0])
      case None => None
      case Some(next) => DefineAll(defs[1..], replaying, next)
  }

  predicate Defines(defs: seq<Definition>, name: string) {
    exists d :: d in defs && d.name == name
  }

  /** The version a run is on for a change: its marker, or the default. */
  function Recorded(markers: map<string, int>, name: string): int {
    if name in markers then markers[name] else DEFAULT_VERSION
  }

  ghost predicate Supports(defs: seq<Definition>, markers: map<string, int>) {
    forall d :: d in defs && d.name in markers ==> markers[d.name] <= d.maxVersion
  }

  /**
   Re-executing a run in flight: no marker is added, the block gets through exactly when the code still
   supports every recorded version, and every defined name is answered by what the run recorded.
   */
  lemma {:induction false} InFlightAnswers(defs: seq<Definition>, s: Session)
    ensures DefineAll(defs, true, s).Some? <==> Supports(defs, s.markers)
    ensures DefineAll(defs, true, s).Some? ==> var t := DefineAll(defs, true, s).value;
      && t.markers == s.markers
      && (forall name :: Defines(defs, name) ==> VersionOf(t.results, name) == Recorded(s.markers, name))
      && (forall name :: !Defines(defs, name) ==> VersionOf(t.results, name) == VersionOf(s.results, name))
      && (forall name :: name in t.results <==> name in s.results || Defines(defs, name))
  {
    if defs != [] {
      var d, rest := defs[0], defs[1..];
      assert forall name :: Defines(defs, name) <==> d.name == name || Defines(rest, name);
      assert Supports(defs, s.markers) <==> Supports([d], s.markers) && Supports(rest, s.markers);
      assert d in [d];
      if Supports([d], s.markers) {
        InFlightAnswers(rest, DefineOne(s, true, d).value);
      }
    }
  }

  /** A run never loses or changes a marker, and every defined name ends up recorded when it runs fresh. */
  lemma {:induction false} FreshMarkers(defs: seq<Definition>, s: Session)
    requires DefineAll(defs, false, s).Some?
    ensures var t := DefineAll(defs, false, s).value;
      && (forall name :: name in s.markers ==> name in t.markers && t.markers[name] == s.markers[name])
      && (forall name :: name in t.markers <==> name in s.markers || Defines(defs, name))
      && Supports(defs, t.markers)
      && (forall name :: Defines(defs, name) ==> VersionOf(t.results, name) == Recorded(t.markers, name))
      && (forall name :: !Defines(defs, name) ==> VersionOf(t.results, name) == VersionOf(s.results, name))
  {
    if defs != [] {
      var d, rest := defs[0], defs[1..];
      assert forall name :: Defines(defs, name) <==> d.name == name || Defines(rest, name);
      FreshMarkers(rest, DefineOne(s, false, d).value);
    }
  }

  /** A fresh run is on the maximum version of every change it defines for the first time. */
  lemma {:induction false} FreshRunsGetTheMaximum(defs: seq<Definition>, s: Session, k: nat)
    requires DefineAll(defs, false, s).Some? && k < |defs|
    requires defs[k].name !in s.markers && !Defines(defs[..k], defs[k].name)
    ensures VersionOf(DefineAll(defs, false, s).value.results, defs[k].name) == defs[k].maxVersion
    ensures Enabled(DefineAll(defs, false, s).value.results, defs[k].name) <==> defs[k].maxVersion >= 1
  {
    var rest := defs[1..];
    var next := DefineOne(s, false, defs[0]).value;
    if k == 0 {
      FreshMarkers(rest, next);
    } else {
      assert defs[0] in defs[..k];
      assert forall d :: d in rest[..k - 1] ==> d in defs[..k];
      FreshRunsGetTheMaximum(rest, next, k - 1);
    }
  }

  /**
   Replaying the code that produced a history answers every question as the original run did, whatever markers
   (of other change sets, or of direct GetVersion calls) the run had recorded before this block.
   */
  lemma ReplayReproducesTheRun(defs: seq<Definition>, s: Session, name: string)
    requires s.results == map[] && DefineAll(defs, false, s).Some?
    ensures var original := DefineAll(defs, false, s).value;
      var replay := DefineAll(defs, true, Session(original.markers, map[]));
      && replay.Some? && replay.value.markers == original.markers
      && VersionOf(replay.value.results, name) == VersionOf(original.results, name)
      && Enabled(replay.value.results, name) == Enabled(original.results, name)
  {
    FreshMarkers(defs, s);
    InFlightAnswers(defs, Session(DefineAll(defs, false, s).value.markers, map[]));
  }

  /** A run in flight has a change enabled exactly when its own history recorded version 1 or higher of it. */
  lemma InFlightEnabledIff(defs: seq<Definition>, s: Session, name: string)
    requires DefineAll(defs, true, s).Some? && Defines(defs, name)
    ensures Enabled(DefineAll(defs, true, s).value.results, name) <==> name in s.markers && s.markers[name] >= 1
  {
    InFlightAnswers(defs, s);
    EnabledIffVersioned(DefineAll(defs, true, s).value.results, name);
  }

  /**
   The markers after re-executions by a list of deployed versions, each keeping what it recorded if it gets
   through. `DeploymentsKeepMarkers` proves that this is no change at all.
   */
  function Deploy(deployments: seq<seq<Definition>>, markers: map<string, int>): map<string, int> {
    if deployments == [] then markers
    else
      var s := DefineAll(deployments[0], true, Session(markers, map[]));
      Deploy(deployments[1..], if s.Some? then s.value.markers else markers)
  }

  lemma {:induction false} DeploymentsKeepMarkers(deployments: seq<seq<Definition>>, markers: map<string, int>)
    ensures Deploy(deployments, markers) == markers
  {
    if deployments != [] {
      InFlightAnswers(deployments[0], Session(markers, map[]));
      DeploymentsKeepMarkers(deployments[1..], markers);
    }
  }

  /**
   A run started by `defs`, whatever it had recorded before, and re-executed, after any deployments, by code
   `now` (Defines added anywhere, reordered, maxima raised). An answer the run got is unchanged exactly when
   `now` still defines its name or the run was on the default anyway; every change new to `now` and to the run
   stays on the old path. As `Deploy` turns out to be the identity, `deployments` only says that re-executions
   in between, supported or not, make no difference.
   */
  lemma AnswersSurviveDeployments(defs: seq<Definition>, s: Session, deployments: seq<seq<Definition>>,
                                  now: seq<Definition>, name: string)
    requires s.results == map[] && DefineAll(defs, false, s).Some?
    requires Supports(now, DefineAll(defs, false, s).value.markers)
    ensures var original := DefineAll(defs, false, s).value;
      var replay := DefineAll(now, true, Session(Deploy(deployments, original.markers), map[]));
      && replay.Some?
      && (Defines(defs, name) ==>
            (VersionOf(replay.value.results, name) == VersionOf(original.results, name)
             <==> Defines(now, name) || VersionOf(original.results, name) == DEFAULT_VERSION))
      && (!Defines(defs, name) && name !in s.markers ==>
            VersionOf(replay.value.results, name) == DEFAULT_VERSION && !Enabled(replay.value.results, name))
  {
    FreshMarkers(defs, s);
    var original := DefineAll(defs, false, s).value;
    DeploymentsKeepMarkers(deployments, original.markers);
    InFlightAnswers(now, Session(original.markers, map[]));
  }
}
