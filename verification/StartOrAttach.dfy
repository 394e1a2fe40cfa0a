/**
 Start a workflow or attach to the running one: a start request, and on refusal a describe request, racing
 against other clients, other starters and completions.
 */
module StartOrAttach {
  import opened Temporal

  /** Who created a run: a client whose call returned it, a client whose reply was lost, or someone else. */
  datatype Creator = CallOf(client: nat) | LostCallOf(client: nat) | Elsewhere

  /** An execution; its run id is its position among all runs of the server. */
  datatype Run = Run(workflowId: string, running: bool, creator: Creator)

  datatype ReusePolicy = AllowDuplicate | RejectDuplicate

  /**
   The start options. `refuseRunning` asks for an AlreadyStarted error when the id is running; without it the
   existing run is handed out as if it had been started.
   */
  datatype Options = Options(id: string, reusePolicy: ReusePolicy, refuseRunning: bool, taskQueue: string)

  datatype Fault = NoFault | RequestLost | ReplyLost

  datatype StartReply = Started(runId: nat) | AlreadyStarted | Unavailable

  datatype Handle = Handle(workflowId: string, runId: nat, alreadyRunning: bool)

  datatype Result = Attached(handle: Handle) | Error(message: string)

  // ---- The server ----

  /** The most recent run of an id: what a describe without run id resolves to. */
  function Latest(runs: seq<Run>, id: string): (r: Option<nat>)
    ensures r.Some? ==> r.value < |runs| && runs[r.value].workflowId == id
    ensures r.Some? ==> forall i :: r.value < i < |runs| ==> runs[i].workflowId != id
    ensures r.None? ==> forall i :: 0 <= i < |runs| ==> runs[i].workflowId != id
  {
    if runs == [] then None
    else if runs[|runs| - 1].workflowId == id then Some(|runs| - 1)
    else Latest(runs[..|runs| - 1], id)
  }

  predicate IsRunning(runs: seq<Run>, id: string) {
    Latest(runs, id).Some? && runs[Latest(runs, id).value].running
  }

  /** Only the most recent run of an id can be running, so at most one is. */
  predicate WellFormed(runs: seq<Run>) {
    forall i :: 0 <= i < |runs| && runs[i].running ==>
      forall j :: i < j < |runs| ==> runs[j].workflowId != runs[i].workflowId
  }

  function Close(runs: seq<Run>, id: string): seq<Run> {
    if IsRunning(runs, id) then
      runs[Latest(runs, id).value := runs[Latest(runs, id).value].(running := false)]
    else runs
  }

  function Launch(runs: seq<Run>, id: string, creator: Creator): seq<Run> {
    if IsRunning(runs, id) then runs else runs + [Run(id, true, creator)]
  }

  /** A start request. */
  function Start(runs: seq<Run>, opts: Options, client: nat, fault: Fault): (seq<Run>, StartReply) {
    if fault.RequestLost? then (runs, Unavailable)
    else if IsRunning(runs, opts.id) then
      (runs,
       if fault.ReplyLost? then Unavailable
       else if opts.refuseRunning then AlreadyStarted
       else Started(Latest(runs, opts.id).value))
    else if opts.reusePolicy.RejectDuplicate? && Latest(runs, opts.id).Some? then
      (runs, if fault.ReplyLost? then Unavailable else AlreadyStarted)
    else if fault.ReplyLost? then (runs + [Run(opts.id, true, LostCallOf(client))], Unavailable)
    else (runs + [Run(opts.id, true, CallOf(client))], Started(|runs|))
  }

  /** What others do between two requests of a client. */
  datatype Interference = Completes(id: string) | StartsElsewhere(id: string)

  function Disturb(runs: seq<Run>, x: Interference): seq<Run> {
    match x
    case Completes(id) => Close(runs, id)
    case StartsElsewhere(id) => Launch(runs, id, Elsewhere)
  }

  function DisturbAll(runs: seq<Run>, xs: seq<Interference>): seq<Run> {
    if xs == [] then runs else Disturb(DisturbAll(runs, xs[..|xs| - 1]), xs[|xs| - 1])
  }

  class Server {
    var runs: seq<Run>

    constructor ()
      ensures runs == []
    {
      runs := [];
    }

    method ExecuteWorkflow(opts: Options, client: nat, fault: Fault) returns (reply: StartReply)
      modifies this
      ensures (runs, reply) == Start(old(runs), opts, client, fault)
    {
      var answer := Start(runs, opts, client, fault);
      runs, reply := answer.0, answer.1;
    }

    /** Everything that happens on the server until the client's next request. */
    method Elapse(xs: seq<Interference>)
      modifies this
      ensures runs == DisturbAll(old(runs), xs)
    {
      runs := DisturbAll(runs, xs);
    }

    method Describe(id: string, fails: bool) returns (runId: Option<nat>)
      ensures runId == if fails then None else Latest(runs, id)
    {
      if fails {
        return None;
      }
      return Latest(runs, id);
    }
  }

  /** What a caller cannot choose: the id argument and the reuse policy win over the options. */
  function Effective(options: Options, workflowId: string): (effective: Options)
    ensures effective.id == workflowId && effective.reusePolicy == AllowDuplicate
    ensures effective.refuseRunning == options.refuseRunning && effective.taskQueue == options.taskQueue
  {
    options.(id := workflowId, reusePolicy := AllowDuplicate)
  }

  /** The server's runs after one call with a non-empty id, and what the call returns. */
  function CallResult(
    runs: seq<Run>, client: nat, workflowId: string, options: Options,
    fault: Fault, between: seq<Interference>, describeFails: bool): (seq<Run>, Result)
  {
    var (started, reply) := Start(runs, Effective(options, workflowId), client, fault);
    match reply
    case Started(runId) => (started, Attached(Handle(workflowId, runId, false)))
    case Unavailable => (started, Error("start workflow failed"))
    case AlreadyStarted =>
      var later := DisturbAll(started, between);
      (later,
       if describeFails || Latest(later, workflowId).None? then Error("already running but describe failed")
       else Attached(Handle(workflowId, Latest(later, workflowId).value, true)))
  }

  method StartOrAttachWithOptions(
    server: Server, client: nat, workflowId: string, options: Options,
    fault: Fault, between: seq<Interference>, describeFails: bool) returns (r: Result)
    modifies server
    ensures workflowId == "" ==>
      r == Error("StartOrAttach: workflowID is required") && server.runs == old(server.runs)
    ensures workflowId != "" ==>
      (server.runs, r) == CallResult(old(server.runs), client, workflowId, options, fault, between, describeFails)
  {
    if workflowId == "" {
      return Error("StartOrAttach: workflowID is required");
    }
    var opts := options;
    opts := opts.(id := workflowId);
    opts := opts.(reusePolicy := AllowDuplicate);
    var reply := server.ExecuteWorkflow(opts, client, fault);
    if reply.Started? {
      return Attached(Handle(workflowId, reply.runId, false));
    }
    if !reply.AlreadyStarted? {
      return Error("start workflow failed");
    }
    server.Elapse(between);
    var runId := server.Describe(workflowId, describeFails);
    if runId.None? {
      return Error("already running but describe failed");
    }
    return Attached(Handle(workflowId, runId.value, true));
  }

  // ---- How the server's runs can evolve ----

  /** One atomic change: nothing, the end of a running run, or one new run of an id that is not running. */
  ghost predicate Evolves(a: seq<Run>, b: seq<Run>) {
    || a == b
    || (exists id :: b == Close(a, id))
    || (exists r: Run :: r.running && !IsRunning(a, r.workflowId) && b == a + [r])
  }

  lemma EvolvingKeepsWellFormed(a: seq<Run>, b: seq<Run>)
    requires WellFormed(a) && Evolves(a, b)
    ensures WellFormed(b) && |a| <= |b| <= |a| + 1
    ensures forall i :: 0 <= i < |a| ==> a[i].workflowId == b[i].workflowId && a[i].creator == b[i].creator
    ensures |b| == |a| + 1 ==> b[|a|].running
  {
  }

  lemma LatestIsUnique(runs: seq<Run>, id: string, r: nat)
    requires r < |runs| && runs[r].workflowId == id
    requires forall i :: r < i < |runs| ==> runs[i].workflowId != id
    ensures Latest(runs, id) == Some(r)
  {
    var l := Latest(runs, id);
    assert l.Some?;
  }

  lemma DisturbEvolves(runs: seq<Run>, x: Interference)
    ensures Evolves(runs, Disturb(runs, x))
  {
    if x.StartsElsewhere? && !IsRunning(runs, x.id) {
      var r := Run(x.id, true, Elsewhere);
      assert r.running && !IsRunning(runs, r.workflowId) && Disturb(runs, x) == runs + [r];
    }
  }

  lemma StartEvolves(runs: seq<Run>, opts: Options, client: nat, fault: Fault)
    ensures Evolves(runs, Start(runs, opts, client, fault).0)
  {
    var after := Start(runs, opts, client, fault).0;
    if after != runs {
      var r := Run(opts.id, true, if fault.ReplyLost? then LostCallOf(client) else CallOf(client));
      assert r.running && !IsRunning(runs, r.workflowId) && after == runs + [r];
    }
  }

  // ---- What one call returns, written out ----

  /** A run stays the latest of its id, or a later one of the id takes its place: an id never disappears. */
  lemma {:induction false} LatestStays(runs: seq<Run>, xs: seq<Interference>, id: string)
    requires Latest(runs, id).Some?
    ensures Latest(DisturbAll(runs, xs), id).Some?
  {
    if xs != [] {
      LatestStays(runs, xs[..|xs| - 1], id);
      DisturbKeepsIds(DisturbAll(runs, xs[..|xs| - 1]), xs[|xs| - 1], id);
    }
  }

  lemma DisturbKeepsIds(runs: seq<Run>, x: Interference, id: string)
    requires Latest(runs, id).Some?
    ensures Latest(Disturb(runs, x), id).Some?
  {
    var r := Latest(runs, id).value;
    assert Disturb(runs, x)[r].workflowId == id;
  }

  /**
   Exactly when a call with a non-empty id fails, and with which handle it succeeds otherwise: it fails if the
   start request or its reply is lost, or if it is refused and the describe fails. A refused call attaches, with
   AlreadyRunning=true, to the latest run of the id at that time. Any other call names, with AlreadyRunning=false,
   the running run of the id, or a new one.
   */
  lemma CallIsExact(
    runs: seq<Run>, c: nat, id: string, options: Options,
    fault: Fault, between: seq<Interference>, describeFails: bool)
    ensures var (after, r) := CallResult(runs, c, id, options, fault, between, describeFails);
      var refused := fault.NoFault? && options.refuseRunning && IsRunning(runs, id);
      && (r.Error? <==> !fault.NoFault? || (refused && describeFails))
      && (r.Attached? ==>
            && r.handle.workflowId == id && r.handle.alreadyRunning == refused
            && (refused ==> Latest(after, id) == Some(r.handle.runId))
            && (!refused && IsRunning(runs, id) ==> Latest(runs, id) == Some(r.handle.runId) && after == runs)
            && (!refused && !IsRunning(runs, id) ==>
                  r.handle.runId == |runs| && after == runs + [Run(id, true, CallOf(c))]))
      && (fault.RequestLost? ==> after == runs)
      && (fault.ReplyLost? ==> after == if IsRunning(runs, id) then runs else runs + [Run(id, true, LostCallOf(c))])
  {
    if IsRunning(runs, id) {
      LatestStays(runs, between, id);
    }
  }

  // ---- Many clients ----

  datatype Event =
    | Begin(client: nat, id: string, options: Options, fault: Fault)
    | Describe(client: nat, fails: bool)
    | Other(x: Interference)

  /** Where a client's call is; `asked` remembers whether it asked for refusal of running ids. */
  datatype Client = Refused(id: string, asked: bool) | Holds(handle: Handle, asked: bool) | Gone

  datatype State = State(runs: seq<Run>, clients: map<nat, Client>)

  /** One atomic step of the system. */
  function Next(s: State, e: Event): Option<State> {
    match e
    case Begin(c, id, options, fault) =>
      if c in s.clients || id == "" then None
      else
        var (runs, reply) := Start(s.runs, Effective(options, id), c, fault);
        Some(State(runs, s.clients[c :=
          match reply
          case Started(runId) => Holds(Handle(id, runId, false), options.refuseRunning)
          case AlreadyStarted => Refused(id, options.refuseRunning)
          case Unavailable => Gone]))
    case Describe(c, fails) =>
      if c !in s.clients || !s.clients[c].Refused? then None
      else
        var id, latest := s.clients[c].id, Latest(s.runs, s.clients[c].id);
        Some(s.(clients := s.clients[c :=
          if fails || latest.None? then Gone else Holds(Handle(id, latest.value, true), s.clients[c].asked)]))
    case Other(x) => Some(s.(runs := Disturb(s.runs, x)))
  }

  /** The state after a list of events, if they are all possible. */
  function Steps(s: State, events: seq<Event>): Option<State> {
    if events == [] then Some(s)
    else
      match Steps(s, events[..|events| - 1])
      case None => None
      case Some(t) => Next(t, events[|events| - 1])
  }

  function Reach(trace: seq<Event>): Option<State> {
    Steps(State([], map[]), trace)
  }

  // ---- A call is its events ----

  function Others(xs: seq<Interference>): (es: seq<Event>)
    ensures |es| == |xs| && forall i :: 0 <= i < |xs| ==> es[i] == Other(xs[i])
  {
    seq(|xs|, i requires 0 <= i < |xs| => Other(xs[i]))
  }

  lemma {:induction false} OthersElapse(s: State, xs: seq<Interference>)
    ensures Steps(s, Others(xs)) == Some(s.(runs := DisturbAll(s.runs, xs)))
  {
    if xs != [] {
      assert Others(xs)[..|xs| - 1] == Others(xs[..|xs| - 1]);
      OthersElapse(s, xs[..|xs| - 1]);
    }
  }

  /** The client's entry after its call says what the call returned. */
  predicate Returns(client: Client, r: Result) {
    match r
    case Attached(handle) => client.Holds? && client.handle == handle
    case Error(_) => client.Gone?
  }

  /** The events of one call: a start and, if that is refused, whatever others do and then a describe. */
  function EventsOf(
    runs: seq<Run>, c: nat, id: string, options: Options,
    fault: Fault, between: seq<Interference>, describeFails: bool): seq<Event>
  {
    [Begin(c, id, options, fault)] +
    if Start(runs, Effective(options, id), c, fault).1.AlreadyStarted?
    then Others(between) + [Describe(c, describeFails)] else []
  }

  lemma {:induction false} StepsCompose(s: State, a: seq<Event>, b: seq<Event>)
    requires Steps(s, a).Some?
    ensures Steps(s, a + b) == Steps(Steps(s, a).value, b)
  {
    if b == [] {
      assert a + b == a;
    } else {
      assert (a + b)[..|a + b| - 1] == a + b[..|b| - 1];
      StepsCompose(s, a, b[..|b| - 1]);
    }
  }

  lemma SingleStep(s: State, e: Event)
    ensures Steps(s, [e]) == Next(s, e)
  {
    assert [e][..0] == [];
  }

  lemma RefusedCall(s: State, c: nat, between: seq<Interference>, describeFails: bool)
    requires c in s.clients && s.clients[c].Refused?
    ensures Steps(s, Others(between) + [Describe(c, describeFails)]) ==
      Next(s.(runs := DisturbAll(s.runs, between)), Describe(c, describeFails))
  {
    OthersElapse(s, between);
    StepsCompose(s, Others(between), [Describe(c, describeFails)]);
    SingleStep(s.(runs := DisturbAll(s.runs, between)), Describe(c, describeFails));
  }

  /** What the events of a call do, compared with its result. */
  predicate Performs(s: State, c: nat, events: seq<Event>, runs: seq<Run>, r: Result) {
    var t := Steps(s, events);
    && t.Some?
    && t.value.runs == runs
    && c in t.value.clients && Returns(t.value.clients[c], r)
    && t.value.clients == s.clients[c := t.value.clients[c]]
  }

  /** The state in which a refused client sends its describe. */
  function BeforeDescribe(s: State, c: nat, id: string, options: Options, between: seq<Interference>): State {
    State(DisturbAll(s.runs, between), s.clients[c := Refused(id, options.refuseRunning)])
  }

  lemma RefusedSteps(
    s: State, c: nat, id: string, options: Options,
    fault: Fault, between: seq<Interference>, describeFails: bool)
    requires id != "" && c !in s.clients && Start(s.runs, Effective(options, id), c, fault).1.AlreadyStarted?
    ensures Steps(s, EventsOf(s.runs, c, id, options, fault, between, describeFails)) ==
      Next(BeforeDescribe(s, c, id, options, between), Describe(c, describeFails))
  {
    var begin := Begin(c, id, options, fault);
    SingleStep(s, begin);
    StepsCompose(s, [begin], Others(between) + [Describe(c, describeFails)]);
    RefusedCall(Next(s, begin).value, c, between, describeFails);
  }

  lemma RefusedCallIsItsEvents(
    s: State, c: nat, id: string, options: Options,
    fault: Fault, between: seq<Interference>, describeFails: bool)
    requires id != "" && c !in s.clients && Start(s.runs, Effective(options, id), c, fault).1.AlreadyStarted?
    ensures var (runs, r) := CallResult(s.runs, c, id, options, fault, between, describeFails);
      Performs(s, c, EventsOf(s.runs, c, id, options, fault, between, describeFails), runs, r)
  {
    RefusedSteps(s, c, id, options, fault, between, describeFails);
    var t := Next(BeforeDescribe(s, c, id, options, between), Describe(c, describeFails)).value;
    assert t.clients == s.clients[c := t.clients[c]];
  }

  /** One call of the library is exactly the steps of its events: same runs, same result, no other client. */
  lemma CallIsItsEvents(
    s: State, c: nat, id: string, options: Options,
    fault: Fault, between: seq<Interference>, describeFails: bool)
    requires id != "" && c !in s.clients
    ensures var (runs, r) := CallResult(s.runs, c, id, options, fault, between, describeFails);
      Performs(s, c, EventsOf(s.runs, c, id, options, fault, between, describeFails), runs, r)
  {
    if Start(s.runs, Effective(options, id), c, fault).1.AlreadyStarted? {
      RefusedCallIsItsEvents(s, c, id, options, fault, between, describeFails);
    } else {
      assert EventsOf(s.runs, c, id, options, fault, between, describeFails) == [Begin(c, id, options, fault)];
      SingleStep(s, Begin(c, id, options, fault));
    }
  }

  // ---- Invariants of every interleaving ----

  predicate HoldsNew(s: State, c: nat) {
    c in s.clients && s.clients[c].Holds? && !s.clients[c].handle.alreadyRunning
  }

  /** A new handle of a client that asked for refusal names a run that the client's own call created. */
  ghost predicate HandlesNameOwnRuns(s: State) {
    forall c :: HoldsNew(s, c) && s.clients[c].asked ==>
      var h := s.clients[c].handle;
      h.runId < |s.runs| && s.runs[h.runId].creator == CallOf(c) && s.runs[h.runId].workflowId == h.workflowId
  }

  /** A run created by a call that returned is held, as new, by the client of that call. */
  ghost predicate RunsHaveHolders(s: State) {
    forall r :: 0 <= r < |s.runs| && s.runs[r].creator.CallOf? ==>
      var c := s.runs[r].creator.client;
      HoldsNew(s, c) && s.clients[c].handle == Handle(s.runs[r].workflowId, r, false)
  }

  ghost predicate Inv(s: State) {
    WellFormed(s.runs) && HandlesNameOwnRuns(s) && RunsHaveHolders(s)
  }

  lemma NextEvolves(s: State, e: Event)
    requires Next(s, e).Some?
    ensures Evolves(s.runs, Next(s, e).value.runs)
  {
    match e
    case Begin(c, id, options, fault) => StartEvolves(s.runs, Effective(options, id), c, fault);
    case Describe(_, _) =>
    case Other(x) => DisturbEvolves(s.runs, x);
  }

  lemma StartKeepsInv(s: State, c: nat, id: string, options: Options, fault: Fault)
    requires Inv(s) && Next(s, Begin(c, id, options, fault)).Some?
    ensures HandlesNameOwnRuns(Next(s, Begin(c, id, options, fault)).value)
    ensures RunsHaveHolders(Next(s, Begin(c, id, options, fault)).value)
  {
    var t := Next(s, Begin(c, id, options, fault)).value;
    assert t.runs == s.runs || t.runs == s.runs + [t.runs[|s.runs|]];
    assert forall d :: d != c ==> (HoldsNew(t, d) <==> HoldsNew(s, d));
    assert forall r :: 0 <= r < |s.runs| ==> t.runs[r] == s.runs[r];
  }

  lemma DescribeKeepsInv(s: State, c: nat, fails: bool)
    requires Inv(s) && Next(s, Describe(c, fails)).Some?
    ensures HandlesNameOwnRuns(Next(s, Describe(c, fails)).value)
    ensures RunsHaveHolders(Next(s, Describe(c, fails)).value)
  {
    var t := Next(s, Describe(c, fails)).value;
    assert forall d :: HoldsNew(t, d) <==> HoldsNew(s, d);
  }

  lemma OtherKeepsInv(s: State, x: Interference)
    requires Inv(s)
    ensures HandlesNameOwnRuns(Next(s, Other(x)).value)
    ensures RunsHaveHolders(Next(s, Other(x)).value)
  {
    var t := Next(s, Other(x)).value;
    assert forall d :: HoldsNew(t, d) <==> HoldsNew(s, d);
    DisturbEvolves(s.runs, x);
    EvolvingKeepsWellFormed(s.runs, t.runs);
    assert forall r :: |s.runs| <= r < |t.runs| ==> t.runs[r].creator == Elsewhere;
  }

  lemma NextKeepsInv(s: State, e: Event)
    requires Inv(s) && Next(s, e).Some?
    ensures Inv(Next(s, e).value)
  {
    NextEvolves(s, e);
    EvolvingKeepsWellFormed(s.runs, Next(s, e).value.runs);
    match e
    case Begin(c, id, options, fault) => StartKeepsInv(s, c, id, options, fault);
    case Describe(c, fails) => DescribeKeepsInv(s, c, fails);
    case Other(x) => OtherKeepsInv(s, x);
  }

  lemma {:induction false} ReachKeepsInv(trace: seq<Event>)
    requires Reach(trace).Some?
    ensures Inv(Reach(trace).value)
  {
    if trace != [] {
      ReachKeepsInv(trace[..|trace| - 1]);
      NextKeepsInv(Reach(trace[..|trace| - 1]).value, trace[|trace| - 1]);
    }
  }

  /** In every interleaving, whatever the clients ask for, each id has at most one running execution. */
  lemma AtMostOneRunning(trace: seq<Event>, i: nat, j: nat)
    requires Reach(trace).Some?
    requires var runs := Reach(trace).value.runs;
      i < |runs| && j < |runs| && runs[i].running && runs[j].running && runs[i].workflowId == runs[j].workflowId
    ensures i == j
  {
    ReachKeepsInv(trace);
  }

  /**
   Handles that claim a new execution, held by clients that asked for refusal, correspond one-to-one with the
   runs their calls created: each names a run its own call created, and no two share one. Every run created by
   a call that returned is held by that client, whether it asked or not.
   */
  lemma NewHandlesAreNewRuns(trace: seq<Event>)
    requires Reach(trace).Some?
    ensures var s := Reach(trace).value;
      && HandlesNameOwnRuns(s) && RunsHaveHolders(s)
      && forall c, d :: HoldsNew(s, c) && s.clients[c].asked && HoldsNew(s, d) && s.clients[d].asked && c != d ==>
           s.clients[c].handle.runId != s.clients[d].handle.runId
  {
    ReachKeepsInv(trace);
  }

  /**
   Exactly when the flag of a successful start tells the truth: the handle names a run that did not exist
   before iff the caller's options ask for refusal or the id was not running. An id whose runs have all ended
   is started anew, and a running one is never started twice.
   */
  lemma FlagIsTruthfulIff(runs: seq<Run>, id: string, options: Options, client: nat)
    ensures var reply := Start(runs, Effective(options, id), client, NoFault).1;
      (reply.Started? ==> reply.runId == |runs|) <==> options.refuseRunning || !IsRunning(runs, id)
    ensures var (after, reply) := Start(runs, Effective(options, id), client, NoFault);
      if IsRunning(runs, id) then after == runs && (options.refuseRunning ==> reply.AlreadyStarted?)
      else reply == Started(|runs|) && after[..|runs|] == runs && after[|runs|..] == [Run(id, true, CallOf(client))]
  {
  }

  /** Two clients that did not ask for refusal can both be told that they started one and the same run. */
  lemma WithoutRefusalHandlesAreShared(id: string, options: Options)
    requires id != "" && !options.refuseRunning
    ensures var s := Reach([Begin(0, id, options, NoFault), Begin(1, id, options, NoFault)]);
      && s.Some?
      && s.value.clients == map[0 := Holds(Handle(id, 0, false), false), 1 := Holds(Handle(id, 0, false), false)]
  {
    var first, second := Begin(0, id, options, NoFault), Begin(1, id, options, NoFault);
    var begun := State([Run(id, true, CallOf(0))], map[0 := Holds(Handle(id, 0, false), false)]);
    assert Latest([], id) == None;
    assert [] + [Run(id, true, CallOf(0))] == [Run(id, true, CallOf(0))];
    SingleStep(State([], map[]), first);
    assert Reach([first]) == Some(begun);
    LatestIsUnique(begun.runs, id, 0);
    assert [first, second][..1] == [first];
  }

  // ---- Which run a handle names ----

  lemma {:induction false} PrefixReaches(trace: seq<Event>, i: nat)
    requires Reach(trace).Some? && i <= |trace|
    ensures Reach(trace[..i]).Some?
    ensures i < |trace| ==> Next(Reach(trace[..i]).value, trace[i]) == Reach(trace[..i + 1])
  {
    if i == |trace| {
      assert trace[..i] == trace;
    } else {
      assert trace[..i + 1][..i] == trace[..i];
      var rest := trace[..|trace| - 1];
      if i < |rest| {
        PrefixReaches(rest, i);
        assert rest[..i] == trace[..i] && rest[..i + 1] == trace[..i + 1];
      } else {
        assert trace[..i + 1] == trace;
      }
    }
  }

  /** The server's runs after i events. */
  function RunsAt(trace: seq<Event>, i: nat): seq<Run>
    requires i <= |trace|
  {
    var s := Reach(trace[..i]);
    if s.Some? then s.value.runs else []
  }

  /** The moment a client was refused: its start met a running execution of its id. */
  ghost predicate RefusedAt(trace: seq<Event>, c: nat, id: string, b: nat) {
    b < |trace| && trace[b].Begin? && trace[b].client == c && trace[b].id == id && IsRunning(RunsAt(trace, b), id)
  }

  lemma {:induction false} RefusedClientsWereRefused(trace: seq<Event>, c: nat) returns (b: nat)
    requires Reach(trace).Some?
    requires c in Reach(trace).value.clients && Reach(trace).value.clients[c].Refused?
    ensures RefusedAt(trace, c, Reach(trace).value.clients[c].id, b)
  {
    var rest, last := trace[..|trace| - 1], trace[|trace| - 1];
    var s := Reach(rest).value;
    if last.Begin? && last.client == c {
      b := |rest|;
    } else {
      b := RefusedClientsWereRefused(rest, c);
      assert rest[..b] == trace[..b];
    }
  }

  lemma EventEvolves(trace: seq<Event>, j: nat)
    requires Reach(trace).Some? && j < |trace|
    ensures Evolves(RunsAt(trace, j), RunsAt(trace, j + 1))
  {
    PrefixReaches(trace, j);
    PrefixReaches(trace, j + 1);
    NextEvolves(Reach(trace[..j]).value, trace[j]);
  }

  lemma RunsAtWellFormed(trace: seq<Event>, b: nat)
    requires Reach(trace).Some? && b <= |trace|
    ensures WellFormed(RunsAt(trace, b))
  {
    PrefixReaches(trace, b);
    ReachKeepsInv(trace[..b]);
  }

  /** The same run, apart from whether it is running. */
  predicate SameRun(a: Run, b: Run) {
    a.workflowId == b.workflowId && a.creator == b.creator
  }

  /** No run is lost or renamed. */
  predicate Extends(a: seq<Run>, b: seq<Run>) {
    |a| <= |b| && forall r :: 0 <= r < |a| ==> SameRun(a[r], b[r])
  }

  lemma ExtendsFurther(a: seq<Run>, b: seq<Run>, c: seq<Run>)
    requires Extends(a, b) && Extends(b, c)
    ensures Extends(a, c)
  {
    forall r | 0 <= r < |a| ensures SameRun(a[r], c[r]) {
      assert SameRun(a[r], b[r]) && SameRun(b[r], c[r]);
    }
  }

  /** One event adds at most one run, which is then running, and loses or renames none. */
  predicate OneEventLater(a: seq<Run>, b: seq<Run>) {
    Extends(a, b) && |b| <= |a| + 1 && (|b| > |a| ==> b[|a|].running)
  }

  ghost predicate EventByEvent(history: seq<seq<Run>>) {
    forall j, k :: 0 <= j < k < |history| && k == j + 1 ==> OneEventLater(history[j], history[k])
  }

  lemma {:induction false} RunsGrow(history: seq<seq<Run>>, b: nat, i: nat)
    requires EventByEvent(history) && b <= i < |history|
    ensures Extends(history[b], history[i])
    decreases i
  {
    if b < i {
      RunsGrow(history, b, i - 1);
      ExtendsFurther(history[b], history[i - 1], history[i]);
    }
  }

  /** A run that appeared after b events was running right after it appeared. */
  lemma {:induction false} NewRunWasRunning(history: seq<seq<Run>>, b: nat, i: nat, r: nat) returns (m: nat)
    requires EventByEvent(history) && b <= i < |history|
    requires |history[b]| <= r < |history[i]|
    ensures b <= m <= i && r < |history[m]| && history[m][r].running
    decreases i
  {
    assert OneEventLater(history[i - 1], history[i]);
    if r < |history[i - 1]| {
      m := NewRunWasRunning(history, b, i - 1, r);
    } else {
      m := i;
    }
  }

  /** Whatever happens after a refusal, the run a describe finds was running at some moment since. */
  lemma LatestWasRunningSince(history: seq<seq<Run>>, b: nat, i: nat, id: string) returns (m: nat)
    requires EventByEvent(history) && b <= i < |history| && IsRunning(history[b], id)
    ensures Latest(history[i], id).Some?
    ensures var r := Latest(history[i], id).value;
      b <= m <= i && r < |history[m]| && history[m][r].running && history[m][r].workflowId == id
  {
    RunsGrow(history, b, i);
    var first := Latest(history[b], id).value;
    assert SameRun(history[b][first], history[i][first]);
    var r := Latest(history[i], id).value;
    if r < |history[b]| {
      assert SameRun(history[b][r], history[i][r]);
      m := b;
    } else {
      m := NewRunWasRunning(history, b, i, r);
      RunsGrow(history, m, i);
      assert SameRun(history[m][r], history[i][r]);
    }
  }

  /** The server's runs after 0, 1, 2, ... events. */
  function History(trace: seq<Event>): (h: seq<seq<Run>>)
    ensures |h| == |trace| + 1 && forall i :: 0 <= i < |h| ==> h[i] == RunsAt(trace, i)
  {
    seq(|trace| + 1, i requires 0 <= i <= |trace| => RunsAt(trace, i))
  }

  lemma HistoryIsEventByEvent(trace: seq<Event>)
    requires Reach(trace).Some?
    ensures EventByEvent(History(trace))
  {
    forall j: nat | j < |trace| ensures OneEventLater(RunsAt(trace, j), RunsAt(trace, j + 1)) {
      RunsAtWellFormed(trace, j);
      EventEvolves(trace, j);
      EvolvingKeepsWellFormed(RunsAt(trace, j), RunsAt(trace, j + 1));
    }
  }

  /** After i events the run r exists, has this id, and is running. */
  predicate RunningAt(trace: seq<Event>, i: nat, id: string, r: nat)
    requires i <= |trace|
  {
    r < |RunsAt(trace, i)| && RunsAt(trace, i)[r].running && RunsAt(trace, i)[r].workflowId == id
  }

  /** The i-th event leaves its client with a handle. */
  predicate GetsHandle(trace: seq<Event>, i: nat) {
    && i < |trace| && (trace[i].Begin? || trace[i].Describe?)
    && var s := Reach(trace[..i + 1]);
       s.Some? && trace[i].client in s.value.clients && s.value.clients[trace[i].client].Holds?
  }

  function HandleAt(trace: seq<Event>, i: nat): Handle
    requires GetsHandle(trace, i)
  {
    Reach(trace[..i + 1]).value.clients[trace[i].client].handle
  }

  /** A describe hands out the latest run of the id with which its client was refused before. */
  lemma DescribeFollowsRefusal(trace: seq<Event>, i: nat) returns (b: nat)
    requires Reach(trace).Some? && GetsHandle(trace, i) && trace[i].Describe?
    ensures var h := HandleAt(trace, i);
      && h.alreadyRunning && Latest(RunsAt(trace, i), h.workflowId) == Some(h.runId)
      && b <= i && RefusedAt(trace, trace[i].client, h.workflowId, b)
  {
    PrefixReaches(trace, i);
    b := RefusedClientsWereRefused(trace[..i], trace[i].client);
    assert trace[..i][..b] == trace[..b];
  }

  /**
   A handle with AlreadyRunning=true names a run of its id that was running at some moment between the refused
   start and the describe, in every interleaving of clients, other starters and completions.
   */
  lemma AttachedRunWasRunning(trace: seq<Event>, i: nat) returns (b: nat, m: nat)
    requires Reach(trace).Some? && GetsHandle(trace, i) && trace[i].Describe?
    ensures var h := HandleAt(trace, i);
      && h.alreadyRunning
      && RefusedAt(trace, trace[i].client, h.workflowId, b)
      && b <= m <= i && RunningAt(trace, m, h.workflowId, h.runId)
  {
    b := DescribeFollowsRefusal(trace, i);
    HistoryIsEventByEvent(trace);
    m := LatestWasRunningSince(History(trace), b, i, HandleAt(trace, i).workflowId);
  }

  /** A successful start answers with a run of its id that is running when it answers. */
  lemma StartedRunIsRunning(trace: seq<Event>, i: nat)
    requires Reach(trace).Some? && GetsHandle(trace, i) && trace[i].Begin?
    ensures HandleAt(trace, i).workflowId == trace[i].id && !HandleAt(trace, i).alreadyRunning
    ensures RunningAt(trace, i + 1, trace[i].id, HandleAt(trace, i).runId)
  {
    PrefixReaches(trace, i);
  }

  /**
   What start.go guarantees whatever is asked for, so also when running runs are handed back as if started:
   every handle names a run of the requested id that was running at some moment of the call, between its first
   event b and its last event i.
   */
  lemma EveryHandleWasRunning(trace: seq<Event>, i: nat) returns (b: nat, m: nat)
    requires Reach(trace).Some? && GetsHandle(trace, i)
    ensures b <= i && trace[b].Begin? && trace[b].client == trace[i].client
    ensures trace[b].id == HandleAt(trace, i).workflowId
    ensures b <= m <= i + 1 && RunningAt(trace, m, HandleAt(trace, i).workflowId, HandleAt(trace, i).runId)
  {
    if trace[i].Begin? {
      StartedRunIsRunning(trace, i);
      b, m := i, i + 1;
    } else {
      b, m := AttachedRunWasRunning(trace, i);
    }
  }

  /**
   Over whole interleavings, exactly when a handle that claims a new execution keeps its word: at any later
   time i, the run it names was created by the client's own call iff the id was not running when the call
   began. With refusal asked for, no other new handle exists.
   */
  lemma ClaimIsTrueIff(trace: seq<Event>, b: nat, i: nat)
    requires Reach(trace).Some? && GetsHandle(trace, b) && trace[b].Begin? && b < i <= |trace|
    ensures HandleAt(trace, b).runId < |RunsAt(trace, i)|
    ensures RunsAt(trace, i)[HandleAt(trace, b).runId].creator == CallOf(trace[b].client)
      <==> !IsRunning(RunsAt(trace, b), trace[b].id)
    ensures trace[b].options.refuseRunning ==> !IsRunning(RunsAt(trace, b), trace[b].id)
  {
    PrefixReaches(trace, b);
    ReachKeepsInv(trace[..b]);
    StartedRunIsRunning(trace, b);
    HistoryIsEventByEvent(trace);
    RunsGrow(History(trace), b + 1, i);
    var r := HandleAt(trace, b).runId;
    assert SameRun(RunsAt(trace, b + 1)[r], RunsAt(trace, i)[r]);
  }
}
