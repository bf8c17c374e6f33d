/** `watch_pods` (greenops-agent/self_heal.py lines 30-47): the watch loop,
    with the cluster stream taken as a finite sequence of notifications and
    the delete call taken as an answer carried by each notification. */
module Watcher {
  import opened Wrappers
  import opened EventLog
  import opened Pods
  import opened Remediation
  import opened Settings

  /** How the cluster answers `delete_namespaced_pod`: success, or an
      exception whose text is `error`. */
  datatype DeleteOutcome = Deleted | DeleteFailed(error: string)

  /** One item of `w.stream(...)`: the pod object, and the answer the cluster
      gives if the agent deletes that pod while handling this item. */
  datatype Notification = Notification(pod: PodObservation, onDelete: DeleteOutcome)

  /** How the stream stopped: closed by the server, or raising. */
  datatype StreamEnd = Closed | Failed(error: string)

  /** The whole input of one run of the watcher. */
  datatype Stream = Stream(items: seq<Notification>, end: StreamEnd)

  /** A `delete_namespaced_pod(name, namespace)` call, issued when the event
      list held `afterEvents` records. */
  datatype DeleteCall = DeleteCall(name: string, namespace: string, afterEvents: nat)

  /** What the watcher has done so far: the event list and the deletes. */
  datatype Agent = Agent(log: seq<Event>, deletes: seq<DeleteCall>)

  /** Why `watch_pods` returned or raised. */
  datatype Exit =
    | ConfigFailed               // `load_incluster_config` raised
    | StreamEnded(end: StreamEnd) // the `for` loop ran out of items
    | Crashed(error: AttributeError) // an item's pod raised on line 37

  /** The state at exit, and how many items were handled in full. */
  datatype Run = Run(agent: Agent, handled: nat, exit: Exit)

  /** The message that reports the answer to a delete. */
  function OutcomeMessage(podName: string, outcome: DeleteOutcome): (r: string)
    ensures outcome.Deleted? ==> After(AppliedPrefix, r) == Some(podName)
    ensures outcome.DeleteFailed? ==> After(ErrorPrefix, r) == Some(outcome.error)
  {
    match outcome
    case Deleted => AppliedMessage(podName)
    case DeleteFailed(error) => ErrorMessage(error)
  }

  /** A successful delete is reported as applied, a failed one as an error,
      and the report is never mistaken for another kind of message. */
  lemma OutcomeMessageKind(podName: string, outcome: DeleteOutcome)
    ensures outcome.Deleted? ==> KindOf(OutcomeMessage(podName, outcome)) == Applied
    ensures outcome.DeleteFailed? ==> KindOf(OutcomeMessage(podName, outcome)) == ApplyError
    ensures outcome.Deleted? ==> AppliedPrefix <= OutcomeMessage(podName, outcome)
    ensures outcome.DeleteFailed? ==> ErrorPrefix <= OutcomeMessage(podName, outcome)
  {
    KindOfMessages(podName, "", "", if outcome.DeleteFailed? then outcome.error else "");
  }

  /** Lines 39-47, for a pod found with an actionable `reason`: log the
      detection with its suggestion and, when deleting is on, delete the pod
      and log how that went. */
  function Remediate(cfg: Config, a: Agent, podName: string, reason: string, onDelete: DeleteOutcome, clock: Clock): (r: Agent)
    ensures a.log <= r.log && a.deletes <= r.deletes
    ensures Stamped(r.log, |a.log|, clock)
    ensures |r.log| == |a.log| + (if cfg.autoApply then 2 else 1)
    ensures r.log[|a.log|].message == DetectionMessage(podName, reason, SuggestFix(cfg.useGemini, podName, reason))
    ensures !cfg.autoApply ==> r.deletes == a.deletes
    ensures cfg.autoApply ==>
      && r.deletes == a.deletes + [DeleteCall(podName, cfg.namespace, |a.log| + 1)]
      && r.log[|a.log| + 1].message == OutcomeMessage(podName, onDelete)
  {
    var fix := SuggestFix(cfg.useGemini, podName, reason);
    var detected := AddEvent(a.log, clock, DetectionMessage(podName, reason, fix));
    AddEventStamps(a.log, |a.log|, clock, DetectionMessage(podName, reason, fix));
    if !cfg.autoApply then Agent(detected, a.deletes)
    else
      var call := DeleteCall(podName, cfg.namespace, |detected|);
      AddEventStamps(detected, |a.log|, clock, OutcomeMessage(podName, onDelete));
      Agent(AddEvent(detected, clock, OutcomeMessage(podName, onDelete)), a.deletes + [call])
  }

  /** The body of the `for` loop for one item: classify, then remediate only
      an actionable reason. */
  function Handle(cfg: Config, a: Agent, n: Notification, clock: Clock): (r: Result<Agent, AttributeError>)
    ensures r.Err? <==> ExtractReason(n.pod).Err?
    ensures r.Err? ==> r.error == ExtractReason(n.pod).error
    ensures r.Ok? && !IsActionable(ExtractReason(n.pod).value) ==> r.value == a
    ensures r.Ok? && IsActionable(ExtractReason(n.pod).value) ==>
      r.value == Remediate(cfg, a, n.pod.name, ExtractReason(n.pod).value.value, n.onDelete, clock)
  {
    match ExtractReason(n.pod)
    case Err(e) => Err(e)
    case Ok(reason) =>
      if IsActionable(reason) then Ok(Remediate(cfg, a, n.pod.name, reason.value, n.onDelete, clock))
      else Ok(a)
  }

  /** The test of line 38 is what decides whether a readable notification
      does anything: the event list grows exactly when the reason is
      actionable, and otherwise the agent is left as it was. */
  lemma ReactsIffActionable(cfg: Config, a: Agent, n: Notification, clock: Clock)
    requires ExtractReason(n.pod).Ok?
    ensures Handle(cfg, a, n, clock).Ok?
    ensures |Handle(cfg, a, n, clock).value.log| > |a.log| <==> IsActionable(ExtractReason(n.pod).value)
    ensures Handle(cfg, a, n, clock).value != a <==> IsActionable(ExtractReason(n.pod).value)
  {
  }

  /** The `for` loop over `items` from state `a`: it stops at the end of the
      stream or at the first item whose pod raises on line 37. */
  function Process(cfg: Config, a: Agent, items: seq<Notification>, end: StreamEnd, clock: Clock): (r: Run)
    ensures r.handled <= |items|
    ensures r.exit.Crashed? ==>
      r.handled < |items| && ExtractReason(items[r.handled].pod) == Err(r.exit.error)
    ensures !r.exit.Crashed? ==> r.exit == StreamEnded(end) && r.handled == |items|
    decreases |items|
  {
    if items == [] then Run(a, 0, StreamEnded(end))
    else
      match Handle(cfg, a, items[0], clock)
      case Err(e) => Run(a, 0, Crashed(e))
      case Ok(next) =>
        var rest := Process(cfg, next, items[1..], end, clock);
        Run(rest.agent, rest.handled + 1, rest.exit)
  }

  /** `watch_pods()`: load the cluster configuration (which may raise), log
      the start, then run the loop with no deletes issued yet. */
  function WatchPods(cfg: Config, configLoads: bool, log: seq<Event>, stream: Stream, clock: Clock): (r: Run)
    ensures !configLoads ==> r == Run(Agent(log, []), 0, ConfigFailed)
    ensures configLoads ==>
      && |r.agent.log| > |log|
      && r.agent.log[..|log|] == log
      && r.agent.log[|log|] == Event(clock(|log|), StartMessage)
      && r.exit != ConfigFailed
  {
    if !configLoads then Run(Agent(log, []), 0, ConfigFailed)
    else
      var a := Agent(AddEvent(log, clock, StartMessage), []);
      ProcessOnlyAppends(cfg, a, stream.items, stream.end, clock);
      Process(cfg, a, stream.items, stream.end, clock)
  }

  /** The loop only appends: to the event list, with clock-stamped records,
      and to the deletes, each in the configured namespace and none at all
      when deleting is off. */
  lemma {:induction false} ProcessOnlyAppends(cfg: Config, a: Agent, items: seq<Notification>, end: StreamEnd, clock: Clock)
    ensures var r := Process(cfg, a, items, end, clock);
      && a.log <= r.agent.log && a.deletes <= r.agent.deletes
      && Stamped(r.agent.log, |a.log|, clock)
      && (forall j :: |a.deletes| <= j < |r.agent.deletes| ==> r.agent.deletes[j].namespace == cfg.namespace)
      && (!cfg.autoApply ==> r.agent.deletes == a.deletes)
    decreases |items|
  {
    if items != [] && Handle(cfg, a, items[0], clock).Ok? {
      var next := Handle(cfg, a, items[0], clock).value;
      ProcessUnfold(cfg, a, items, end, clock);
      ProcessOnlyAppends(cfg, next, items[1..], end, clock);
    }
  }

  /** Every item's pod can be read without raising. */
  predicate WellFormed(items: seq<Notification>) {
    forall i :: 0 <= i < |items| ==> ExtractReason(items[i].pod).Ok?
  }

  /** Reference reading of one item: the messages it adds, worked out from
      the item alone. */
  function Reaction(cfg: Config, n: Notification): seq<string>
    requires ExtractReason(n.pod).Ok?
  {
    var reason := ExtractReason(n.pod).value;
    if !IsActionable(reason) then []
    else
      var detection := DetectionMessage(n.pod.name, reason.value, SuggestFix(cfg.useGemini, n.pod.name, reason.value));
      if cfg.autoApply then [detection, OutcomeMessage(n.pod.name, n.onDelete)] else [detection]
  }

  /** The reactions of a sequence of items, one after the other. */
  function Reactions(cfg: Config, items: seq<Notification>): seq<string>
    requires WellFormed(items)
  {
    if items == [] then [] else Reaction(cfg, items[0]) + Reactions(cfg, items[1..])
  }

  /** The names of the pods among `items` that carry an actionable reason. */
  function Targets(items: seq<Notification>): seq<string>
    requires WellFormed(items)
  {
    if items == [] then []
    else (if IsActionable(ExtractReason(items[0].pod).value) then [items[0].pod.name] else [])
         + Targets(items[1..])
  }

  /** The pod names of a list of delete calls. */
  function Names(calls: seq<DeleteCall>): (ns: seq<string>)
    ensures |ns| == |calls|
    ensures forall j :: 0 <= j < |calls| ==> ns[j] == calls[j].name
  {
    seq(|calls|, j requires 0 <= j < |calls| => calls[j].name)
  }

  /** One handled item adds exactly its reaction to the messages. */
  lemma HandleMessages(cfg: Config, a: Agent, n: Notification, clock: Clock)
    requires ExtractReason(n.pod).Ok?
    ensures Handle(cfg, a, n, clock).Ok?
    ensures Messages(Handle(cfg, a, n, clock).value.log) == Messages(a.log) + Reaction(cfg, n)
  {
    var reason := ExtractReason(n.pod).value;
    if IsActionable(reason) {
      var r := Handle(cfg, a, n, clock).value;
      var added := r.log[|a.log|..];
      assert r.log == a.log + added;
      MessagesAppend(a.log, added);
      assert Messages(added) == Reaction(cfg, n);
    }
  }

  /** One handled item deletes its pod exactly when it is actionable and
      deleting is on. */
  lemma HandleDeletes(cfg: Config, a: Agent, n: Notification, clock: Clock)
    requires ExtractReason(n.pod).Ok?
    ensures Handle(cfg, a, n, clock).Ok?
    ensures Names(Handle(cfg, a, n, clock).value.deletes)
         == Names(a.deletes) + (if cfg.autoApply then Targets([n]) else [])
  {
    assert [n][1..] == [];
    var reason := ExtractReason(n.pod).value;
    if IsActionable(reason) && cfg.autoApply {
      var r := Handle(cfg, a, n, clock).value;
      assert r.deletes == a.deletes + [r.deletes[|a.deletes|]];
    }
  }

  /** One turn of the loop on a readable first item. */
  lemma ProcessUnfold(cfg: Config, a: Agent, items: seq<Notification>, end: StreamEnd, clock: Clock)
    requires items != [] && Handle(cfg, a, items[0], clock).Ok?
    ensures var rest := Process(cfg, Handle(cfg, a, items[0], clock).value, items[1..], end, clock);
      Process(cfg, a, items, end, clock) == Run(rest.agent, rest.handled + 1, rest.exit)
  {
  }

  /** Splitting a non-empty prefix into its head and the rest. */
  lemma PrefixCons(items: seq<Notification>, k: nat)
    requires 0 < k <= |items|
    ensures items[..k][0] == items[0] && items[..k][1..] == items[1..][..k - 1]
  {
  }

  /** `Targets` of a non-empty sequence: its head's contribution first. */
  lemma TargetsCons(done: seq<Notification>)
    requires done != [] && WellFormed(done)
    ensures WellFormed(done[1..]) && WellFormed([done[0]])
    ensures Targets(done) == Targets([done[0]]) + Targets(done[1..])
  {
    assert [done[0]][1..] == [];
  }

  /** `Reactions` of a non-empty sequence: its head's reaction first. */
  lemma ReactionsCons(cfg: Config, done: seq<Notification>)
    requires done != [] && WellFormed(done)
    ensures WellFormed(done[1..])
    ensures Reactions(cfg, done) == Reaction(cfg, done[0]) + Reactions(cfg, done[1..])
  {
  }

  /** The items the loop handled all have readable pods. */
  lemma {:induction false} HandledAreWellFormed(cfg: Config, a: Agent, items: seq<Notification>, end: StreamEnd, clock: Clock)
    ensures WellFormed(items[..Process(cfg, a, items, end, clock).handled])
    decreases |items|
  {
    var r := Process(cfg, a, items, end, clock);
    if items != [] && Handle(cfg, a, items[0], clock).Ok? {
      var next := Handle(cfg, a, items[0], clock).value;
      ProcessUnfold(cfg, a, items, end, clock);
      HandledAreWellFormed(cfg, next, items[1..], end, clock);
      PrefixCons(items, r.handled);
      var done := items[..r.handled];
      forall i | 0 <= i < |done| ensures ExtractReason(done[i].pod).Ok? {
        if i > 0 {
          assert done[i] == done[1..][i - 1];
        }
      }
    } else {
      assert items[..r.handled] == [];
    }
  }

  /** The loop's effect on the event list is the concatenation of the
      reactions of the handled items, in stream order. */
  lemma {:induction false} ProcessMessages(cfg: Config, a: Agent, items: seq<Notification>, end: StreamEnd, clock: Clock)
    ensures var r := Process(cfg, a, items, end, clock);
      && WellFormed(items[..r.handled])
      && Messages(r.agent.log) == Messages(a.log) + Reactions(cfg, items[..r.handled])
    decreases |items|
  {
    var r := Process(cfg, a, items, end, clock);
    HandledAreWellFormed(cfg, a, items, end, clock);
    if items != [] && Handle(cfg, a, items[0], clock).Ok? {
      var next := Handle(cfg, a, items[0], clock).value;
      ProcessUnfold(cfg, a, items, end, clock);
      HandleMessages(cfg, a, items[0], clock);
      ProcessMessages(cfg, next, items[1..], end, clock);
      PrefixCons(items, r.handled);
      ReactionsCons(cfg, items[..r.handled]);
    } else {
      assert items[..r.handled] == [];
    }
  }

  /** The loop deletes exactly the actionable pods among the handled items,
      in stream order, when deleting is on, and nothing otherwise. */
  lemma {:induction false} ProcessDeletes(cfg: Config, a: Agent, items: seq<Notification>, end: StreamEnd, clock: Clock)
    ensures var r := Process(cfg, a, items, end, clock);
      && WellFormed(items[..r.handled])
      && Names(r.agent.deletes) == Names(a.deletes) + (if cfg.autoApply then Targets(items[..r.handled]) else [])
    decreases |items|
  {
    var r := Process(cfg, a, items, end, clock);
    HandledAreWellFormed(cfg, a, items, end, clock);
    if items != [] && Handle(cfg, a, items[0], clock).Ok? {
      var next := Handle(cfg, a, items[0], clock).value;
      ProcessUnfold(cfg, a, items, end, clock);
      HandleDeletes(cfg, a, items[0], clock);
      ProcessDeletes(cfg, next, items[1..], end, clock);
      PrefixCons(items, r.handled);
      TargetsCons(items[..r.handled]);
    } else {
      assert items[..r.handled] == [];
    }
  }

  /** No message written for one item is the start message. */
  lemma ReactionNeverStart(cfg: Config, n: Notification)
    requires ExtractReason(n.pod).Ok?
    ensures forall k :: 0 <= k < |Reaction(cfg, n)| ==> KindOf(Reaction(cfg, n)[k]) != Start
  {
    var reason := ExtractReason(n.pod).value;
    if IsActionable(reason) {
      KindOfMessages(n.pod.name, reason.value, SuggestFix(cfg.useGemini, n.pod.name, reason.value), "");
      OutcomeMessageKind(n.pod.name, n.onDelete);
    }
  }

  /** No message written for any item is the start message. */
  lemma {:induction false} ReactionsNeverStart(cfg: Config, items: seq<Notification>)
    requires WellFormed(items)
    ensures forall k :: 0 <= k < |Reactions(cfg, items)| ==> KindOf(Reactions(cfg, items)[k]) != Start
    decreases |items|
  {
    if items != [] {
      ReactionsCons(cfg, items);
      ReactionNeverStart(cfg, items[0]);
      ReactionsNeverStart(cfg, items[1..]);
      var head := Reaction(cfg, items[0]);
      var tail := Reactions(cfg, items[1..]);
      forall k | 0 <= k < |head + tail| ensures KindOf((head + tail)[k]) != Start {
        if k >= |head| {
          assert (head + tail)[k] == tail[k - |head|];
        }
      }
    }
  }

  /** Each actionable item adds one message when deleting is off and two when
      it is on; other items add none. */
  lemma {:induction false} ReactionsLength(cfg: Config, items: seq<Notification>)
    requires WellFormed(items)
    ensures |Reactions(cfg, items)| == (if cfg.autoApply then 2 else 1) * |Targets(items)|
    decreases |items|
  {
    if items != [] {
      ReactionsLength(cfg, items[1..]);
    }
  }

  /** "Starting pod watcher..." is logged once, at the position the list had
      when the watcher started, and never again. */
  lemma StartLoggedOnce(cfg: Config, log: seq<Event>, stream: Stream, clock: Clock)
    ensures var r := WatchPods(cfg, true, log, stream, clock);
      && r.agent.log[|log|] == Event(clock(|log|), StartMessage)
      && forall i :: |log| < i < |r.agent.log| ==> r.agent.log[i].message != StartMessage
  {
    var a := Agent(AddEvent(log, clock, StartMessage), []);
    var r := Process(cfg, a, stream.items, stream.end, clock);
    ProcessMessages(cfg, a, stream.items, stream.end, clock);
    var rs := Reactions(cfg, stream.items[..r.handled]);
    ReactionsNeverStart(cfg, stream.items[..r.handled]);
    KindOfMessages("", "", "", "");
    forall i | |log| < i < |r.agent.log| ensures r.agent.log[i].message != StartMessage {
      assert Messages(r.agent.log)[i] == rs[i - |a.log|];
    }
  }

  /** Over a whole run the watcher logs the start message, then one or two
      messages per actionable item it handled, and deletes once per
      actionable item in the configured namespace when deleting is on. */
  lemma WatchCounts(cfg: Config, log: seq<Event>, stream: Stream, clock: Clock)
    ensures var r := WatchPods(cfg, true, log, stream, clock);
      var done := stream.items[..r.handled];
      && WellFormed(done)
      && |r.agent.log| == |log| + 1 + (if cfg.autoApply then 2 else 1) * |Targets(done)|
      && |r.agent.deletes| == (if cfg.autoApply then |Targets(done)| else 0)
      && Names(r.agent.deletes) == (if cfg.autoApply then Targets(done) else [])
      && forall j :: 0 <= j < |r.agent.deletes| ==> r.agent.deletes[j].namespace == cfg.namespace
  {
    var a := Agent(AddEvent(log, clock, StartMessage), []);
    var r := Process(cfg, a, stream.items, stream.end, clock);
    ProcessOnlyAppends(cfg, a, stream.items, stream.end, clock);
    ProcessMessages(cfg, a, stream.items, stream.end, clock);
    ProcessDeletes(cfg, a, stream.items, stream.end, clock);
    ReactionsLength(cfg, stream.items[..r.handled]);
    assert |Messages(r.agent.log)| == |r.agent.log|;
  }

  /** The items agree on their pods (their delete answers may differ). */
  predicate SamePods(xs: seq<Notification>, ys: seq<Notification>) {
    |xs| == |ys| && forall i :: 0 <= i < |xs| ==> xs[i].pod == ys[i].pod
  }

  /** A failed delete does not stop the loop: how the cluster answers the
      deletes changes neither which items are handled, nor which deletes are
      issued, nor how many events are logged, nor how the loop ends. */
  lemma {:induction false} OutcomesDoNotSteer(cfg: Config, a1: Agent, a2: Agent, xs: seq<Notification>, ys: seq<Notification>, end: StreamEnd, clock: Clock)
    requires |a1.log| == |a2.log| && a1.deletes == a2.deletes
    requires SamePods(xs, ys)
    ensures var r1 := Process(cfg, a1, xs, end, clock);
      var r2 := Process(cfg, a2, ys, end, clock);
      && r1.handled == r2.handled
      && r1.exit == r2.exit
      && r1.agent.deletes == r2.agent.deletes
      && |r1.agent.log| == |r2.agent.log|
    decreases |xs|
  {
    if xs != [] {
      assert xs[0].pod == ys[0].pod;
      var h1 := Handle(cfg, a1, xs[0], clock);
      var h2 := Handle(cfg, a2, ys[0], clock);
      if h1.Ok? {
        ProcessUnfold(cfg, a1, xs, end, clock);
        ProcessUnfold(cfg, a2, ys, end, clock);
        OutcomesDoNotSteer(cfg, h1.value, h2.value, xs[1..], ys[1..], end, clock);
      }
    }
  }

  /** Every delete call from position `from` on was issued right after the
      detection event naming its pod and right before the event reporting
      its outcome. */
  predicate Bracketed(a: Agent, from: nat) {
    forall j :: from <= j < |a.deletes| ==>
      && 0 < a.deletes[j].afterEvents < |a.log|
      && DetectedPrefix <= a.log[a.deletes[j].afterEvents - 1].message
      && Text.Contains(a.log[a.deletes[j].afterEvents - 1].message, a.deletes[j].name)
      && (|| AppliedPrefix <= a.log[a.deletes[j].afterEvents].message
          || ErrorPrefix <= a.log[a.deletes[j].afterEvents].message)
  }

  /** Growing the event list and the deletes keeps old deletes bracketed. */
  lemma BracketedGrow(a: Agent, b: Agent)
    requires Bracketed(a, 0) && a.log <= b.log && a.deletes <= b.deletes
    requires Bracketed(b, |a.deletes|)
    ensures Bracketed(b, 0)
  {
    forall j | 0 <= j < |a.deletes|
      ensures b.deletes[j] == a.deletes[j]
      ensures b.log[a.deletes[j].afterEvents - 1] == a.log[a.deletes[j].afterEvents - 1]
      ensures b.log[a.deletes[j].afterEvents] == a.log[a.deletes[j].afterEvents]
    {
    }
  }

  /** A single new delete, placed between a detection event naming its pod
      and an outcome event, is bracketed. */
  lemma LastCallBracketed(b: Agent, k: nat, detection: string, outcome: string)
    requires |b.deletes| == k + 1 && 0 < b.deletes[k].afterEvents < |b.log|
    requires b.log[b.deletes[k].afterEvents - 1].message == detection
    requires b.log[b.deletes[k].afterEvents].message == outcome
    requires DetectedPrefix <= detection && Text.Contains(detection, b.deletes[k].name)
    requires AppliedPrefix <= outcome || ErrorPrefix <= outcome
    ensures Bracketed(b, k)
  {
  }

  /** One remediation keeps earlier deletes bracketed and brackets its own. */
  lemma RemediateBrackets(cfg: Config, a: Agent, podName: string, reason: string, onDelete: DeleteOutcome, clock: Clock)
    requires Bracketed(a, 0)
    ensures Bracketed(Remediate(cfg, a, podName, reason, onDelete, clock), 0)
  {
    var r := Remediate(cfg, a, podName, reason, onDelete, clock);
    if cfg.autoApply {
      var fix := SuggestFix(cfg.useGemini, podName, reason);
      DetectionMessageContents(podName, reason, fix);
      OutcomeMessageKind(podName, onDelete);
      LastCallBracketed(r, |a.deletes|, DetectionMessage(podName, reason, fix), OutcomeMessage(podName, onDelete));
    }
    BracketedGrow(a, r);
  }

  /** The loop keeps every delete bracketed. */
  lemma {:induction false} ProcessBrackets(cfg: Config, a: Agent, items: seq<Notification>, end: StreamEnd, clock: Clock)
    requires Bracketed(a, 0)
    ensures Bracketed(Process(cfg, a, items, end, clock).agent, 0)
    decreases |items|
  {
    if items != [] && Handle(cfg, a, items[0], clock).Ok? {
      var n := items[0];
      if IsActionable(ExtractReason(n.pod).value) {
        RemediateBrackets(cfg, a, n.pod.name, ExtractReason(n.pod).value.value, n.onDelete, clock);
      }
      ProcessUnfold(cfg, a, items, end, clock);
      ProcessBrackets(cfg, Handle(cfg, a, n, clock).value, items[1..], end, clock);
    }
  }

  /** In a whole run, each delete is issued after the detection event of its
      pod has been logged and before its outcome is logged. */
  lemma WatchBracketsDeletes(cfg: Config, configLoads: bool, log: seq<Event>, stream: Stream, clock: Clock)
    ensures Bracketed(WatchPods(cfg, configLoads, log, stream, clock).agent, 0)
  {
    if configLoads {
      ProcessBrackets(cfg, Agent(AddEvent(log, clock, StartMessage), []), stream.items, stream.end, clock);
    }
  }

  /** `watch_pods()` as the source writes it: a `for` loop over the stream
      that stops at the first item whose pod raises. It computes the run
      that `WatchPods` describes. */
  method WatchLoop(cfg: Config, configLoads: bool, log: seq<Event>, stream: Stream, clock: Clock) returns (r: Run)
    ensures r == WatchPods(cfg, configLoads, log, stream, clock)
  {
    if !configLoads {
      return Run(Agent(log, []), 0, ConfigFailed);
    }
    var a := Agent(AddEvent(log, clock, StartMessage), []);
    var i := 0;
    while i < |stream.items|
      invariant 0 <= i <= |stream.items|
      invariant var rest := Process(cfg, a, stream.items[i..], stream.end, clock);
        WatchPods(cfg, true, log, stream, clock) == Run(rest.agent, rest.handled + i, rest.exit)
    {
      var h := Handle(cfg, a, stream.items[i], clock);
      if h.Err? {
        return Run(a, i, Crashed(h.error));
      }
      assert stream.items[i..][1..] == stream.items[i + 1..];
      ProcessUnfold(cfg, a, stream.items[i..], stream.end, clock);
      a := h.value;
      i := i + 1;
    }
    return Run(a, i, StreamEnded(stream.end));
  }
}
