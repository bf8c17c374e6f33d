# Pod self-healing agent — a Dafny model

This project models the decision logic of the GreenOps pod self-healing agent
(`greenops-agent/self_heal.py`; `selfheal/self_heal.py` is a byte-identical
copy, and rows below cite either). The agent watches the pods of one
Kubernetes namespace. For each pod notification it reads a reason from the
first container's `waiting` state. If that reason is `CrashLoopBackOff` or
`OOMKilled`, it logs a detection event with a templated fix suggestion. When
`AUTO_APPLY` is set, it also deletes the pod and logs whether the delete
worked. A `/status` endpoint returns the event list.

The model is functional:

- The cluster's watch stream is an input: a finite sequence of notifications
  and the way the stream ended (closed, or raising).
- Each notification carries the answer the cluster gives if the agent deletes
  that pod while handling it. There is at most one delete per notification,
  so this is a per-call outcome.
- `time.strftime` is an opaque clock. The record that lands at position `i`
  of `EVENTS` gets the reading `clock(i)`.
- The watch loop is a fold over the stream. It returns the event list, the
  delete calls it issued, and how the loop ended.

Modules follow the source:

- `Settings`: environment parsing, lines 10-12.
- `EventLog`: `EVENTS`, `add_event` and `status`, lines 14-22.
- `Pods`: pod objects and the classification, lines 37-38.
- `Remediation`: `suggest_fix` and the message texts, lines 24-28 and 41-47.
- `Watcher`: `watch_pods`, lines 30-47.
- `Text` and `Wrappers`: string and `None`/exception helpers.

Each delete call records `afterEvents`, the length of the event list when the
call was issued. This captures the order the source guarantees: the detection
event comes first, then the delete, then the outcome event.

Reading `.waiting` through a missing `state`, or `.container_statuses` through
a missing `status`, raises `AttributeError` in the source. Nothing catches it.
It ends `watch_pods`, and the daemon thread with it. The model keeps this as
the `Crashed` exit, and no later notification is handled.

## Model

| member | source | states |
|---|---|---|
| Text.AsciiLower | greenops-agent/self_heal.py:11 | the lowered string has the same length; each position holds the lower-case form of the original character |
| Text.LowerIsTrueIff | greenops-agent/self_heal.py:11-12 | lowering a value gives "true" exactly when the value spells "true" in some mix of upper and lower case |
| Settings.Getenv | greenops-agent/self_heal.py:10 | a variable that is set wins over the default, even when set to the empty string; an unset one yields the default |
| Settings.ParseFlag | greenops-agent/self_heal.py:11-12 | a flag is true exactly when the variable is set and spells "true" in any case; an unset flag is false |
| Settings.LoadConfig | greenops-agent/self_heal.py:10-12 | the namespace is `NAMESPACE` or "boutique" when unset; `AUTO_APPLY` and `USE_GEMINI` are true exactly when set to a case variant of "true" |
| EventLog.AddEvent | greenops-agent/self_heal.py:16-17 | exactly one record is added, at the end; it carries the given message and the clock reading for its position; every earlier record is unchanged |
| EventLog.AddEventStamps | selfheal/self_heal.py:16-17 | appending keeps every record stamped with the clock reading for its own position |
| EventLog.Status | greenops-agent/self_heal.py:20-22 | the status reply has one entry per record, each at its insertion position, oldest first |
| EventLog.StatusAfterAdd | selfheal/self_heal.py:16-22 | the status reply after an append is the earlier reply followed by the new record |
| Pods.ExtractReason | greenops-agent/self_heal.py:37 | raises exactly when `status` is missing or the first container's `state` is missing; `None` exactly when there are no containers, the first one is not waiting, or its waiting reason is null; otherwise it is the first container's waiting reason |
| Pods.OnlyFirstContainerMatters | selfheal/self_heal.py:37 | two pods whose first containers agree get the same reason, whatever their other containers and names |
| Pods.IsActionable | greenops-agent/self_heal.py:38 | a reason is actionable exactly when it is `CrashLoopBackOff` or `OOMKilled`; `None` and every other reason are not |
| Remediation.SuggestFixText | greenops-agent/self_heal.py:24-28 | the suggestion is exactly `Gemini suggests restarting pod P due to R.` when `USE_GEMINI` is on and exactly `Mock fix: restart pod P for reason R.` when it is off |
| Remediation.SuggestionNamesPodAndReason | greenops-agent/self_heal.py:24-28 | whichever template is used, the suggestion contains the pod name and the reason |
| Remediation.SuggestionShowsStrategy | selfheal/self_heal.py:24-28 | the suggestion starts with "Gemini" exactly when `USE_GEMINI` is on, and with "Mock" exactly when it is off |
| Remediation.DetectionMessageText | selfheal/self_heal.py:41 | the detection message is exactly `Detected crash: P, reason: R, suggestion: F` |
| Remediation.DetectionMessageContents | greenops-agent/self_heal.py:41 | the detection message starts with "Detected crash: " and contains the pod name, the reason and the suggestion |
| Remediation.AppliedMessage | greenops-agent/self_heal.py:45 | the success message is `Applied fix: deleted pod ` followed by exactly the pod name |
| Remediation.ErrorMessage | selfheal/self_heal.py:47 | the failure message is `Error applying fix: ` followed by exactly the exception text |
| Remediation.OutcomeMessagesRoundTrip | greenops-agent/self_heal.py:45-47 | the text after "Applied fix: deleted pod " in the success message is exactly the pod name, and the text after "Error applying fix: " in the failure message is exactly the exception text |
| Remediation.KindOfMessages | greenops-agent/self_heal.py:34-47 | each of the four messages the watcher writes is read back as its own kind, whatever pod, reason, suggestion or error text it holds |
| Watcher.OutcomeMessage | greenops-agent/self_heal.py:43-47 | after a successful delete the report reads back, after `Applied fix: deleted pod `, as the pod name; after a failed one it reads back, after `Error applying fix: `, as the exception text |
| Watcher.OutcomeMessageKind | greenops-agent/self_heal.py:43-47 | a successful delete is reported by a message read back as applied, a failed one by a message read back as an error |
| Watcher.Remediate | greenops-agent/self_heal.py:39-47 | an actionable pod gets the detection event with its suggestion. With auto-apply off, that is the only event and there is no delete. With it on, exactly one delete of (pod, namespace) follows the detection event, and exactly one success or error event follows the delete. All new records are clock-stamped and nothing earlier changes |
| Watcher.Handle | greenops-agent/self_heal.py:36-47 | a notification raises exactly when its pod does on line 37; a non-actionable reason, including `None`, leaves the event list and the deletes unchanged; an actionable one is remediated |
| Watcher.ReactsIffActionable | greenops-agent/self_heal.py:38-47 | a readable notification grows the event list, and changes the agent at all, exactly when its reason is actionable |
| Watcher.HandleMessages | selfheal/self_heal.py:38-47 | a readable notification adds exactly the messages its reason and the configuration call for, after the earlier ones |
| Watcher.HandleDeletes | selfheal/self_heal.py:38-44 | a readable notification deletes its pod exactly when its reason is actionable and auto-apply is on, and deletes nothing otherwise |
| Watcher.Process | greenops-agent/self_heal.py:35-47 | the loop stops at the first notification whose pod raises, with that error; otherwise it handles every notification and ends the way the stream ended |
| Watcher.ProcessOnlyAppends | selfheal/self_heal.py:35-47 | the loop only appends to the event list and the deletes, stamps every new record, sends every delete to the configured namespace, and deletes nothing with auto-apply off |
| Watcher.HandledAreWellFormed | greenops-agent/self_heal.py:36-37 | every notification the loop handled had a readable reason |
| Watcher.ProcessMessages | greenops-agent/self_heal.py:35-47 | the messages the loop adds are the concatenation, in stream order, of what each handled notification calls for |
| Watcher.ProcessDeletes | greenops-agent/self_heal.py:42-44 | the loop deletes exactly the actionable pods among the handled notifications, in stream order, when auto-apply is on, and nothing otherwise |
| Watcher.ReactionNeverStart | selfheal/self_heal.py:41-47 | none of the messages written for one notification is read back as the start message |
| Watcher.ReactionsNeverStart | greenops-agent/self_heal.py:38-47 | no message written for a notification is the start message |
| Watcher.ReactionsLength | greenops-agent/self_heal.py:38-47 | each actionable notification adds one message with auto-apply off and two with it on; the others add none |
| Watcher.WatchPods | greenops-agent/self_heal.py:30-35 | if loading the cluster configuration fails, nothing is logged and nothing is deleted; otherwise "Starting pod watcher..." is appended, stamped, before any notification is handled |
| Watcher.StartLoggedOnce | selfheal/self_heal.py:30-47 | the start message is logged at the position the list had when the watcher started, and never again |
| Watcher.WatchCounts | selfheal/self_heal.py:38-47 | a run logs 1 + k·(1 or 2) events for k actionable handled notifications; it issues k deletes with auto-apply on and none with it off, for exactly those pods in stream order, all in the configured namespace |
| Watcher.OutcomesDoNotSteer | greenops-agent/self_heal.py:42-47 | how the cluster answers the deletes never changes which notifications are handled, which deletes are issued, how many events are logged, or how the loop ends; a failed delete does not stop the loop |
| Watcher.RemediateBrackets | greenops-agent/self_heal.py:41-47 | one remediation keeps earlier deletes between their detection and outcome events, and places its own delete there too |
| Watcher.ProcessBrackets | greenops-agent/self_heal.py:35-47 | throughout the loop, every delete sits right after the detection event naming its pod and right before its outcome event |
| Watcher.WatchBracketsDeletes | selfheal/self_heal.py:30-47 | in a whole run, every delete is issued after its pod's detection event and before the event reporting its outcome |
| Watcher.WatchLoop | greenops-agent/self_heal.py:30-47 | the imperative `for` loop, stopping at the first raising notification, computes exactly the run the functional fold describes |

## Left out

- Text.AsciiLower: lowers only ASCII letters, while Python's `str.lower` lowers every cased Unicode character. No non-ASCII character lowers to any of the letters `t`, `r`, `u`, `e`, so `ParseFlag` and `LoadConfig` give the same flag values as the source.
- The bounded event list, the lock around it, stream reconnect with backoff, scanning containers past the first, the `terminated` state, and fallback from a failing suggestion generator. The code has none of these, so they are not modelled. See the last section.
- The daemon thread and the unsynchronised `EVENTS` list shared with the Flask handler (lines 14 and 49-53). This is concurrency; the model treats the watcher as the only writer and a status read as a pure function of the list.
- Flask routing and the JSON encoding of `/status`, `logging.info`, and the `STATUS_PORT` parse on line 53. These are I/O.
- The Kubernetes client. The watch stream and the delete call are inputs, as described above. The model's stream holds pod objects only; the stream's own error items are not modelled.
- The text of a caught exception, `{e}` on line 47, and of `time.strftime` readings. Both are opaque strings.
- `pod.metadata` is assumed present. `metadata.name` is read as a plain string.

## What the code does not do

The model follows the code, including where the agent stops short of what a
self-healing watcher might be expected to do.

- A failing `load_incluster_config` is not logged. It raises and the watcher stops: the `ConfigFailed` exit, with the event list unchanged.
- A missing `status` or `state` is not treated as "no reason". It raises and ends the watcher: the `Crashed` exit.
- Only one reason is read, from the first container's `waiting` state. So there is at most one detection and at most one delete per notification.
- There is no single suggestion template: there are two, "Gemini suggests restarting pod P due to R." and "Mock fix: restart pod P for reason R.", chosen by `USE_GEMINI`.
- The event list has no capacity bound and no eviction.
- When the stream ends or raises, the loop is not restarted.
