/** The texts the agent writes to its event list: the fix suggestion of
    `suggest_fix` and the four kinds of message of `watch_pods`. */
module Remediation {
  import opened Wrappers
  import opened Text

  const GeminiPrefix := "Gemini suggests restarting pod "
  const MockPrefix := "Mock fix: restart pod "

  /** `suggest_fix(pod_name, reason)`: one of two fixed templates, chosen by
      `USE_GEMINI`. */
  function SuggestFix(useGemini: bool, podName: string, reason: string): string {
    if useGemini then Join([GeminiPrefix, podName, " due to ", reason, "."])
    else Join([MockPrefix, podName, " for reason ", reason, "."])
  }

  /** The two templates of lines 27 and 28, character for character. */
  lemma SuggestFixText(useGemini: bool, podName: string, reason: string)
    ensures useGemini ==>
      SuggestFix(useGemini, podName, reason) == "Gemini suggests restarting pod " + podName + " due to " + reason + "."
    ensures !useGemini ==>
      SuggestFix(useGemini, podName, reason) == "Mock fix: restart pod " + podName + " for reason " + reason + "."
  {
    JoinFive(GeminiPrefix, podName, " due to ", reason, ".");
    JoinFive(MockPrefix, podName, " for reason ", reason, ".");
  }

  /** Both templates name the pod and the reason. */
  lemma SuggestionNamesPodAndReason(useGemini: bool, podName: string, reason: string)
    ensures Contains(SuggestFix(useGemini, podName, reason), podName)
    ensures Contains(SuggestFix(useGemini, podName, reason), reason)
  {
    if useGemini {
      JoinFive(GeminiPrefix, podName, " due to ", reason, ".");
      TwoHoles(GeminiPrefix, podName, " due to ", reason, ".");
    } else {
      JoinFive(MockPrefix, podName, " for reason ", reason, ".");
      TwoHoles(MockPrefix, podName, " for reason ", reason, ".");
    }
  }

  /** The suggestion tells which template produced it: it starts with
      "Gemini" exactly when `USE_GEMINI` is on and with "Mock" exactly when it
      is off. */
  lemma SuggestionShowsStrategy(useGemini: bool, podName: string, reason: string)
    ensures useGemini <==> "Gemini" <= SuggestFix(useGemini, podName, reason)
    ensures !useGemini <==> "Mock" <= SuggestFix(useGemini, podName, reason)
  {
    var r := SuggestFix(useGemini, podName, reason);
    if useGemini {
      JoinFive(GeminiPrefix, podName, " due to ", reason, ".");
      TwoHoles(GeminiPrefix, podName, " due to ", reason, ".");
      assert r[..6] == GeminiPrefix[..6];
      assert r[0] != 'M';
    } else {
      JoinFive(MockPrefix, podName, " for reason ", reason, ".");
      TwoHoles(MockPrefix, podName, " for reason ", reason, ".");
      assert r[..4] == MockPrefix[..4];
      assert r[0] != 'G';
    }
  }

  const StartMessage := "Starting pod watcher..."
  const DetectedPrefix := "Detected crash: "
  const AppliedPrefix := "Applied fix: deleted pod "
  const ErrorPrefix := "Error applying fix: "

  /** The detection message of line 41. */
  function DetectionMessage(podName: string, reason: string, fix: string): string {
    Join([DetectedPrefix, podName, ", reason: ", reason, ", suggestion: ", fix])
  }

  /** The detection message of line 41, character for character. */
  lemma DetectionMessageText(podName: string, reason: string, fix: string)
    ensures DetectionMessage(podName, reason, fix) == "Detected crash: " + podName + ", reason: " + reason + ", suggestion: " + fix
  {
    JoinSix(DetectedPrefix, podName, ", reason: ", reason, ", suggestion: ", fix);
  }

  /** The detection message starts with its marker and carries the pod name,
      the reason and the suggestion. */
  lemma DetectionMessageContents(podName: string, reason: string, fix: string)
    ensures DetectedPrefix <= DetectionMessage(podName, reason, fix)
    ensures Contains(DetectionMessage(podName, reason, fix), podName)
    ensures Contains(DetectionMessage(podName, reason, fix), reason)
    ensures Contains(DetectionMessage(podName, reason, fix), fix)
  {
    JoinSix(DetectedPrefix, podName, ", reason: ", reason, ", suggestion: ", fix);
    ThreeHoles(DetectedPrefix, podName, ", reason: ", reason, ", suggestion: ", fix);
  }

  /** The success message of line 45. */
  function AppliedMessage(podName: string): (r: string)
    ensures "Applied fix: deleted pod " <= r && r[|AppliedPrefix|..] == podName
  {
    AppliedPrefix + podName
  }

  /** The failure message of line 47; `error` is the text of the exception. */
  function ErrorMessage(error: string): (r: string)
    ensures "Error applying fix: " <= r && r[|ErrorPrefix|..] == error
  {
    ErrorPrefix + error
  }

  /** The text after `prefix`, when `m` starts with it. */
  function After(prefix: string, m: string): Option<string> {
    if prefix <= m then Some(m[|prefix|..]) else None
  }

  /** The success and failure messages can be read back: the pod name and
      the exception text are recovered exactly. */
  lemma OutcomeMessagesRoundTrip(podName: string, error: string)
    ensures After(AppliedPrefix, AppliedMessage(podName)) == Some(podName)
    ensures After(ErrorPrefix, ErrorMessage(error)) == Some(error)
  {
    assert AppliedMessage(podName)[|AppliedPrefix|..] == podName;
    assert ErrorMessage(error)[|ErrorPrefix|..] == error;
  }

  /** What an entry of the event list reports. */
  datatype MessageKind = Start | Detection | Applied | ApplyError | Unknown

  /** Reads the kind of an entry back from its text. */
  function KindOf(m: string): MessageKind {
    if m == StartMessage then Start
    else if DetectedPrefix <= m then Detection
    else if AppliedPrefix <= m then Applied
    else if ErrorPrefix <= m then ApplyError
    else Unknown
  }

  /** Every message the agent writes is read back as the kind it was written
      as, whatever pod name, reason, suggestion or error text it carries. */
  lemma KindOfMessages(podName: string, reason: string, fix: string, error: string)
    ensures KindOf(StartMessage) == Start
    ensures KindOf(DetectionMessage(podName, reason, fix)) == Detection
    ensures KindOf(AppliedMessage(podName)) == Applied
    ensures KindOf(ErrorMessage(error)) == ApplyError
  {
    var d := DetectionMessage(podName, reason, fix);
    DetectionMessageContents(podName, reason, fix);
    assert d[0] == DetectedPrefix[0];
    assert d != StartMessage by { assert StartMessage[0] != d[0]; }
    var a := AppliedMessage(podName);
    assert a[0] == AppliedPrefix[0];
    assert a != StartMessage by { assert StartMessage[0] != a[0]; }
    assert !(DetectedPrefix <= a) by { assert DetectedPrefix[0] != a[0]; }
    var e := ErrorMessage(error);
    assert e[0] == ErrorPrefix[0];
    assert e != StartMessage by { assert StartMessage[0] != e[0]; }
    assert !(DetectedPrefix <= e) by { assert DetectedPrefix[0] != e[0]; }
    assert !(AppliedPrefix <= e) by { assert AppliedPrefix[0] != e[0]; }
  }
}
