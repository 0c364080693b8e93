/** The per-session state the app keeps between reruns (main.py:136-142):
    the log of saved prompts, the count of successful model calls and the
    text of the last failure; and the operations on it: a guarded model
    call (main.py:261-285), the auto-save of a generated prompt
    (main.py:392-395) and "Clear History" (main.py:221-224). */
module Session {
  import opened Text
  import opened Optional
  import Errors
  import Styles

  datatype State = State(prompts: seq<string>, apiCalls: nat, lastError: Option<string>)

  /** The state of a fresh session. */
  const Init := State([], 0, None)

  /** What the model call did. `Replied`: a reply came back and its text
      could be read. `Raised`: `generate_content` itself raised an exception
      with the given text. `Unreadable`: the reply came back, so the call was
      already counted (main.py:268 and 272), and then reading its text raised.
      The call itself is outside this model. */
  datatype Outcome = Replied(text: string) | Raised(error: string) | Unreadable(error: string)

  /** The state after a call together with the text handed back. */
  datatype Step = Step(state: State, result: string)

  /** `safe_generate`: a reply is counted and handed back stripped. An
      exception is remembered, and the text handed back is the message for
      it; it is counted only when the call had already returned. */
  function SafeGenerate(s: State, outcome: Outcome): (r: Step)
    ensures r.state.prompts == s.prompts
    ensures outcome.Replied? ==>
      r.state.apiCalls == s.apiCalls + 1 && r.state.lastError == s.lastError
      && r.result == Strip(outcome.text)
      && (r.result == [] || Stripped(r.result))
    ensures !outcome.Replied? ==>
      r.state.apiCalls == s.apiCalls + (if outcome.Unreadable? then 1 else 0)
      && r.state.lastError == Some(outcome.error)
      && r.result == Errors.Message(outcome.error)
      && (Contains(r.result, "Error") <==> Errors.Classify(outcome.error) == Errors.Other)
  {
    match outcome
    case Replied(text) => Step(s.(apiCalls := s.apiCalls + 1), Strip(text))
    case Raised(error) =>
      Errors.MessageMentionsError(error);
      Step(s.(lastError := Some(error)), Errors.Message(error))
    case Unreadable(error) =>
      Errors.MessageMentionsError(error);
      Step(s.(apiCalls := s.apiCalls + 1, lastError := Some(error)), Errors.Message(error))
  }

  /** The log line for clip number `clip`: `f"Clip {clip}:\n{result}"`. */
  function Entry(clip: nat, result: string): string {
    "Clip " + NatToString(clip) + ":\n" + result
  }

  predicate AllDigits(s: string) {
    forall i :: 0 <= i < |s| ==> IsDigit(s[i])
  }

  /** Reads a log line back into its clip number and text. */
  function ParseEntry(e: string): Option<(nat, string)> {
    if |e| < 5 || e[..5] != "Clip " then None
    else
      var rest := e[5..];
      var i := Find(rest, ':');
      if 0 < i && i + 1 < |rest| && rest[i + 1] == '\n' && AllDigits(rest[..i]) then
        Some((DigitsValue(rest[..i]), rest[i + 2..]))
      else None
  }

  lemma NumberHasNoColon(n: nat)
    ensures AllDigits(NatToString(n)) && ':' !in NatToString(n)
  {
    var digits := NatToString(n);
    NatToStringDigits(n);
    forall k | 0 <= k < |digits| ensures digits[k] != ':' {
      assert IsDigit(digits[k]);
    }
  }

  /** A log line can be read back: the number and the text are recovered. */
  lemma EntryRoundTrip(clip: nat, result: string)
    ensures ParseEntry(Entry(clip, result)) == Some((clip, result))
  {
    var digits := NatToString(clip);
    var rest := digits + (":\n" + result);
    assert Entry(clip, result)[5..] == rest && Entry(clip, result)[..5] == "Clip ";
    NumberHasNoColon(clip);
    NatToStringDigits(clip);
    FindAfter(digits, ":\n" + result, ':');
    assert rest[..|digits|] == digits;
    assert rest[|digits| + 2..] == result;
  }

  /** The auto-save rule after a clip's prompt came back: only when enabled,
      only a non-empty result, and only when "Error" (in that case) does not
      occur in it. */
  predicate Saves(enabled: bool, result: string) {
    enabled && |result| > 0 && !Contains(result, "Error")
  }

  function AutoSave(s: State, enabled: bool, clip: nat, result: string): (r: State)
    ensures r.apiCalls == s.apiCalls && r.lastError == s.lastError
    ensures |r.prompts| == |s.prompts| + (if Saves(enabled, result) then 1 else 0)
    ensures r.prompts[..|s.prompts|] == s.prompts
  {
    if Saves(enabled, result) then s.(prompts := s.prompts + [Entry(clip, result)]) else s
  }

  /** A saved entry is the last line of the log and reads back as the
      clip's number and result. */
  lemma AutoSaveRecords(s: State, enabled: bool, clip: nat, result: string)
    requires Saves(enabled, result)
    ensures var r := AutoSave(s, enabled, clip, result);
      ParseEntry(r.prompts[|r.prompts| - 1]) == Some((clip, result))
  {
    EntryRoundTrip(clip, result);
  }

  /** "Clear History": the log is emptied and the call count zeroed; the
      last failure is kept. */
  function Clear(s: State): (r: State)
    ensures r.prompts == [] && r.apiCalls == 0 && r.lastError == s.lastError
  {
    s.(prompts := [], apiCalls := 0)
  }

  /** Clearing twice is clearing once, and clearing forgets every save. */
  lemma ClearIdempotent(s: State, enabled: bool, clip: nat, result: string)
    ensures Clear(Clear(s)) == Clear(s)
    ensures Clear(AutoSave(s, enabled, clip, result)) == Clear(s)
  {
  }

  /** The tail of `generate_video_prompt` (main.py:391-397): the model's
      outcome goes through `safe_generate`, the result is auto-saved under
      the clip's number and handed back. */
  function AfterCall(s: State, enabled: bool, clip: nat, outcome: Outcome): Step {
    var step := SafeGenerate(s, outcome);
    Step(AutoSave(step.state, enabled, clip, step.result), step.result)
  }

  /** `generate_video_prompt` (main.py:314-397): the prompt for one clip is
      built and sent to the model, here the parameter `call`. */
  function GenerateVideoPrompt(s: State, enabled: bool, call: string -> Outcome,
                               desc: string, dialogue: string, style: string, clip: nat): Step
  {
    AfterCall(s, enabled, clip, call(Styles.VideoPrompt(desc, dialogue, style, clip)))
  }

  /** A failed call is remembered, is counted only when the reply had
      already come back, and its message is saved exactly when saving is
      enabled and the failure is one of the three specific ones: only the
      generic message says "Error". */
  lemma FailureSaved(s: State, enabled: bool, clip: nat, outcome: Outcome)
    requires !outcome.Replied?
    ensures var r := AfterCall(s, enabled, clip, outcome);
      && r.result == Errors.Message(outcome.error)
      && r.state.apiCalls == s.apiCalls + (if outcome.Unreadable? then 1 else 0)
      && r.state.lastError == Some(outcome.error)
      && (|r.state.prompts| > |s.prompts| <==> enabled && Errors.Classify(outcome.error) != Errors.Other)
  {
    Errors.MessageMentionsError(outcome.error);
  }

  /** A reply is counted, and saved as the stripped reply text exactly when
      saving is enabled and the stripped text is non-empty and free of
      "Error". */
  lemma ReplySaved(s: State, enabled: bool, clip: nat, text: string)
    ensures var r := AfterCall(s, enabled, clip, Replied(text));
      && r.result == Strip(text)
      && r.state.apiCalls == s.apiCalls + 1
      && r.state.lastError == s.lastError
      && (|r.state.prompts| > |s.prompts| <==> Saves(enabled, Strip(text)))
  {
  }

  /** The loop over the clips (main.py:645-655): clip `i` of `clips` is sent
      as number `first + i`. Returns the final state and every result. */
  function GenerateAll(s: State, enabled: bool, call: string -> Outcome,
                       desc: string, clips: seq<string>, style: string, first: nat): (r: (State, seq<string>))
    ensures |r.1| == |clips|
    ensures s.apiCalls <= r.0.apiCalls <= s.apiCalls + |clips|
    ensures |s.prompts| <= |r.0.prompts| <= |s.prompts| + |clips|
    ensures r.0.prompts[..|s.prompts|] == s.prompts
    decreases |clips|
  {
    if |clips| == 0 then (s, [])
    else
      var step := GenerateVideoPrompt(s, enabled, call, desc, clips[0], style, first);
      var rest := GenerateAll(step.state, enabled, call, desc, clips[1..], style, first + 1);
      (rest.0, [step.result] + rest.1)
  }
}
