/**
 * The two input forms with a guard: the vision/mission form of the wizard
 * (`src/components/VisionMissionForm.tsx`) and the message box of the
 * companion chat (`ai/src/components/ChatInput.tsx`). A string is truthy
 * in the guards exactly when it is not empty.
 */
module Forms {
  import opened Wrappers
  import opened Text
  import opened Chat

  // ---------------------------------------------------------------------
  // VisionMissionForm

  /** Line 20: both fields hold something other than whitespace. */
  predicate IsValid(vision: string, mission: string) {
    |Trim(vision)| > 0 && |Trim(mission)| > 0
  }

  /** Line 69: the submit button. */
  predicate SubmitDisabled(vision: string, mission: string) {
    !IsValid(vision, mission)
  }

  /** Lines 13-18: the pair handed to `onSubmit`, trimmed, or nothing when the guard fails. */
  function SubmitVisionMission(vision: string, mission: string): (r: Option<VisionMission>)
    ensures r.Some? <==> IsValid(vision, mission)
    ensures r.Some? <==> !SubmitDisabled(vision, mission)
    ensures r.Some? ==> r.value.vision == Trim(vision) && r.value.mission == Trim(mission)
  {
    if |Trim(vision)| > 0 && |Trim(mission)| > 0 then Some(VisionMission(Trim(vision), Trim(mission))) else None
  }

  /** What was submitted is already trimmed: typing it in again submits the same pair. */
  lemma {:induction false} SubmittedIsFixed(vision: string, mission: string)
    requires IsValid(vision, mission)
    ensures var vm := SubmitVisionMission(vision, mission).value;
      SubmitVisionMission(vm.vision, vm.mission) == Some(vm)
  {
    TrimOfTrimmed(Trim(vision));
    TrimOfTrimmed(Trim(mission));
  }

  /** The submitted texts neither start nor end with whitespace. */
  lemma {:induction false} SubmittedIsTrimmed(vision: string, mission: string)
    requires IsValid(vision, mission)
    ensures var vm := SubmitVisionMission(vision, mission).value;
      !IsSpace(vm.vision[0]) && !IsSpace(vm.vision[|vm.vision| - 1]) &&
      !IsSpace(vm.mission[0]) && !IsSpace(vm.mission[|vm.mission| - 1])
  {
  }

  // ---------------------------------------------------------------------
  // ChatInput

  /** What a submit of the chat box does: the message sent, if any, and the box's new content. */
  datatype Submitted = Submitted(sent: Option<string>, input: string)

  /** Line 32: the send button. */
  predicate SendDisabled(input: string, disabled: bool) {
    |Trim(input)| == 0 || disabled
  }

  /** Lines 12-18: send the trimmed text and clear the box, or leave everything as it is. */
  function SubmitMessage(input: string, disabled: bool): (r: Submitted)
    ensures r.sent.Some? <==> !SendDisabled(input, disabled)
    ensures r.sent.Some? ==> r.sent.value == Trim(input) && r.input == ""
    ensures r.sent.None? ==> r.input == input
  {
    if |Trim(input)| > 0 && !disabled then Submitted(Some(Trim(input)), "") else Submitted(None, input)
  }

  /** A sent message is never blank and is its own trimmed form. */
  lemma {:induction false} SentMessageClean(input: string, disabled: bool)
    requires SubmitMessage(input, disabled).sent.Some?
    ensures var m := SubmitMessage(input, disabled).sent.value;
      m != "" && Trim(m) == m
  {
    TrimOfTrimmed(Trim(input));
  }

  /** Submitting twice sends once: the cleared box has nothing left to send. */
  lemma {:induction false} SubmitTwiceSendsOnce(input: string, disabled: bool)
    ensures SubmitMessage(SubmitMessage(input, disabled).input, disabled).sent.Some? ==>
      SubmitMessage(input, disabled).sent.None?
  {
    TrimOfTrimmed("");
  }
}
