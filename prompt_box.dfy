/** The task prompt form: a text field whose submit handler hands the trimmed
    prompt to the parent and clears the field, but only when there is
    something to submit. */
module Prompt {
  import opened Schemas
  import opened JsStrings

  /** What a submit with this field content hands to `onSubmit`, if anything:
      nothing without a callback or when the content is all whitespace. */
  function Submission(prompt: string, onSubmitProvided: bool): (r: Option<string>)
  {
    if onSubmitProvided && Trim(prompt) != "" then Some(Trim(prompt)) else None
  }

  /** A submission happens exactly when a callback is given and the prompt is
      not all whitespace; what is submitted is the trimmed prompt, which is
      non-empty and neither starts nor ends with whitespace. */
  lemma SubmissionFacts(prompt: string, onSubmitProvided: bool)
    ensures Submission(prompt, onSubmitProvided).Some? <==> onSubmitProvided && !AllSpace(prompt)
    ensures match Submission(prompt, onSubmitProvided)
      case Some(s) => s == Trim(prompt) && s != "" && !IsSpace(s[0]) && !IsSpace(s[|s| - 1])
      case None => true
  {
    TrimFacts(prompt);
  }

  class PromptBox {
    /** The `prompt` state shown in the text area. */
    var prompt: string

    constructor ()
      ensures prompt == ""
    {
      prompt := "";
    }

    /** The text area's change handler: the field takes the typed value. */
    method SetPrompt(value: string)
      modifies this
      ensures prompt == value
    {
      prompt := value;
    }

    /** `handleSubmit`: `onSubmitProvided` says whether the parent passed an
        `onSubmit` callback; the result is the one call made to it, if any. */
    method HandleSubmit(onSubmitProvided: bool) returns (submitted: Option<string>)
      modifies this
      ensures submitted == Submission(old(prompt), onSubmitProvided)
      // the field is cleared exactly when something was submitted
      ensures prompt == if submitted.Some? then "" else old(prompt)
    {
      var trimmed := Trim(prompt);
      if onSubmitProvided && trimmed != "" {
        submitted := Some(trimmed);
        prompt := "";
      } else {
        submitted := None;
      }
    }
  }
}
