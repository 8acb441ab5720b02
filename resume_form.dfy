/**
 * The AI-suggestion flow of the `ResumeForm` component and the skill draft
 * of its `SkillsForm` (src/components/ResumeForm.tsx). Time is a parameter:
 * the moment a click happens and the moment the AI call settles.
 */
module ResumeFormFlow {
  import opened Wrappers
  import opened Text
  import opened Types
  import opened AiService
  import opened AppState
  import SuggestionsModalState

  /** The placeholder shown when the AI call fails. */
  const ErrorPlaceholder := "Houve um erro ao buscar sugestões. Tente novamente."

  /** The floor, in milliseconds, on how long the dialog shows its loading state. */
  const MinDelay := 1000

  datatype AiField = SummaryTarget | DescriptionTarget

  /** `modalTarget`: which text the suggestions are for; `id` names the experience. */
  datatype Target = Target(field: AiField, id: Option<string>)

  // ----- the reply and the suggestion list -----

  /** What reading a property of a JavaScript value gives: a list, or `undefined`. */
  datatype PropertyRead = Undefined | StringList(items: seq<string>)

  /**
   * As written: `result.suggestions` where `result` is the string that
   * `improveText` resolves with. Reading a property of a string primitive
   * looks it up on `String.prototype`, which has `length` and the string
   * methods but nothing called `suggestions`; the read gives `undefined`
   * whatever the string is, so the reply does not enter the result.
   */
  function SuggestionsAsWritten(reply: string): PropertyRead {
    Undefined
  }

  /** As written, the list lines 447 and 450 store once the call has settled. */
  function SettledSuggestionsAsWritten(result: Result<string, AiError>): PropertyRead {
    match result
    case Ok(reply) => SuggestionsAsWritten(reply)
    case Err(_) => StringList([ErrorPlaceholder])
  }

  /** Where `SuggestionsModal` throws a TypeError on an `undefined` list. */
  datatype ThrowSite =
    | RenderMap     // `suggestions.map` while the open dialog renders its list
    | EffectLength  // `suggestions.length` in the effect that runs when the list changes

  /** What the dialog shows: nothing (closed), the loading skeleton, or a list of `count` entries. */
  datatype DialogView = Hidden | Skeleton | Listed(count: nat)

  /** `suggestions.length` in the dialog's effect: reading it from `undefined` throws. */
  function SuggestionCount(suggestions: PropertyRead): Result<nat, ThrowSite> {
    match suggestions
    case Undefined => Err(EffectLength)
    case StringList(items) => Ok(|items|)
  }

  /**
   * One update of the dialog with new props: it renders first (closed, the
   * skeleton while loading, otherwise the list through `suggestions.map`), and
   * then, because `suggestions` changed, its effect reads `suggestions.length`.
   * The updates of lines 447 and 452 run in one batch, so the dialog sees the
   * new list and the end of loading together.
   */
  function DialogUpdate(open: bool, isLoading: bool, suggestions: PropertyRead): Result<DialogView, ThrowSite> {
    if open && !isLoading then
      match suggestions
      case Undefined => Err(RenderMap)
      case StringList(items) => Ok(Listed(|items|))
    else
      match SuggestionCount(suggestions)
      case Err(site) => Err(site)
      case Ok(_) => Ok(if open then Skeleton else Hidden)
  }

  /**
   * As written, every successful call leaves the dialog with a list it cannot
   * read: an open dialog throws in `suggestions.map` while rendering, a dialog
   * closed during loading throws in its effect's `suggestions.length`, and no
   * suggestion is ever shown. A failed call shows the one error placeholder.
   */
  lemma SuccessPathAsWrittenThrows(result: Result<string, AiError>, open: bool)
    ensures result.Ok? ==>
      DialogUpdate(open, false, SettledSuggestionsAsWritten(result)) == Err(if open then RenderMap else EffectLength)
    ensures result.Err? ==>
      DialogUpdate(open, false, SettledSuggestionsAsWritten(result)) == Ok(if open then Listed(1) else Hidden)
  {
  }

  /** Corrected: the improved text is offered as the one suggestion. */
  function SuggestionsFromReply(reply: string): seq<string> {
    [reply]
  }

  /**
   * Corrected, a successful call offers the improved text and nothing else;
   * the dialog lists it without throwing, preselects it and, once loading is
   * over, confirming adopts it (unless the text is empty).
   */
  lemma CorrectedReplyIsPreselected(reply: string, open: bool)
    ensures DialogUpdate(open, false, StringList(SuggestionsFromReply(reply))) == Ok(if open then Listed(1) else Hidden)
    ensures SuggestionsFromReply(reply) != [] && reply in SuggestionsFromReply(reply)
    ensures forall t :: t in SuggestionsFromReply(reply) ==> t == reply
    ensures SuggestionsModalState.DefaultSelection(SuggestionsFromReply(reply)) == Some(reply)
    ensures reply != [] <==> !SuggestionsModalState.ConfirmDisabled(false, Some(reply))
  {
  }

  // ----- timing -----

  /**
   * When `Promise.all` settles: a success waits for both the call and the
   * floor; a failure rejects as soon as the call does.
   */
  function ReadyTime(startedAt: int, settledAt: int, succeeded: bool): (t: int)
    ensures t >= settledAt
    ensures succeeded ==> t >= startedAt + MinDelay && (t == settledAt || t == startedAt + MinDelay)
    ensures !succeeded ==> t == settledAt
  {
    if succeeded && settledAt < startedAt + MinDelay then startedAt + MinDelay else settledAt
  }

  // ----- the loading flags handed to the sub-forms -----

  /** `isLoading && modalTarget?.field === "summary"`. */
  function SummaryLoading(isLoading: bool, target: Option<Target>): bool {
    isLoading && target.Some? && target.value.field == SummaryTarget
  }

  /** `isLoading && modalTarget?.field === "description" ? modalTarget.id ?? null : null`. */
  function LoadingExperienceId(isLoading: bool, target: Option<Target>): Option<string> {
    if isLoading && target.Some? && target.value.field == DescriptionTarget then target.value.id else None
  }

  /**
   * The `isLoading` prop of `PersonalInfoForm` and the `loadingExperienceId` prop
   * of `ExperienceForm` are never both set; the latter names an experience
   * exactly when it is the loading target; neither is set once loading is over.
   */
  lemma LoadingFlagsExclusive(isLoading: bool, target: Option<Target>, id: string)
    ensures !(SummaryLoading(isLoading, target) && LoadingExperienceId(isLoading, target).Some?)
    ensures LoadingExperienceId(isLoading, target) == Some(id) <==> isLoading && target == Some(Target(DescriptionTarget, Some(id)))
    ensures !isLoading ==> !SummaryLoading(isLoading, target) && LoadingExperienceId(isLoading, target) == None
  {
  }

  class ResumeForm {
    var isModalOpen: bool
    var isLoading: bool
    var suggestions: seq<string>
    var modalTarget: Option<Target>
    /** When the last improve click happened. */
    var startedAt: int

    constructor()
      ensures !isModalOpen && !isLoading && suggestions == [] && modalTarget == None
    {
      isModalOpen := false;
      isLoading := false;
      suggestions := [];
      modalTarget := None;
      startedAt := 0;
    }

    /** The synchronous part of `handleImproveClick`, up to the call. */
    method BeginImprove(field: AiField, id: Option<string>, now: int)
      modifies this
      ensures modalTarget == Some(Target(field, id))
      ensures isLoading && suggestions == [] && isModalOpen
      ensures startedAt == now
      ensures SummaryLoading(isLoading, modalTarget) <==> field == SummaryTarget
      ensures LoadingExperienceId(isLoading, modalTarget) == if field == DescriptionTarget then id else None
    {
      modalTarget := Some(Target(field, id));
      isLoading := true;
      suggestions := [];
      isModalOpen := true;
      startedAt := now;
    }

    /**
     * The rest of `handleImproveClick`: the call has settled with `result`
     * at `settledAt`. Returns the moment the suggestions and the loading
     * flag are updated. Uses the corrected reading of the reply.
     */
    method Settle(result: Result<string, AiError>, settledAt: int) returns (readyAt: int)
      requires settledAt >= startedAt
      modifies this
      ensures readyAt == ReadyTime(startedAt, settledAt, result.Ok?)
      ensures result.Ok? ==> suggestions == SuggestionsFromReply(result.value)
      ensures result.Err? ==> suggestions == [ErrorPlaceholder]
      ensures !isLoading
      ensures !SummaryLoading(isLoading, modalTarget) && LoadingExperienceId(isLoading, modalTarget) == None
      ensures isModalOpen == old(isModalOpen) && modalTarget == old(modalTarget) && startedAt == old(startedAt)
    {
      readyAt := ReadyTime(startedAt, settledAt, result.Ok?);
      match result {
        case Ok(reply) => suggestions := SuggestionsFromReply(reply);
        case Err(_) => suggestions := [ErrorPlaceholder];
      }
      isLoading := false;
    }

    /**
     * Writes the adopted text into exactly the field the dialog was opened
     * for, then closes the dialog and forgets the target. Without a target
     * nothing happens.
     */
    method HandleSelectSuggestion(selectedText: string, app: App)
      requires app.Valid()
      modifies this, app
      ensures app.Valid()
      ensures old(modalTarget) == None ==>
        && app.resumeData == old(app.resumeData)
        && isModalOpen == old(isModalOpen) && modalTarget == None
      ensures old(modalTarget) != None ==> !isModalOpen && modalTarget == None
      ensures old(modalTarget).Some? && old(modalTarget).value.field == SummaryTarget ==>
        app.resumeData == old(app.resumeData).(personalInfo := SetPersonalField(old(app.resumeData.personalInfo), Summary, selectedText))
      ensures old(modalTarget).Some? && old(modalTarget).value.field == DescriptionTarget && old(modalTarget).value.id.Some? ==>
        app.resumeData == old(app.resumeData).(experiences :=
          UpdateExperience(old(app.resumeData.experiences), old(modalTarget).value.id.value, Description, Text(selectedText)))
      ensures old(modalTarget).Some? && old(modalTarget).value.field == DescriptionTarget && old(modalTarget).value.id.None? ==>
        app.resumeData == old(app.resumeData)
      ensures app.pending == old(app.pending) && app.confirmOpen == old(app.confirmOpen)
      ensures app.personalErrors == old(app.personalErrors) && app.experienceErrors == old(app.experienceErrors)
      ensures app.confirmMessage == old(app.confirmMessage)
      ensures isLoading == old(isLoading) && suggestions == old(suggestions) && startedAt == old(startedAt)
    {
      if modalTarget == None {
        return;
      }
      var target := modalTarget.value;
      if target.field == SummaryTarget {
        app.HandlePersonalInfoChange(Summary, selectedText);
      } else if target.id.Some? {
        // `handleSelectSuggestion` tests the id for truthiness; that differs from
        // `Some?` only for the empty id, which `uuid` never produces.
        app.HandleExperienceChange(target.id.value, Description, Text(selectedText));
      }
      isModalOpen := false;
      modalTarget := None;
    }

    /** `onClose`: only the dialog closes; the target, the list and the resume stay. */
    method Close()
      modifies this
      ensures !isModalOpen
      ensures isLoading == old(isLoading) && suggestions == old(suggestions) && modalTarget == old(modalTarget)
    {
      isModalOpen := false;
    }
  }

  /** `newSkill`, the draft of the skill being typed, and `handleAddSkill`. */
  class SkillsForm {
    var draftName: string
    var draftLevel: SkillLevel

    constructor()
      ensures draftName == "" && draftLevel == Basic
    {
      draftName := "";
      draftLevel := Basic;
    }

    /**
     * Adds the draft, with its name as typed, only when the name is not
     * blank, and then clears the draft; a blank draft is left as it is.
     */
    method HandleAddSkill(app: App, freshId: string)
      requires app.Valid()
      requires forall i :: 0 <= i < |app.resumeData.skills| ==> app.resumeData.skills[i].id != freshId
      modifies this, app
      ensures app.Valid()
      ensures !IsBlank(old(draftName)) ==>
        && app.resumeData == old(app.resumeData).(skills := old(app.resumeData.skills) + [Skill(freshId, old(draftName), old(draftLevel))])
        && draftName == "" && draftLevel == Basic
      ensures IsBlank(old(draftName)) ==>
        && app.resumeData == old(app.resumeData)
        && draftName == old(draftName) && draftLevel == old(draftLevel)
      ensures app.pending == old(app.pending) && app.confirmOpen == old(app.confirmOpen)
      ensures app.personalErrors == old(app.personalErrors) && app.experienceErrors == old(app.experienceErrors)
      ensures app.confirmMessage == old(app.confirmMessage)
    {
      if Trim(draftName) != [] {
        app.AddSkill(draftName, draftLevel, freshId);
        draftName := "";
        draftLevel := Basic;
      }
    }
  }
}
