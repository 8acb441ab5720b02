# Resume builder: validation engine and editing workflow, in Dafny

This project models the logic of a client-side resume builder. The user types personal
information, skills and work experiences. A validator decides which fields carry an error
message. Removals go through a confirmation dialog. A summary or a job description can be
rewritten by an external text-generation service, whose suggestions appear in a dialog and
can be adopted into the resume.

Modules, in dependency order:

- `Wrappers`: `Option` and `Result`.
- `Text`: the JavaScript string built-ins the validators use: `trim` and the `\s` class with
  ECMAScript white space, `\d`, `replace(/\D/g, "")`, `toLowerCase` on ASCII, `endsWith` and
  `Number` on a run of digits.
- `Types`: the records of `src/types.ts`, and the fact that ids are never shared.
- `Dates`: `parsePtBrDate`. The JavaScript `Date` constructor is modelled by calendar
  arithmetic: two-digit years mean 19xx, a month index carries into the year, and an
  out-of-range day carries into the neighbouring months.
- `Fields`: the e-mail pattern (whose `{2,}` counts UTF-16 code units, as JavaScript
  strings do), the Brazilian phone digit count, `normalizeUrl` (the scheme
  grammar of section 3.1 of RFC 3986), a simplified host parser after the WHATWG URL
  Standard, and the LinkedIn allow-list. The host parser knows the special schemes
  (including `file`), the slashes and backslashes after them, user info, ports up to 65535,
  the forbidden host and domain code points, and the lower-casing of special hosts.
- `Validation`: `validateResume`, split into three methods:
  - `ValidatePersonalInfo` (lines 65-78);
  - `ValidateExperience` (the loop body, lines 82-115);
  - `ValidateResume` (the whole function, with its loop).

  The statements for each field sit in a small method of their own (`CheckName`,
  `CheckEmail`, and so on), which sets that field's entry from its rule. Each of the three
  methods is proved equal to a rule-per-field specification, and lemmas state what those
  rules mean.
- `AppState`: the `App` component as a class. Its fields are the state cells. Its methods
  are the handlers. Pure update functions build the new records.
- `AiService`: how `improveText` turns the key and the network's reply into a result or an
  error.
- `SuggestionsModalState`: the dialog's `selected` state as a class.
- `ResumeFormFlow`: two classes.
  - `ResumeForm` holds the improve-click state machine. Click and settle times are
    parameters.
  - `SkillsForm` holds the skill draft.

## Model

| member | source | states |
|---|---|---|
| `Text.Trim` | src/hooks/useValidation.ts:34 | `trim` leaves no white space at either end, and its result is empty exactly when the input is blank |
| `Text.TrimCutsBlankEnds` | src/hooks/useValidation.ts:34 | `trim` keeps a contiguous middle slice of the input, and everything it cuts off is white space |
| `Text.TrimOfPadded` | src/services/ai.ts:38 | white space around a text with non-blank ends is removed, and the text itself is kept |
| `Text.Digits` | src/hooks/useValidation.ts:28 | `replace(/\D/g, "")` leaves only ASCII digits, and leaves a string of digits unchanged |
| `Text.DigitsConcat` | src/hooks/useValidation.ts:28 | removing non-digits distributes over concatenation, so the digits keep their order |
| `Dates.DaysInMonth` | src/hooks/useValidation.ts:21-22 | months have 28 to 31 days; 29 occurs exactly for February of a Gregorian leap year |
| `Dates.CarryDays` | src/hooks/useValidation.ts:21 | the Date constructor always lands on a real day; it keeps a day that fits its month and otherwise moves backwards (day < 1) or forwards (day past the end) |
| `Dates.ParsePtBrDateAcceptsCalendarDates` | src/hooks/useValidation.ts:14-24 | `parsePtBrDate` succeeds iff the text is `dd/mm/yyyy`, 1 ≤ mm ≤ 12, 1 ≤ dd ≤ days of that month and yyyy ≥ 100; on success the date holds exactly the digits as written |
| `Dates.ParseRefusesThirtyFirstOfApril` | src/hooks/useValidation.ts:21-22 | "31/04/2024" rolls over to May and is refused |
| `Dates.ParseRefusesLeapDayOfCommonYear` | src/hooks/useValidation.ts:21-22 | "29/02/2023" is refused |
| `Dates.ParseAcceptsLeapDay` | src/hooks/useValidation.ts:14-24 | "29/02/2024" parses to 29 February 2024, with month index 1 |
| `Dates.ParseRefusesYearBelowHundred` | src/hooks/useValidation.ts:21-22 | "01/01/0099" is refused, because the constructor reads year 99 as 1999 |
| `Fields.IsValidEmailMatchesPattern` | src/hooks/useValidation.ts:10 | the one-pass e-mail check accepts exactly the strings the e-mail regular expression matches, with the last part's length counted in UTF-16 code units, as a pattern without the `u` flag counts it |
| `Fields.AstralLastPartAccepted` | src/hooks/useValidation.ts:10 | "a@b.😀" is accepted, since its last part is a surrogate pair (two code units) |
| `Fields.OneUnitLastPartRefused` | src/hooks/useValidation.ts:10 | "a@b.c" is refused: its last part has one code unit |
| `Fields.PhoneIgnoresNonDigits` | src/hooks/useValidation.ts:27-30 | inserting any non-digit anywhere never changes the phone verdict |
| `Fields.PhoneOfDigitString` | src/hooks/useValidation.ts:27-30 | a string of digits is a valid phone iff it has 10 or 11 characters |
| `Fields.SchemeColon` | src/hooks/useValidation.ts:36 | finds the ':' that ends a `^[a-zA-Z][a-zA-Z0-9+.-]*:` prefix, and reports none exactly when no such prefix exists |
| `Fields.NormalizeUrl` | src/hooks/useValidation.ts:33-38 | the result is empty iff the input is blank; otherwise it has a scheme and no surrounding white space |
| `Fields.NormalizeSchemed` | src/hooks/useValidation.ts:36-37 | trimmed input that has a scheme is returned unchanged |
| `Fields.NormalizeUnschemed` | src/hooks/useValidation.ts:36 | trimmed input without a scheme gets `https://` in front |
| `Fields.NormalizeUrlIdempotent` | src/hooks/useValidation.ts:33-38 | normalizing twice equals normalizing once |
| `Fields.NormalizeUrlCases` | src/hooks/useValidation.ts:33-38 | non-blank input is trimmed; the `https://` prefix is added exactly when the trimmed text has no scheme |
| `Fields.HttpsHostname` | src/hooks/useValidation.ts:44 | the host name of `https://host/path` is `host` lower-cased, for a plain host: letters, digits, dots and hyphens, no `xn--` label, and a last label that starts with a letter (so it is neither IPv4 nor Punycode) |
| `Fields.PlainHostParses` | src/hooks/useValidation.ts:44 | a plain host has no user info, no port and no forbidden code point, so its host name is itself lower-cased |
| `Fields.PortAboveRangeRefused` | src/hooks/useValidation.ts:44 | an authority whose port is above 65535 does not parse |
| `Fields.LinkedInPortOutOfRange` | src/hooks/useValidation.ts:43-56 | `https://host:port/path` with a port above 65535 is refused, even for a LinkedIn host, because the URL constructor throws |
| `Fields.FileHostnameOf` | src/hooks/useValidation.ts:44 | after `file://` the host is the text up to the first delimiter, read without user info or port |
| `Fields.FileUserInfoRefused` | src/hooks/useValidation.ts:44 | a `file:` URL with an '@' in its host has no host name |
| `Fields.LinkedInFileUserInfoRefused` | src/hooks/useValidation.ts:43-56 | such a `file:` URL is refused as a LinkedIn profile |
| `Fields.LinkedInDecidedByHost` | src/hooks/useValidation.ts:41-57 | for a plain host (as in `HttpsHostname`) followed by a path, with or without `https://`, `validateLinkedIn` is the allow-list applied to the lower-cased host, whatever the path |
| `Fields.LinkedInAcceptsBareProfile` | src/hooks/useValidation.ts:41-53 | "linkedin.com/in/x" is accepted, after `https://` is added |
| `Fields.LinkedInAcceptsSubdomain` | src/hooks/useValidation.ts:48-50 | "https://pt.linkedin.com/in/x" is accepted as a subdomain |
| `Fields.LinkedInAcceptsShortLink` | src/hooks/useValidation.ts:51 | "https://lnkd.in/abc" is accepted |
| `Fields.LinkedInRefusesOtherHost` | src/hooks/useValidation.ts:48-53 | "https://example.com" is refused |
| `Fields.LinkedInRefusesNonUrl` | src/hooks/useValidation.ts:43-56 | "not a url" gives a host that the URL parser rejects, so the answer is false, not an exception |
| `Validation.PersonalErrorsOf` | src/hooks/useValidation.ts:65-78 | the personal map has an entry for exactly the fields whose rule gives a message, and that message is the entry |
| `Validation.ExperienceErrorsOf` | src/hooks/useValidation.ts:82-113 | one experience's map has an entry for exactly the fields whose rule gives a message |
| `Validation.MissingIsTrimEmpty` | src/hooks/useValidation.ts:71 | the blank test of the rules is the source's `!x?.trim()` |
| `Validation.CheckName` | src/hooks/useValidation.ts:71 | the name's entry is set to the name rule's message when it has one, and the map is otherwise unchanged |
| `Validation.CheckEmail` | src/hooks/useValidation.ts:72-73 | the e-mail's entry is set to the e-mail rule's message when it has one, and the map is otherwise unchanged |
| `Validation.CheckPhone` | src/hooks/useValidation.ts:75-76 | the phone's entry is set to the phone rule's message when it has one, and the map is otherwise unchanged |
| `Validation.CheckLinkedin` | src/hooks/useValidation.ts:78 | the LinkedIn entry is set to the LinkedIn rule's message when it has one, and the map is otherwise unchanged |
| `Validation.CheckCompany` | src/hooks/useValidation.ts:84 | the company's entry is set to the company rule's message when it has one, and the map is otherwise unchanged |
| `Validation.CheckRole` | src/hooks/useValidation.ts:85 | the role's entry is set to the role rule's message when it has one, and the map is otherwise unchanged |
| `Validation.CheckStartDate` | src/hooks/useValidation.ts:87-92 | the start date's entry is set to the start-date rule's message when it has one, and the map is otherwise unchanged |
| `Validation.CheckEndDate` | src/hooks/useValidation.ts:94-113 | the date's own test and then the order check leave exactly the end-date rule's message, the order message taking precedence; without a message the map is unchanged |
| `Validation.ValidatePersonalInfo` | src/hooks/useValidation.ts:65-78 | the source's four `if` statements build exactly the personal map of the rules |
| `Validation.ValidateExperience` | src/hooks/useValidation.ts:82-113 | the statements of the loop body, including the order check that overrides the end date's message, build exactly that experience's map |
| `Validation.ValidateResume` | src/hooks/useValidation.ts:60-120 | the loop keeps the experience map equal to the rules applied to the experiences seen so far; `ok` holds iff every field of the resume passes |
| `Validation.BadDateIsNotCalendarDate` | src/hooks/useValidation.ts:90 | the date test of the loop (the pattern fails, or the parse gives null) holds exactly when `s` is not a real calendar day |
| `Validation.NoErrorsMeansPasses` | src/hooks/useValidation.ts:118 | both maps are empty iff the resume passes every rule, so `ok` means "no field has a message" |
| `Validation.ExperienceErrorMapEmpty` | src/hooks/useValidation.ts:115-118 | the experience map is empty iff every experience passes |
| `Validation.ExperienceErrorMapKeys` | src/hooks/useValidation.ts:115 | an id is a key iff some experience with that id has at least one field error |
| `Validation.ExperienceErrorMapLookup` | src/hooks/useValidation.ts:115 | with distinct ids, the entry under a flagged experience's id is that experience's own map |
| `Validation.NameFlaggedIffBlank` | src/hooks/useValidation.ts:71 | the name is flagged iff it is blank |
| `Validation.EmailFlaggedIffBlankOrMalformed` | src/hooks/useValidation.ts:72-73 | the e-mail is flagged iff it is blank or fails the pattern; the message is "required" exactly when it is blank |
| `Validation.PhoneFlaggedIffBlankOrWrongLength` | src/hooks/useValidation.ts:75-76 | the phone is flagged iff it is blank or its digit count is neither 10 nor 11; the message is "required" exactly when it is blank |
| `Validation.LinkedinFlaggedIffRefused` | src/hooks/useValidation.ts:78 | the optional LinkedIn field is flagged iff `validateLinkedIn` refuses it |
| `Validation.SummaryNeverFlagged` | src/hooks/useValidation.ts:69-78 | the summary never gets a message |
| `Validation.OnlyFourExperienceFieldsFlagged` | src/hooks/useValidation.ts:82-113 | only company, role, start date and end date are ever flagged |
| `Validation.StartDateFlaggedIffNotCalendarDate` | src/hooks/useValidation.ts:88-92 | the start date is flagged iff it is not a calendar day; the message is "required" exactly when it is blank |
| `Validation.FinishedJobEndDate` | src/hooks/useValidation.ts:95-113 | for a finished job, the end date is flagged iff it is not a calendar day or it comes strictly before a valid start date; equal dates pass |
| `Validation.CurrentJobEndDate` | src/hooks/useValidation.ts:101-110 | for a current job, the end date is flagged only when it is typed and is not a calendar day, and then with the "invalid" message; the order is not checked |
| `Validation.EmptyFormFlagsRequiredFields` | src/hooks/useValidation.ts:71-78 | an empty form gets exactly the three "required" messages: name, e-mail and phone |
| `Validation.EndBeforeStartExample` | src/hooks/useValidation.ts:109-113 | a finished job from 01/06/2023 to 01/01/2023 gets the order message on its end date |
| `AppState.SetPersonalField` | src/App.tsx:58-66 | the named field reads back the new value, and every other personal field keeps its value |
| `AppState.SetExperienceField` | src/App.tsx:117-134 | the named field reads back the new value (a boolean for the checkbox, text for any other input), and every other field keeps its value |
| `AppState.UpdateExperience` | src/App.tsx:128-133 | the list keeps its length and order; an entry changes only when its id matches |
| `AppState.UpdateExperienceTouchesOneField` | src/App.tsx:128-133 | after an edit, field g of entry i differs from before only if entry i has the id and g is the edited field |
| `AppState.UpdateExperienceKeepsIds` | src/App.tsx:128-133 | an edit to anything but the id keeps every id, so distinct ids stay distinct |
| `AppState.RemoveId` | src/App.tsx:75-80 | the filter keeps exactly the elements whose id differs, and never grows the list |
| `AppState.RemoveIdConcat` | src/App.tsx:104-109 | filtering distributes over concatenation, so the relative order of the kept elements is preserved |
| `AppState.RemoveIdAbsent` | src/App.tsx:104-109 | removing an id that no element carries changes nothing |
| `AppState.RemoveIdIdempotent` | src/App.tsx:75-80 | removing the same id twice equals removing it once |
| `AppState.RemoveIdKeepsDistinct` | src/App.tsx:75-80 | removal keeps ids distinct |
| `AppState.RemoveIdDropsOne` | src/App.tsx:75-80 | with distinct ids, removing an id that is present drops exactly one element |
| `AppState.ConfirmedRemoval` | src/App.tsx:150-155 | confirming removes exactly the entries of the pending kind with the pending id, and exactly one when the id was present; the other list and the personal data are unchanged; with nothing pending, nothing changes |
| `AppState.BlankExperienceFlagged` | src/App.tsx:88-102 | a newly added experience is flagged for company, role, start date and end date, each with its "required" message |
| `AppState.App.constructor` | src/App.tsx:31-42 | the state starts with an empty resume, empty error maps and a closed dialog with nothing pending |
| `AppState.App.HandlePersonalInfoChange` | src/App.tsx:58-66 | only the named personal field changes; skills, experiences, errors and the dialog are unchanged |
| `AppState.App.AddSkill` | src/App.tsx:68-73 | appends exactly one skill with the given name, level and fresh id; the existing skills and their order are unchanged |
| `AppState.App.RemoveSkill` | src/App.tsx:75-80 | the skill list becomes the filtered list, ids stay distinct, and nothing else changes |
| `AppState.App.RequestRemoveSkill` | src/App.tsx:82-86 | the skill removal becomes pending, the dialog opens with "Excluir esta habilidade?", and the resume is untouched |
| `AppState.App.AddExperience` | src/App.tsx:88-102 | appends one experience with the fresh id, all text fields empty and `isCurrent` false |
| `AppState.App.RemoveExperience` | src/App.tsx:104-109 | the experience list becomes the filtered list, ids stay distinct, and nothing else changes |
| `AppState.App.RequestRemoveExperience` | src/App.tsx:111-115 | the experience removal becomes pending, the dialog opens with "Excluir esta experiência?", and the resume is untouched |
| `AppState.App.HandleExperienceChange` | src/App.tsx:117-134 | the experience list becomes the id-matched field update, ids stay distinct, and nothing else changes |
| `AppState.App.RunValidation` | src/App.tsx:137-142 | stores the validator's personal and experience maps as the error state, leaves the resume and the dialog alone, and returns `ok`, which holds iff both maps are empty |
| `AppState.App.HandleConfirm` | src/App.tsx:150-155 | applies exactly the pending removal, then clears `pending` and closes the dialog; a second confirm therefore changes nothing |
| `AppState.App.HandleCancel` | src/App.tsx:157-160 | clears `pending` and closes the dialog; the resume is unchanged |
| `AiService.Improved` | src/services/ai.ts:34-38 | a non-empty string text comes back as its `trim`; a missing, empty or falsy text gives the trimmed fallback sentence; a truthy text that is not a string has no `trim` and rejects with a TypeError; whatever comes back is already trimmed |
| `AiService.ImproveText` | src/services/ai.ts:2-43 | an empty key is rejected before any request; a text comes back iff the key is present, the answer is a 2xx JSON reply other than `null`, and its text is not a truthy non-string; a non-2xx status is rejected with that status; a `null` body rejects with a TypeError; for any other JSON body the result is `Improved` of its first part's text |
| `AiService.MissingTextFallsBack` | src/services/ai.ts:34-36 | a reply whose text is missing or empty gives "Não foi possível melhorar o texto." |
| `AiService.TextReturnedAsIs` | src/services/ai.ts:38 | a reply text with no surrounding white space is returned unchanged |
| `AiService.PaddedTextTrimmed` | src/services/ai.ts:38 | the reply text "  Texto\n" comes back as "Texto" |
| `AiService.BlankTextGivesEmpty` | src/services/ai.ts:36-38 | a non-empty text of white space only is truthy, so it is trimmed to "" rather than replaced by the fallback |
| `AiService.NonStringTextRejected` | src/services/ai.ts:32-38 | a truthy text that is not a string, and a JSON `null` body, both reject with a TypeError |
| `SuggestionsModalState.DefaultSelection` | src/components/SuggestionsModal.tsx:33-39 | something is selected iff the list is non-empty, and then it is the first suggestion |
| `SuggestionsModalState.SuggestionsModal.constructor` | src/components/SuggestionsModal.tsx:31 | nothing is selected at first |
| `SuggestionsModalState.SuggestionsModal.SyncSelection` | src/components/SuggestionsModal.tsx:33-39 | when the list changes, its first entry becomes the selection, or nothing when the list is empty |
| `SuggestionsModalState.SuggestionsModal.Click` | src/components/SuggestionsModal.tsx:58-75 | a click on a rendered entry selects its text; clicks while closed or loading reach nothing and change nothing |
| `SuggestionsModalState.SuggestionsModal.Confirm` | src/components/SuggestionsModal.tsx:41-47 | the selection is handed on iff the dialog is open, not loading and the selection is truthy; null and "" are never adopted |
| `SuggestionsModalState.EnabledAfterSync` | src/components/SuggestionsModal.tsx:86 | right after the list changes, the confirm button is enabled iff loading is over and the first suggestion is non-empty |
| `ResumeFormFlow.SuccessPathAsWrittenThrows` | src/components/ResumeForm.tsx:445-452 | as written, once a successful call settles the dialog throws, in `suggestions.map` if it is open and in the effect if it was closed; a failed call lists the one placeholder |
| `ResumeFormFlow.CorrectedReplyIsPreselected` | src/components/ResumeForm.tsx:447 | corrected, the improved text is the only suggestion; the dialog lists it without throwing, preselects it, and can adopt it once loading is over, unless it is empty |
| `ResumeFormFlow.ReadyTime` | src/components/ResumeForm.tsx:442-445 | a success updates the dialog at the later of the call's settling and click + 1000 ms; a failure updates it as soon as the call rejects |
| `ResumeFormFlow.LoadingFlagsExclusive` | src/components/ResumeForm.tsx:488-509 | the `isLoading` prop handed to `PersonalInfoForm` (line 490) and the `loadingExperienceId` prop handed to `ExperienceForm` (lines 504-508) are never both set; the latter is an experience's id iff that experience is the loading description target; neither is set when not loading |
| `ResumeFormFlow.ResumeForm.constructor` | src/components/ResumeForm.tsx:418-424 | the dialog starts closed and not loading, with no suggestions and no target |
| `ResumeFormFlow.ResumeForm.BeginImprove` | src/components/ResumeForm.tsx:431-434 | sets the target to (field, id), turns loading on, clears the suggestions and opens the dialog; of the `isLoading` and `loadingExperienceId` props, exactly the one for the target's field is set, the latter to the target's id |
| `ResumeFormFlow.ResumeForm.Settle` | src/components/ResumeForm.tsx:442-453 | on success the suggestions become `[reply]`, the corrected line 447 (see Findings); on failure the one error placeholder does; loading ends in both cases, at the time given by `ReadyTime`, and neither the `isLoading` nor the `loadingExperienceId` prop is set any more |
| `ResumeFormFlow.ResumeForm.HandleSelectSuggestion` | src/components/ResumeForm.tsx:456-471 | with no target nothing happens; a summary target writes only `personalInfo.summary`; a description target with an id writes only that experience's description; the dialog then closes and the target is cleared |
| `ResumeFormFlow.ResumeForm.Close` | src/components/ResumeForm.tsx:480 | only the dialog closes; the target, the list and the resume stay |
| `ResumeFormFlow.SkillsForm.constructor` | src/components/ResumeForm.tsx:184-187 | the draft starts as an empty name at level "Básico" |
| `ResumeFormFlow.SkillsForm.HandleAddSkill` | src/components/ResumeForm.tsx:189-194 | a draft whose trimmed name is non-empty is appended (its name as typed), and the draft resets to "" / "Básico"; a blank draft changes nothing |

## Left out

- Rendering, the preview, PDF export, the header and footer, and the confirmation dialog's
  keyboard and backdrop handlers. These are markup and event wiring with no decisions.
- The API key's `localStorage` persistence (src/App.tsx:46-56) and src/hooks/useLocalStorage.ts
  are storage I/O.
- `uuid` (src/App.tsx:23-29) draws from `crypto`, the clock and `Math.random`. Each add
  method takes the new id as a parameter, and requires it to be unused.
- The HTTP request of `improveText` is out of scope: the endpoint, the headers, the body built
  from the prompt and the text, and the console logging. The network's reply is a parameter.
  So the prompt and text arguments, which only shape the request, do not appear.
- Real timers and promises. Instants are integers handed to `BeginImprove` and `Settle`.
  Two overlapping improve requests, where the second click's results race the first, are not
  modelled. React's batching of state updates into renders appears only in
  `ResumeFormFlow.DialogUpdate`, which sees the new list and the end of loading together.
- `Fields.UrlHostname`: the URL parser does not remove ASCII tab and newline from inside the
  input, and does not strip leading or trailing C0 controls; `normalizeUrl` has already trimmed
  the ends. It does no percent-decoding, no IDNA mapping or Punycode check of `xn--` labels,
  and no IPv4 or IPv6 host parsing; an opaque host is not percent-encoded. The LinkedIn lemmas
  are stated for plain hosts (ASCII letters, digits, dots and hyphens, no `xn--` label, and a
  last label that starts with a letter), where none of these steps changes the host. No
  allow-listed host ends in a number, so IPv4 parsing never turns a refused host into an
  accepted one.
- `Fields.HttpsHostname` and `Fields.LinkedInDecidedByHost` say nothing about hosts outside
  that plain form, for the reasons just given.
- `ResumeFormFlow.ResumeForm.Settle` models the corrected line 447 of
  src/components/ResumeForm.tsx, which offers `[reply]`. As written the line stores
  `undefined`; `ResumeFormFlow.SuccessPathAsWrittenThrows` models that. Splitting the reply
  into several suggestions is not done by the code and is not modelled.
- `AiButton` (src/components/ui/AiButton.tsx:6-44) takes only `onClick` and `disabledReason`. It
  ignores the `disabled` prop and the children that `PersonalInfoForm` and `ExperienceForm` pass
  it, and draws its spinner from a `loading` state of its own, set while its own click is
  pending. So the `isLoading` and `loadingExperienceId` props that
  `ResumeFormFlow.LoadingFlagsExclusive`, `BeginImprove` and `Settle` describe neither draw a
  spinner nor block a second click; that per-button state is not modelled.
- Strings are sequences of Unicode scalar values. A lone surrogate, which a JavaScript string
  can hold, cannot occur in the model; a surrogate pair is one character, which
  `Fields.Utf16Length` counts as two code units where the e-mail pattern counts them.
- `Text.ToLower` lower-cases ASCII only. The URL parser hands host names on in ASCII.
- `AppState.App.HandleExperienceChange` requires that the edited field is not `id` and that
  the value fits the field. The form has no input named `id`, and only the `isCurrent` input
  is a checkbox. The source would also accept other combinations through a cast.
- The draft edits of `SkillsForm` (`setNewSkill` on each keystroke and selection) are plain
  assignments with no logic.

Where the code does not do what it evidently intends, the model follows the code, except
for the success path of `Settle` (see Findings). In particular:

- With `Promise.all`, a failed call rejects the join at once. The 1000 ms floor therefore
  applies only to the success path (`ReadyTime`).
- Closing the dialog early does not discard a late result. `Settle` updates the suggestions
  and the loading flag whether or not the dialog is still open.

## Findings

| source | as written | input that shows it | evidently intended | confidence | as-written member | corrected member |
|---|---|---|---|---|---|---|
| src/components/ResumeForm.tsx:447 | `setSuggestions(result.suggestions)`, where `result` is the string that `improveText` resolves with (src/services/ai.ts:2). A string has no `suggestions` property, so the state becomes `undefined`. Lines 447 and 452 update in one batch, so the dialog renders with `undefined` and loading over: when it is open, `suggestions.map` (src/components/SuggestionsModal.tsx:62) throws a TypeError while rendering; when it was closed during loading, the effect's `suggestions.length` (src/components/SuggestionsModal.tsx:34) throws instead. | key "k" and a 200 JSON reply whose text is "Texto melhorado": `improveText` resolves with "Texto melhorado", and the suggestion state becomes `undefined` | offer the improved text as the suggestion list `[text]`, which the dialog preselects and can adopt | not executed | `ResumeFormFlow.SuccessPathAsWrittenThrows` | `ResumeFormFlow.CorrectedReplyIsPreselected` |
