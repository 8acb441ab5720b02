/**
 * The dialog that lists the suggestions (src/components/SuggestionsModal.tsx).
 * Its one piece of state is `selected`; `open`, `isLoading` and
 * `suggestions` are the props it is rendered with, passed here to each handler.
 */
module SuggestionsModalState {
  import opened Wrappers

  /** JavaScript truthiness of `string | null`: null and "" are falsy. */
  predicate Truthy(selected: Option<string>) {
    selected.Some? && selected.value != []
  }

  /** The selection the effect makes whenever the list changes: its first entry, or none. */
  function DefaultSelection(suggestions: seq<string>): (r: Option<string>)
    ensures r.Some? <==> |suggestions| > 0
    ensures r.Some? ==> r.value in suggestions
    ensures |suggestions| > 0 ==> r == Some(suggestions[0])
  {
    if |suggestions| > 0 then Some(suggestions[0]) else None
  }

  /** `disabled={isLoading || !selected}` on the confirm button. */
  predicate ConfirmDisabled(isLoading: bool, selected: Option<string>) {
    isLoading || !Truthy(selected)
  }

  class SuggestionsModal {
    var selected: Option<string>

    constructor()
      ensures selected == None
    {
      selected := None;
    }

    /** The effect that runs when `suggestions` changes: the first entry is preselected. */
    method SyncSelection(suggestions: seq<string>)
      modifies this
      ensures selected == DefaultSelection(suggestions)
      ensures |suggestions| > 0 ==> selected == Some(suggestions[0])
      ensures |suggestions| == 0 ==> selected == None
    {
      if |suggestions| > 0 {
        selected := Some(suggestions[0]);
      } else {
        selected := None;
      }
    }

    /**
     * A click on entry `i`. Entries are rendered only while the dialog is
     * open and not loading, so any other click reaches nothing.
     */
    method Click(open: bool, isLoading: bool, suggestions: seq<string>, i: nat)
      modifies this
      ensures open && !isLoading && i < |suggestions| ==> selected == Some(suggestions[i])
      ensures !(open && !isLoading && i < |suggestions|) ==> selected == old(selected)
    {
      if open && !isLoading && i < |suggestions| {
        selected := Some(suggestions[i]);
      }
    }

    /**
     * The confirm button: it exists only while the dialog is open, is
     * disabled while loading or with nothing selected, and its handler hands
     * the selection on only when it is truthy. Returns what is handed to
     * `onSelect`, if anything.
     */
    method Confirm(open: bool, isLoading: bool) returns (adopted: Option<string>)
      ensures adopted.Some? <==> open && !ConfirmDisabled(isLoading, selected)
      ensures adopted.Some? ==> adopted == selected && adopted.value != []
    {
      adopted := None;
      if open && !isLoading {
        if Truthy(selected) {
          adopted := selected;
        }
      }
    }
  }

  /** After the list changes, the confirm button is enabled exactly when loading is over and the first entry is not empty. */
  lemma EnabledAfterSync(suggestions: seq<string>, isLoading: bool)
    ensures !ConfirmDisabled(isLoading, DefaultSelection(suggestions))
        <==> !isLoading && |suggestions| > 0 && suggestions[0] != []
  {
  }
}
