/** A route's authentication settings editor (ViewModels/AuthenticationOptionsViewModel.cs). */
module AuthenticationOptionsVM {
  import opened Wrappers
  import opened Text
  import Collections

  class AuthenticationOptionsViewModel {
    var providerKey: string
    var allowedScopes: seq<string>
    /** The text of the scope to add; null until the user types. */
    var newScope: Option<string>
    /** The scope picked in the list; null when none is. */
    var selectedScope: Option<string>

    constructor ()
      ensures providerKey == "" && allowedScopes == []
      ensures newScope == None && selectedScope == None
    {
      providerKey := "";
      allowedScopes := [];
      newScope := None;
      selectedScope := None;
    }

    /**
     * Whether AddScopeCommand is available: there is pending text with a character that is not
     * white space, so its trimmed form is not empty either.
     */
    predicate CanAddScope()
      reads this
      ensures CanAddScope() <==>
        newScope.Some? && exists i :: 0 <= i < |newScope.value| && !IsWhiteSpace(newScope.value[i])
      ensures CanAddScope() ==> Trim(newScope.value) != ""
    {
      if newScope.Some? then TrimKeepsBlankness(newScope.value); !IsNullOrWhiteSpace(newScope)
      else false
    }

    /** Whether RemoveScopeCommand is available: a scope is selected and it is not blank. */
    predicate CanRemoveScope()
      reads this
      ensures CanRemoveScope() <==>
        selectedScope.Some? && exists i :: 0 <= i < |selectedScope.value| && !IsWhiteSpace(selectedScope.value[i])
    {
      !IsNullOrWhiteSpace(selectedScope)
    }

    /** The `AuthenticationProviderKey` setter; `events` counts the OptionsChanged notifications. */
    method SetProviderKey(value: string) returns (events: nat)
      modifies this
      ensures providerKey == value
      ensures allowedScopes == old(allowedScopes) && newScope == old(newScope) && selectedScope == old(selectedScope)
      ensures events == if value != old(providerKey) then 1 else 0
    {
      events := if value != providerKey then 1 else 0;
      providerKey := value;
    }

    /** The `NewScope` setter (bound to the text box). */
    method SetNewScope(value: Option<string>)
      modifies this
      ensures newScope == value
      ensures providerKey == old(providerKey) && allowedScopes == old(allowedScopes) && selectedScope == old(selectedScope)
    {
      newScope := value;
    }

    /** The `SelectedScope` setter (bound to the list's selection). */
    method SetSelectedScope(value: Option<string>)
      modifies this
      ensures selectedScope == value
      ensures providerKey == old(providerKey) && allowedScopes == old(allowedScopes) && newScope == old(newScope)
    {
      selectedScope := value;
    }

    /**
     * `AddScope`: with non-blank pending text, appends its trimmed form (duplicates are kept) and
     * resets the text to ""; otherwise nothing happens. The collection change and the explicit
     * call each raise OptionsChanged.
     */
    method AddScope() returns (events: nat)
      modifies this
      ensures providerKey == old(providerKey) && selectedScope == old(selectedScope)
      ensures old(CanAddScope()) ==>
        allowedScopes == old(allowedScopes) + [Trim(old(newScope).value)]
        && newScope == Some("") && events == 2
      ensures !old(CanAddScope()) ==>
        allowedScopes == old(allowedScopes) && newScope == old(newScope) && events == 0
      ensures old(CanAddScope()) ==> !IsBlank(allowedScopes[|allowedScopes| - 1])
    {
      events := 0;
      if !IsNullOrWhiteSpace(newScope) {
        TrimKeepsBlankness(newScope.value);
        allowedScopes := allowedScopes + [Trim(newScope.value)];
        events := events + 1;
        newScope := Some("");
        events := events + 1;
      }
    }

    /**
     * `RemoveScope`: with a non-blank selection, removes the first equal scope (when there is one),
     * keeping the others in order, and clears the selection; otherwise nothing happens.
     */
    method RemoveScope() returns (events: nat)
      modifies this
      ensures providerKey == old(providerKey) && newScope == old(newScope)
      ensures old(CanRemoveScope()) ==>
        allowedScopes == Collections.Remove(old(allowedScopes), old(selectedScope).value)
        && selectedScope == None
        && events == if old(selectedScope).value in old(allowedScopes) then 2 else 1
      ensures !old(CanRemoveScope()) ==>
        allowedScopes == old(allowedScopes) && selectedScope == old(selectedScope) && events == 0
    {
      events := 0;
      if !IsNullOrWhiteSpace(selectedScope) {
        var scope := selectedScope.value;
        if scope in allowedScopes {
          events := events + 1;
        }
        allowedScopes := Collections.Remove(allowedScopes, scope);
        selectedScope := None;
        events := events + 1;
      }
    }
  }
}
