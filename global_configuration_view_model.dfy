/** The document-wide settings editor (ViewModels/GlobalConfigurationViewModel.cs). */
module GlobalConfigurationVM {

  class GlobalConfigurationViewModel {
    var baseUrl: string

    constructor ()
      ensures baseUrl == ""
    {
      baseUrl := "";
    }

    /**
     * The `BaseUrl` setter. `events` counts the ConfigurationChanged notifications: one when the
     * value changes, none when the current value is written again.
     */
    method SetBaseUrl(value: string) returns (events: nat)
      modifies this
      ensures baseUrl == value
      ensures events == if value != old(baseUrl) then 1 else 0
    {
      events := if value != baseUrl then 1 else 0;
      baseUrl := value;
    }
  }
}
