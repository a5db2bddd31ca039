/** One toggle cell of a route's HTTP-method list (ViewModels/HttpMethodOptionViewModel.cs). */
module HttpMethodOptionVM {

  class HttpMethodOptionViewModel {
    /** Fixed at construction. */
    const name: string
    var isSelected: bool

    constructor (name: string)
      ensures this.name == name && !isSelected
    {
      this.name := name;
      isSelected := false;
    }

    /** The `IsSelected` setter; `events` counts the PropertyChanged notifications it raises. */
    method SetIsSelected(value: bool) returns (events: nat)
      modifies this
      ensures isSelected == value
      ensures events == if value != old(isSelected) then 1 else 0
    {
      events := if value != isSelected then 1 else 0;
      isSelected := value;
    }
  }
}
