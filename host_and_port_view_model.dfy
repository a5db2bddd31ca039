/** One editable downstream host row (ViewModels/HostAndPortViewModel.cs). */
module HostAndPortVM {
  import opened Text
  import opened Models

  const HostRequired := "Host is required."
  const PortMustBePositive := "Port must be greater than zero."

  /** The validity rule for one downstream endpoint: a non-blank host and a positive port. */
  predicate HostValid(h: HostAndPort)
  {
    !IsBlank(h.Host) && h.Port > 0
  }

  /** The two error messages are not blank, so IsValid can test them with IsNullOrWhiteSpace. */
  lemma MessagesNotBlank()
    ensures !IsBlank(HostRequired) && !IsBlank(PortMustBePositive)
  {
    NotBlankAt(HostRequired, 0);
    NotBlankAt(PortMustBePositive, 0);
  }

  class HostAndPortViewModel {
    var host: string
    var port: Int32

    /** A new row has an empty host and port 0, and so is not valid. */
    constructor ()
      ensures host == "" && port == 0
      ensures !IsValid()
    {
      host := "";
      port := 0;
    }

    /** `new HostAndPortViewModel { Host = host, Port = port }`: an object initializer, before anyone observes the row. */
    constructor Init(host: string, port: Int32)
      ensures this.host == host && this.port == port
    {
      this.host := host;
      this.port := port;
    }

    /** The `Host` setter; `events` counts the PropertyChanged notifications it raises. */
    method SetHost(value: string) returns (events: nat)
      modifies this
      ensures host == value && port == old(port)
      ensures events == if value != old(host) then 1 else 0
    {
      events := if value != host then 1 else 0;
      host := value;
    }

    /** The `Port` setter. */
    method SetPort(value: Int32) returns (events: nat)
      modifies this
      ensures port == value && host == old(host)
      ensures events == if value != old(port) then 1 else 0
    {
      events := if value != port then 1 else 0;
      port := value;
    }

    /** The row as a persisted record. */
    function Value(): HostAndPort
      reads this
    {
      HostAndPort(host, port)
    }

    /** The `IDataErrorInfo` indexer `this[columnName]`. */
    function Item(columnName: string): (msg: string)
      reads this
      ensures msg == HostRequired <==> columnName == "Host" && IsBlank(host)
      ensures msg == PortMustBePositive <==> columnName == "Port" && port <= 0
      ensures msg == "" <==> !(columnName == "Host" && IsBlank(host)) && !(columnName == "Port" && port <= 0)
    {
      if columnName == "Host" && IsBlank(host) then HostRequired
      else if columnName == "Port" && port <= 0 then PortMustBePositive
      else ""
    }

    /** `IsValid`: neither the Host nor the Port column reports an error. */
    predicate IsValid()
      reads this
      ensures IsValid() <==> !IsBlank(host) && port > 0
      ensures IsValid() <==> HostValid(Value())
    {
      MessagesNotBlank();
      IsBlank(Item("Host")) && IsBlank(Item("Port"))
    }

    /** `RefreshValidation` re-raises PropertyChanged for both columns and changes nothing. */
    method RefreshValidation() returns (notified: seq<string>)
      ensures notified == ["Host", "Port"]
      ensures host == old(host) && port == old(port)
    {
      notified := ["Host", "Port"];
    }
  }
}
