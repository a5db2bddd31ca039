/**
 * The persisted records of an Ocelot configuration document (Models/OcelotConfiguration.cs):
 * plain data with default initialisers. Extension data (`[JsonExtensionData]`) is a dictionary
 * from key to an opaque JSON value and exists on Route, AuthenticationOptions and
 * GlobalConfiguration only; the top-level document has none.
 */
module Models {

  /** An opaque JSON value, as held in an extension-data dictionary. */
  datatype Json =
    | JNull
    | JBool(b: bool)
    | JNumber(literal: string)
    | JString(s: string)
    | JArray(items: seq<Json>)
    | JObject(members: map<string, Json>)

  /** `Dictionary<string, object?>` marked `[JsonExtensionData]`. */
  type ExtensionData = map<string, Json>

  /** The range of a C# `int`. */
  type Int32 = x: int | -0x8000_0000 <= x < 0x8000_0000

  datatype HostAndPort = HostAndPort(Host: string, Port: Int32)

  datatype AuthenticationOptions = AuthenticationOptions(
    AuthenticationProviderKey: string,
    AllowedScopes: seq<string>,
    AdditionalData: ExtensionData)

  datatype GlobalConfiguration = GlobalConfiguration(
    BaseUrl: string,
    AdditionalData: ExtensionData)

  datatype Route = Route(
    UpstreamPathTemplate: string,
    UpstreamHttpMethod: seq<string>,
    DownstreamPathTemplate: string,
    DownstreamScheme: string,
    DownstreamHostAndPorts: seq<HostAndPort>,
    RouteIsCaseSensitive: bool,
    AuthenticationOptions: AuthenticationOptions,
    AdditionalData: ExtensionData)

  datatype OcelotConfiguration = OcelotConfiguration(
    Routes: seq<Route>,
    GlobalConfiguration: GlobalConfiguration)

  /** `new HostAndPort()`. */
  function NewHostAndPort(): (h: HostAndPort)
    ensures h.Host == "" && h.Port == 0
  {
    HostAndPort("", 0)
  }

  /** `new AuthenticationOptions()`. */
  function NewAuthenticationOptions(): (a: AuthenticationOptions)
    ensures a.AuthenticationProviderKey == "" && a.AllowedScopes == [] && a.AdditionalData == map[]
  {
    AuthenticationOptions("", [], map[])
  }

  /** `new GlobalConfiguration()`. */
  function NewGlobalConfiguration(): (g: GlobalConfiguration)
    ensures g.BaseUrl == "" && g.AdditionalData == map[]
  {
    GlobalConfiguration("", map[])
  }

  /** `new Route()`. */
  function NewRoute(): (r: Route)
    ensures r.UpstreamPathTemplate == "" && r.DownstreamPathTemplate == ""
    ensures r.DownstreamScheme == "http"
    ensures r.UpstreamHttpMethod == [] && r.DownstreamHostAndPorts == []
    ensures !r.RouteIsCaseSensitive
    ensures r.AuthenticationOptions == NewAuthenticationOptions()
    ensures r.AdditionalData == map[]
  {
    Route("", [], "", "http", [], false, NewAuthenticationOptions(), map[])
  }

  /** `new OcelotConfiguration()`. */
  function NewOcelotConfiguration(): (c: OcelotConfiguration)
    ensures c.Routes == []
    ensures c.GlobalConfiguration.BaseUrl == "" && c.GlobalConfiguration.AdditionalData == map[]
  {
    OcelotConfiguration([], NewGlobalConfiguration())
  }
}
