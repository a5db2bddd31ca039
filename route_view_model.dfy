/**
 * One route's editor (ViewModels/RouteViewModel.cs). The observable collections are sequence
 * fields: the host rows are HostAndPortViewModel objects (edited in place and selected by
 * reference), the HTTP-method cells are values. `State()` reads the editor back as a
 * RouteModel.RouteState, and each operation is specified by what it does to that value.
 * `events` out-parameters count the RouteChanged notifications an operation raises.
 */
module RouteVM {
  import opened Wrappers
  import opened Text
  import opened Models
  import opened Collections
  import opened HostAndPortVM
  import opened AuthenticationOptionsVM
  import opened RouteModel

  const UpstreamRequired := "Upstream path template is required."
  const DownstreamRequired := "Downstream path template is required."

  /** The host rows as persisted records. */
  function HostValuesOf(hs: seq<HostAndPortViewModel>): (r: seq<HostAndPort>)
    reads hs
    ensures |r| == |hs| && forall i :: 0 <= i < |hs| ==> r[i] == hs[i].Value()
  {
    seq(|hs|, i requires 0 <= i < |hs| reads hs => hs[i].Value())
  }

  /** Removing a row removes its record at the same position. */
  lemma HostValuesRemoveAt(hs: seq<HostAndPortViewModel>, i: nat)
    requires i < |hs|
    ensures HostValuesOf(RemoveAt(hs, i)) == RemoveAt(HostValuesOf(hs), i)
  {
    var l, r := HostValuesOf(RemoveAt(hs, i)), RemoveAt(HostValuesOf(hs), i);
    forall k | 0 <= k < |l| ensures l[k] == r[k] {
      if k < i {
        assert RemoveAt(hs, i)[k] == hs[k];
      } else {
        assert RemoveAt(hs, i)[k] == hs[k + 1];
      }
    }
  }

  /** The rows the hosts view shows, in collection order. */
  function FilterHosts(hs: seq<HostAndPortViewModel>, hostFilter: string, portFilter: string): (r: seq<HostAndPortViewModel>)
    reads hs
    ensures |r| <= |hs| && IsSubsequence(r, hs)
    ensures forall i :: 0 <= i < |r| ==> r[i] in hs && HostMatches(hostFilter, portFilter, r[i].Value())
    ensures forall i :: 0 <= i < |hs| && HostMatches(hostFilter, portFilter, hs[i].Value()) ==> hs[i] in r
  {
    if hs == [] then []
    else
      var rest := FilterHosts(hs[1..], hostFilter, portFilter);
      if HostMatches(hostFilter, portFilter, hs[0].Value()) then [hs[0]] + rest else rest
  }

  /** With both filter texts blank the view shows every row. */
  lemma {:induction false} BlankFiltersShowAll(hs: seq<HostAndPortViewModel>, hostFilter: string, portFilter: string)
    requires IsBlank(hostFilter) && IsBlank(portFilter)
    ensures FilterHosts(hs, hostFilter, portFilter) == hs
  {
    if hs != [] {
      BlankFiltersShowAll(hs[1..], hostFilter, portFilter);
    }
  }

  /** Some row is valid exactly when some row value is. */
  lemma SomeValidHost(hs: seq<HostAndPortViewModel>)
    ensures (exists j :: 0 <= j < |hs| && HostValid(HostValuesOf(hs)[j])) <==> exists v :: v in HostValuesOf(hs) && HostValid(v)
    ensures (exists j :: 0 <= j < |hs| && HostValid(HostValuesOf(hs)[j])) <==> exists h :: h in hs && h.IsValid()
  {
    var vs := HostValuesOf(hs);
    if exists j :: 0 <= j < |hs| && HostValid(vs[j]) {
      var j :| 0 <= j < |hs| && HostValid(vs[j]);
      assert vs[j] in vs && hs[j].IsValid();
    }
    if exists v :: v in vs && HostValid(v) {
      var v :| v in vs && HostValid(v);
      var j :| 0 <= j < |vs| && vs[j] == v;
      assert hs[j].IsValid();
    }
    if exists h :: h in hs && h.IsValid() {
      var h :| h in hs && h.IsValid();
      var j :| 0 <= j < |hs| && hs[j] == h;
      assert hs[j].IsValid();
    }
  }

  class RouteViewModel {
    var upstream: string
    var downstream: string
    var scheme: string
    var caseSensitive: bool
    var hosts: seq<HostAndPortViewModel>
    /** The HttpMethodOptions cells. */
    var options: seq<MethodOption>
    const auth: AuthenticationOptionsViewModel
    /** The selected host row; LoadFromModel leaves it alone, so it need not be one of `hosts`. */
    var selectedHost: HostAndPortViewModel?
    var hostFilterText: string
    var portFilterText: string
    ghost var Repr: set<object>

    /** The objects this route owns are in Repr, and no row appears twice. */
    ghost predicate Valid()
      reads this
    {
      && this in Repr && auth in Repr
      && (forall h :: h in hosts ==> h in Repr)
      && Distinct(hosts)
    }

    /** The route's abstract state. */
    function State(): RouteState
      reads this, hosts, auth
    {
      RouteState(
        upstream, downstream, scheme, caseSensitive,
        HostValuesOf(hosts), options, auth.providerKey, auth.allowedScopes)
    }

    /** `new RouteViewModel(model, httpMethodOptions)`. */
    constructor (model: Option<Route>, optionNames: Option<seq<string>>)
      ensures Valid() && fresh(Repr)
      ensures State() == Constructed(model, optionNames)
      ensures model.None? || model.value.DownstreamHostAndPorts == [] ==> hosts != [] && selectedHost == hosts[0]
      ensures model.Some? && model.value.DownstreamHostAndPorts != [] ==> selectedHost == null
      ensures hostFilterText == "" && portFilterText == ""
      ensures auth.newScope == None && auth.selectedScope == None
    {
      var names := optionNames.GetOr(DefaultHttpMethods);
      upstream := "";
      downstream := "";
      scheme := "http";
      caseSensitive := false;
      hosts := [];
      selectedHost := null;
      hostFilterText := "";
      portFilterText := "";
      options := Unselected(names);
      auth := new AuthenticationOptionsViewModel();
      new;
      Repr := {this, auth};
      assert State() == Blank(names);
      ghost var initial := Repr;
      assert fresh(initial);
      Populate(model);
      assert fresh(Repr - initial);
      assert Repr <= initial + (Repr - initial);
    }

    /** The constructor's last step: load the model, or add the default host and select the first cell. */
    method Populate(model: Option<Route>)
      requires Valid()
      modifies Repr
      ensures Valid() && old(Repr) <= Repr && fresh(Repr - old(Repr))
      ensures model.Some? ==> State() == Load(old(State()), model.value)
      ensures model.None? ==> State() == old(State()).(hosts := old(State()).hosts + [DefaultHost], options := SelectFirst(old(State()).options))
      ensures model.None? || model.value.DownstreamHostAndPorts == [] ==> hosts != [] && selectedHost == hosts[|hosts| - 1]
      ensures model.Some? && model.value.DownstreamHostAndPorts != [] ==> selectedHost == old(selectedHost)
      ensures hostFilterText == old(hostFilterText) && portFilterText == old(portFilterText)
      ensures auth.newScope == old(auth.newScope) && auth.selectedScope == old(auth.selectedScope)
    {
      if model.Some? {
        LoadFromModel(model.value);
      } else {
        LoadDefaults();
      }
    }

    /** The branch of the constructor taken without a model: one default host, the first cell selected. */
    method LoadDefaults()
      requires Valid()
      modifies this
      ensures Valid() && old(Repr) <= Repr && fresh(Repr - old(Repr))
      ensures State() == old(State()).(hosts := old(State()).hosts + [DefaultHost], options := SelectFirst(old(State()).options))
      ensures hosts != [] && selectedHost == hosts[|hosts| - 1]
      ensures hostFilterText == old(hostFilterText) && portFilterText == old(portFilterText)
    {
      var _ := AddHost();
      SelectFirstOption();
    }

    /** The `HttpMethodOptions.FirstOrDefault()` selection of a route built without a model. */
    method SelectFirstOption()
      requires Valid()
      modifies this
      ensures Valid() && Repr == old(Repr)
      ensures State() == old(State()).(options := SelectFirst(old(State()).options))
      ensures hosts == old(hosts) && selectedHost == old(selectedHost)
      ensures hostFilterText == old(hostFilterText) && portFilterText == old(portFilterText)
    {
      if options != [] {
        options := options[0 := MethodOption(options[0].name, true)];
      }
    }

    /** The Upstream path template setter. */
    method SetUpstreamPathTemplate(value: string) returns (events: nat)
      requires Valid()
      modifies this
      ensures Valid() && Repr == old(Repr)
      ensures State() == old(State()).(upstream := value)
      ensures selectedHost == old(selectedHost) && hostFilterText == old(hostFilterText) && portFilterText == old(portFilterText)
      ensures events == if value != old(upstream) then 1 else 0
    {
      events := if value != upstream then 1 else 0;
      upstream := value;
    }

    /** The Downstream path template setter. */
    method SetDownstreamPathTemplate(value: string) returns (events: nat)
      requires Valid()
      modifies this
      ensures Valid() && Repr == old(Repr)
      ensures State() == old(State()).(downstream := value)
      ensures selectedHost == old(selectedHost) && hostFilterText == old(hostFilterText) && portFilterText == old(portFilterText)
      ensures events == if value != old(downstream) then 1 else 0
    {
      events := if value != downstream then 1 else 0;
      downstream := value;
    }

    /** The DownstreamScheme setter; unlike LoadFromModel it keeps a blank value. */
    method SetDownstreamScheme(value: string) returns (events: nat)
      requires Valid()
      modifies this
      ensures Valid() && Repr == old(Repr)
      ensures State() == old(State()).(scheme := value)
      ensures selectedHost == old(selectedHost) && hostFilterText == old(hostFilterText) && portFilterText == old(portFilterText)
      ensures events == if value != old(scheme) then 1 else 0
    {
      events := if value != scheme then 1 else 0;
      scheme := value;
    }

    /** The RouteIsCaseSensitive setter. */
    method SetRouteIsCaseSensitive(value: bool) returns (events: nat)
      requires Valid()
      modifies this
      ensures Valid() && Repr == old(Repr)
      ensures State() == old(State()).(caseSensitive := value)
      ensures selectedHost == old(selectedHost) && hostFilterText == old(hostFilterText) && portFilterText == old(portFilterText)
      ensures events == if value != old(caseSensitive) then 1 else 0
    {
      events := if value != caseSensitive then 1 else 0;
      caseSensitive := value;
    }

    /** The SelectedHost setter: no RouteChanged. */
    method SetSelectedHost(value: HostAndPortViewModel?)
      requires Valid()
      modifies this
      ensures Valid() && Repr == old(Repr) && State() == old(State())
      ensures selectedHost == value && hostFilterText == old(hostFilterText) && portFilterText == old(portFilterText)
    {
      selectedHost := value;
    }

    /** The HostFilterText setter: refreshes the hosts view, changes no route data. */
    method SetHostFilterText(value: string)
      requires Valid()
      modifies this
      ensures Valid() && Repr == old(Repr) && State() == old(State())
      ensures hostFilterText == value && portFilterText == old(portFilterText) && selectedHost == old(selectedHost)
    {
      hostFilterText := value;
    }

    /** The PortFilterText setter. */
    method SetPortFilterText(value: string)
      requires Valid()
      modifies this
      ensures Valid() && Repr == old(Repr) && State() == old(State())
      ensures portFilterText == value && hostFilterText == old(hostFilterText) && selectedHost == old(selectedHost)
    {
      portFilterText := value;
    }

    /** `PrimaryHostSummary`: "host:port" of the first row, which reads back as that row; "" without rows. */
    function PrimaryHostSummary(): (r: string)
      reads this, hosts
      ensures r == "" <==> hosts == []
      ensures hosts != [] ==>
        var h := hosts[0];
        |r| > |h.host| && r[..|h.host|] == h.host && r[|h.host|] == ':'
        && ParseInt(r[|h.host| + 1..]) == h.port
    {
      if hosts == [] then ""
      else
        var h := hosts[0];
        IntToStringRoundTrip(h.port);
        var r := h.host + ":" + IntToString(h.port);
        assert r[|h.host| + 1..] == IntToString(h.port);
        r
    }

    /** `SelectedHttpMethods`: the names of the selected cells, in cell order. */
    function SelectedHttpMethods(): (r: seq<string>)
      reads this
      ensures |r| <= |options|
      ensures forall n :: n in r <==> exists k :: 0 <= k < |options| && options[k].selected && options[k].name == n
      ensures IsSubsequence(r, Names(options))
    {
      SelectedNames(options)
    }

    /**
     * A cell's `IsSelected` toggled through the grid: the handler every cell carries raises
     * RouteChanged when the flag changes.
     */
    method SetHttpMethodSelected(k: nat, value: bool) returns (events: nat)
      requires Valid() && k < |options|
      modifies this
      ensures Valid() && Repr == old(Repr)
      ensures State() == old(State()).(options := old(options)[k := MethodOption(old(options)[k].name, value)])
      ensures hosts == old(hosts) && selectedHost == old(selectedHost)
      ensures hostFilterText == old(hostFilterText) && portFilterText == old(portFilterText)
      ensures events == if value != old(options)[k].selected then 1 else 0
    {
      events := if value != options[k].selected then 1 else 0;
      options := options[k := MethodOption(options[k].name, value)];
    }

    /**
     * `HostFilter`: a row passes when each filter text is blank or occurs, ignoring case, in the
     * row's host or in its port's decimal form.
     */
    predicate HostFilter(h: HostAndPortViewModel)
      reads this, h
      ensures HostFilter(h) <==>
        && (IsBlank(hostFilterText) || exists i :: OccursAt(FoldCase(h.host), FoldCase(hostFilterText), i))
        && (IsBlank(portFilterText) || exists i :: OccursAt(FoldCase(IntToString(h.port)), FoldCase(portFilterText), i))
    {
      HostMatchesIff(hostFilterText, portFilterText, h.Value());
      HostMatches(hostFilterText, portFilterText, h.Value())
    }

    /** `HostsView`: exactly the rows that pass the filter, never more rows than the collection. */
    function HostsView(): (r: seq<HostAndPortViewModel>)
      reads this, hosts
      ensures |r| <= |hosts|
      ensures forall i :: 0 <= i < |r| ==> r[i] in hosts && HostFilter(r[i])
      ensures forall i :: 0 <= i < |hosts| && HostFilter(hosts[i]) ==> hosts[i] in r
      ensures IsBlank(hostFilterText) && IsBlank(portFilterText) ==> r == hosts
    {
      if IsBlank(hostFilterText) && IsBlank(portFilterText) then
        BlankFiltersShowAll(hosts, hostFilterText, portFilterText);
        FilterHosts(hosts, hostFilterText, portFilterText)
      else
        FilterHosts(hosts, hostFilterText, portFilterText)
    }

    /** `AddHost`: appends a fresh localhost:80 row and selects it. */
    method AddHost() returns (events: nat)
      requires Valid()
      modifies this
      ensures Valid() && old(Repr) <= Repr && fresh(Repr - old(Repr))
      ensures |hosts| == |old(hosts)| + 1 && hosts[..|old(hosts)|] == old(hosts)
      ensures fresh(hosts[|hosts| - 1]) && selectedHost == hosts[|hosts| - 1]
      ensures State() == old(State()).(hosts := old(State()).hosts + [DefaultHost])
      ensures options == old(options)
      ensures hostFilterText == old(hostFilterText) && portFilterText == old(portFilterText)
      ensures events == 1
    {
      var h := new HostAndPortViewModel.Init("localhost", 80);
      AppendDistinct(hosts, h);
      hosts := hosts + [h];
      Repr := Repr + {h};
      selectedHost := h;
      events := 1;
      assert HostValuesOf(hosts) == old(HostValuesOf(hosts)) + [DefaultHost];
    }

    /**
     * `RemoveSelectedHost`: with a selection, removes that row (when it is one) and clears the
     * selection; the collection change and the explicit call each raise RouteChanged.
     */
    method RemoveSelectedHost() returns (events: nat)
      requires Valid()
      modifies this
      ensures Valid() && Repr == old(Repr)
      ensures old(selectedHost) == null ==> hosts == old(hosts) && selectedHost == null && events == 0
      ensures old(selectedHost) != null ==>
        hosts == Remove(old(hosts), old(selectedHost)) && selectedHost == null
        && events == if old(selectedHost) in old(hosts) then 2 else 1
      ensures old(selectedHost) != null && old(selectedHost) in old(hosts) ==>
        State() == old(State()).(hosts := RemoveAt(old(State()).hosts, IndexOf(old(hosts), old(selectedHost))))
      ensures old(selectedHost) == null || old(selectedHost) !in old(hosts) ==> State() == old(State())
      ensures options == old(options)
      ensures hostFilterText == old(hostFilterText) && portFilterText == old(portFilterText)
    {
      events := 0;
      if selectedHost != null {
        var h := selectedHost;
        var remaining := Remove(hosts, h);
        if h in hosts {
          var i := IndexOf(hosts, h);
          RemoveAtDistinct(hosts, i);
          HostValuesRemoveAt(hosts, i);
          assert remaining == RemoveAt(hosts, i);
          events := events + 1;
        }
        hosts := remaining;
        selectedHost := null;
        events := events + 1;
      }
    }

    /**
     * Row `i`'s Host edited in the grid: the row's setter, whose PropertyChanged the row handler
     * turns into a RouteChanged.
     */
    method SetRowHost(i: nat, value: string) returns (events: nat)
      requires Valid() && i < |hosts|
      modifies hosts[i]
      ensures Valid()
      ensures State() == old(State()).(hosts := old(State()).hosts[i := HostAndPort(value, old(hosts[i].port))])
      ensures events == if value != old(hosts[i].host) then 1 else 0
    {
      ghost var before := HostValuesOf(hosts);
      events := hosts[i].SetHost(value);
      RowEdited(before, i);
    }

    /** Row `i`'s Port edited in the grid, relayed like the Host. */
    method SetRowPort(i: nat, value: Int32) returns (events: nat)
      requires Valid() && i < |hosts|
      modifies hosts[i]
      ensures Valid()
      ensures State() == old(State()).(hosts := old(State()).hosts[i := HostAndPort(old(hosts[i].host), value)])
      ensures events == if value != old(hosts[i].port) then 1 else 0
    {
      ghost var before := HostValuesOf(hosts);
      events := hosts[i].SetPort(value);
      RowEdited(before, i);
    }

    /** After an edit of row `i` alone, the other rows still have their earlier values. */
    lemma RowEdited(before: seq<HostAndPort>, i: nat)
      requires Valid() && i < |hosts| && |before| == |hosts|
      requires forall k :: 0 <= k < |hosts| && hosts[k] != hosts[i] ==> before[k] == hosts[k].Value()
      ensures HostValuesOf(hosts) == before[i := hosts[i].Value()]
    {
    }

    /** The provider key edited: the authentication editor's OptionsChanged becomes a RouteChanged. */
    method SetAuthenticationProviderKey(value: string) returns (events: nat)
      requires Valid()
      modifies auth
      ensures Valid()
      ensures State() == old(State()).(providerKey := value)
      ensures auth.newScope == old(auth.newScope) && auth.selectedScope == old(auth.selectedScope)
      ensures events == if value != old(auth.providerKey) then 1 else 0
    {
      events := auth.SetProviderKey(value);
    }

    /** The authentication editor's AddScope command, its OptionsChanged relayed as RouteChanged. */
    method AddAuthenticationScope() returns (events: nat)
      requires Valid()
      modifies auth
      ensures Valid()
      ensures old(auth.CanAddScope()) ==>
        State() == old(State()).(scopes := old(State()).scopes + [Trim(old(auth.newScope).value)]) && events == 2
      ensures old(auth.CanAddScope()) ==> auth.newScope == Some("")
      ensures !old(auth.CanAddScope()) ==> State() == old(State()) && events == 0
      ensures !old(auth.CanAddScope()) ==> auth.newScope == old(auth.newScope)
      ensures auth.selectedScope == old(auth.selectedScope)
    {
      events := auth.AddScope();
    }

    /** The authentication editor's RemoveScope command, its OptionsChanged relayed as RouteChanged. */
    method RemoveAuthenticationScope() returns (events: nat)
      requires Valid()
      modifies auth
      ensures Valid()
      ensures old(auth.CanRemoveScope()) ==>
        State() == old(State()).(scopes := Remove(old(State()).scopes, old(auth.selectedScope).value))
        && events == if old(auth.selectedScope).value in old(auth.allowedScopes) then 2 else 1
      ensures old(auth.CanRemoveScope()) ==> auth.selectedScope == None
      ensures !old(auth.CanRemoveScope()) ==> State() == old(State()) && events == 0
      ensures !old(auth.CanRemoveScope()) ==> auth.selectedScope == old(auth.selectedScope)
      ensures auth.newScope == old(auth.newScope)
    {
      events := auth.RemoveScope();
    }

    /** The `DownstreamHostAndPorts.Clear()` and copy loop of LoadFromModel. */
    method ReplaceHosts(hs: seq<HostAndPort>)
      requires Valid()
      modifies this
      ensures Valid() && old(Repr) <= Repr && fresh(Repr - old(Repr))
      ensures State() == old(State()).(hosts := hs)
      ensures forall h :: h in hosts ==> fresh(h)
      ensures options == old(options) && selectedHost == old(selectedHost)
      ensures hostFilterText == old(hostFilterText) && portFilterText == old(portFilterText)
    {
      var created: seq<HostAndPortViewModel> := [];
      for i := 0 to |hs|
        modifies {}
        invariant |created| == i && Distinct(created)
        invariant forall h :: h in created ==> fresh(h)
        invariant HostValuesOf(created) == hs[..i]
      {
        var h := new HostAndPortViewModel.Init(hs[i].Host, hs[i].Port);
        created := created + [h];
      }
      assert hs[..|hs|] == hs;
      hosts := created;
      Repr := Repr + set h | h in created;
    }

    /** The `option.IsSelected = false` loop of LoadFromModel. */
    method DeselectAll()
      requires Valid()
      modifies this
      ensures Valid() && Repr == old(Repr)
      ensures State() == old(State()).(options := Deselect(old(State()).options))
      ensures hosts == old(hosts) && selectedHost == old(selectedHost)
      ensures hostFilterText == old(hostFilterText) && portFilterText == old(portFilterText)
    {
      ghost var before := options;
      for k := 0 to |options|
        invariant |options| == |before|
        invariant forall j :: 0 <= j < k ==> options[j] == MethodOption(before[j].name, false)
        invariant forall j :: k <= j < |options| ==> options[j] == before[j]
        invariant Valid() && Repr == old(Repr) && State() == old(State()).(options := options)
        invariant hosts == old(hosts) && selectedHost == old(selectedHost)
        invariant hostFilterText == old(hostFilterText) && portFilterText == old(portFilterText)
      {
        options := options[k := MethodOption(options[k].name, false)];
      }
    }

    /** The search half of `EnsureHttpMethodOption`: the first cell named `m` up to case, or -1. */
    method FindHttpMethodOption(m: string) returns (k: int)
      ensures k == FindOption(Names(options), m)
      ensures k >= 0 ==> k < |options| && EqualsIgnoreCase(options[k].name, m)
      ensures k < 0 ==> forall j :: 0 <= j < |options| ==> !EqualsIgnoreCase(options[j].name, m)
    {
      k := 0;
      while k < |options| && !EqualsIgnoreCase(options[k].name, m)
        invariant 0 <= k <= |options|
        invariant forall j :: 0 <= j < k ==> !EqualsIgnoreCase(options[j].name, m)
      {
        k := k + 1;
      }
      if k == |options| {
        k := -1;
      }
    }

    /** `EnsureHttpMethodOption`: the position of the matching cell, or of an unselected one appended for `m`. */
    method EnsureHttpMethodOption(m: string) returns (k: nat)
      requires Valid()
      modifies this
      ensures Valid() && Repr == old(Repr)
      ensures FindOption(Names(old(options)), m) >= 0 ==> options == old(options) && k == FindOption(Names(old(options)), m)
      ensures FindOption(Names(old(options)), m) < 0 ==> options == old(options) + [MethodOption(m, false)] && k == |old(options)|
      ensures k < |options| && EqualsIgnoreCase(options[k].name, m)
      ensures State() == old(State()).(options := options)
      ensures hosts == old(hosts) && selectedHost == old(selectedHost)
      ensures hostFilterText == old(hostFilterText) && portFilterText == old(portFilterText)
    {
      var found := FindHttpMethodOption(m);
      if found >= 0 {
        k := found;
      } else {
        k := |options|;
        options := options + [MethodOption(m, false)];
      }
    }

    /** `EnsureHttpMethodOption(method).IsSelected = true`. */
    method SelectHttpMethod(m: string)
      requires Valid()
      modifies this
      ensures Valid() && Repr == old(Repr)
      ensures State() == old(State()).(options := SelectMethod(old(options), m))
      ensures hosts == old(hosts) && selectedHost == old(selectedHost)
      ensures hostFilterText == old(hostFilterText) && portFilterText == old(portFilterText)
    {
      var k := EnsureHttpMethodOption(m);
      options := options[k := MethodOption(options[k].name, true)];
    }

    /** The `foreach (var method in model.UpstreamHttpMethod)` loop of LoadFromModel. */
    method SelectHttpMethods(ms: seq<string>)
      requires Valid()
      modifies this
      ensures Valid() && Repr == old(Repr)
      ensures State() == old(State()).(options := SelectMethods(old(options), ms))
      ensures hosts == old(hosts) && selectedHost == old(selectedHost)
      ensures hostFilterText == old(hostFilterText) && portFilterText == old(portFilterText)
    {
      for j := 0 to |ms|
        invariant Valid() && Repr == old(Repr)
        invariant State() == old(State()).(options := SelectMethods(old(options), ms[..j]))
        invariant hosts == old(hosts) && selectedHost == old(selectedHost)
        invariant hostFilterText == old(hostFilterText) && portFilterText == old(portFilterText)
      {
        assert ms[..j + 1][..j] == ms[..j];
        SelectHttpMethod(ms[j]);
      }
      assert ms[..|ms|] == ms;
    }

    /** The `AuthenticationOptions.AllowedScopes.Clear()` and copy loop of LoadFromModel. */
    method ReplaceScopes(scopes: seq<string>)
      requires Valid()
      modifies auth
      ensures Valid() && State() == old(State()).(scopes := scopes)
      ensures auth.newScope == old(auth.newScope) && auth.selectedScope == old(auth.selectedScope)
    {
      auth.allowedScopes := [];
      for i := 0 to |scopes|
        invariant auth.allowedScopes == scopes[..i]
        invariant auth.providerKey == old(auth.providerKey)
        invariant auth.newScope == old(auth.newScope) && auth.selectedScope == old(auth.selectedScope)
      {
        auth.allowedScopes := auth.allowedScopes + [scopes[i]];
      }
      assert scopes[..|scopes|] == scopes;
    }

    /**
     * `LoadFromModel`: the route takes the model's templates, scheme (blank becomes "http"), flag,
     * hosts (a default one when the model has none), methods and authentication settings; the
     * option cells keep their names and order and are first all deselected.
     */
    method LoadFromModel(model: Route)
      requires Valid()
      modifies Repr
      ensures Valid() && old(Repr) <= Repr && fresh(Repr - old(Repr))
      ensures State() == Load(old(State()), model)
      ensures model.DownstreamHostAndPorts == [] ==> hosts != [] && selectedHost == hosts[0]
      ensures model.DownstreamHostAndPorts != [] ==> selectedHost == old(selectedHost)
      ensures hostFilterText == old(hostFilterText) && portFilterText == old(portFilterText)
      ensures auth.newScope == old(auth.newScope) && auth.selectedScope == old(auth.selectedScope)
    {
      ghost var s0 := State();
      upstream := model.UpstreamPathTemplate;
      downstream := model.DownstreamPathTemplate;
      scheme := NormalizeScheme(model.DownstreamScheme);
      caseSensitive := model.RouteIsCaseSensitive;
      ghost var s1 := State();
      assert s1 == s0.(upstream := model.UpstreamPathTemplate, downstream := model.DownstreamPathTemplate,
        scheme := NormalizeScheme(model.DownstreamScheme), caseSensitive := model.RouteIsCaseSensitive);
      LoadHosts(model.DownstreamHostAndPorts);
      LoadHttpMethods(model.UpstreamHttpMethod);
      LoadAuthentication(model.AuthenticationOptions);
    }

    /** The host part of LoadFromModel: the model's rows, or the default row when it has none. */
    method LoadHosts(hs: seq<HostAndPort>)
      requires Valid()
      modifies this
      ensures Valid() && old(Repr) <= Repr && fresh(Repr - old(Repr))
      ensures State() == old(State()).(hosts := LoadedHosts(hs))
      ensures hs == [] ==> hosts != [] && selectedHost == hosts[0]
      ensures hs != [] ==> selectedHost == old(selectedHost)
      ensures options == old(options)
      ensures hostFilterText == old(hostFilterText) && portFilterText == old(portFilterText)
    {
      ReplaceHosts(hs);
      if hosts == [] {
        var _ := AddHost();
      }
    }

    /** The HTTP-method part of LoadFromModel: deselect every cell, then select each requested method. */
    method LoadHttpMethods(ms: seq<string>)
      requires Valid()
      modifies this
      ensures Valid() && Repr == old(Repr)
      ensures State() == old(State()).(options := SelectMethods(Deselect(old(State()).options), ms))
      ensures hosts == old(hosts) && selectedHost == old(selectedHost)
      ensures hostFilterText == old(hostFilterText) && portFilterText == old(portFilterText)
    {
      DeselectAll();
      SelectHttpMethods(ms);
    }

    /** The authentication part of LoadFromModel. */
    method LoadAuthentication(a: AuthenticationOptions)
      requires Valid()
      modifies auth
      ensures Valid()
      ensures State() == old(State()).(providerKey := a.AuthenticationProviderKey, scopes := a.AllowedScopes)
      ensures auth.newScope == old(auth.newScope) && auth.selectedScope == old(auth.selectedScope)
    {
      var _ := auth.SetProviderKey(a.AuthenticationProviderKey);
      ReplaceScopes(a.AllowedScopes);
    }

    /** `ToModel`: the persisted snapshot, rows copied in order, selected methods only, no extension data. */
    function ToModel(): (r: Route)
      reads this, hosts, auth
      ensures r == ToModelOf(State())
      ensures |r.DownstreamHostAndPorts| == |hosts|
      ensures forall i :: 0 <= i < |hosts| ==> r.DownstreamHostAndPorts[i] == HostAndPort(hosts[i].host, hosts[i].port)
      ensures forall n :: n in r.UpstreamHttpMethod <==> n in SelectedHttpMethods()
      ensures r.AdditionalData == map[]
    {
      ToModelOf(State())
    }

    /**
     * `Clone`: a new, independent route built from the snapshot and this route's option names.
     * Under the conditions the editor keeps (unique names, a non-blank scheme, at least one host)
     * it has this route's state.
     */
    method Clone() returns (c: RouteViewModel)
      ensures c.Valid() && fresh(c.Repr)
      ensures c.auth.newScope == None && c.auth.selectedScope == None
      ensures hosts == [] ==> c.hosts != [] && c.selectedHost == c.hosts[0]
      ensures hosts != [] ==> c.selectedHost == null
      ensures c.hostFilterText == "" && c.portFilterText == ""
      ensures c.State() == Constructed(Some(ToModel()), Some(Names(State().options)))
      ensures CaseInsensitivelyUnique(Names(State().options)) && !IsBlank(scheme) && hosts != [] ==>
        c.State() == State() && c.ToModel() == ToModel()
    {
      var names := Names(options);
      c := new RouteViewModel(Some(ToModel()), Some(names));
      if CaseInsensitivelyUnique(names) && !IsBlank(scheme) && hosts != [] {
        CloneRoundTrip(State());
      }
    }

    /**
     * `Validate`: refreshes every row's validation and reports whether both templates are
     * non-blank and some row is valid. Each row's refresh re-announces Host and Port, and the
     * row handler turns each announcement into a RouteChanged, so `events` is twice the row count.
     */
    method Validate() returns (ok: bool, events: nat)
      ensures ok == StateValid(State())
      ensures ok <==> !IsBlank(upstream) && !IsBlank(downstream) && exists h :: h in hosts && h.IsValid()
      ensures events == 2 * |hosts|
    {
      events := RefreshHosts();
      ghost var vs := HostValuesOf(hosts);
      var anyValid := false;
      for i := 0 to |hosts|
        invariant anyValid <==> exists j :: 0 <= j < i && HostValid(vs[j])
      {
        var valid := hosts[i].IsValid();
        assert valid == HostValid(vs[i]);
        anyValid := anyValid || valid;
      }
      ok := !IsBlank(upstream) && !IsBlank(downstream) && anyValid;
      SomeValidHost(hosts);
    }

    /** Validate's `RefreshValidation` loop over the rows; `events` counts the RouteChanged it causes. */
    method RefreshHosts() returns (events: nat)
      ensures events == 2 * |hosts|
    {
      events := 0;
      for i := 0 to |hosts|
        invariant events == 2 * i
      {
        var notified := hosts[i].RefreshValidation();
        events := events + |notified|;
      }
    }

    /** The `IDataErrorInfo` indexer: a message for a blank template column, "" otherwise. */
    function Item(columnName: string): (msg: string)
      reads this
      ensures msg == UpstreamRequired <==> columnName == "UpstreamPathTemplate" && IsBlank(upstream)
      ensures msg == DownstreamRequired <==> columnName == "DownstreamPathTemplate" && IsBlank(downstream)
      ensures msg == "" <==>
        !(columnName == "UpstreamPathTemplate" && IsBlank(upstream))
        && !(columnName == "DownstreamPathTemplate" && IsBlank(downstream))
    {
      if columnName == "UpstreamPathTemplate" && IsBlank(upstream) then UpstreamRequired
      else if columnName == "DownstreamPathTemplate" && IsBlank(downstream) then DownstreamRequired
      else ""
    }
  }
}
