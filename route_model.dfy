/**
 * The editable state of one route (ViewModels/RouteViewModel.cs) as a value, and what the route's
 * operations do to it: loading from a persisted Route, merging HTTP-method options, taking the
 * persisted snapshot, validating and filtering. RouteVM.RouteViewModel is tied to these functions.
 */
module RouteModel {
  import opened Wrappers
  import opened Text
  import opened Models
  import opened Collections
  import opened HostAndPortVM

  /** The toggle cells a route starts with, in order. */
  const DefaultHttpMethods: seq<string> := ["GET", "POST", "PUT", "DELETE", "PATCH"]

  /** The host `AddHost` creates. */
  const DefaultHost := HostAndPort("localhost", 80)

  /** One HTTP-method toggle cell. */
  datatype MethodOption = MethodOption(name: string, selected: bool)

  /** What a RouteViewModel holds, apart from its selection and filter texts. */
  datatype RouteState = RouteState(
    upstream: string,
    downstream: string,
    scheme: string,
    caseSensitive: bool,
    hosts: seq<HostAndPort>,
    options: seq<MethodOption>,
    providerKey: string,
    scopes: seq<string>)

  function Names(opts: seq<MethodOption>): (r: seq<string>)
    ensures |r| == |opts| && forall i :: 0 <= i < |opts| ==> r[i] == opts[i].name
  {
    seq(|opts|, i requires 0 <= i < |opts| => opts[i].name)
  }

  /** No two option names are equal when case is ignored. */
  predicate CaseInsensitivelyUnique(names: seq<string>)
  {
    forall i, j :: 0 <= i < |names| && 0 <= j < |names| && i != j ==> !EqualsIgnoreCase(names[i], names[j])
  }

  /** The default option names are case-insensitively unique. */
  lemma DefaultMethodsUnique()
    ensures CaseInsensitivelyUnique(DefaultHttpMethods)
  {
    var d := DefaultHttpMethods;
    var folded := ["get", "post", "put", "delete", "patch"];
    forall i | 0 <= i < |d| ensures FoldCase(d[i]) == folded[i] {
      assert |FoldCase(d[i])| == |folded[i]|;
      forall k | 0 <= k < |folded[i]| ensures FoldCase(d[i])[k] == folded[i][k] {
        assert FoldCase(d[i])[k] == ToLower(d[i][k]);
      }
    }
    forall i, j | 0 <= i < |d| && 0 <= j < |d| && i != j ensures !EqualsIgnoreCase(d[i], d[j]) {
      assert FoldCase(d[i]) == folded[i] && FoldCase(d[j]) == folded[j];
      assert folded[i] != folded[j];
    }
  }

  /**
   * `HttpMethodOptions.FirstOrDefault(m => string.Equals(m.Name, method, OrdinalIgnoreCase))`,
   * as the index of the first matching option, or -1 when none matches.
   */
  function FindOption(names: seq<string>, m: string): (k: int)
    ensures -1 <= k < |names|
    ensures k >= 0 ==> EqualsIgnoreCase(names[k], m)
    ensures k >= 0 ==> forall j :: 0 <= j < k ==> !EqualsIgnoreCase(names[j], m)
    ensures k < 0 ==> forall j :: 0 <= j < |names| ==> !EqualsIgnoreCase(names[j], m)
  {
    if names == [] then -1
    else if EqualsIgnoreCase(names[0], m) then 0
    else var k := FindOption(names[1..], m); if k < 0 then -1 else k + 1
  }

  /** `EnsureHttpMethodOption(method).IsSelected = true`: select the first match, or append a selected option. */
  function SelectMethod(opts: seq<MethodOption>, m: string): seq<MethodOption>
  {
    var k := FindOption(Names(opts), m);
    if k >= 0 then opts[k := MethodOption(opts[k].name, true)] else opts + [MethodOption(m, true)]
  }

  /** The `foreach (var method in model.UpstreamHttpMethod)` loop of LoadFromModel. */
  function SelectMethods(opts: seq<MethodOption>, ms: seq<string>): seq<MethodOption>
    decreases |ms|
  {
    if ms == [] then opts else SelectMethod(SelectMethods(opts, ms[..|ms| - 1]), ms[|ms| - 1])
  }

  /** Every option with IsSelected = false. */
  function Deselect(opts: seq<MethodOption>): (r: seq<MethodOption>)
    ensures |r| == |opts|
    ensures forall i :: 0 <= i < |opts| ==> r[i] == MethodOption(opts[i].name, false)
  {
    seq(|opts|, i requires 0 <= i < |opts| => MethodOption(opts[i].name, false))
  }

  /** Fresh, unselected options with the given names. */
  function Unselected(names: seq<string>): (r: seq<MethodOption>)
    ensures |r| == |names|
    ensures forall i :: 0 <= i < |names| ==> r[i] == MethodOption(names[i], false)
  {
    seq(|names|, i requires 0 <= i < |names| => MethodOption(names[i], false))
  }

  /** Some method in `ms` equals `name` when case is ignored. */
  predicate Requested(name: string, ms: seq<string>)
  {
    exists m :: m in ms && EqualsIgnoreCase(name, m)
  }

  /**
   * The merge keeps the existing options in place and in order (only their flags can change)
   * and appends only options named after a requested method.
   */
  lemma {:induction false} SelectMethodsKeepsOptions(opts: seq<MethodOption>, ms: seq<string>)
    ensures |SelectMethods(opts, ms)| >= |opts|
    ensures Names(SelectMethods(opts, ms))[..|opts|] == Names(opts)
    ensures forall k :: |opts| <= k < |SelectMethods(opts, ms)| ==> SelectMethods(opts, ms)[k].name in ms
    decreases |ms|
  {
    if ms != [] {
      var ms' := ms[..|ms| - 1];
      var m := ms[|ms| - 1];
      SelectMethodsKeepsOptions(opts, ms');
      var r := SelectMethods(opts, ms');
      var r' := SelectMethod(r, m);
      assert Names(r')[..|r|] == Names(r);
      assert Names(r')[..|opts|] == Names(r)[..|opts|];
      forall k | |opts| <= k < |r'| ensures r'[k].name in ms {
        if k < |r| {
          assert r'[k].name == r[k].name;
          assert r[k].name in ms';
        } else {
          assert r'[k].name == m;
        }
      }
    }
  }

  /** Merging keeps option names case-insensitively unique. */
  lemma {:induction false} SelectMethodsKeepsUnique(opts: seq<MethodOption>, ms: seq<string>)
    requires CaseInsensitivelyUnique(Names(opts))
    ensures CaseInsensitivelyUnique(Names(SelectMethods(opts, ms)))
    decreases |ms|
  {
    if ms != [] {
      var ms' := ms[..|ms| - 1];
      var m := ms[|ms| - 1];
      SelectMethodsKeepsUnique(opts, ms');
      var r := SelectMethods(opts, ms');
      var k := FindOption(Names(r), m);
      var nr := Names(SelectMethod(r, m));
      if k >= 0 {
        assert nr == Names(r);
      } else {
        assert nr == Names(r) + [m];
      }
    }
  }

  /**
   * With unique names, after the merge an option is selected exactly when it already was or
   * some requested method matches its name case-insensitively.
   */
  lemma {:induction false} SelectMethodsSelection(opts: seq<MethodOption>, ms: seq<string>)
    requires CaseInsensitivelyUnique(Names(opts))
    ensures forall k :: 0 <= k < |SelectMethods(opts, ms)| ==>
      (SelectMethods(opts, ms)[k].selected <==>
        (k < |opts| && opts[k].selected) || Requested(SelectMethods(opts, ms)[k].name, ms))
    decreases |ms|
  {
    if ms != [] {
      var ms' := ms[..|ms| - 1];
      var m := ms[|ms| - 1];
      assert ms == ms' + [m];
      SelectMethodsSelection(opts, ms');
      SelectMethodsKeepsUnique(opts, ms');
      SelectMethodsKeepsOptions(opts, ms');
      SelectMethodsKeepsOptions(opts, ms);
      var r := SelectMethods(opts, ms');
      var r' := SelectMethod(r, m);
      var k := FindOption(Names(r), m);
      forall j | 0 <= j < |r'|
        ensures r'[j].selected <==> (j < |opts| && opts[j].selected) || Requested(r'[j].name, ms)
      {
        if j < |r| {
          assert r'[j].name == r[j].name;
          assert Requested(r[j].name, ms) <==> Requested(r[j].name, ms') || EqualsIgnoreCase(r[j].name, m);
          if k >= 0 && j != k {
            assert EqualsIgnoreCase(r[k].name, m);
            assert !EqualsIgnoreCase(r[j].name, r[k].name);
          }
          if j == k {
            assert m in ms;
          }
        } else {
          assert r'[j].name == m && m in ms;
        }
      }
    }
  }

  /** When every requested method already has an option, the merge adds none. */
  lemma {:induction false} SelectMethodsAddsNothing(opts: seq<MethodOption>, ms: seq<string>)
    requires forall m :: m in ms ==> exists k :: 0 <= k < |opts| && EqualsIgnoreCase(opts[k].name, m)
    ensures Names(SelectMethods(opts, ms)) == Names(opts)
    decreases |ms|
  {
    if ms != [] {
      var ms' := ms[..|ms| - 1];
      var m := ms[|ms| - 1];
      assert forall x :: x in ms' ==> x in ms;
      SelectMethodsAddsNothing(opts, ms');
      var r := SelectMethods(opts, ms');
      assert m in ms;
      var k0 :| 0 <= k0 < |opts| && EqualsIgnoreCase(opts[k0].name, m);
      assert Names(r)[k0] == opts[k0].name;
      assert FindOption(Names(r), m) >= 0;
      assert Names(SelectMethod(r, m)) == Names(r);
    }
  }

  /** Every requested method ends up with a matching option. */
  lemma {:induction false} SelectMethodsCovers(opts: seq<MethodOption>, ms: seq<string>)
    ensures forall m :: m in ms ==>
      exists k :: 0 <= k < |SelectMethods(opts, ms)| && EqualsIgnoreCase(SelectMethods(opts, ms)[k].name, m)
    decreases |ms|
  {
    if ms != [] {
      var ms' := ms[..|ms| - 1];
      var m := ms[|ms| - 1];
      assert ms == ms' + [m];
      SelectMethodsCovers(opts, ms');
      var r := SelectMethods(opts, ms');
      var r' := SelectMethod(r, m);
      assert SelectMethods(opts, ms) == r';
      assert Names(r')[..|r|] == Names(r);
      forall x | x in ms ensures exists k :: 0 <= k < |r'| && EqualsIgnoreCase(r'[k].name, x) {
        if x in ms' {
          var k :| 0 <= k < |r| && EqualsIgnoreCase(r[k].name, x);
          assert r'[k].name == r[k].name;
        } else {
          assert x == m;
          var k := FindOption(Names(r), m);
          if k >= 0 {
            assert r'[k].name == r[k].name;
          } else {
            assert r'[|r|].name == m;
          }
        }
      }
    }
  }

  /** `ToModel`'s `SelectedHttpMethods`: the names of the selected options, in option order. */
  function SelectedNames(opts: seq<MethodOption>): (r: seq<string>)
    ensures |r| <= |opts|
    ensures forall n :: n in r <==> exists k :: 0 <= k < |opts| && opts[k].selected && opts[k].name == n
    ensures IsSubsequence(r, Names(opts))
  {
    if opts == [] then []
    else
      var rest := SelectedNames(opts[1..]);
      assert forall k :: 1 <= k < |opts| ==> opts[k] == opts[1..][k - 1];
      assert Names(opts)[1..] == Names(opts[1..]);
      if opts[0].selected then [opts[0].name] + rest else rest
  }

  /** DownstreamScheme after LoadFromModel: a blank scheme becomes "http". */
  function NormalizeScheme(s: string): (r: string)
    ensures !IsBlank(r)
    ensures !IsBlank(s) ==> r == s
  {
    NotBlankAt("http", 0);
    if IsBlank(s) then "http" else s
  }

  /** The hosts after LoadFromModel: the model's, or one default host when it has none. */
  function LoadedHosts(hs: seq<HostAndPort>): (r: seq<HostAndPort>)
    ensures r != []
    ensures hs != [] ==> r == hs
  {
    if hs == [] then [DefaultHost] else hs
  }

  /** `LoadFromModel(model)` on a route whose current state is `st`: only its option names survive. */
  function Load(st: RouteState, model: Route): (r: RouteState)
    ensures !IsBlank(r.scheme) && r.hosts != []
    ensures |r.options| >= |st.options|
    ensures Names(r.options)[..|st.options|] == Names(st.options)
  {
    SelectMethodsKeepsOptions(Deselect(st.options), model.UpstreamHttpMethod);
    assert Names(Deselect(st.options)) == Names(st.options);
    RouteState(
      model.UpstreamPathTemplate,
      model.DownstreamPathTemplate,
      NormalizeScheme(model.DownstreamScheme),
      model.RouteIsCaseSensitive,
      LoadedHosts(model.DownstreamHostAndPorts),
      SelectMethods(Deselect(st.options), model.UpstreamHttpMethod),
      model.AuthenticationOptions.AuthenticationProviderKey,
      model.AuthenticationOptions.AllowedScopes)
  }

  /** The state after the field initialisers and the option list, before the constructor's body. */
  function Blank(names: seq<string>): RouteState
  {
    RouteState("", "", "http", false, [], Unselected(names), "", [])
  }

  /** The first option selected (when there is one). */
  function SelectFirst(opts: seq<MethodOption>): seq<MethodOption>
  {
    if opts == [] then [] else opts[0 := MethodOption(opts[0].name, true)]
  }

  /** `new RouteViewModel(model, httpMethodOptions)`. */
  function Constructed(model: Option<Route>, optionNames: Option<seq<string>>): RouteState
  {
    var st := Blank(optionNames.GetOr(DefaultHttpMethods));
    match model
    case Some(m) => Load(st, m)
    case None => st.(hosts := [DefaultHost], options := SelectFirst(st.options))
  }

  /** `new RouteViewModel()`: the five default options with only GET selected, one localhost:80 host, scheme "http". */
  lemma DefaultConstruction()
    ensures Constructed(None, None) == RouteState(
      "", "", "http", false, [DefaultHost],
      [MethodOption("GET", true), MethodOption("POST", false), MethodOption("PUT", false),
       MethodOption("DELETE", false), MethodOption("PATCH", false)],
      "", [])
  {
  }

  /** `ToModel()`: the persisted snapshot of a route. */
  function ToModelOf(st: RouteState): (r: Route)
    ensures r.UpstreamPathTemplate == st.upstream && r.DownstreamPathTemplate == st.downstream
    ensures r.DownstreamScheme == st.scheme && r.RouteIsCaseSensitive == st.caseSensitive
    ensures r.DownstreamHostAndPorts == st.hosts
    ensures forall n :: n in r.UpstreamHttpMethod <==> exists k :: 0 <= k < |st.options| && st.options[k].selected && st.options[k].name == n
    ensures IsSubsequence(r.UpstreamHttpMethod, Names(st.options))
    ensures r.AuthenticationOptions.AuthenticationProviderKey == st.providerKey
    ensures r.AuthenticationOptions.AllowedScopes == st.scopes
    ensures r.AdditionalData == map[] && r.AuthenticationOptions.AdditionalData == map[]
  {
    Route(
      st.upstream, SelectedNames(st.options), st.downstream, st.scheme, st.hosts, st.caseSensitive,
      AuthenticationOptions(st.providerKey, st.scopes, map[]), map[])
  }

  /**
   * Clone goes through the model: `new RouteViewModel(ToModel(), option names)`. With
   * case-insensitively unique option names, a non-blank scheme and at least one host, the clone's
   * state is the source's state.
   */
  lemma CloneRoundTrip(st: RouteState)
    requires CaseInsensitivelyUnique(Names(st.options))
    requires !IsBlank(st.scheme) && st.hosts != []
    ensures Constructed(Some(ToModelOf(st)), Some(Names(st.options))) == st
  {
    assert Deselect(Unselected(Names(st.options))) == Deselect(st.options);
    ReselectIsIdentity(st.options);
  }

  /** Deselecting every option and then selecting the names that were selected restores the options. */
  lemma ReselectIsIdentity(opts: seq<MethodOption>)
    requires CaseInsensitivelyUnique(Names(opts))
    ensures SelectMethods(Deselect(opts), SelectedNames(opts)) == opts
  {
    var ms := SelectedNames(opts);
    var start := Deselect(opts);
    assert Names(start) == Names(opts);
    forall m | m in ms ensures exists k :: 0 <= k < |start| && EqualsIgnoreCase(start[k].name, m) {
      var k :| 0 <= k < |opts| && opts[k].selected && opts[k].name == m;
      assert start[k].name == m;
    }
    SelectMethodsAddsNothing(start, ms);
    SelectMethodsSelection(start, ms);
    var r := SelectMethods(start, ms);
    assert Names(r) == Names(opts);
    forall k | 0 <= k < |r| ensures r[k] == opts[k] {
      assert r[k].name == Names(r)[k] == opts[k].name;
      if opts[k].selected {
        assert opts[k].name in ms;
        assert Requested(r[k].name, ms);
      }
      if r[k].selected {
        assert Requested(r[k].name, ms);
        var m :| m in ms && EqualsIgnoreCase(r[k].name, m);
        var j :| 0 <= j < |opts| && opts[j].selected && opts[j].name == m;
        assert Names(opts)[j] == m && Names(opts)[k] == r[k].name;
        assert j == k;
      }
    }
  }

  /**
   * What survives when the editor loads the persisted route `m` and saves it again as `r`: the
   * templates and the case-sensitivity flag, the scheme ("http" for a blank one), the hosts (one
   * default host for none), the authentication settings without their extension data, and the
   * HTTP methods up to case in both directions; the route's own extension data is dropped.
   */
  predicate Reloaded(r: Route, m: Route)
  {
    && r.UpstreamPathTemplate == m.UpstreamPathTemplate && r.DownstreamPathTemplate == m.DownstreamPathTemplate
    && r.DownstreamScheme == NormalizeScheme(m.DownstreamScheme)
    && r.RouteIsCaseSensitive == m.RouteIsCaseSensitive
    && r.DownstreamHostAndPorts == LoadedHosts(m.DownstreamHostAndPorts)
    && r.AuthenticationOptions == m.AuthenticationOptions.(AdditionalData := map[])
    && r.AdditionalData == map[]
    && (forall x :: x in m.UpstreamHttpMethod ==> exists n :: n in r.UpstreamHttpMethod && EqualsIgnoreCase(n, x))
    && (forall n :: n in r.UpstreamHttpMethod ==> Requested(n, m.UpstreamHttpMethod))
  }

  /** A route loaded with the default options (`new RouteViewModel(route)`) saves as `Reloaded` describes. */
  lemma ReloadRoute(m: Route)
    ensures Reloaded(ToModelOf(Constructed(Some(m), None)), m)
  {
    var ms := m.UpstreamHttpMethod;
    var start := Deselect(Unselected(DefaultHttpMethods));
    assert Names(start) == DefaultHttpMethods;
    DefaultMethodsUnique();
    SelectMethodsSelection(start, ms);
    SelectMethodsCovers(start, ms);
    var r := SelectMethods(start, ms);
    assert Constructed(Some(m), None).options == r;
    forall x | x in ms ensures exists n :: n in ToModelOf(Constructed(Some(m), None)).UpstreamHttpMethod && EqualsIgnoreCase(n, x) {
      var k :| 0 <= k < |r| && EqualsIgnoreCase(r[k].name, x);
      assert r[k].selected;
    }
  }

  /** Route validity: both templates non-blank and at least one valid host. */
  predicate StateValid(st: RouteState)
  {
    !IsBlank(st.upstream) && !IsBlank(st.downstream) && exists h :: h in st.hosts && HostValid(h)
  }

  /** `HostFilter`: the host filter is blank or the host contains it, and the port filter is blank or the port's decimal form contains it, ignoring case. */
  predicate HostMatches(hostFilter: string, portFilter: string, h: HostAndPort)
  {
    && (IsBlank(hostFilter) || ContainsIgnoreCase(h.Host, hostFilter))
    && (IsBlank(portFilter) || ContainsIgnoreCase(IntToString(h.Port), portFilter))
  }

  /**
   * A host passes the filters exactly when each filter is blank or, case folded, occurs at some
   * position of the case-folded host name or port text; an empty host name passes no non-blank
   * host filter.
   */
  lemma HostMatchesIff(hostFilter: string, portFilter: string, h: HostAndPort)
    ensures HostMatches(hostFilter, portFilter, h) <==>
      && (IsBlank(hostFilter) || exists i :: OccursAt(FoldCase(h.Host), FoldCase(hostFilter), i))
      && (IsBlank(portFilter) || exists i :: OccursAt(FoldCase(IntToString(h.Port)), FoldCase(portFilter), i))
    ensures !IsBlank(hostFilter) && h.Host == "" ==> !HostMatches(hostFilter, portFilter, h)
  {
    ContainsIff(FoldCase(h.Host), FoldCase(hostFilter));
    ContainsIff(FoldCase(IntToString(h.Port)), FoldCase(portFilter));
    if !IsBlank(hostFilter) && h.Host == "" {
      NothingInEmpty(hostFilter);
    }
  }
}
