/**
 * The main window's editing engine (ViewModels/MainViewModel.cs): the ordered route list with its
 * selection, the unsaved-changes flag and its suppression switch, the save gate, and the route
 * filter. Dialog answers, file-picker results and the configuration service's outcome are
 * parameters; a service failure is the message of the exception it would throw.
 */
module MainVM {
  import opened Wrappers
  import opened Text
  import opened Models
  import opened Collections
  import opened GlobalConfigurationVM
  import opened RouteModel
  import opened RouteVM

  const Ready := "Ready"
  const ConfigurationLoaded := "Configuration loaded"
  const ConfigurationSaved := "Configuration saved"
  const LoadFailedPrefix := "Unable to load configuration: "
  const SaveFailedPrefix := "Unable to save configuration: "
  const NoRoutesMessage := "Add at least one route before saving."
  const InvalidRoutesMessage := "Some routes contain invalid data. Please correct highlighted fields."

  /** A call of the configuration service's `Save(path, configuration)`. */
  datatype Write = Write(path: string, configuration: OcelotConfiguration)

  /** The editor's own fields, with the document-wide BaseUrl. */
  datatype Editor = Editor(
    routes: seq<RouteViewModel>,
    selected: RouteViewModel?,
    path: Option<string>,
    status: string,
    dirty: bool,
    suppressed: bool,
    upstreamFilter: string,
    downstreamFilter: string,
    baseUrl: string)

  /** `Math.Clamp(value, min, max)`; it throws when min > max, which the caller rules out. */
  function Clamp(value: int, lo: int, hi: int): (r: int)
    requires lo <= hi
    ensures lo <= r <= hi
    ensures lo <= value <= hi ==> r == value
    ensures value < lo ==> r == lo
    ensures hi < value ==> r == hi
  {
    if value < lo then lo else if value > hi then hi else value
  }

  /** One half of `RouteFilter`: a blank filter, or a non-empty template containing it ignoring case. */
  predicate TemplateMatches(filter: string, template: string)
  {
    IsBlank(filter) || (template != "" && ContainsIgnoreCase(template, filter))
  }

  /** `RouteFilter` on a route with these templates. */
  predicate RouteMatches(upstreamFilter: string, downstreamFilter: string, upstream: string, downstream: string)
    ensures RouteMatches(upstreamFilter, downstreamFilter, upstream, downstream) <==>
      && (IsBlank(upstreamFilter) || exists i :: OccursAt(FoldCase(upstream), FoldCase(upstreamFilter), i))
      && (IsBlank(downstreamFilter) || exists i :: OccursAt(FoldCase(downstream), FoldCase(downstreamFilter), i))
  {
    TemplateMatchesIff(upstreamFilter, upstream);
    TemplateMatchesIff(downstreamFilter, downstream);
    TemplateMatches(upstreamFilter, upstream) && TemplateMatches(downstreamFilter, downstream)
  }

  /**
   * A template passes its filter exactly when the filter is blank or the case-folded filter occurs
   * at some position of the case-folded template; the non-empty guard excludes nothing more.
   */
  lemma TemplateMatchesIff(filter: string, template: string)
    ensures TemplateMatches(filter, template) <==>
      IsBlank(filter) || exists i :: OccursAt(FoldCase(template), FoldCase(filter), i)
  {
    ContainsIff(FoldCase(template), FoldCase(filter));
    if !IsBlank(filter) && template == "" {
      assert |FoldCase(filter)| > 0;
      assert forall i :: !OccursAt(FoldCase(template), FoldCase(filter), i);
    }
  }

  /** The routes the routes view shows, in collection order. */
  function FilterRoutes(rs: seq<RouteViewModel>, upstreamFilter: string, downstreamFilter: string): (r: seq<RouteViewModel>)
    reads rs
    ensures |r| <= |rs| && IsSubsequence(r, rs)
    ensures forall i :: 0 <= i < |r| ==> r[i] in rs && RouteMatches(upstreamFilter, downstreamFilter, r[i].upstream, r[i].downstream)
    ensures forall i :: 0 <= i < |rs| && RouteMatches(upstreamFilter, downstreamFilter, rs[i].upstream, rs[i].downstream) ==> rs[i] in r
  {
    if rs == [] then []
    else
      var rest := FilterRoutes(rs[1..], upstreamFilter, downstreamFilter);
      if RouteMatches(upstreamFilter, downstreamFilter, rs[0].upstream, rs[0].downstream) then [rs[0]] + rest else rest
  }

  /** With both filter texts blank the routes view shows every route. */
  lemma {:induction false} BlankRouteFiltersShowAll(rs: seq<RouteViewModel>, upstreamFilter: string, downstreamFilter: string)
    requires IsBlank(upstreamFilter) && IsBlank(downstreamFilter)
    ensures FilterRoutes(rs, upstreamFilter, downstreamFilter) == rs
  {
    if rs != [] {
      BlankRouteFiltersShowAll(rs[1..], upstreamFilter, downstreamFilter);
    }
  }

  /** The host rows of some route editors. */
  ghost function HostRowsOf(rs: seq<RouteViewModel>): set<HostAndPortVM.HostAndPortViewModel>
    reads rs
  {
    set r, h | r in rs && h in r.hosts :: h
  }

  /** The authentication editors of some route editors. */
  ghost function AuthEditorsOf(rs: seq<RouteViewModel>): set<AuthenticationOptionsVM.AuthenticationOptionsViewModel>
    reads rs
  {
    set r | r in rs :: r.auth
  }

  /** Every route's host rows and authentication editor are in those footprints. */
  lemma FootprintsOf(rs: seq<RouteViewModel>)
    ensures forall i, h :: 0 <= i < |rs| && h in rs[i].hosts ==> h in HostRowsOf(rs)
    ensures forall i :: 0 <= i < |rs| ==> rs[i].auth in AuthEditorsOf(rs)
  {
  }

  /** The route editors show the persisted routes in order; one default route stands for none. */
  ghost predicate Mirrors(rs: seq<RouteViewModel>, ms: seq<Route>)
    reads rs, HostRowsOf(rs), AuthEditorsOf(rs)
  {
    FootprintsOf(rs);
    && (ms != [] ==> |rs| == |ms| && forall k :: 0 <= k < |ms| ==> rs[k].State() == Constructed(Some(ms[k]), None))
    && (ms == [] ==> |rs| == 1 && rs[0].State() == Constructed(None, None))
  }

  class MainViewModel {
    var routes: seq<RouteViewModel>
    var selectedRoute: RouteViewModel?
    var currentFilePath: Option<string>
    var statusMessage: string
    var hasUnsavedChanges: bool
    var suppressChangeTracking: bool
    var routeUpstreamFilterText: string
    var routeDownstreamFilterText: string
    const global: GlobalConfigurationViewModel

    /** No route is listed twice, and the selection is null or one of the routes. */
    ghost predicate Valid()
      reads this
    {
      Distinct(routes) && (selectedRoute == null || selectedRoute in routes)
    }

    /** The editor's fields as one value. */
    function Snapshot(): Editor
      reads this, global
    {
      Editor(
        routes, selectedRoute, currentFilePath, statusMessage, hasUnsavedChanges,
        suppressChangeTracking, routeUpstreamFilterText, routeDownstreamFilterText, global.baseUrl)
    }

    /** The save gate's condition: at least one route, and every route valid. */
    ghost predicate SaveAllowed()
      reads this, routes, HostRowsOf(routes), AuthEditorsOf(routes)
    {
      FootprintsOf(routes);
      routes != [] && forall i :: 0 <= i < |routes| ==> StateValid(routes[i].State())
    }

    /**
     * Validating the routes re-announces some host row, so (tracking not suppressed) the relay
     * marks the document dirty.
     */
    ghost predicate ValidationNotifies()
      reads this, routes
    {
      !suppressChangeTracking && exists i :: 0 <= i < |routes| && routes[i].hosts != []
    }

    /** The document as displayed: one route per source route (one default route when there is none), the first selected, nothing unsaved. */
    ghost predicate Presents(cfg: OcelotConfiguration)
      reads this, routes, HostRowsOf(routes), AuthEditorsOf(routes), global
    {
      && Mirrors(routes, cfg.Routes)
      && selectedRoute == routes[0]
      && global.baseUrl == cfg.GlobalConfiguration.BaseUrl
      && !hasUnsavedChanges && !suppressChangeTracking
    }

    /** `new MainViewModel(...)`: one default route, selected, and no unsaved changes. */
    constructor ()
      ensures Valid() && fresh(global)
      ensures |routes| == 1 && fresh(routes[0]) && selectedRoute == routes[0]
      ensures routes[0].State() == Constructed(None, None)
      ensures routes[0].Valid() && fresh(routes[0].Repr)
      ensures !hasUnsavedChanges && !suppressChangeTracking
      ensures statusMessage == Ready && currentFilePath == None
      ensures routeUpstreamFilterText == "" && routeDownstreamFilterText == "" && global.baseUrl == ""
    {
      routes := [];
      selectedRoute := null;
      currentFilePath := None;
      statusMessage := Ready;
      hasUnsavedChanges := false;
      suppressChangeTracking := false;
      routeUpstreamFilterText := "";
      routeDownstreamFilterText := "";
      global := new GlobalConfigurationViewModel();
      new;
      suppressChangeTracking := true;
      AddRoute();
      hasUnsavedChanges := false;
      suppressChangeTracking := false;
    }

    /** `MarkDirty`: sets the unsaved-changes flag unless change tracking is suppressed. */
    method MarkDirty()
      modifies this
      ensures old(Valid()) ==> Valid()
      ensures Snapshot() == old(Snapshot()).(dirty := old(hasUnsavedChanges) || !old(suppressChangeTracking))
    {
      if !suppressChangeTracking {
        hasUnsavedChanges := true;
      }
    }

    /** The BaseUrl text box: a change raises ConfigurationChanged, which marks the document dirty. */
    method SetBaseUrl(value: string)
      requires Valid()
      modifies this, global
      ensures Valid()
      ensures Snapshot() == old(Snapshot()).(
        baseUrl := value,
        dirty := old(hasUnsavedChanges) || (value != old(global.baseUrl) && !old(suppressChangeTracking)))
    {
      var events := global.SetBaseUrl(value);
      if events > 0 {
        MarkDirty();
      }
    }

    /**
     * The handler every listed route's RouteChanged is wired to: it refreshes the routes view and
     * marks the document dirty. `events` is how many RouteChanged a route operation raised; one
     * mark and several leave the same state.
     */
    method RouteChanged(events: nat)
      requires Valid()
      modifies this
      ensures Valid()
      ensures Snapshot() == old(Snapshot()).(dirty := old(hasUnsavedChanges) || (events > 0 && !old(suppressChangeTracking)))
    {
      if events > 0 {
        MarkDirty();
      }
    }

    /** The SelectedRoute setter (bound to the route list's selection). */
    method SetSelectedRoute(value: RouteViewModel?)
      requires Valid() && (value == null || value in routes)
      modifies this
      ensures Valid()
      ensures Snapshot() == old(Snapshot()).(selected := value)
    {
      selectedRoute := value;
    }

    /** The RouteUpstreamFilterText setter: refreshes the routes view only. */
    method SetRouteUpstreamFilterText(value: string)
      requires Valid()
      modifies this
      ensures Valid()
      ensures Snapshot() == old(Snapshot()).(upstreamFilter := value)
    {
      routeUpstreamFilterText := value;
    }

    /** The RouteDownstreamFilterText setter. */
    method SetRouteDownstreamFilterText(value: string)
      requires Valid()
      modifies this
      ensures Valid()
      ensures Snapshot() == old(Snapshot()).(downstreamFilter := value)
    {
      routeDownstreamFilterText := value;
    }

    /** `RoutesView`: exactly the routes that pass `RouteFilter`, in order; all of them when both filters are blank. */
    function RoutesView(): (r: seq<RouteViewModel>)
      reads this, routes
      ensures |r| <= |routes|
      ensures forall i :: 0 <= i < |r| ==>
        r[i] in routes && RouteMatches(routeUpstreamFilterText, routeDownstreamFilterText, r[i].upstream, r[i].downstream)
      ensures forall i ::
        (0 <= i < |routes| && RouteMatches(routeUpstreamFilterText, routeDownstreamFilterText, routes[i].upstream, routes[i].downstream))
        ==> routes[i] in r
      ensures IsBlank(routeUpstreamFilterText) && IsBlank(routeDownstreamFilterText) ==> r == routes
    {
      if IsBlank(routeUpstreamFilterText) && IsBlank(routeDownstreamFilterText) then
        BlankRouteFiltersShowAll(routes, routeUpstreamFilterText, routeDownstreamFilterText);
        FilterRoutes(routes, routeUpstreamFilterText, routeDownstreamFilterText)
      else
        FilterRoutes(routes, routeUpstreamFilterText, routeDownstreamFilterText)
    }

    /** `AddRoute`: appends a new default route and selects it; the collection change marks the document dirty. */
    method AddRoute()
      requires Valid()
      modifies this
      ensures Valid()
      ensures |routes| == |old(routes)| + 1 && routes[..|old(routes)|] == old(routes)
      ensures fresh(routes[|routes| - 1]) && routes[|routes| - 1].State() == Constructed(None, None)
      ensures routes[|routes| - 1].Valid() && fresh(routes[|routes| - 1].Repr)
      ensures selectedRoute == routes[|routes| - 1]
      ensures Snapshot() == old(Snapshot()).(
        routes := routes, selected := selectedRoute,
        dirty := old(hasUnsavedChanges) || !old(suppressChangeTracking))
    {
      var route := new RouteViewModel(None, None);
      AppendDistinct(routes, route);
      routes := routes + [route];
      MarkDirty();
      selectedRoute := route;
    }

    /**
     * `DuplicateRoute`: with a selection, inserts its clone right after it and selects the clone;
     * without one nothing happens. The clone is built from the snapshot and has the original's
     * state whenever the original's option names are unique, its scheme is set and it has a host.
     */
    method DuplicateRoute()
      requires Valid()
      modifies this
      ensures Valid()
      ensures old(selectedRoute) == null ==> Snapshot() == old(Snapshot())
      ensures old(selectedRoute) != null ==>
        var i := IndexOf(old(routes), old(selectedRoute));
        var st := old(selectedRoute.State());
        && 0 <= i < |old(routes)|
        && routes == InsertAt(old(routes), i + 1, selectedRoute)
        && selectedRoute != null && fresh(selectedRoute)
        && selectedRoute.Valid() && fresh(selectedRoute.Repr)
        && selectedRoute.State() == Constructed(Some(ToModelOf(st)), Some(Names(st.options)))
        && (CaseInsensitivelyUnique(Names(st.options)) && !IsBlank(st.scheme) && st.hosts != [] ==> selectedRoute.State() == st)
        && Snapshot() == old(Snapshot()).(
             routes := routes, selected := selectedRoute,
             dirty := old(hasUnsavedChanges) || !old(suppressChangeTracking))
    {
      if selectedRoute != null {
        DuplicateSelected();
      }
    }

    /** DuplicateRoute once a route is selected: clone it, insert the clone after it, select the clone. */
    method DuplicateSelected()
      requires Valid() && selectedRoute != null
      modifies this
      ensures Valid()
      ensures
        var i := IndexOf(old(routes), old(selectedRoute));
        var st := old(selectedRoute.State());
        && 0 <= i < |old(routes)|
        && routes == InsertAt(old(routes), i + 1, selectedRoute)
        && selectedRoute != null && fresh(selectedRoute)
        && selectedRoute.Valid() && fresh(selectedRoute.Repr)
        && selectedRoute.State() == Constructed(Some(ToModelOf(st)), Some(Names(st.options)))
        && (CaseInsensitivelyUnique(Names(st.options)) && !IsBlank(st.scheme) && st.hosts != [] ==> selectedRoute.State() == st)
        && Snapshot() == old(Snapshot()).(
             routes := routes, selected := selectedRoute,
             dirty := old(hasUnsavedChanges) || !old(suppressChangeTracking))
    {
      var original := selectedRoute;
      var clone := CloneOf(original);
      ghost var cloned := clone.State();
      var index := IndexOf(routes, original);
      InsertSelected(index + 1, clone);
      assert clone.State() == cloned;
    }

    /** The `Clone()` step of DuplicateRoute: a fresh route built from the original's snapshot. */
    method CloneOf(original: RouteViewModel) returns (clone: RouteViewModel)
      ensures fresh(clone) && clone !in routes
      ensures clone.Valid() && fresh(clone.Repr)
      ensures clone.auth.newScope == None && clone.auth.selectedScope == None
      ensures original.hosts == [] ==> clone.hosts != [] && clone.selectedHost == clone.hosts[0]
      ensures original.hosts != [] ==> clone.selectedHost == null
      ensures clone.hostFilterText == "" && clone.portFilterText == ""
      ensures
        var st := original.State();
        && clone.State() == Constructed(Some(ToModelOf(st)), Some(Names(st.options)))
        && (CaseInsensitivelyUnique(Names(st.options)) && !IsBlank(st.scheme) && st.hosts != [] ==> clone.State() == st)
    {
      ghost var model, names := original.ToModel(), Names(original.options);
      clone := original.Clone();
      assert clone.State() == Constructed(Some(model), Some(names));
    }

    /** The `Routes.Insert(index, route)` and `SelectedRoute = route` steps of DuplicateRoute. */
    method InsertSelected(index: nat, route: RouteViewModel)
      requires Valid() && index <= |routes| && route !in routes
      modifies this
      ensures Valid()
      ensures routes == InsertAt(old(routes), index, route) && selectedRoute == route
      ensures Snapshot() == old(Snapshot()).(
        routes := routes, selected := route,
        dirty := old(hasUnsavedChanges) || !old(suppressChangeTracking))
    {
      InsertDistinct(routes, index, route);
      InsertAtContents(routes, index, route);
      routes := InsertAt(routes, index, route);
      MarkDirty();
      selectedRoute := route;
    }

    /**
     * `DeleteRoute`: with a selection and the user's confirmation, removes the selected route and
     * then selects the route before it (the new first route when the first was deleted), or none
     * when the list is now empty. Without a selection, or when the user declines, nothing changes.
     */
    method DeleteRoute(confirmed: bool)
      requires Valid()
      modifies this
      ensures Valid()
      ensures old(selectedRoute) == null || !confirmed ==> Snapshot() == old(Snapshot())
      ensures old(selectedRoute) != null && confirmed ==>
        var i := IndexOf(old(routes), old(selectedRoute));
        && 0 <= i < |old(routes)|
        && routes == RemoveAt(old(routes), i)
        && old(selectedRoute) !in routes
        && (|old(routes)| == 1 ==> selectedRoute == null)
        && (|old(routes)| > 1 ==> selectedRoute == old(routes)[if i == 0 then 1 else i - 1])
        && Snapshot() == old(Snapshot()).(
             routes := routes, selected := selectedRoute,
             dirty := old(hasUnsavedChanges) || !old(suppressChangeTracking))
    {
      if selectedRoute == null || !confirmed {
        return;
      }
      var index := IndexOf(routes, selectedRoute);
      ghost var before := routes;
      RemoveAtDistinct(routes, index);
      routes := Remove(routes, selectedRoute);
      assert routes == RemoveAt(before, index);
      MarkDirty();
      if routes == [] {
        selectedRoute := null;
      } else {
        var newIndex := Clamp(index - 1, 0, |routes| - 1);
        assert routes[newIndex] == before[if index == 0 then 1 else index - 1];
        selectedRoute := routes[newIndex];
      }
    }

    /**
     * `CanMoveRoute(direction)`: a route is selected and its position moved by `direction` is still
     * a position of the list. Upwards this means the selection is not the first route, downwards
     * that it is not the last.
     */
    function CanMoveRoute(direction: int): (r: bool)
      requires Valid()
      reads this
      ensures selectedRoute == null ==> !r
      ensures selectedRoute != null && direction == -1 ==> (r <==> selectedRoute != routes[0])
      ensures selectedRoute != null && direction == 1 ==> (r <==> selectedRoute != routes[|routes| - 1])
      ensures selectedRoute != null && direction == 0 ==> r
      ensures direction <= -|routes| || direction >= |routes| ==> !r
    {
      if selectedRoute == null then false
      else
        IndexOfDistinct(routes, |routes| - 1);
        var index := IndexOf(routes, selectedRoute);
        0 <= index + direction < |routes|
    }

    /**
     * `MoveRoute(direction)`: when CanMoveRoute(direction) holds, moves the selected route by
     * `direction` positions (a swap with its neighbour for a step of one), keeping the others in
     * their order and the selection on the moved route; otherwise nothing changes.
     */
    method MoveRoute(direction: int)
      requires Valid()
      modifies this
      ensures Valid()
      ensures !old(CanMoveRoute(direction)) ==> Snapshot() == old(Snapshot())
      ensures old(CanMoveRoute(direction)) ==>
        var i := IndexOf(old(routes), old(selectedRoute));
        && 0 <= i < |old(routes)| && 0 <= i + direction < |old(routes)|
        && routes == Move(old(routes), i, i + direction)
        && routes[i + direction] == selectedRoute
        && RemoveAt(routes, i + direction) == RemoveAt(old(routes), i)
        && Snapshot() == old(Snapshot()).(routes := routes, dirty := old(hasUnsavedChanges) || !old(suppressChangeTracking))
      ensures old(CanMoveRoute(direction)) && (direction == 1 || direction == -1) ==>
        var i := IndexOf(old(routes), old(selectedRoute));
        routes == old(routes)[i := old(routes)[i + direction]][i + direction := old(routes)[i]]
    {
      if selectedRoute != null {
        var index := IndexOf(routes, selectedRoute);
        var newIndex := index + direction;
        if 0 <= newIndex < |routes| {
          assert CanMoveRoute(direction);
          MoveSelected(index, newIndex);
          assert routes == Move(old(routes), index, newIndex) && routes[newIndex] == selectedRoute;
        }
      }
    }

    /** The `Routes.Move(index, newIndex)` step of MoveRoute, for the selected route at `from`. */
    method MoveSelected(from: nat, to: nat)
      requires Valid() && from < |routes| && to < |routes| && selectedRoute == routes[from]
      modifies this
      ensures Valid()
      ensures routes == Move(old(routes), from, to) && routes[to] == selectedRoute
      ensures RemoveAt(routes, to) == RemoveAt(old(routes), from)
      ensures to == from + 1 || from == to + 1 ==> routes == old(routes)[from := old(routes)[to]][to := old(routes)[from]]
      ensures Snapshot() == old(Snapshot()).(routes := routes, dirty := old(hasUnsavedChanges) || !old(suppressChangeTracking))
    {
      MoveStep(routes, from, to);
      ChangeRoutes(Move(routes, from, to));
    }

    /** A change of the `Routes` collection: the new contents, and its CollectionChanged handler's MarkDirty. */
    method ChangeRoutes(rs: seq<RouteViewModel>)
      requires Distinct(rs)
      modifies this
      ensures Distinct(routes)
      ensures selectedRoute == null || selectedRoute in rs ==> Valid()
      ensures Snapshot() == old(Snapshot()).(routes := rs, dirty := old(hasUnsavedChanges) || !old(suppressChangeTracking))
    {
      routes := rs;
      MarkDirty();
    }

    /** `BuildConfiguration`: every route's snapshot in list order, and the BaseUrl without extension data. */
    function BuildConfiguration(): (c: OcelotConfiguration)
      reads this, global, routes, HostRowsOf(routes), AuthEditorsOf(routes)
      ensures |c.Routes| == |routes|
      ensures forall i :: 0 <= i < |routes| ==> c.Routes[i] == ToModelOf(routes[i].State())
      ensures c.GlobalConfiguration.BaseUrl == global.baseUrl && c.GlobalConfiguration.AdditionalData == map[]
    {
      FootprintsOf(routes);
      OcelotConfiguration(
        seq(|routes|, i requires 0 <= i < |routes| reads this, routes, HostRowsOf(routes), AuthEditorsOf(routes) =>
          FootprintsOf(routes);
          assert forall h :: h in routes[i].hosts ==> h in HostRowsOf(routes);
          assert routes[i].auth in AuthEditorsOf(routes);
          routes[i].ToModel()),
        GlobalConfiguration(global.baseUrl, map[]))
    }

    /**
     * Saving right after opening `cfg` writes each of its routes back as Reloaded describes (one
     * default route for a document without routes) and its BaseUrl without extension data.
     */
    lemma SavePresented(cfg: OcelotConfiguration)
      requires Presents(cfg)
      ensures var c := BuildConfiguration();
        && c.GlobalConfiguration == cfg.GlobalConfiguration.(AdditionalData := map[])
        && (cfg.Routes != [] ==>
              |c.Routes| == |cfg.Routes| && forall i :: 0 <= i < |cfg.Routes| ==> Reloaded(c.Routes[i], cfg.Routes[i]))
        && (cfg.Routes == [] ==> c.Routes == [ToModelOf(Constructed(None, None))])
    {
      var c := BuildConfiguration();
      if cfg.Routes != [] {
        forall i | 0 <= i < |cfg.Routes| ensures Reloaded(c.Routes[i], cfg.Routes[i]) {
          ReloadRoute(cfg.Routes[i]);
        }
      }
    }

    /**
     * The `Routes.Where(r => !r.Validate()).ToList()` of ValidateBeforeSave: every route is
     * validated; `events` counts the RouteChanged the refreshed host rows raise.
     */
    method ValidateRoutes() returns (allValid: bool, events: nat)
      ensures allValid <==> forall j :: 0 <= j < |routes| ==> StateValid(routes[j].State())
      ensures events == 0 <==> forall j :: 0 <= j < |routes| ==> routes[j].hosts == []
    {
      allValid := true;
      events := 0;
      for i := 0 to |routes|
        invariant allValid <==> forall j :: 0 <= j < i ==> StateValid(routes[j].State())
        invariant events == 0 <==> forall j :: 0 <= j < i ==> routes[j].hosts == []
      {
        var valid, raised := routes[i].Validate();
        if !valid {
          allValid := false;
        }
        events := events + raised;
      }
    }

    /**
     * `ValidateBeforeSave`: validates every route and passes exactly when there is a route and all
     * of them are valid; otherwise it reports why. Validation re-announces the host rows, and their
     * RouteChanged reach MarkDirty.
     */
    method ValidateBeforeSave() returns (ok: bool, error: Option<string>)
      requires Valid()
      modifies this
      ensures Valid()
      ensures ok <==> old(SaveAllowed())
      ensures ok <==> error == None
      ensures old(routes) == [] ==> error == Some(NoRoutesMessage)
      ensures old(routes) != [] && !ok ==> error == Some(InvalidRoutesMessage)
      ensures Snapshot() == old(Snapshot()).(dirty := old(hasUnsavedChanges) || old(ValidationNotifies()))
    {
      if routes == [] {
        return false, Some(NoRoutesMessage);
      }
      var allValid, events := ValidateRoutes();
      RouteChanged(events);
      ok := allValid;
      error := if ok then None else Some(InvalidRoutesMessage);
    }

    /**
     * `WriteConfiguration(path)`: hands the built configuration to the service; when the service
     * succeeds the status says so and nothing is unsaved any more, when it fails the message is
     * reported and the editor is left as it was.
     */
    method WriteConfiguration(path: string, failure: Option<string>) returns (written: Write, error: Option<string>)
      requires Valid()
      modifies this
      ensures Valid()
      ensures written == Write(path, old(BuildConfiguration()))
      ensures failure == None ==> error == None && Snapshot() == old(Snapshot()).(status := ConfigurationSaved, dirty := false)
      ensures failure != None ==> error == Some(SaveFailedPrefix + failure.value) && Snapshot() == old(Snapshot())
    {
      written := Write(path, BuildConfiguration());
      match failure
      case None =>
        statusMessage := ConfigurationSaved;
        hasUnsavedChanges := false;
        error := None;
      case Some(message) =>
        error := Some(SaveFailedPrefix + message);
    }

    /**
     * `SaveAs`: asks for a path (`picked` is the dialog's answer); with a path and a passing save
     * gate it writes there and remembers the path, even when the write fails. Without a path, or
     * when the gate fails, nothing is written. Every answer with a path runs the validation, whose
     * notifications can mark the document dirty.
     */
    method SaveAs(picked: Option<string>, failure: Option<string>) returns (written: Option<Write>, error: Option<string>)
      requires Valid()
      modifies this
      ensures Valid()
      ensures IsNullOrEmpty(picked) ==> written == None && error == None && Snapshot() == old(Snapshot())
      ensures !IsNullOrEmpty(picked) && !old(SaveAllowed()) ==>
        written == None && error == Some(if old(routes) == [] then NoRoutesMessage else InvalidRoutesMessage)
        && Snapshot() == old(Snapshot()).(dirty := old(hasUnsavedChanges) || old(ValidationNotifies()))
      ensures !IsNullOrEmpty(picked) && old(SaveAllowed()) ==>
        written == Some(Write(picked.value, old(BuildConfiguration())))
        && (failure == None ==> error == None && Snapshot() == old(Snapshot()).(path := picked, status := ConfigurationSaved, dirty := false))
        && (failure != None ==>
              error == Some(SaveFailedPrefix + failure.value) && Snapshot() == old(Snapshot()).(path := picked, dirty := old(hasUnsavedChanges) || old(ValidationNotifies())))
    {
      if IsNullOrEmpty(picked) {
        return None, None;
      }
      ghost var configuration := BuildConfiguration();
      var ok;
      ok, error := ValidateBeforeSave();
      assert BuildConfiguration() == configuration;
      if !ok {
        return None, error;
      }
      var w;
      w, error := WriteConfiguration(picked.value, failure);
      written := Some(w);
      currentFilePath := picked;
    }

    /**
     * `Save`: without a current path it is SaveAs; with one, a passing save gate writes to that
     * path and a failing one writes nothing. Only a write the service accepts clears the
     * unsaved-changes flag.
     */
    method Save(picked: Option<string>, failure: Option<string>) returns (written: Option<Write>, error: Option<string>)
      requires Valid()
      modifies this
      ensures Valid()
      ensures written != None ==> old(SaveAllowed())
      ensures IsNullOrEmpty(old(currentFilePath)) && IsNullOrEmpty(picked) ==>
        written == None && error == None && Snapshot() == old(Snapshot())
      ensures IsNullOrEmpty(old(currentFilePath)) && !IsNullOrEmpty(picked) && !old(SaveAllowed()) ==>
        written == None && error == Some(if old(routes) == [] then NoRoutesMessage else InvalidRoutesMessage)
        && Snapshot() == old(Snapshot()).(dirty := old(hasUnsavedChanges) || old(ValidationNotifies()))
      ensures IsNullOrEmpty(old(currentFilePath)) && !IsNullOrEmpty(picked) && old(SaveAllowed()) ==>
        written == Some(Write(picked.value, old(BuildConfiguration())))
        && (failure == None ==> error == None && Snapshot() == old(Snapshot()).(path := picked, status := ConfigurationSaved, dirty := false))
        && (failure != None ==>
              error == Some(SaveFailedPrefix + failure.value) && Snapshot() == old(Snapshot()).(path := picked, dirty := old(hasUnsavedChanges) || old(ValidationNotifies())))
      ensures !IsNullOrEmpty(old(currentFilePath)) && old(SaveAllowed()) ==>
        written == Some(Write(old(currentFilePath).value, old(BuildConfiguration())))
        && (failure == None ==> error == None && Snapshot() == old(Snapshot()).(status := ConfigurationSaved, dirty := false))
        && (failure != None ==>
              error == Some(SaveFailedPrefix + failure.value) && Snapshot() == old(Snapshot()).(dirty := old(hasUnsavedChanges) || old(ValidationNotifies())))
      ensures !IsNullOrEmpty(old(currentFilePath)) && !old(SaveAllowed()) ==>
        written == None && error == Some(if old(routes) == [] then NoRoutesMessage else InvalidRoutesMessage)
        && Snapshot() == old(Snapshot()).(dirty := old(hasUnsavedChanges) || old(ValidationNotifies()))
      ensures written != None && failure == None ==> !hasUnsavedChanges && statusMessage == ConfigurationSaved
      ensures old(hasUnsavedChanges) && !hasUnsavedChanges ==> written != None && failure == None
    {
      if IsNullOrEmpty(currentFilePath) {
        written, error := SaveAs(picked, failure);
        return;
      }
      ghost var configuration := BuildConfiguration();
      var ok;
      ok, error := ValidateBeforeSave();
      assert BuildConfiguration() == configuration;
      if !ok {
        return None, error;
      }
      var w;
      w, error := WriteConfiguration(currentFilePath.value, failure);
      written := Some(w);
    }

    /**
     * The route editors ApplyConfiguration fills the cleared list with: one per persisted route, in
     * order (the `foreach` over `configuration.Routes`), or one default route when there is none.
     * Each `Add` raises CollectionChanged, whose MarkDirty is suppressed at that point.
     */
    method LoadRoutes(rs: seq<Route>) returns (created: seq<RouteViewModel>)
      ensures Distinct(created) && Mirrors(created, rs)
      ensures forall r :: r in created ==> fresh(r) && r.Valid() && fresh(r.Repr)
    {
      created := [];
      for i := 0 to |rs|
        invariant |created| == i && Distinct(created)
        invariant forall r :: r in created ==> fresh(r) && r.Valid() && fresh(r.Repr)
        invariant forall k :: 0 <= k < i ==> created[k].State() == Constructed(Some(rs[k]), None)
      {
        var route := new RouteViewModel(Some(rs[i]), None);
        AppendDistinct(created, route);
        created := created + [route];
      }
      if created == [] {
        var route := new RouteViewModel(None, None);
        created := [route];
      }
    }

    /**
     * `ApplyConfiguration`: replaces the routes by editors of the document's routes (one default
     * route when it has none) and takes its BaseUrl, all with change tracking suppressed; then
     * nothing is unsaved and the first route is selected. The editors are allocated first, which
     * no observer can tell apart from the source's interleaving.
     */
    method ApplyConfiguration(cfg: OcelotConfiguration)
      requires Valid()
      modifies this, global
      ensures Valid() && Presents(cfg)
      ensures forall r :: r in routes ==> fresh(r) && r.Valid() && fresh(r.Repr)
      ensures currentFilePath == old(currentFilePath) && statusMessage == old(statusMessage)
      ensures routeUpstreamFilterText == old(routeUpstreamFilterText) && routeDownstreamFilterText == old(routeDownstreamFilterText)
    {
      var created := LoadRoutes(cfg.Routes);
      Install(created, cfg.GlobalConfiguration.BaseUrl);
    }

    /** The writes of ApplyConfiguration, in the source's order, once the route editors exist. */
    method Install(created: seq<RouteViewModel>, baseUrl: string)
      requires created != [] && Distinct(created)
      modifies this, global
      ensures Valid()
      ensures Snapshot() == old(Snapshot()).(routes := created, selected := created[0], dirty := false, suppressed := false, baseUrl := baseUrl)
    {
      suppressChangeTracking := true;
      routes := [];
      routes := created;
      var events := global.SetBaseUrl(baseUrl);
      if events > 0 {
        MarkDirty();
      }
      suppressChangeTracking := false;
      hasUnsavedChanges := false;
      selectedRoute := routes[0];
    }

    /**
     * `Open`: with nothing unsaved, or with the user's consent to discard (`discard`, asked only
     * then), and a picked path, loads the document (`loaded` is the service's outcome). A loaded
     * document is applied and its path remembered; a failure is reported and changes nothing.
     */
    method Open(discard: bool, picked: Option<string>, loaded: Result<OcelotConfiguration>) returns (error: Option<string>)
      requires Valid()
      modifies this, global
      ensures Valid()
      ensures (old(hasUnsavedChanges) && !discard) || IsNullOrEmpty(picked) ==>
        error == None && Snapshot() == old(Snapshot())
      ensures (!old(hasUnsavedChanges) || discard) && !IsNullOrEmpty(picked) && loaded.Err? ==>
        error == Some(LoadFailedPrefix + loaded.message) && Snapshot() == old(Snapshot())
      ensures (!old(hasUnsavedChanges) || discard) && !IsNullOrEmpty(picked) && loaded.Ok? ==>
        && error == None && Presents(loaded.value)
        && (forall r :: r in routes ==> fresh(r) && r.Valid() && fresh(r.Repr))
        && currentFilePath == picked && statusMessage == ConfigurationLoaded
        && routeUpstreamFilterText == old(routeUpstreamFilterText) && routeDownstreamFilterText == old(routeDownstreamFilterText)
    {
      if hasUnsavedChanges && !discard {
        return None;
      }
      if IsNullOrEmpty(picked) {
        return None;
      }
      match loaded
      case Err(message) =>
        error := Some(LoadFailedPrefix + message);
      case Ok(configuration) =>
        Opened(picked.value, configuration);
        error := None;
    }

    /** The success path of Open: the loaded document is applied, and its path remembered. */
    method Opened(path: string, cfg: OcelotConfiguration)
      requires Valid()
      modifies this, global
      ensures Valid() && Presents(cfg)
      ensures forall r :: r in routes ==> fresh(r) && r.Valid() && fresh(r.Repr)
      ensures currentFilePath == Some(path) && statusMessage == ConfigurationLoaded
      ensures routeUpstreamFilterText == old(routeUpstreamFilterText) && routeDownstreamFilterText == old(routeDownstreamFilterText)
    {
      ApplyConfiguration(cfg);
      Remember(path);
    }

    /** The `CurrentFilePath = path` and `StatusMessage = "Configuration loaded"` steps of Open. */
    method Remember(path: string)
      modifies this
      ensures Snapshot() == old(Snapshot()).(path := Some(path), status := ConfigurationLoaded)
    {
      currentFilePath := Some(path);
      statusMessage := ConfigurationLoaded;
    }
  }
}
