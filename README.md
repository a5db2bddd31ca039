# OcelotEditor editing engine, modelled in Dafny

OcelotEditor is a desktop editor for Ocelot API-gateway configuration documents (`ocelot.json`).
This project models its editing engine: the persisted records, the leaf editors (a host/port row,
an HTTP-method toggle cell, the authentication settings, the document-wide BaseUrl), the route
editor, and the main editor with its ordered route list, selection, unsaved-changes flag with its
suppression switch, save gate and route filter.

One Dafny module per source file:

| module | source |
|---|---|
| `Models` | Models/OcelotConfiguration.cs: the records as datatypes, with their defaults |
| `HostAndPortVM` | ViewModels/HostAndPortViewModel.cs |
| `HttpMethodOptionVM` | ViewModels/HttpMethodOptionViewModel.cs |
| `AuthenticationOptionsVM` | ViewModels/AuthenticationOptionsViewModel.cs |
| `GlobalConfigurationVM` | ViewModels/GlobalConfigurationViewModel.cs |
| `RouteModel`, `RouteVM` | ViewModels/RouteViewModel.cs: a route's state as a value (`RouteState`) and the functions over it (`RouteModel`), and the editor class tied to them (`RouteVM`) |
| `MainVM` | ViewModels/MainViewModel.cs |

Three helper modules support them. `Wrappers` holds Option and Result. `Text` holds whitespace,
`Trim`, ordinal case-insensitive comparison and `int.ToString`. `Collections` holds the
ObservableCollection operations on sequences (`IndexOf`, `Insert`, `RemoveAt`, `Remove`, `Move`).

Each view model is a class whose fields its setters and commands update. A setter or command
whose notifications someone handles returns `events`, how many it raises: the `SetProperty`
guard, collection changes and the explicit `OnOptionsChanged`/`OnRouteChanged` calls. Setters
whose notifications only the UI observes (the host selection, the filter texts, the pending and
selected scope) return nothing.

Notifications are relayed as in the code. A route forwards its host rows' PropertyChanged, its
toggle cells' PropertyChanged and its authentication editor's OptionsChanged as RouteChanged, so
`SetRowHost`, `SetRowPort`, `SetAuthenticationProviderKey`, `AddAuthenticationScope`,
`RemoveAuthenticationScope` and `Validate` return the RouteChanged count of the edit. The main
editor's handler for a listed route's RouteChanged is `RouteChanged(events)`, which marks the
document dirty. Collection changes and ConfigurationChanged call `MarkDirty` directly. Saving
validates every route, and the host rows' re-announcements reach that handler, so a save attempt
that gets past the path dialog can make the document dirty.

Dialog answers, file-picker results and the configuration service's outcome are parameters. A
failed service call is the message of the exception it would throw.

The main editor's `Snapshot()` gathers its fields into one value. Every state-changing method
states its whole new state as an update of the old snapshot. A route editor is abstracted by
`State()`, and the persisted route it produces by `ToModelOf(State())`.

## Model

| member | source | states |
|---|---|---|
| Models.NewOcelotConfiguration | Models/OcelotConfiguration.cs:6-11 | a new document has no routes and a global configuration with BaseUrl "" and no extension data; the document itself has no extension-data field |
| Models.NewRoute | Models/OcelotConfiguration.cs:13-31 | a new route has empty templates, scheme "http", no methods, no hosts, case-insensitive matching, default authentication options and no extension data |
| Models.NewHostAndPort | Models/OcelotConfiguration.cs:33-38 | a new host entry is "" with port 0 |
| Models.NewAuthenticationOptions | Models/OcelotConfiguration.cs:40-48 | new authentication options have an empty provider key, no scopes, no extension data |
| Models.NewGlobalConfiguration | Models/OcelotConfiguration.cs:50-56 | a new global configuration has BaseUrl "" and no extension data |
| HostAndPortVM.HostAndPortViewModel.constructor | ViewModels/HostAndPortViewModel.cs:7-8 | a new row is host "" with port 0, and it is not valid |
| HostAndPortVM.HostAndPortViewModel.Init | ViewModels/RouteViewModel.cs:221 | a row built with an object initializer has exactly the given host and port |
| HostAndPortVM.HostAndPortViewModel.SetHost | ViewModels/HostAndPortViewModel.cs:10-14 | the host becomes the value and the port is kept; one notification exactly when the value differs |
| HostAndPortVM.HostAndPortViewModel.SetPort | ViewModels/HostAndPortViewModel.cs:16-20 | the port becomes the value and the host is kept; one notification exactly when the value differs |
| HostAndPortVM.HostAndPortViewModel.Item | ViewModels/HostAndPortViewModel.cs:26-37 | "Host is required." exactly for the Host column with a blank host; "Port must be greater than zero." exactly for the Port column with port <= 0; "" in every other case, including any other column |
| HostAndPortVM.HostAndPortViewModel.IsValid | ViewModels/HostAndPortViewModel.cs:22 | valid iff the host is not blank and the port is positive |
| HostAndPortVM.HostAndPortViewModel.RefreshValidation | ViewModels/HostAndPortViewModel.cs:39-43 | re-announces the Host and Port columns, in that order, and changes neither |
| HttpMethodOptionVM.HttpMethodOptionViewModel.constructor | ViewModels/HttpMethodOptionViewModel.cs:7-10 | the name is the given one, fixed for the cell's lifetime; the cell starts unselected |
| HttpMethodOptionVM.HttpMethodOptionViewModel.SetIsSelected | ViewModels/HttpMethodOptionViewModel.cs:14-18 | the selection becomes the value written; one notification exactly when it differs |
| AuthenticationOptionsVM.AuthenticationOptionsViewModel.constructor | ViewModels/AuthenticationOptionsViewModel.cs:7-18 | empty provider key, no scopes, no pending scope text and no selected scope |
| AuthenticationOptionsVM.AuthenticationOptionsViewModel.CanAddScope | ViewModels/AuthenticationOptionsViewModel.cs:14 | AddScope is available iff there is pending text with a character that is not white space; then its trimmed form is not empty |
| AuthenticationOptionsVM.AuthenticationOptionsViewModel.CanRemoveScope | ViewModels/AuthenticationOptionsViewModel.cs:15 | RemoveScope is available iff a scope is selected and it has a character that is not white space |
| AuthenticationOptionsVM.AuthenticationOptionsViewModel.SetProviderKey | ViewModels/AuthenticationOptionsViewModel.cs:20-30 | the key becomes the value and nothing else changes; one OptionsChanged exactly when the value differs |
| AuthenticationOptionsVM.AuthenticationOptionsViewModel.SetNewScope | ViewModels/AuthenticationOptionsViewModel.cs:32-42 | the pending scope text becomes the value and nothing else changes |
| AuthenticationOptionsVM.AuthenticationOptionsViewModel.SetSelectedScope | ViewModels/AuthenticationOptionsViewModel.cs:44-54 | the selected scope becomes the value and nothing else changes |
| AuthenticationOptionsVM.AuthenticationOptionsViewModel.AddScope | ViewModels/AuthenticationOptionsViewModel.cs:62-70 | with non-blank pending text it appends the trimmed text at the end (an existing equal scope is kept, so the list grows by one), resets the text to "" and raises OptionsChanged twice; the appended scope is not blank; with blank or null text nothing changes |
| AuthenticationOptionsVM.AuthenticationOptionsViewModel.RemoveScope | ViewModels/AuthenticationOptionsViewModel.cs:72-80 | with a non-blank selection it removes the first equal scope, keeps the others in order, clears the selection and raises OptionsChanged twice, or once when no scope was equal; otherwise nothing changes |
| GlobalConfigurationVM.GlobalConfigurationViewModel.constructor | ViewModels/GlobalConfigurationViewModel.cs:5 | BaseUrl starts as "" |
| GlobalConfigurationVM.GlobalConfigurationViewModel.SetBaseUrl | ViewModels/GlobalConfigurationViewModel.cs:7-17 | BaseUrl becomes the value written; ConfigurationChanged is raised once when it differs and not at all when the current value is written again |
| Collections.IndexOf | ViewModels/MainViewModel.cs:281 | the first position of the element, or -1 exactly when it does not occur |
| Collections.InsertAtContents | ViewModels/MainViewModel.cs:282 | an insertion adds one copy of the element and keeps every other element |
| Collections.RemoveAtContents | ViewModels/MainViewModel.cs:299 | a removal at a position takes away one copy of the element there and nothing else |
| Collections.RemoveSpec | ViewModels/MainViewModel.cs:299 | `Remove` drops one copy of a present element (the list shrinks by one) and leaves the list alone when the element is absent |
| Collections.MoveSpec | ViewModels/MainViewModel.cs:326 | a move puts the element at its target, keeps the other elements in their relative order and keeps the multiset of elements |
| Collections.MoveAdjacentSwaps | ViewModels/MainViewModel.cs:326 | a move by one position swaps the element with its neighbour |
| Text.TrimSpec | ViewModels/AuthenticationOptionsViewModel.cs:66 | `Trim` removes exactly the leading and trailing white space: the result is a slice of the input, everything cut off is white space, and the result neither starts nor ends with white space |
| Text.TrimKeepsBlankness | ViewModels/AuthenticationOptionsViewModel.cs:64-66 | trimming a string does not change whether it is blank |
| Text.ContainsIff | ViewModels/MainViewModel.cs:402-408 | the substring test holds iff the pattern occurs at some index |
| Text.IntToStringRoundTrip | ViewModels/RouteViewModel.cs:346 | the decimal form of an int parses back to it and starts with '-' exactly for negatives |
| RouteModel.DefaultMethodsUnique | ViewModels/RouteViewModel.cs:14 | the five default method names are unique when case is ignored |
| RouteModel.FindOption | ViewModels/RouteViewModel.cs:261 | the index of the first option whose name equals the method ignoring case, or -1 when none does |
| RouteModel.SelectMethodsKeepsOptions | ViewModels/RouteViewModel.cs:235-238 | merging methods keeps the existing options' names in order and only appends options named after requested methods |
| RouteModel.SelectMethodsKeepsUnique | ViewModels/RouteViewModel.cs:259-270 | merging keeps option names unique when case is ignored, given unique names at the start |
| RouteModel.SelectMethodsSelection | ViewModels/RouteViewModel.cs:230-238 | after merging, an option is selected iff it was selected before or some requested method matches its name ignoring case |
| RouteModel.SelectMethodsAddsNothing | ViewModels/RouteViewModel.cs:259-267 | when every requested method already has a matching option, merging adds no option |
| RouteModel.SelectMethodsCovers | ViewModels/RouteViewModel.cs:235-238 | after merging, every requested method has an option matching it ignoring case |
| RouteModel.SelectedNames | ViewModels/RouteViewModel.cs:168 | a name is listed iff some selected option has that name; the names keep the options' order |
| RouteModel.NormalizeScheme | ViewModels/RouteViewModel.cs:214 | the loaded scheme is never blank, and a non-blank scheme is kept |
| RouteModel.LoadedHosts | ViewModels/RouteViewModel.cs:219-228 | the loaded hosts are the model's in order, or the single default host when the model has none |
| RouteModel.Load | ViewModels/RouteViewModel.cs:210-249 | a loaded route has a non-blank scheme and at least one host, and keeps its existing option names in order |
| RouteModel.DefaultConstruction | ViewModels/RouteViewModel.cs:28-64 | a default route has empty templates, scheme "http", the single host localhost:80, the options GET, POST, PUT, DELETE and PATCH in order with only GET selected, and empty authentication settings |
| RouteModel.ToModelOf | ViewModels/RouteViewModel.cs:272-292 | the snapshot copies the templates, scheme, case flag, hosts in order, provider key and scopes; a method is listed iff a selected option has that name, in option order; there is no extension data |
| RouteModel.CloneRoundTrip | ViewModels/RouteViewModel.cs:294-297 | with unique option names, a non-blank scheme and a host, building a route from the snapshot and the option names gives back the same state |
| RouteModel.ReselectIsIdentity | ViewModels/RouteViewModel.cs:230-238 | with unique option names, deselecting all options and then selecting the snapshot's methods gives back the same options |
| RouteModel.ReloadRoute | ViewModels/RouteViewModel.cs:210-292 | loading a persisted route into a default route and taking its snapshot keeps the templates, the case flag and the authentication settings; it gives a blank scheme "http" and a route without hosts one default host; it asks for the same methods up to case in both directions; it drops extension data |
| RouteModel.HostMatchesIff | ViewModels/RouteViewModel.cs:335-349 | a host passes iff each filter is blank or, case folded, occurs at some index of the case-folded host name or port text; an empty host name passes no non-blank host filter |
| RouteVM.HostValuesRemoveAt | ViewModels/RouteViewModel.cs:199-208 | removing a row removes its value at the same position |
| RouteVM.FilterHosts | ViewModels/RouteViewModel.cs:335-349 | the rows shown are exactly the rows whose host contains the host filter ignoring case, or the filter is blank, and whose port's decimal form contains the port filter, or the filter is blank; they keep the collection's order |
| RouteVM.BlankFiltersShowAll | ViewModels/RouteViewModel.cs:342-346 | with both filters blank every row is shown, in order |
| RouteVM.SomeValidHost | ViewModels/RouteViewModel.cs:310 | some row is valid iff some row value is valid |
| RouteVM.RouteViewModel.constructor | ViewModels/RouteViewModel.cs:28-64 | the new route's state is `Constructed(model, optionNames)`; without a model, or with a model without hosts, the single synthesised host is selected; the filters are empty and the authentication editor has no pending scope text and no selected scope |
| RouteVM.RouteViewModel.Populate | ViewModels/RouteViewModel.cs:51-63 | with a model the state becomes `Load` of it; without one a default host is added and the first option is selected; the filters, the pending scope text and the scope selection are kept |
| RouteVM.RouteViewModel.LoadDefaults | ViewModels/RouteViewModel.cs:57-62 | one default host appended and selected, and the first option selected |
| RouteVM.RouteViewModel.SelectFirstOption | ViewModels/RouteViewModel.cs:58-62 | the first option becomes selected and nothing else changes |
| RouteVM.RouteViewModel.SetUpstreamPathTemplate | ViewModels/RouteViewModel.cs:80-90 | only the upstream template changes; one RouteChanged exactly when it differs |
| RouteVM.RouteViewModel.SetDownstreamPathTemplate | ViewModels/RouteViewModel.cs:92-102 | only the downstream template changes; one RouteChanged exactly when it differs |
| RouteVM.RouteViewModel.SetDownstreamScheme | ViewModels/RouteViewModel.cs:104-114 | only the scheme changes; one RouteChanged exactly when it differs |
| RouteVM.RouteViewModel.SetRouteIsCaseSensitive | ViewModels/RouteViewModel.cs:116-126 | only the case flag changes; one RouteChanged exactly when it differs |
| RouteVM.RouteViewModel.SetSelectedHost | ViewModels/RouteViewModel.cs:128-138 | only the host selection changes |
| RouteVM.RouteViewModel.SetHostFilterText | ViewModels/RouteViewModel.cs:140-150 | only the host filter text changes |
| RouteVM.RouteViewModel.SetPortFilterText | ViewModels/RouteViewModel.cs:152-162 | only the port filter text changes |
| RouteVM.RouteViewModel.PrimaryHostSummary | ViewModels/RouteViewModel.cs:164-166 | "" iff there is no host; otherwise the first host's name, a ':' and a decimal string that parses back to its port |
| RouteVM.RouteViewModel.SelectedHttpMethods | ViewModels/RouteViewModel.cs:168 | a name is listed iff some selected option has that name; the names keep the cells' order |
| RouteVM.RouteViewModel.SetHttpMethodSelected | ViewModels/HttpMethodOptionViewModel.cs:14-18 | toggling cell k changes only that cell's selection; one notification exactly when it differs |
| RouteVM.RouteViewModel.HostFilter | ViewModels/RouteViewModel.cs:335-349 | a row passes iff each filter text is blank or occurs, ignoring case, in the row's host or in its port's decimal form |
| RouteVM.RouteViewModel.HostsView | ViewModels/RouteViewModel.cs:335-349 | the rows shown are exactly those the host filter accepts; with both filters blank all rows, in order |
| RouteVM.RouteViewModel.AddHost | ViewModels/RouteViewModel.cs:192-197 | a fresh localhost:80 row is appended and selected; earlier rows are kept in order; one RouteChanged |
| RouteVM.RouteViewModel.RemoveSelectedHost | ViewModels/RouteViewModel.cs:199-208 | with a selection, exactly the selected row is removed, the others keep their order, the selection is cleared, and RouteChanged is raised twice (once when the row was not listed); without one nothing changes |
| RouteVM.RouteViewModel.SetRowHost | ViewModels/RouteViewModel.cs:32 | editing row i's host changes only that row's host; the row's PropertyChanged becomes one RouteChanged exactly when the value differs |
| RouteVM.RouteViewModel.SetRowPort | ViewModels/RouteViewModel.cs:32 | editing row i's port changes only that row's port; one RouteChanged exactly when the value differs |
| RouteVM.RouteViewModel.SetAuthenticationProviderKey | ViewModels/RouteViewModel.cs:46 | only the provider key changes, the pending scope text and the selected scope included; the editor's OptionsChanged becomes one RouteChanged exactly when the value differs |
| RouteVM.RouteViewModel.AddAuthenticationScope | ViewModels/RouteViewModel.cs:46 | when AddScope is available the trimmed pending text is appended to the scopes, the pending text becomes "" and two RouteChanged are raised; otherwise nothing changes, the pending text included, and none is raised; the selected scope is kept |
| RouteVM.RouteViewModel.RemoveAuthenticationScope | ViewModels/RouteViewModel.cs:46 | when RemoveScope is available the first equal scope is removed, the selection is cleared and two RouteChanged are raised, one when none was equal; otherwise nothing changes, the selection included; the pending text is kept |
| RouteVM.RouteViewModel.ReplaceHosts | ViewModels/RouteViewModel.cs:217-223 | the rows become fresh rows with the given values, in order |
| RouteVM.RouteViewModel.DeselectAll | ViewModels/RouteViewModel.cs:230-233 | every option becomes unselected; names and order are kept |
| RouteVM.RouteViewModel.FindHttpMethodOption | ViewModels/RouteViewModel.cs:261 | the first option matching the method ignoring case, or -1 when none does |
| RouteVM.RouteViewModel.EnsureHttpMethodOption | ViewModels/RouteViewModel.cs:259-270 | on a match the options are unchanged and the first match is returned; on a miss an unselected option with that name is appended and returned |
| RouteVM.RouteViewModel.SelectHttpMethod | ViewModels/RouteViewModel.cs:237 | the option `EnsureHttpMethodOption` returns becomes selected |
| RouteVM.RouteViewModel.SelectHttpMethods | ViewModels/RouteViewModel.cs:235-238 | the options become `SelectMethods` of them over the methods, in order |
| RouteVM.RouteViewModel.ReplaceScopes | ViewModels/RouteViewModel.cs:242-246 | the scopes become the given ones, in order; the provider key, the pending scope text and the scope selection are kept |
| RouteVM.RouteViewModel.LoadFromModel | ViewModels/RouteViewModel.cs:210-249 | the state becomes `Load` of the model: templates and case flag copied, scheme normalised, hosts copied or one default host (then selected), options deselected then merged, authentication settings copied; the pending scope text and the scope selection are kept |
| RouteVM.RouteViewModel.LoadHosts | ViewModels/RouteViewModel.cs:217-228 | the rows become `LoadedHosts` of the model's hosts; a synthesised default host is selected |
| RouteVM.RouteViewModel.LoadHttpMethods | ViewModels/RouteViewModel.cs:230-238 | the options become the merge of the requested methods into the deselected options |
| RouteVM.RouteViewModel.LoadAuthentication | ViewModels/RouteViewModel.cs:240-246 | the provider key and the scopes become the model's; the pending scope text and the scope selection are kept |
| RouteVM.RouteViewModel.ToModel | ViewModels/RouteViewModel.cs:272-292 | the snapshot is `ToModelOf(State())`: hosts copied in order, a method listed iff it is a selected option's name, no extension data |
| RouteVM.RouteViewModel.Clone | ViewModels/RouteViewModel.cs:294-297 | a fresh, independent route built from the snapshot and the option names, with no pending scope text and no selected scope, empty filter texts, and no selected row when the original has rows (its one default row selected otherwise); with unique names, a non-blank scheme and a host it has the same state and the same snapshot |
| RouteVM.RouteViewModel.Validate | ViewModels/RouteViewModel.cs:299-313 | true iff both templates are non-blank and some row is valid; the rows' re-announcements raise two RouteChanged per row |
| RouteVM.RouteViewModel.RefreshHosts | ViewModels/RouteViewModel.cs:303-306 | refreshing every row's validation raises two RouteChanged per row |
| RouteVM.RouteViewModel.Item | ViewModels/RouteViewModel.cs:317-328 | the upstream message exactly for that column with a blank template, the downstream message likewise, "" otherwise |
| MainVM.Clamp | ViewModels/MainViewModel.cs:307 | the result lies between the bounds; a value inside them is kept, one below is raised to the lower bound, one above is lowered to the upper bound |
| MainVM.RouteMatches | ViewModels/MainViewModel.cs:395-411 | a route passes iff each filter is blank or, case folded, occurs at some index of its case-folded template |
| MainVM.TemplateMatchesIff | ViewModels/MainViewModel.cs:402-408 | a template matches a filter iff the filter is blank or, case folded, the filter occurs in the template at some index |
| MainVM.FilterRoutes | ViewModels/MainViewModel.cs:395-411 | the routes shown are exactly those whose upstream and downstream templates both match their filter texts; they keep the list's order |
| MainVM.BlankRouteFiltersShowAll | ViewModels/MainViewModel.cs:402-408 | with both filters blank every route is shown, in order |
| MainVM.MainViewModel.constructor | ViewModels/MainViewModel.cs:29-55 | one fresh, valid default route owning only fresh objects, selected; nothing unsaved, tracking not suppressed, status "Ready", no file, empty filters, BaseUrl "" |
| MainVM.MainViewModel.MarkDirty | ViewModels/MainViewModel.cs:164-172 | the unsaved flag becomes set unless tracking is suppressed; nothing else changes |
| MainVM.MainViewModel.SetBaseUrl | ViewModels/MainViewModel.cs:40 | BaseUrl becomes the value; the document becomes dirty exactly when the value differs and tracking is not suppressed |
| MainVM.MainViewModel.RouteChanged | ViewModels/MainViewModel.cs:158-162 | a route operation that raised RouteChanged marks the document dirty unless tracking is suppressed; with no notification nothing changes |
| MainVM.MainViewModel.SetSelectedRoute | ViewModels/MainViewModel.cs:63-76 | only the selection changes |
| MainVM.MainViewModel.SetRouteUpstreamFilterText | ViewModels/MainViewModel.cs:96-106 | only the upstream filter text changes |
| MainVM.MainViewModel.SetRouteDownstreamFilterText | ViewModels/MainViewModel.cs:108-118 | only the downstream filter text changes |
| MainVM.MainViewModel.RoutesView | ViewModels/MainViewModel.cs:395-411 | the routes shown are exactly those RouteFilter accepts; with both filters blank all routes, in order |
| MainVM.MainViewModel.AddRoute | ViewModels/MainViewModel.cs:266-271 | a fresh default route, valid and with a fresh footprint, is appended and selected; earlier routes are kept in order; the collection change marks the document dirty |
| MainVM.MainViewModel.DuplicateRoute | ViewModels/MainViewModel.cs:273-284 | with a selection at index i, a fresh clone (the selected route rebuilt from its snapshot and option names, valid, with a fresh footprint) is inserted at i+1 and selected, the others keep their order, and the document becomes dirty; the clone equals the original under unique names, a non-blank scheme and a host; without a selection nothing changes |
| MainVM.MainViewModel.DuplicateSelected | ViewModels/MainViewModel.cs:280-283 | with a route selected at index i: its fresh, valid clone is inserted at i+1 and selected, the others keep their order, the document becomes dirty, and the clone is the original rebuilt from its snapshot and option names |
| MainVM.MainViewModel.CloneOf | ViewModels/MainViewModel.cs:280 | the clone is fresh, valid, owns only fresh objects, is not yet listed, has no pending or selected scope, no selected row when the original has rows (its one default row selected otherwise), empty filter texts, and is built from the original's snapshot |
| MainVM.MainViewModel.InsertSelected | ViewModels/MainViewModel.cs:282-283 | the route is inserted at the index and selected; the document becomes dirty |
| MainVM.MainViewModel.DeleteRoute | ViewModels/MainViewModel.cs:286-310 | with a selection at index i and confirmation, exactly that route is removed, the others keep their order, and the new selection is null for an empty list, else Routes[clamp(i-1, 0, n-1)] (the old route before it, or the new first route when the first was deleted); the document becomes dirty; without a selection or confirmation nothing changes |
| MainVM.MainViewModel.CanMoveRoute | ViewModels/MainViewModel.cs:331-341 | false without a selection; for -1 true iff the selection is not first; for +1 true iff it is not last; false for any step that leaves the list |
| MainVM.MainViewModel.MoveRoute | ViewModels/MainViewModel.cs:312-329 | when CanMoveRoute holds, the selected route moves from i to i+d, the others keep their relative order, the selection is kept and the document becomes dirty; for a step of one the two routes swap; otherwise nothing changes |
| MainVM.MainViewModel.MoveSelected | ViewModels/MainViewModel.cs:326 | the selected route at `from` moves to `to`, the others keep their relative order, a step of one swaps the two, and the document becomes dirty |
| MainVM.MainViewModel.ChangeRoutes | ViewModels/MainViewModel.cs:129-156 | the route list becomes the new one and the collection change marks the document dirty |
| MainVM.MainViewModel.BuildConfiguration | ViewModels/MainViewModel.cs:383-393 | one snapshot per route, in list order, and the BaseUrl with no extension data |
| MainVM.MainViewModel.SavePresented | ViewModels/MainViewModel.cs:353-393 | saving right after loading a document writes each loaded route back as `ReloadRoute` describes (one default route for a document without routes) and the same BaseUrl without extension data |
| MainVM.MainViewModel.ValidateRoutes | ViewModels/MainViewModel.cs:256 | every route is validated; the result is true iff every route is valid, and RouteChanged is raised iff some route has a host row |
| MainVM.MainViewModel.ValidateBeforeSave | ViewModels/MainViewModel.cs:248-264 | passes iff there is a route and every route validates; otherwise reports "Add at least one route before saving." for an empty list, else the invalid-routes message; with routes, the validation marks the document dirty when some route has a host row and tracking is not suppressed; nothing else changes |
| MainVM.MainViewModel.WriteConfiguration | ViewModels/MainViewModel.cs:233-246 | the service is asked to write the built configuration to the path; on success the status becomes "Configuration saved" and nothing is unsaved; on failure the error is reported and nothing changes |
| MainVM.MainViewModel.SaveAs | ViewModels/MainViewModel.cs:216-231 | without a picked path nothing happens; when the save gate fails nothing is written, its message is reported and the validation may mark the document dirty; otherwise the built configuration is written to the picked path, that path becomes the current one, and only a write that did not fail clears the unsaved flag |
| MainVM.MainViewModel.Save | ViewModels/MainViewModel.cs:200-214 | without a current path it does what SaveAs does, case by case; otherwise the configuration is written to the current path exactly when the save gate passes, and a failed gate or write leaves the flag as the validation left it; nothing is written unless the gate passes, and the unsaved flag is cleared only by a write that did not fail |
| MainVM.MainViewModel.LoadRoutes | ViewModels/MainViewModel.cs:358-366 | one fresh, valid route owning only fresh objects per persisted route, in order, each loaded from it; a single default route when there is none |
| MainVM.MainViewModel.ApplyConfiguration | ViewModels/MainViewModel.cs:353-373 | the routes are fresh, valid, own only fresh objects and mirror the document's routes in order (one default route when there is none), the BaseUrl is the document's, nothing is unsaved, tracking is no longer suppressed, and the first route is selected |
| MainVM.MainViewModel.Install | ViewModels/MainViewModel.cs:355-371 | the route list becomes the given routes, the first is selected, BaseUrl is set, and nothing is unsaved |
| MainVM.MainViewModel.Open | ViewModels/MainViewModel.cs:174-198 | nothing happens with unsaved changes the user does not discard, or without a picked path; a load failure is reported and changes nothing; a loaded document is applied (fresh, valid routes), its path becomes the current one and the status "Configuration loaded" |
| MainVM.MainViewModel.Opened | ViewModels/MainViewModel.cs:189-192 | the document is applied, with fresh, valid routes, then its path and the loaded status are recorded |
| MainVM.MainViewModel.Remember | ViewModels/MainViewModel.cs:191-192 | only the current path and the status change |

## Left out

- Reading and writing `ocelot.json` is not part of this model: the configuration service's `Load` and `Save` are parameters that succeed with a value or fail with a message. Services/JsonConfigurationService.cs is not part of this model.
- The JSON library's extension-data handling is not modelled. The view models rebuild every record without `AdditionalData`, so nothing claims that it survives a load and save. The top-level document has no extension-data field in the code.
- There is no comment-tolerant or trailing-comma-tolerant parser in the code, so none is modelled.
- Dialogs are parameters: the confirmation answers (`discard`, `confirmed`) and the picked paths. An error dialog is the returned `error` message.
- WPF plumbing is left out: `ICollectionView`, `Refresh`, `RaiseCanExecuteChanged` and the subscribe/unsubscribe bookkeeping, including `DetachAllRoutes`. A filtered view is the subsequence the filter accepts. Event subscriptions are calls: every listed route is subscribed once, so its RouteChanged reach `RouteChanged(events)`. `ObservableObject` and `RelayCommand` are not part of this model. `SetProperty` is taken to assign and to report whether the value differed.
- The "a route is selected" command guards are not separate members. DuplicateRoute and DeleteRoute state their no-selection case directly.
- Route editors hold their HTTP-method toggle cells as values (`MethodOption`), not as `HttpMethodOptionViewModel` objects. The cell class itself is modelled on its own. Inside a route, the identity of a cell object and in-place toggling through a shared reference are not captured; `SetHttpMethodSelected` stands for a toggle.
- Exceptions: `ApplyConfiguration` has no try/finally, and the model does not consider an exception in the middle of it.
- String comparison: `OrdinalIgnoreCase` is modelled as ASCII case folding, and `int.ToString()` as decimal digits with a leading '-'. Culture-specific behaviour is not modelled.
- Null record fields are not modelled: every field of the records here has a value. The code substitutes empty values for null lists, null authentication options and a null global configuration or BaseUrl (`?? new List<...>()`, `?.BaseUrl ?? ""`). A null string field such as a host name is not substituted, and the filters and validation would throw on it.
- The PropertyChanged notifications of a route itself (`PrimaryHostSummary`, the template re-announcements in Validate) are not counted: no handler in the core listens to them.
- MainVM.MainViewModel.SetSelectedRoute: requires the value to be null or a listed route. The UI binds it to the list, and the code itself only ever selects listed routes. This is the editor's `Valid()` invariant, which the other commands require. Outside it, `IndexOf` would yield -1, which MoveRoute would then pass to `Move`.
- MainVM.MainViewModel.Valid: does not include each route's own `Valid()`. The route footprints are disjoint by construction, and stating that per route made the route-list proofs too costly.
- RouteVM.RouteViewModel.Clone: states equality with the original only when option names are unique ignoring case, the scheme is non-blank and there is a host. Construction and loading yield all three, but editing can break the last two: SetDownstreamScheme accepts a blank scheme, and RemoveSelectedHost can remove the last row. The clone of such a route gets "http" or a default host instead, which is what `Constructed` of its snapshot states.
- MainVM.MainViewModel.ApplyConfiguration: allocates the new route editors before it suppresses tracking and clears the list. The code interleaves the two, but allocation is unobservable. The writes to the editor's fields keep the code's order.
- MainVM.MainViewModel.SaveAs: the current path is set even when the write fails, as in the code (ViewModels/MainViewModel.cs:229-230).
- MainVM.MainViewModel.ValidateRoutes: relays the RouteChanged of validation once, after every route has been validated, where the code marks the document dirty while it validates. Marking does not affect validation and repeated marks equal one, so the end state is the same.
- MainVM.MainViewModel.RouteChanged: takes the count of a route operation's notifications and marks once for a positive count. The routes view's `Refresh` is WPF plumbing.
