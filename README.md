# django-scotty core, modelled in Dafny

django-scotty builds CRUD list pages on Django: a `CottonTableView` shows a filtered, paginated
table whose rows carry action buttons, accepts action requests by POST, and registers its own URLs.
This project models the decision logic of `src/django_scotty/helpers.py` and proves what it does.

- **Action descriptors.** `available_actions` builds one `(name, verbose_name, show_on_bulk,
  show_confirm)` tuple per declared action (`views.dfy`).
- **Action dispatch.** `post` chooses the target records: a `pk` in the query string, else the
  `seleccionar` list, else the replayed filter. It then runs the action on each record whose
  condition holds, isolating failures per record, and reduces the results to one response
  (`dispatch.dfy`).
- **Pagination self-heal.** `PaginationFixMixin.get` redirects a request for a page past the end
  to the last existing page (`pagination.dfy`).
- **Row actions.** `ActionTable.render_acciones` renders each row's action cell. `view_only`
  gates the actions, `get_context_data` sets the table attributes, and the filter-button list
  follows its own rules (`table.dfy`).
- **Routes.** `add_urls` and the three `get_slugname` methods (`routes.dfy`).
- **Identifiers.** `generar_id_valido`, `get_unique_id` and `get_export_filename`
  (`identifiers.dfy`).
- **Detail page.** The field list of `GenericDetailView.get_context_data` (`detail.dfy`).

Django and its libraries are parameters:
- the record store is a sequence of records, in store order;
- an action's `condition` and the action itself are functions that return a value or raise;
- `parse_qs` is passed in, and `reverse` is a function from a route name to its URL or to
  nothing when it raises `NoReverseMatch`;
- a view's attributes are a map from name to what `getattr` finds; an attribute that is not an
  action method has no `condition`;
- the filter engine is passed in as a function from the replayed filter to the records
  `filterset_class(params, queryset=self.get_queryset()).qs` yields, in its own order, or to
  nothing when building the filterset or evaluating `qs` raises;
- what `super().get` did, and each step of recounting the records, is passed in as an outcome.

Query strings are maps from keys to non-empty lists of values. Strings are ASCII.

Records chosen by an explicit id list are visited in store order, because
`filter(pk__in=...)` returns them that way. They are not visited in the order the ids were
submitted.

## Model

| member | source | states |
|---|---|---|
| `Views.Condition` | src/django_scotty/helpers.py:323-324 | an action without a `condition` attribute raises inside the `try`, like a failing condition |
| `Views.VerboseName` | src/django_scotty/helpers.py:272-276 | the label is the `verbose_name` attribute when present, else the humanised name |
| `Views.Describe` | src/django_scotty/helpers.py:271-278 | the tuple carries the name and its label; without `show_on_bulk` the third element is `True` and the fourth `False`, with it both elements are its value |
| `Views.Humanize` | src/django_scotty/helpers.py:275-276 | the default label has the name's length; each `_` becomes a space, the first character is upper-cased and every other one lower-cased, so no `_` is left |
| `Views.Present` | src/django_scotty/helpers.py:269-270 | a name is kept exactly when it is declared and the view has that attribute |
| `Views.Descriptors` | src/django_scotty/helpers.py:268-278 | every tuple names an attribute of the view and is that attribute's description with the defaults applied |
| `Views.AvailableActions` | src/django_scotty/helpers.py:265-280 | the generator, run to the end, yields the declared-order list of descriptions, and nothing when no names are declared |
| `Views.DescriptorsFollowDeclaredNames` | src/django_scotty/helpers.py:268-278 | one tuple per declared name the view has, in declared order, each with the defaults `Humanize(name)`, `True` and `False` |
| `Views.DeclaredActionsNames` | src/django_scotty/helpers.py:268-280 | a name yields a tuple if and only if it is declared and the view has it; `None` yields nothing |
| `Views.IntendedDescriptors` | src/django_scotty/helpers.py:268-278 | the corrected tuples read `show_confirm` and agree with the as-written ones in every other element |
| `Views.IntendedActions` | src/django_scotty/helpers.py:265-280 | the corrected list has the same length, names, labels and bulk flags as the as-written list, and its fourth element is the `show_confirm` attribute |
| `Views.ConfirmFlagReadsBulkAttribute` | src/django_scotty/helpers.py:274 | an action that asks for confirmation and says nothing about bulk use gets `False` as written, and `True` once corrected |
| `Dispatch.Resolve` | src/django_scotty/helpers.py:290-315 | the action comes from the query string exactly when it has `pk`; ids are targeted iff there is a `pk` or a non-empty `seleccionar`; the filter is targeted iff neither is present and `filter_query_string` is |
| `Dispatch.PkShortcutIgnoresForm` | src/django_scotty/helpers.py:290-292 | with a `pk` the selection is that key alone, and changing the form body changes nothing |
| `Dispatch.SelectionBeatsFilter` | src/django_scotty/helpers.py:294-302 | a non-empty `seleccionar` wins over any `filter_query_string` |
| `Dispatch.FilterDropsOnlyPagination` | src/django_scotty/helpers.py:302-314 | the replayed filter is the parsed string with only `page` and `per_page` removed and every other key's values kept |
| `Dispatch.WithPks` | src/django_scotty/helpers.py:299-301 | the selected records are a subsequence of the store, exactly those whose key was submitted; unknown ids add nothing |
| `Dispatch.TargetRecords` | src/django_scotty/helpers.py:297-314 | explicit ids give the stored records with those keys, a subsequence of the store; a filter gives the filterset's own records in its order, or fails exactly when the filterset raises; no target gives nothing |
| `Dispatch.Selected` | src/django_scotty/helpers.py:290-315 | a `pk` selects the stored record with that key, a non-empty `seleccionar` the stored records with those keys; nothing is selected exactly when neither is present and there is no `filter_query_string`; the request fails exactly when it falls to the filter and the filterset raises, and otherwise the filter branch gives the filterset's own records |
| `Dispatch.Invoked` | src/django_scotty/helpers.py:319-325 | the action is called on a subsequence of the records, exactly those whose condition is truthy |
| `Dispatch.Results` | src/django_scotty/helpers.py:318-334 | there are never more results than calls |
| `Dispatch.ResultsAreReturnsOfInvoked` | src/django_scotty/helpers.py:319-334 | `results` is what the action returned on the records it was called on, in order, skipping calls that raised |
| `Dispatch.ResultsSplit` | src/django_scotty/helpers.py:319-334 | what earlier records do, raising included, does not change what later records contribute |
| `Dispatch.UndeclaredNameIsDispatched` | src/django_scotty/helpers.py:268-320 | a name the view has but does not declare is never listed by `available_actions`, yet `post` dispatches it |
| `Dispatch.NonActionIsSkipped` | src/django_scotty/helpers.py:320-346 | an attribute without `condition` is never called, gives no result, and `post` redirects |
| `Dispatch.CalledAtMostOnce` | src/django_scotty/helpers.py:319-327 | the action runs on a record at most as often as the record is visited, and never when its condition is not truthy |
| `Dispatch.RunAction` | src/django_scotty/helpers.py:317-334 | the loop returns exactly the results and the called records above; an unknown action fails on the first record |
| `Dispatch.AllReplies` | src/django_scotty/helpers.py:344 | holds exactly when every result has `status_code` |
| `Dispatch.Reconcile` | src/django_scotty/helpers.py:340-346 | a lone response is returned, several responses give the first, and anything else, zero results included, redirects to the path; the answer is always the redirect or one of the results |
| `Dispatch.Post` | src/django_scotty/helpers.py:285-346 | a filterset that raises makes `post` raise before any action runs; no selection or an empty one redirects without calling anything; an unknown action with records fails without calling anything; otherwise the reply is the reconciliation of the results on the selected records, in the order they are iterated |
| `Pagination.CeilDiv` | src/django_scotty/helpers.py:136-137 | for a positive page size the quotient is the least number of pages that holds `n` records; for a negative one it is not positive |
| `Pagination.TargetPage` | src/django_scotty/helpers.py:128-145 | the target page is at least 1 and at most `max(1, ceil(count/per_page))`, and it is 1 when any step of the recount raises or the page size is not positive |
| `Pagination.TargetIsLastPage` | src/django_scotty/helpers.py:128-142 | when the recount succeeds the target equals Django's page count and the target page holds the last record |
| `Pagination.ScenarioPages` | src/django_scotty/helpers.py:128-142 | 25 records at 10 a page give page 3, no records give page 1, and a valid filterset's count is used over the full count |
| `Pagination.SetPageHeals` | src/django_scotty/helpers.py:147-148 | overwriting `page` keeps every other key and its values and sets `page` to the one value `str(target)` |
| `Pagination.Get` | src/django_scotty/helpers.py:122-151 | a response or any other exception passes through unchanged; `EmptyPage` and `Http404` become a redirect to the same path with the page corrected and every other parameter kept |
| `Pagination.HealedQueryReadsBack` | src/django_scotty/helpers.py:147-148 | the page written into the redirect reads back as the target, and correcting the corrected query again changes nothing |
| `Table.Shown` | src/django_scotty/helpers.py:77-85 | a column is listed exactly when the view has its action and its condition is not falsy, a raising condition included |
| `Table.DropdownItems` | src/django_scotty/helpers.py:75-101 | the loop succeeds iff every column names an action of the view; the items are then the listed columns in order, each with its label, the action's `show_confirm` and the record's target |
| `Table.FirstMissingReported` | src/django_scotty/helpers.py:77-78 | the error names the first column whose action the view lacks |
| `Table.ActionTable.constructor` | src/django_scotty/helpers.py:28-30 | the table keeps the `available_actions` keyword as its columns and starts without `url_action_method` |
| `Table.ActionTable.RenderAcciones` | src/django_scotty/helpers.py:39-115 | the cell is the specification of `render_acciones`: no URL gives an empty cell, a route name `reverse` cannot resolve fails, no column gives an empty cell, one column gives a button only under a truthy condition, several give the dropdown, and a missing action fails |
| `Table.NoActionUrlRendersBlank` | src/django_scotty/helpers.py:44-115 | without `url_action_method` every cell is empty; with no columns every cell whose route name resolves is empty |
| `Table.UnresolvedRouteFailsFirst` | src/django_scotty/helpers.py:44-48 | a route name that does not resolve fails every cell with `NoReverseMatch`, before any column or action is looked at |
| `Table.SingleButtonIffTruthy` | src/django_scotty/helpers.py:49-74 | with one column the button appears iff the condition is truthy, the cell is empty otherwise, and the button has the tuple's label, `hx-confirm` iff `show_confirm`, and the target `<url>?pk=<pk>&action=<name>` |
| `Table.DropdownListsNonFalsy` | src/django_scotty/helpers.py:75-113 | with several columns every column with a non-falsy condition appears in the dropdown, and there are as many items as listed columns |
| `Table.DropdownItemsHaveNonFalsyConditions` | src/django_scotty/helpers.py:77-101 | every dropdown item belongs to a column whose condition is not falsy and carries that action's `show_confirm` |
| `Table.RaisingConditionBranchesDiffer` | src/django_scotty/helpers.py:54-59 | a raising condition empties a one-action cell but keeps the item in a dropdown |
| `Table.MissingActionFails` | src/django_scotty/helpers.py:51-76 | once the route name resolves, a column whose action the view lacks makes the cell fail with the missing attribute |
| `Table.TableActions` | src/django_scotty/helpers.py:172-185 | the `available_actions` keyword is empty under `view_only=true`, else the list `available_actions` yields; each tuple describes an action the view has, with the defaults applied |
| `Table.GetTable` | src/django_scotty/helpers.py:172-191 | the table's columns are no actions under `view_only=true`, else the list `available_actions` yields, fourth element as written |
| `Table.ViewTablesRender` | src/django_scotty/helpers.py:175-183 | every column of a view's table names an action of the view, so no cell fails once the route name resolves, and under `view_only=true` every such cell is empty |
| `Table.ViewTableColumnFlags` | src/django_scotty/helpers.py:181-183 | outside view-only mode each column carries its action's label and bulk flag, and as its fourth element the `show_on_bulk` attribute (default `False`) |
| `Table.DropdownIgnoresFlags` | src/django_scotty/helpers.py:76-101 | the dropdown loop reads only each column's name and label, so columns that differ only in their flags give the same items |
| `Table.RenderIgnoresConfirmElement` | src/django_scotty/helpers.py:61-94 | the cells are the same whether the columns carry the fourth element as written or as corrected, because `render_acciones` reads `show_confirm` from the action itself |
| `Table.ClickTargetsItsRow` | src/django_scotty/helpers.py:67 | posting an item's target selects exactly that row and that action, whatever the form holds |
| `Table.TableUrlIsEmitted` | src/django_scotty/helpers.py:222-223 | the `url_action_method` that `get_context_data` sets is the name of a list route that `add_urls` emits for the view's class |
| `Table.ShowActionButtons` | src/django_scotty/helpers.py:235-253 | the button list is the configured list, or the flags' list, with the `limpiar` rule applied |
| `Table.GetContextData` | src/django_scotty/helpers.py:204-255 | sets the unfiltered count, the actions as written (none in view-only mode), `list-view-<slug>`, a `django-table-` id and the view's settings, keeps the columns, and returns the bulk flag and the button list |
| `Table.ButtonsKeepConfiguredOrder` | src/django_scotty/helpers.py:249-253 | `filtrar` never appears without `limpiar`; the configured list is a prefix of the result, and `limpiar` is appended once, exactly when `filtrar` is there without it; nothing else is added |
| `Table.WithLimpiarIdempotent` | src/django_scotty/helpers.py:251-253 | applying the `limpiar` rule twice is the same as once |
| `Table.ButtonsFromFlags` | src/django_scotty/helpers.py:235-247 | without a configured list the flags give `filtrar, limpiar` then `exportar_xls`; the class default gives `filtrar, exportar_xls, limpiar` |
| `Routes.ListSlug` | src/django_scotty/helpers.py:350-353 | the slug is the lower-cased class name with one trailing `view` removed when there is one, and has no upper-case letter |
| `Routes.DetailSlug` | src/django_scotty/helpers.py:451-454 | the slug is the lower-cased class name with one trailing `detailview` removed when there is one, and has no upper-case letter |
| `Routes.Slug` | src/django_scotty/helpers.py:464-467 | a class's slug strips the suffix of the `get_slugname` it inherits, `view` or `detailview`, from its lower-cased name |
| `Routes.ViewClassSlug` | src/django_scotty/helpers.py:464-467 | a class named `<stem>View` gets the slug `<stem>` lower-cased |
| `Routes.OverviewSlug` | src/django_scotty/helpers.py:350-353 | `Overview` gets the slug `over` |
| `Routes.DetailViewClassSlug` | src/django_scotty/helpers.py:451-454 | a class named `<stem>DetailView` gets the slug `<stem>` lower-cased from the detail rule |
| `Routes.DetailViewClassListSlug` | src/django_scotty/helpers.py:350-353 | the list rule keeps `detail` in a detail view's slug |
| `Routes.AppendMemberUrls` | src/django_scotty/helpers.py:486-509 | one class appends its list route, when it qualifies, then its detail route, when it is a detail view |
| `Routes.AppendModuleUrls` | src/django_scotty/helpers.py:485-509 | one module's classes append their routes in enumeration order |
| `Routes.AddUrls` | src/django_scotty/helpers.py:481-510 | the nested loops return the routes of every module's classes, module by module |
| `Routes.AllRoutesAppend` | src/django_scotty/helpers.py:484-510 | the routes of consecutive modules follow each other with nothing merged or de-duplicated |
| `Routes.ModuleRoutesAppend` | src/django_scotty/helpers.py:485-509 | the routes of consecutive classes follow each other with nothing merged or de-duplicated |
| `Routes.MemberRoutesEmitted` | src/django_scotty/helpers.py:486-509 | every route a class of a module contributes is in the returned list |
| `Routes.ModuleRoutesCount` | src/django_scotty/helpers.py:486-509 | a module yields exactly one route per list view plus one per detail view, shared slugs included |
| `Routes.ActionUrlIsListRoute` | src/django_scotty/helpers.py:486-497 | a qualifying table view gets a list route named `list-view-<slug>` |
| `Identifiers.ValidId` | src/django_scotty/helpers.py:356-373 | every `.` becomes `-` and every other character is kept in place, and `id-` is put in front exactly when the first character is a digit; so the result has no `.` and no leading digit, and a valid input is returned unchanged |
| `Identifiers.ValidIdIdempotent` | src/django_scotty/helpers.py:356-373 | applying `generar_id_valido` twice equals applying it once |
| `Identifiers.UniqueId` | src/django_scotty/helpers.py:377-381 | the id is the prefix followed by `generar_id_valido` of the component, so its tail is a valid id and a valid component is kept |
| `Identifiers.ExportStem` | src/django_scotty/helpers.py:259-261 | the stem holds only lower-case letters, digits and underscores |
| `Identifiers.ExportFilename` | src/django_scotty/helpers.py:257-262 | the name ends in `.<format>` and everything before is lower-case letters, digits and underscores |
| `Identifiers.StemOfFilenameChars` | src/django_scotty/helpers.py:259-261 | once `View` is deleted, a name of word characters, hyphens and white space is lower-cased and its separator runs collapsed, nothing dropped |
| `Identifiers.ExportStemOfPlainName` | src/django_scotty/helpers.py:259-261 | a class name of word characters without `View` gives its lower-cased self as the stem |
| `Identifiers.ExportFilenameOfViewClass` | src/django_scotty/helpers.py:257-262 | a class `<stem>View` whose stem is word characters without `V` exports to `<stem lower-cased>.<format>` |
| `Identifiers.ExportFilenameWithSeparators` | src/django_scotty/helpers.py:257-262 | `<a><run><b><run>View` exports to `<a>_<b>_.<format>`, lower-cased, each run of hyphens or white space giving one underscore (`Mi-Reporte  View` gives `mi_reporte_.xls`) |
| `Text.Lower` | src/django_scotty/helpers.py:352 | `lower()` keeps the length and lower-cases each character |
| `Text.LowerAppend` | src/django_scotty/helpers.py:352 | lower-casing distributes over concatenation |
| `Text.Capitalize` | src/django_scotty/helpers.py:276 | `capitalize()` upper-cases the first character and lower-cases the rest |
| `Text.ReplaceChar` | src/django_scotty/helpers.py:364 | `replace` of one character changes exactly the positions holding it |
| `Text.RemoveSuffix` | src/django_scotty/helpers.py:352 | `removesuffix` drops one trailing copy when there is one and changes nothing otherwise |
| `Text.RemoveAll` | src/django_scotty/helpers.py:259 | `replace(pattern, "")` never lengthens the text, adds no character, and changes nothing without an occurrence |
| `Text.RemoveAllMatch` | src/django_scotty/helpers.py:259 | an occurrence at the front is deleted and the scan resumes after it |
| `Text.RemoveAllNoMatch` | src/django_scotty/helpers.py:259 | a character that starts no occurrence is kept and the scan resumes after it |
| `Text.RemoveAllTrailing` | src/django_scotty/helpers.py:259 | a text without the pattern's first character, followed by the pattern, loses exactly that occurrence |
| `Text.KeepFilenameChars` | src/django_scotty/helpers.py:260 | the first substitution never lengthens the text, keeps only word, white-space and hyphen characters of the input, and changes nothing in text made of them |
| `Text.KeepFilenameCharsAppend` | src/django_scotty/helpers.py:260 | the first substitution distributes over concatenation |
| `Text.KeepFilenameCharsChar` | src/django_scotty/helpers.py:260 | one character is kept exactly when it is a word character, white space or a hyphen |
| `Text.CollapseSeparators` | src/django_scotty/helpers.py:261 | the second substitution leaves no hyphen or white space, adds only underscores, and changes nothing in text without separators |
| `Text.CollapseSeparatorsRun` | src/django_scotty/helpers.py:261 | a maximal run of hyphens and white space, however long, becomes exactly one `_` |
| `Text.CollapseSeparatorsKeeps` | src/django_scotty/helpers.py:261 | a character that is not a separator is kept in place |
| `Text.CollapseSeparatorsKeepsPlain` | src/django_scotty/helpers.py:261 | a stretch without separators is kept as it is, whatever follows |
| `Text.CollapseTwoRuns` | src/django_scotty/helpers.py:261 | two separator-free parts, each followed by a run, give the parts each followed by one `_` |
| `Text.Decimal` | src/django_scotty/helpers.py:148 | `str(n)` is non-empty, digits only, and starts with `0` only for zero |
| `Text.DecimalRoundTrip` | src/django_scotty/helpers.py:148 | reading `str(n)` back gives `n` |
| `Http.GetList` | src/django_scotty/helpers.py:295 | `getlist` gives every value sent for a present key, none for an absent key, and ends with the value `get` returns |
| `Http.Get` | src/django_scotty/helpers.py:176 | `QueryDict.get` finds a value exactly when the key is present, and the value is the last one sent for the key |
| `Detail.Normalize` | src/django_scotty/helpers.py:421-425 | no value stays `None` or boolean: `None` becomes `—`, booleans become `Sí` or `No`, and every other value is kept |
| `Detail.ListedFields` | src/django_scotty/helpers.py:406-413 | a field is listed exactly when it is concrete, not many-to-many and not excluded |
| `Detail.FieldList` | src/django_scotty/helpers.py:402-440 | the loop builds the list the specification gives |
| `Detail.EntriesFollowListedFields` | src/django_scotty/helpers.py:404-440 | one entry per listed field, in order, with that field's label and normalised display value |
| `Detail.EntriesAreDisplayable` | src/django_scotty/helpers.py:421-440 | no entry shows a raw `None` or boolean, and every label is capitalised |
| `Detail.DefaultExcludesId` | src/django_scotty/helpers.py:395-413 | with the default `exclude_fields`, no field named `id` is listed and no entry is built from one, for any list of fields |
| `Detail.DefaultExclusionExample` | src/django_scotty/helpers.py:395-413 | a model with only `id` shows nothing; adding one listed field shows exactly its entry |
| `Detail.DetailTitle` | src/django_scotty/helpers.py:444-446 | the title is `Detalle de `, the capitalised model verbose name, a space and the instance id |

## Left out

- `load_scotty_urls` (lines 513-551) inspects the caller's frame, imports modules and walks the file system. Line 549 overwrites `collected_urls` on every iteration, so only the last module's routes survive; that behaviour is not modelled.
- Django and library internals are parameters: `super().get`, `reverse`, `redirect`, `Paginator`, filterset construction and `is_valid`, `parse_qs`, `urlencode`, `FormHelper`, `ExportMixin`, `SingleTableMixin`.
- `get_unique_id` draws its six hexadecimal digits from a time-based UUID; the model takes them as a parameter.
- `Table.ClickQuery` stands for the query string of an item's target as Django parses it. It matches the target only when neither the record key nor the action name holds `&`, `=`, `+` or `%`. URL encoding is not modelled.
- HTML markup of the action cell (lines 67-113) is left out; the model keeps which items are shown, their labels, their confirmation flag and their target.
- Unicode is left out. `isdigit`, `lower`, `capitalize`, `\w` and `\s` are modelled on ASCII only.
- `pk__in` compares keys as strings. Converting a submitted key to the model's key type, and the error when that fails, are not modelled.
- `Pagination.CeilDiv` stands for `math.ceil` of true division; floating-point rounding of very large counts is not modelled.
- `add_urls` checks `hasattr(cls, "as_view")`; every subclass of the three bases has it, so the model drops the test.
- `get_filterset`, `DictTableView.get_context_data`, `templatetags/sluguer.py`, `list_views/urls.py`, `__init__.py` and `apps.py` copy data into framework objects or hold constants.
- `Dispatch.Post`: the filterset's `qs` either yields all its records or raises before the first is visited, as a queryset that fetches its rows on first iteration does; a failure partway through the iteration is not modelled.
- Table.RenderSpec: `reverse` is a parameter, so whether the route name resolves is not derived from the URL configuration; `Table.TableUrlIsEmitted` shows that `add_urls` emits the route the table names.
- Consistency of the record store between selection and execution is not modelled; nothing at this layer guards it.
- `Detail.FieldList` takes `verbose_name` failing as an absent value; reading a field value that raises is not modelled.
- Table.GetContextData: stores the list the generator yields. At line 221 the source stores the generator object itself, without `list()`. That object is always truthy, even when no action is declared, and it is used up after one pass. The model does not capture that.
- `Table.ActionTable.constructor` starts the attributes `get_context_data` sets with empty values; in the source they do not exist until then.

## Findings

| source | as written | input that shows it | evidently intended | confidence | as-written member | corrected member |
|---|---|---|---|---|---|---|
| src/django_scotty/helpers.py:274 | the fourth element of each tuple, `show_confirm`, is read from the `show_on_bulk` attribute | an action with `show_confirm = True` and no `show_on_bulk` gets `False`; one with `show_on_bulk = True` and `show_confirm = False` gets `True` | read the `show_confirm` attribute with default `False` | high, not executed | `Views.ConfirmFlagReadsBulkAttribute` | `Views.IntendedActions` |

The table model keeps the tuples as written, as the source does. The rendered cells do not depend
on the fourth element (`Table.RenderIgnoresConfirmElement`); only code that reads the table's
`available_actions` tuples sees the wrong flag.
