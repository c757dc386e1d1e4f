/** `ActionTable` and the parts of `CottonTableView` that build it: the action column of each row,
    the `view_only` switch, the context the template reads and the filter-button list. */
module Table {
  import opened Wrappers
  import opened Http
  import opened Views
  import opened Identifiers
  import opened Routes
  import opened Dispatch

  /** One action as the row shows it: its name, its label (the tuple's `verbose_name`), whether
      clicking asks for confirmation, and the URL the click posts to. */
  datatype Item = Item(name: string, caption: string, confirm: bool, target: string)

  /** The cell `render_acciones` returns: empty, one button, or a dropdown of items. */
  datatype Rendered = Blank | Button(item: Item) | Dropdown(items: seq<Item>)

  /** Why `render_acciones` raised: `reverse(url_action_method)` found no route of that name
      (`NoReverseMatch`), or `getattr(self.view, name)` raised `AttributeError` for a column's
      action name. */
  datatype RenderError = NoReverseMatch(routeName: string) | MissingAttribute(name: string)

  /** `f"{url}?pk={record.pk}&action={name}"`. */
  function ActionTarget(url: string, pk: string, name: string): string {
    url + "?pk=" + pk + "&action=" + name
  }

  /** `getattr(accion_method, "show_confirm", False)`. */
  function ShowConfirm(a: ActionAttrs): bool { a.showConfirm.GetOr(false) }

  function ItemFor(d: Descriptor, a: ActionAttrs, rec: Record, url: string): Item {
    Item(d.name, d.verboseName, ShowConfirm(a), ActionTarget(url, rec.pk, d.name))
  }

  /** Every column names an attribute of the view. */
  predicate Declared(columns: seq<Descriptor>, actions: map<string, ActionAttrs>) {
    forall i :: 0 <= i < |columns| ==> columns[i].name in actions
  }

  /** The columns a dropdown lists for a record: those whose condition is not falsy. A condition
      that raises still lists its action. */
  function Shown(columns: seq<Descriptor>, actions: map<string, ActionAttrs>, rec: Record, req: Request): (r: seq<Descriptor>)
    ensures |r| <= |columns|
    ensures forall d :: d in r <==> d in columns && d.name in actions && Condition(actions[d.name], rec, req) != Falsy
  {
    if columns == [] then []
    else
      var last := columns[|columns| - 1];
      assert columns == columns[..|columns| - 1] + [last];
      Shown(columns[..|columns| - 1], actions, rec, req) +
        (if last.name in actions && Condition(actions[last.name], rec, req) != Falsy then [last] else [])
  }

  /** The loop of the many-action branch: the items in column order, or the error of the first
      column whose action the view lacks. */
  function DropdownItems(columns: seq<Descriptor>, actions: map<string, ActionAttrs>, rec: Record, req: Request, url: string)
    : (r: Result<seq<Item>, RenderError>)
    ensures r.Success? <==> Declared(columns, actions)
    ensures r.Failure? ==> r.error.MissingAttribute? && r.error.name !in actions
    ensures r.Success? ==> var shown := Shown(columns, actions, rec, req);
      |r.value| == |shown| &&
      forall i :: 0 <= i < |shown| ==> shown[i].name in actions && r.value[i] == ItemFor(shown[i], actions[shown[i].name], rec, url)
  {
    if columns == [] then Success([])
    else
      var prefix := columns[..|columns| - 1];
      var last := columns[|columns| - 1];
      match DropdownItems(prefix, actions, rec, req, url)
      case Failure(e) => Failure(e)
      case Success(items) =>
        if last.name !in actions then Failure(MissingAttribute(last.name))
        else
          var shown := Shown(prefix, actions, rec, req);
          assert forall i :: 0 <= i < |shown| ==> shown[i] in shown;
          if Condition(actions[last.name], rec, req) == Falsy then Success(items)
          else Success(items + [ItemFor(last, actions[last.name], rec, url)])
  }

  /** What `render_acciones` returns for a record. `reverse` stands for Django's `reverse`: the
      URL a route name resolves to, or `None` when it raises `NoReverseMatch`. It runs as soon as
      `url_action_method` is set, before the columns are looked at. */
  function RenderSpec(columns: seq<Descriptor>, urlActionMethod: Option<string>, actions: map<string, ActionAttrs>,
                      rec: Record, req: Request, reverse: string -> Option<string>): Result<Rendered, RenderError>
  {
    if urlActionMethod.None? then Success(Blank)
    else
      match reverse(urlActionMethod.value)
      case None => Failure(NoReverseMatch(urlActionMethod.value))
      case Some(url) =>
        if |columns| == 1 then
          var d := columns[0];
          if d.name !in actions then Failure(MissingAttribute(d.name))
          else if Condition(actions[d.name], rec, req) == Truthy then Success(Button(ItemFor(d, actions[d.name], rec, url)))
          else Success(Blank)
        else if |columns| > 1 then
          match DropdownItems(columns, actions, rec, req, url)
          case Failure(e) => Failure(e)
          case Success(items) => Success(Dropdown(items))
        else Success(Blank)
  }

  /** `request.GET.get("view_only", False) == "true"`, on the last value of the parameter. */
  predicate ViewOnly(q: QueryDict) { Get(q, "view_only") == Some("true") }

  /** The `available_actions` keyword `get_table_kwargs` passes: nothing in view-only mode, else
      the list the view's `available_actions` yields, fourth element as written. */
  function TableActions(view: ViewConfig, req: Request): (r: seq<Descriptor>)
    ensures ViewOnly(req.query) ==> r == []
    ensures !ViewOnly(req.query) ==> r == DeclaredActions(view.actionNames, view.actions)
    ensures forall i :: 0 <= i < |r| ==>
      r[i].name in view.actions && r[i] == Describe(r[i].name, view.actions[r[i].name])
  {
    if ViewOnly(req.query) then [] else DeclaredActions(view.actionNames, view.actions)
  }

  /** The table django-tables2 builds for a `CottonTableView`. Before `get_context_data` runs
      there is no `url_action_method`; the other context attributes start empty. */
  class ActionTable {
    var actionColumns: seq<Descriptor>
    const view: ViewConfig
    const request: Request
    var urlActionMethod: Option<string>
    var availableActions: seq<Descriptor>
    var unfilteredRecords: nat
    var uniqueId: string
    var title: string
    var viewOnly: bool
    var showBotonNuevo: bool
    var createUrl: Option<string>

    /** `ActionTable.__init__` with its `available_actions` keyword, and `get_table` attaching
        the view and its request. */
    constructor(availableActions: seq<Descriptor>, view: ViewConfig, request: Request)
      ensures actionColumns == availableActions
      ensures this.view == view && this.request == request
      ensures urlActionMethod.None? && this.availableActions == []
    {
      actionColumns := availableActions;
      this.view := view;
      this.request := request;
      urlActionMethod := None;
      this.availableActions := [];
      unfilteredRecords := 0;
      uniqueId := "";
      title := "";
      viewOnly := false;
      showBotonNuevo := false;
      createUrl := None;
    }

    function Attrs(): ContextAttrs
      reads this
    {
      ContextAttrs(unfilteredRecords, availableActions, urlActionMethod, uniqueId, title, viewOnly, showBotonNuevo, createUrl)
    }

    /** `render_acciones(record)`: one button when there is one column and its condition holds,
        a dropdown of the listed items when there are several, and an empty cell otherwise. */
    method RenderAcciones(rec: Record, reverse: string -> Option<string>) returns (r: Result<Rendered, RenderError>)
      ensures r == RenderSpec(actionColumns, urlActionMethod, view.actions, rec, request, reverse)
    {
      if urlActionMethod.None? {
        return Success(Blank);
      }
      var resolved := reverse(urlActionMethod.value);
      if resolved.None? {
        return Failure(NoReverseMatch(urlActionMethod.value));
      }
      var url := resolved.value;
      if |actionColumns| == 1 {
        var accion := actionColumns[0];
        if accion.name !in view.actions {
          return Failure(MissingAttribute(accion.name));
        }
        var accionMethod := view.actions[accion.name];
        var conditionResult := Condition(accionMethod, rec, request);
        if conditionResult != Truthy {
          return Success(Blank);
        }
        return Success(Button(Item(accion.name, accion.verboseName, ShowConfirm(accionMethod), ActionTarget(url, rec.pk, accion.name))));
      } else if |actionColumns| > 1 {
        var renderedActions: seq<Item> := [];
        var i := 0;
        while i < |actionColumns|
          invariant 0 <= i <= |actionColumns|
          invariant DropdownItems(actionColumns[..i], view.actions, rec, request, url) == Success(renderedActions)
        {
          var accion := actionColumns[i];
          assert actionColumns[..i + 1][..i] == actionColumns[..i];
          if accion.name !in view.actions {
            DropdownFailurePersists(actionColumns, i + 1, view.actions, rec, request, url);
            return Failure(MissingAttribute(accion.name));
          }
          var accionMethod := view.actions[accion.name];
          var conditionResult := Condition(accionMethod, rec, request);
          if conditionResult != Falsy {
            renderedActions := renderedActions + [Item(accion.name, accion.verboseName, ShowConfirm(accionMethod), ActionTarget(url, rec.pk, accion.name))];
          }
          i := i + 1;
        }
        assert actionColumns[..i] == actionColumns;
        return Success(Dropdown(renderedActions));
      } else {
        return Success(Blank);
      }
    }
  }

  /** Once a column's action is missing, the later columns do not change the error. */
  lemma {:induction false} DropdownFailurePersists(columns: seq<Descriptor>, k: nat, actions: map<string, ActionAttrs>,
                                                   rec: Record, req: Request, url: string)
    requires k <= |columns|
    requires DropdownItems(columns[..k], actions, rec, req, url).Failure?
    ensures DropdownItems(columns, actions, rec, req, url) == DropdownItems(columns[..k], actions, rec, req, url)
    decreases |columns| - k
  {
    if k < |columns| {
      assert columns[..k + 1][..k] == columns[..k];
      DropdownFailurePersists(columns, k + 1, actions, rec, req, url);
    } else {
      assert columns[..k] == columns;
    }
  }

  /** The error names the first column whose action the view lacks. */
  lemma FirstMissingReported(columns: seq<Descriptor>, actions: map<string, ActionAttrs>, rec: Record, req: Request,
                             url: string, i: nat)
    requires i < |columns| && columns[i].name !in actions && Declared(columns[..i], actions)
    ensures DropdownItems(columns, actions, rec, req, url) == Failure(MissingAttribute(columns[i].name))
  {
    assert columns[..i + 1][..i] == columns[..i];
    DropdownFailurePersists(columns, i + 1, actions, rec, req, url);
  }

  /** `get_table` with the keywords of `get_table_kwargs`. */
  method GetTable(view: ViewConfig, req: Request) returns (table: ActionTable)
    ensures fresh(table)
    ensures table.actionColumns == TableActions(view, req)
    ensures table.view == view && table.request == req && table.urlActionMethod.None?
  {
    var viewOnly := ViewOnly(req.query);
    var availableActions: seq<Descriptor>;
    if viewOnly {
      availableActions := [];
    } else {
      availableActions := AvailableActions(view);
    }
    table := new ActionTable(availableActions, view, req);
  }

  /** The context entries besides the table. */
  datatype Context = Context(showBulkActions: bool, showActionButtons: seq<string>)

  /** The button list before the `limpiar` rule: `available_filter_buttons` when it is set, else
      the list the two flags build. */
  function BaseButtons(view: ViewConfig): seq<string> {
    match view.filterButtons
    case Some(buttons) => buttons
    case None =>
      (if view.showFilterLine then ["filtrar", "limpiar"] else []) + (if view.showExportXls then ["exportar_xls"] else [])
  }

  /** A list with `filtrar` and without `limpiar` gets `limpiar` appended. */
  function WithLimpiar(buttons: seq<string>): seq<string> {
    if "filtrar" in buttons && "limpiar" !in buttons then buttons + ["limpiar"] else buttons
  }

  function ActionButtons(view: ViewConfig): seq<string> { WithLimpiar(BaseButtons(view)) }

  /** The `show_action_buttons` entry of `get_context_data`. */
  method ShowActionButtons(view: ViewConfig) returns (buttons: seq<string>)
    ensures buttons == ActionButtons(view)
  {
    if view.filterButtons.Some? {
      buttons := view.filterButtons.value;
    } else {
      buttons := [];
      if view.showFilterLine {
        buttons := buttons + ["filtrar", "limpiar"];
      }
      if view.showExportXls {
        buttons := buttons + ["exportar_xls"];
      }
    }
    if "filtrar" in buttons && "limpiar" !in buttons {
      buttons := buttons + ["limpiar"];
    }
  }

  /** The attributes `get_context_data` sets on the table. */
  datatype ContextAttrs = ContextAttrs(
    unfilteredRecords: nat,
    availableActions: seq<Descriptor>,
    urlActionMethod: Option<string>,
    uniqueId: string,
    title: string,
    viewOnly: bool,
    showBotonNuevo: bool,
    createUrl: Option<string>)

  /** What `get_context_data` sets: the unfiltered count, the actions (none in view-only mode),
      the list route of the view's slug, a fresh `django-table-` id and the view's settings.
      `unfiltered` is `self.model.objects.all().count()` and `idComponent` the random part of
      `get_unique_id`. */
  function ContextFor(view: ViewConfig, req: Request, unfiltered: nat, idComponent: string): ContextAttrs {
    ContextAttrs(unfiltered, TableActions(view, req), Some(ListRouteName(ListSlug(view.className))),
      UniqueId("django-table-", idComponent), view.title, ViewOnly(req.query), view.showBotonNuevo, view.createUrl)
  }

  /** `CottonTableView.get_context_data`: the attributes it sets on the table, and the two other
      context entries. */
  method GetContextData(view: ViewConfig, req: Request, table: ActionTable, unfiltered: nat, idComponent: string)
    returns (ctx: Context)
    modifies table
    ensures table.Attrs() == ContextFor(view, req, unfiltered, idComponent)
    ensures table.actionColumns == old(table.actionColumns)
    ensures ctx == Context(view.showBulkActions, ActionButtons(view))
  {
    var viewOnly := ViewOnly(req.query);
    var availableActions: seq<Descriptor>;
    if viewOnly {
      availableActions := [];
    } else {
      availableActions := AvailableActions(view);
    }
    var trimedViewName := ListSlug(view.className);
    var uniqueId := UniqueId("django-table-", idComponent);
    var buttons := ShowActionButtons(view);
    table.unfilteredRecords, table.availableActions, table.urlActionMethod, table.uniqueId := unfiltered, availableActions, Some(ListRouteName(trimedViewName)), uniqueId;
    table.title, table.viewOnly, table.showBotonNuevo, table.createUrl := view.title, viewOnly, view.showBotonNuevo, view.createUrl;
    ctx := Context(view.showBulkActions, buttons);
  }

  // Properties of the rendered cell.

  /** Without `url_action_method` every cell is empty, whatever the columns; with no columns
      every cell whose route name resolves is empty. */
  lemma NoActionUrlRendersBlank(columns: seq<Descriptor>, actions: map<string, ActionAttrs>, rec: Record, req: Request,
                                reverse: string -> Option<string>)
    ensures RenderSpec(columns, None, actions, rec, req, reverse) == Success(Blank)
    ensures |columns| == 0 ==>
      forall u :: reverse(u).Some? ==> RenderSpec(columns, Some(u), actions, rec, req, reverse) == Success(Blank)
  {
  }

  /** A route name that does not resolve makes every cell fail with `NoReverseMatch`, whatever the
      columns: `reverse` runs before the columns and their actions are looked at. */
  lemma UnresolvedRouteFailsFirst(columns: seq<Descriptor>, actions: map<string, ActionAttrs>, rec: Record, req: Request,
                                  reverse: string -> Option<string>, u: string)
    requires reverse(u).None?
    ensures RenderSpec(columns, Some(u), actions, rec, req, reverse) == Failure(NoReverseMatch(u))
  {
  }

  /** With one column, the button appears exactly when the condition is truthy; it carries the
      tuple's label, the action's own `show_confirm` and the record's target. A raising or falsy
      condition gives an empty cell. */
  lemma SingleButtonIffTruthy(d: Descriptor, actions: map<string, ActionAttrs>, rec: Record, req: Request,
                              reverse: string -> Option<string>, u: string, url: string)
    requires d.name in actions && reverse(u) == Some(url)
    ensures var r := RenderSpec([d], Some(u), actions, rec, req, reverse);
      r.Success? &&
      (r.value.Button? <==> Condition(actions[d.name], rec, req) == Truthy) &&
      (!r.value.Button? ==> r.value == Blank) &&
      (r.value.Button? ==> (r.value.item.caption == d.verboseName &&
        (r.value.item.confirm <==> actions[d.name].showConfirm == Some(true)) &&
        r.value.item.target == url + "?pk=" + rec.pk + "&action=" + d.name))
  {
  }

  /** With several columns, a column appears in the dropdown exactly when its condition is not
      falsy, and the items keep the column order. */
  lemma DropdownListsNonFalsy(columns: seq<Descriptor>, actions: map<string, ActionAttrs>, rec: Record, req: Request,
                              reverse: string -> Option<string>, u: string, url: string, d: Descriptor)
    requires |columns| > 1 && Declared(columns, actions) && d in columns && reverse(u) == Some(url)
    ensures var r := RenderSpec(columns, Some(u), actions, rec, req, reverse);
      r.Success? && r.value.Dropdown? &&
      (Condition(actions[d.name], rec, req) != Falsy ==>
        exists it :: it in r.value.items && it.name == d.name && it.caption == d.verboseName)
    ensures var r := RenderSpec(columns, Some(u), actions, rec, req, reverse);
      r.Success? && r.value.Dropdown? && |r.value.items| == |Shown(columns, actions, rec, req)|
  {
    var r := DropdownItems(columns, actions, rec, req, url);
    var shown := Shown(columns, actions, rec, req);
    if Condition(actions[d.name], rec, req) != Falsy {
      assert d in shown;
      var i :| 0 <= i < |shown| && shown[i] == d;
      assert r.value[i] in r.value;
    }
  }

  /** An item appears only for a column whose condition is not falsy. */
  lemma DropdownItemsHaveNonFalsyConditions(columns: seq<Descriptor>, actions: map<string, ActionAttrs>, rec: Record,
                                            req: Request, url: string, i: nat)
    requires Declared(columns, actions)
    requires i < |DropdownItems(columns, actions, rec, req, url).value|
    ensures var it := DropdownItems(columns, actions, rec, req, url).value[i];
      exists d :: d in columns && d.name == it.name && it.caption == d.verboseName &&
        Condition(actions[d.name], rec, req) != Falsy && it.confirm == ShowConfirm(actions[d.name])
  {
    var shown := Shown(columns, actions, rec, req);
    assert shown[i] in shown;
  }

  /** A condition that raises hides the only action of a row but keeps an action among several:
      the two branches of `render_acciones` treat the exception differently. */
  lemma RaisingConditionBranchesDiffer(d: Descriptor, e: Descriptor, actions: map<string, ActionAttrs>, rec: Record,
                                       req: Request, reverse: string -> Option<string>, u: string, url: string)
    requires d.name in actions && e.name in actions && reverse(u) == Some(url)
    requires Condition(actions[d.name], rec, req) == Raises
    ensures RenderSpec([d], Some(u), actions, rec, req, reverse) == Success(Blank)
    ensures var r := RenderSpec([d, e], Some(u), actions, rec, req, reverse);
      r.Success? && r.value.Dropdown? && |r.value.items| >= 1 &&
      r.value.items[0] == ItemFor(d, actions[d.name], rec, url)
  {
    var columns := [d, e];
    assert columns[..1] == [d];
    assert columns[..1][..0] == [];
  }

  /** A column whose action the view lacks makes the cell fail, never render partially. */
  lemma MissingActionFails(columns: seq<Descriptor>, actions: map<string, ActionAttrs>, rec: Record, req: Request,
                           reverse: string -> Option<string>, u: string, i: nat)
    requires i < |columns| && columns[i].name !in actions && reverse(u).Some?
    ensures var r := RenderSpec(columns, Some(u), actions, rec, req, reverse);
      r.Failure? && r.error.MissingAttribute?
  {
  }

  // Properties of the table a view builds.

  /** Every column of a table built by a view names one of the view's actions, so its cells
      never fail once the route name resolves; in view-only mode there are no columns and every
      such cell is empty. */
  lemma ViewTablesRender(view: ViewConfig, req: Request, rec: Record, u: Option<string>, reverse: string -> Option<string>)
    ensures Declared(TableActions(view, req), view.actions)
    ensures (u.None? || reverse(u.value).Some?) ==>
      RenderSpec(TableActions(view, req), u, view.actions, rec, req, reverse).Success?
    ensures ViewOnly(req.query) && (u.None? || reverse(u.value).Some?) ==>
      RenderSpec(TableActions(view, req), u, view.actions, rec, req, reverse) == Success(Blank)
  {
    var columns := TableActions(view, req);
    assert forall i :: 0 <= i < |columns| ==> columns[i].name in view.actions;
  }

  /** The tuples of a view's table carry the action's own label (its `verbose_name` or the
      humanised name) and bulk flag, and, as written, a fourth element read from `show_on_bulk`. */
  lemma ViewTableColumnFlags(view: ViewConfig, req: Request, i: nat)
    requires !ViewOnly(req.query) && i < |TableActions(view, req)|
    ensures var d := TableActions(view, req)[i];
      d.name in view.actions &&
      d.verboseName == VerboseName(d.name, view.actions[d.name]) &&
      d.showOnBulk == view.actions[d.name].showOnBulk.GetOr(true) &&
      d.showConfirm == view.actions[d.name].showOnBulk.GetOr(false)
  {
    var names := view.actionNames.value;
    DescriptorsFollowDeclaredNames(names, view.actions);
  }

  /** Two column lists that agree on every name and label. */
  predicate SameNamesAndLabels(a: seq<Descriptor>, b: seq<Descriptor>) {
    |a| == |b| && forall i :: 0 <= i < |a| ==> a[i].name == b[i].name && a[i].verboseName == b[i].verboseName
  }

  /** The dropdown loop reads only a column's name and label, never its flags. */
  lemma {:induction false} DropdownIgnoresFlags(a: seq<Descriptor>, b: seq<Descriptor>, actions: map<string, ActionAttrs>,
                                               rec: Record, req: Request, url: string)
    requires SameNamesAndLabels(a, b)
    ensures DropdownItems(a, actions, rec, req, url) == DropdownItems(b, actions, rec, req, url)
  {
    if a != [] {
      var n := |a| - 1;
      assert SameNamesAndLabels(a[..n], b[..n]);
      DropdownIgnoresFlags(a[..n], b[..n], actions, rec, req, url);
      assert a[n].name == b[n].name && a[n].verboseName == b[n].verboseName;
      if a[n].name in actions {
        assert ItemFor(a[n], actions[a[n].name], rec, url) == ItemFor(b[n], actions[b[n].name], rec, url);
      }
    }
  }

  /** The cells a view's table renders are the same whether its tuples carry the fourth element
      as written or as corrected: `render_acciones` reads `show_confirm` from the action itself. */
  lemma RenderIgnoresConfirmElement(view: ViewConfig, u: Option<string>, rec: Record, req: Request,
                                    reverse: string -> Option<string>)
    ensures var written := DeclaredActions(view.actionNames, view.actions);
      var corrected := IntendedActions(view.actionNames, view.actions);
      RenderSpec(written, u, view.actions, rec, req, reverse) == RenderSpec(corrected, u, view.actions, rec, req, reverse)
  {
    var written := DeclaredActions(view.actionNames, view.actions);
    var corrected := IntendedActions(view.actionNames, view.actions);
    assert SameNamesAndLabels(written, corrected);
    if u.Some? && reverse(u.value).Some? {
      DropdownIgnoresFlags(written, corrected, view.actions, rec, req, reverse(u.value).value);
    }
  }

  /** The query string of an item's target, `pk` and `action` each with one value, as the
      request parses it when neither the record key nor the action name holds `&`, `=`, `+` or `%`. */
  function ClickQuery(pk: string, name: string): QueryDict {
    map["pk" := [pk], "action" := [name]]
  }

  /** Posting an item's target runs that item's action on that row alone, whatever the form. */
  lemma ClickTargetsItsRow(rec: Record, name: string, path: string, form: QueryDict, parse: string -> QueryDict)
    ensures Resolve(Request(path, ClickQuery(rec.pk, name), form), parse) == Resolution(Some(name), ById([rec.pk]))
  {
    var q := ClickQuery(rec.pk, name);
    assert "pk" in q;
    PkShortcutIgnoresForm(Request(path, q, form), form, parse);
  }

  /** The name the table uses for its action URL is a list route `add_urls` emits for the view. */
  lemma TableUrlIsEmitted(modules: seq<seq<Member>>, i: nat, j: nat, view: ViewConfig, req: Request,
                          unfiltered: nat, idComponent: string)
    requires i < |modules| && j < |modules[i]|
    requires HasListRoute(modules[i][j]) && modules[i][j].cls.slugRule == ViewSuffix
    requires modules[i][j].cls.name == view.className
    ensures exists r :: (r in AllRoutes(modules) && r.kind == ListRoute && r.view == view.className &&
                         ContextFor(view, req, unfiltered, idComponent).urlActionMethod == Some(r.name))
  {
    ActionUrlIsListRoute(modules, i, j);
    var r := ListRouteFor(ListSlug(view.className), view.className);
    assert r in AllRoutes(modules);
  }

  // Properties of the filter buttons.

  /** `filtrar` never appears without `limpiar`; the list is the configured one, with at most
      `limpiar` appended, and only when `filtrar` is there and `limpiar` is not. */
  lemma ButtonsKeepConfiguredOrder(view: ViewConfig)
    ensures var b, base := ActionButtons(view), BaseButtons(view);
      ("filtrar" in b ==> "limpiar" in b) &&
      |base| <= |b| <= |base| + 1 && b[..|base|] == base &&
      (|b| == |base| + 1 <==> "filtrar" in base && "limpiar" !in base) &&
      (|b| == |base| + 1 ==> b[|base|] == "limpiar") &&
      (forall x :: x in b && x != "limpiar" ==> x in base)
  {
    var b, base := ActionButtons(view), BaseButtons(view);
    assert b[..|base|] == base;
  }

  /** The rule is idempotent: applying it to its own result changes nothing. */
  lemma WithLimpiarIdempotent(buttons: seq<string>)
    ensures WithLimpiar(WithLimpiar(buttons)) == WithLimpiar(buttons)
  {
  }

  /** Without `available_filter_buttons` the flags decide: `filtrar` and `limpiar` for the filter
      line, then `exportar_xls`. With the class default the list gains `limpiar` at the end. */
  lemma ButtonsFromFlags(view: ViewConfig)
    ensures view.filterButtons.None? ==> (ActionButtons(view) ==
      (if view.showFilterLine then ["filtrar", "limpiar"] else []) + (if view.showExportXls then ["exportar_xls"] else []))
    ensures view.filterButtons == Some(["filtrar", "exportar_xls"]) ==>
      ActionButtons(view) == ["filtrar", "exportar_xls", "limpiar"]
  {
    if view.filterButtons.None? {
      var base := BaseButtons(view);
      if view.showFilterLine {
        assert "limpiar" in base by { assert base[1] == "limpiar"; }
      } else if view.showExportXls {
        assert base == ["exportar_xls"];
      }
    }
  }
}
