/** A `CottonTableView` subclass as the core sees it, and its `available_actions` property. */
module Views {
  import opened Wrappers
  import opened Text
  import opened Http

  /** How `condition(record, request)` ended: a truthy value, a falsy value, or an exception. */
  datatype CondOutcome = Truthy | Falsy | Raises

  /** How calling an action on one record ended: a returned value or an exception. */
  datatype HandlerOutcome = Returns(value: Value) | Fails

  /** What `getattr(view, name)` finds for an action method: its optional metadata attributes,
      its optional `condition` callable and the call itself. */
  datatype ActionAttrs = ActionAttrs(
    verboseName: Option<string>,
    showOnBulk: Option<bool>,
    showConfirm: Option<bool>,
    condition: Option<(Record, Request) -> CondOutcome>,
    handler: Record -> HandlerOutcome)

  /** The class attributes of a `CottonTableView` subclass that the core reads. `actions` holds
      every attribute of the view, declared as an action or not, as `hasattr` and `getattr` see
      it; an attribute that is not an action method has `condition` set to `None`. `filterButtons` is
      `available_filter_buttons` (`None` when absent or set to `None`); the two flags are
      `show_filter_line` and `show_export_xls`, false when absent. */
  datatype ViewConfig = ViewConfig(
    className: string,
    actionNames: Option<seq<string>>,
    actions: map<string, ActionAttrs>,
    title: string,
    showBotonNuevo: bool,
    createUrl: Option<string>,
    showBulkActions: bool,
    filterButtons: Option<seq<string>>,
    showFilterLine: bool,
    showExportXls: bool)

  /** The `(name, verbose_name, show_on_bulk, show_confirm)` tuple of one action. */
  datatype Descriptor = Descriptor(name: string, verboseName: string, showOnBulk: bool, showConfirm: bool)

  /** `condition(record, request)` of an action; a missing `condition` raises like a failing one. */
  function Condition(a: ActionAttrs, rec: Record, req: Request): (r: CondOutcome)
    ensures a.condition.None? ==> r == Raises
  {
    match a.condition
    case None => Raises
    case Some(f) => f(rec, req)
  }

  /** The default label of an action: `name.replace("_", " ").capitalize()`. */
  function Humanize(name: string): (r: string)
    ensures |r| == |name|
    ensures forall i :: 0 <= i < |r| ==> r[i] != '_'
    ensures |r| > 0 ==> !IsLower(r[0])
    ensures forall i :: 1 <= i < |r| ==> !IsUpper(r[i])
    ensures forall i :: 0 <= i < |r| ==>
      var c := if name[i] == '_' then ' ' else name[i];
      r[i] == (if i == 0 then UpperChar(c) else LowerChar(c))
  {
    Capitalize(ReplaceChar(name, '_', ' '))
  }

  function VerboseName(name: string, a: ActionAttrs): (r: string)
    ensures a.verboseName.Some? ==> r == a.verboseName.value
    ensures a.verboseName.None? ==> r == Humanize(name)
  {
    a.verboseName.GetOr(Humanize(name))
  }

  /** One tuple as `available_actions` builds it: the fourth element is read from the
      `show_on_bulk` attribute with default `False`. */
  function Describe(name: string, a: ActionAttrs): (r: Descriptor)
    ensures r.name == name && r.verboseName == VerboseName(name, a)
    ensures a.showOnBulk.None? ==> r.showOnBulk && !r.showConfirm
    ensures a.showOnBulk.Some? ==> r.showOnBulk == r.showConfirm == a.showOnBulk.value
  {
    Descriptor(name, VerboseName(name, a), a.showOnBulk.GetOr(true), a.showOnBulk.GetOr(false))
  }

  /** The declared names that exist as attributes of the view, in declared order. */
  function Present(names: seq<string>, attrs: map<string, ActionAttrs>): (r: seq<string>)
    ensures |r| <= |names|
    ensures forall n :: n in r <==> n in names && n in attrs
  {
    if names == [] then []
    else
      var last := names[|names| - 1];
      assert names == names[..|names| - 1] + [last];
      Present(names[..|names| - 1], attrs) + (if last in attrs then [last] else [])
  }

  /** The tuples `available_actions` yields for a list of declared names. */
  function Descriptors(names: seq<string>, attrs: map<string, ActionAttrs>): (ds: seq<Descriptor>)
    ensures |ds| <= |names|
    ensures forall i :: 0 <= i < |ds| ==> ds[i].name in attrs && ds[i] == Describe(ds[i].name, attrs[ds[i].name])
  {
    if names == [] then []
    else
      var last := names[|names| - 1];
      Descriptors(names[..|names| - 1], attrs) + (if last in attrs then [Describe(last, attrs[last])] else [])
  }

  /** `available_actions` as a sequence: nothing when `available_action_names` is `None`. */
  function DeclaredActions(names: Option<seq<string>>, attrs: map<string, ActionAttrs>): seq<Descriptor> {
    match names
    case None => []
    case Some(ns) => Descriptors(ns, attrs)
  }

  /** The generator behind `available_actions`, run to the end. */
  method AvailableActions(view: ViewConfig) returns (ds: seq<Descriptor>)
    ensures ds == DeclaredActions(view.actionNames, view.actions)
  {
    ds := [];
    if view.actionNames.Some? {
      var names := view.actionNames.value;
      var i := 0;
      while i < |names|
        invariant 0 <= i <= |names|
        invariant ds == Descriptors(names[..i], view.actions)
      {
        var action := names[i];
        assert names[..i + 1][..i] == names[..i];
        if action in view.actions {
          var actionMethod := view.actions[action];
          var verboseName := actionMethod.verboseName.GetOr(Humanize(action));
          var showOnBulk := actionMethod.showOnBulk.GetOr(true);
          var showConfirm := actionMethod.showOnBulk.GetOr(false);
          ds := ds + [Descriptor(action, verboseName, showOnBulk, showConfirm)];
        }
        i := i + 1;
      }
      assert names[..i] == names;
    }
  }

  /** `available_actions` yields one tuple per declared name that the view has, in declared
      order, and drops the other names. Its label, bulk flag and fourth element take the defaults
      `Humanize(name)`, `True` and `False` when the attributes are absent. */
  lemma {:induction false} DescriptorsFollowDeclaredNames(names: seq<string>, attrs: map<string, ActionAttrs>)
    ensures var ds := Descriptors(names, attrs);
      |ds| == |Present(names, attrs)| &&
      forall i :: 0 <= i < |ds| ==> ds[i] == Describe(Present(names, attrs)[i], attrs[ds[i].name])
  {
    if names != [] {
      DescriptorsFollowDeclaredNames(names[..|names| - 1], attrs);
    }
  }

  /** A declared name yields a tuple exactly when the view has that attribute; with no declared
      list nothing is yielded. */
  lemma DeclaredActionsNames(names: Option<seq<string>>, attrs: map<string, ActionAttrs>, n: string)
    ensures names.None? ==> DeclaredActions(names, attrs) == []
    ensures names.Some? ==>
      ((exists d :: d in DeclaredActions(names, attrs) && d.name == n) <==> n in names.value && n in attrs)
  {
    if names.Some? {
      var ns := names.value;
      var ds := Descriptors(ns, attrs);
      var present := Present(ns, attrs);
      DescriptorsFollowDeclaredNames(ns, attrs);
      if n in ns && n in attrs {
        var i :| 0 <= i < |present| && present[i] == n;
        assert ds[i] in ds && ds[i].name == n;
      }
      if exists d :: d in ds && d.name == n {
        var d :| d in ds && d.name == n;
        var i :| 0 <= i < |ds| && ds[i] == d;
        assert present[i] in present;
      }
    }
  }

  /** The tuple as evidently intended: the fourth element is the `show_confirm` attribute. */
  function IntendedDescribe(name: string, a: ActionAttrs): Descriptor {
    Descriptor(name, VerboseName(name, a), a.showOnBulk.GetOr(true), a.showConfirm.GetOr(false))
  }

  function IntendedDescriptors(names: seq<string>, attrs: map<string, ActionAttrs>): (ds: seq<Descriptor>)
    ensures |ds| == |Descriptors(names, attrs)|
    ensures forall i :: 0 <= i < |ds| ==>
      ds[i].name in attrs &&
      ds[i].showConfirm == attrs[ds[i].name].showConfirm.GetOr(false) &&
      ds[i].(showConfirm := false) == Descriptors(names, attrs)[i].(showConfirm := false)
  {
    if names == [] then []
    else
      var last := names[|names| - 1];
      IntendedDescriptors(names[..|names| - 1], attrs) + (if last in attrs then [IntendedDescribe(last, attrs[last])] else [])
  }

  /** `available_actions` with the fourth element read from `show_confirm`. It differs from the
      source's list in that element only. */
  function IntendedActions(names: Option<seq<string>>, attrs: map<string, ActionAttrs>): (ds: seq<Descriptor>)
    ensures |ds| == |DeclaredActions(names, attrs)|
    ensures forall i :: 0 <= i < |ds| ==>
      ds[i].name in attrs &&
      ds[i].showConfirm == attrs[ds[i].name].showConfirm.GetOr(false) &&
      ds[i].name == DeclaredActions(names, attrs)[i].name &&
      ds[i].verboseName == DeclaredActions(names, attrs)[i].verboseName &&
      ds[i].showOnBulk == DeclaredActions(names, attrs)[i].showOnBulk
  {
    match names
    case None => []
    case Some(ns) =>
      var ds := IntendedDescriptors(ns, attrs);
      assert forall i :: 0 <= i < |ds| ==> ds[i].(showConfirm := false).name == ds[i].name;
      ds
  }

  /** An action that asks for confirmation and says nothing about bulk use gets `False` as its
      fourth element, and one shown in bulk without asking for confirmation gets `True`. */
  lemma ConfirmFlagReadsBulkAttribute(h: Record -> HandlerOutcome)
    ensures Describe("archivar", ActionAttrs(None, None, Some(true), None, h)).showConfirm == false
    ensures Describe("archivar", ActionAttrs(None, Some(true), Some(false), None, h)).showConfirm == true
    ensures IntendedDescribe("archivar", ActionAttrs(None, None, Some(true), None, h)).showConfirm == true
  {
  }
}
