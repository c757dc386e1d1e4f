/** `CottonTableView.post`: choosing the records an action request targets, running the action on
    each of them, and reducing what the runs returned to one response. */
module Dispatch {
  import opened Wrappers
  import opened Http
  import opened Views

  /** The record set a request aims at: the submitted keys, the filter replayed from
      `filter_query_string`, or nothing. */
  datatype Target = ById(ids: seq<string>) | ByFilter(params: QueryDict) | NoTarget

  datatype Resolution = Resolution(action: Option<string>, target: Target)

  /** Why `post` raised: `getattr(self, action)` failed because `action` is missing (`None`) or the
      view has no such attribute; or building the filterset or evaluating its `qs` failed. */
  datatype DispatchError = ActionLookupFailed(action: Option<string>) | FiltersetFailed

  /** The keys dropped from a replayed filter so that it covers every page. */
  const PaginationKeys: set<string> := {"page", "per_page"}

  /** `a` is `b` with some elements left out, order kept. */
  ghost predicate SubsequenceOf<T>(a: seq<T>, b: seq<T>)
    decreases |b|
  {
    a == [] ||
    (b != [] &&
     ((a[|a| - 1] == b[|b| - 1] && SubsequenceOf(a[..|a| - 1], b[..|b| - 1])) ||
      SubsequenceOf(a, b[..|b| - 1])))
  }

  /** Leaving elements out never adds a copy of one. */
  lemma {:induction false} SubsequenceCounts<T>(a: seq<T>, b: seq<T>)
    requires SubsequenceOf(a, b)
    ensures multiset(a) <= multiset(b)
    decreases |b|
  {
    if a != [] {
      assert b == b[..|b| - 1] + [b[|b| - 1]];
      if a[|a| - 1] == b[|b| - 1] && SubsequenceOf(a[..|a| - 1], b[..|b| - 1]) {
        SubsequenceCounts(a[..|a| - 1], b[..|b| - 1]);
        assert a == a[..|a| - 1] + [a[|a| - 1]];
      } else {
        SubsequenceCounts(a, b[..|b| - 1]);
      }
    }
  }

  /** Extending `b` by one element keeps `a` a subsequence, with or without that element. */
  lemma SubsequenceSnoc<T>(a: seq<T>, b: seq<T>, x: T, keep: bool)
    requires SubsequenceOf(a, b)
    ensures SubsequenceOf(a + (if keep then [x] else []), b + [x])
  {
    var b' := b + [x];
    assert b'[..|b'| - 1] == b && b'[|b'| - 1] == x;
    if keep {
      var a' := a + [x];
      assert a'[..|a'| - 1] == a && a'[|a'| - 1] == x;
      assert SubsequenceOf(a', b');
    } else {
      assert a + [] == a;
    }
  }

  /** Lines 290-315: a `pk` in the query string wins and takes the action from the query string;
      otherwise the form's action applies to its `seleccionar` list when that is non-empty, else to
      the filter in `filter_query_string` without its pagination keys, else to nothing.
      `parse` stands for `parse_qs`. */
  function Resolve(req: Request, parse: string -> QueryDict): (r: Resolution)
    ensures r.action == if "pk" in req.query then Get(req.query, "action") else Get(req.form, "action")
    ensures r.target.ById? <==> "pk" in req.query || |GetList(req.form, "seleccionar")| > 0
    ensures r.target.ByFilter? <==>
      "pk" !in req.query && |GetList(req.form, "seleccionar")| == 0 && "filter_query_string" in req.form
    ensures r.target.ById? ==> |r.target.ids| > 0
  {
    match Get(req.query, "pk")
    case Some(pk) => Resolution(Get(req.query, "action"), ById([pk]))
    case None =>
      var action := Get(req.form, "action");
      var ids := GetList(req.form, "seleccionar");
      if |ids| > 0 then Resolution(action, ById(ids))
      else if "filter_query_string" in req.form then
        Resolution(action, ByFilter(parse(Get(req.form, "filter_query_string").value) - PaginationKeys))
      else Resolution(action, NoTarget)
  }

  /** With a `pk` in the query string the selection is that one key and the action comes from
      the query string: nothing in the form body is read. */
  lemma PkShortcutIgnoresForm(req: Request, otherForm: QueryDict, parse: string -> QueryDict)
    requires "pk" in req.query
    ensures Resolve(req, parse) == Resolution(Get(req.query, "action"), ById([Get(req.query, "pk").value]))
    ensures Resolve(req.(form := otherForm), parse) == Resolve(req, parse)
  {
  }

  /** A non-empty `seleccionar` list wins over any `filter_query_string`, whatever it holds. */
  lemma SelectionBeatsFilter(req: Request, filter: string, parse: string -> QueryDict)
    requires "pk" !in req.query && |GetList(req.form, "seleccionar")| > 0
    ensures Resolve(req, parse).target == ById(GetList(req.form, "seleccionar"))
    ensures Resolve(req.(form := req.form["filter_query_string" := [filter]]), parse) == Resolve(req, parse)
  {
  }

  /** The replayed filter is the parsed query string with `page` and `per_page` removed and every
      other key kept with all its values. */
  lemma FilterDropsOnlyPagination(req: Request, parse: string -> QueryDict, k: string)
    requires Resolve(req, parse).target.ByFilter?
    ensures var parsed := parse(Get(req.form, "filter_query_string").value);
      var params := Resolve(req, parse).target.params;
      (k in params <==> k in parsed && k !in PaginationKeys) &&
      (k in params ==> params[k] == parsed[k])
  {
  }

  /** `self.model.objects.filter(pk__in=ids)`: the stored records whose key was submitted, in
      store order; a submitted key that matches nothing contributes nothing. */
  function WithPks(store: seq<Record>, ids: seq<string>): (r: seq<Record>)
    ensures SubsequenceOf(r, store)
    ensures forall x :: x in r <==> x in store && x.pk in ids
  {
    if store == [] then []
    else
      var x := store[|store| - 1];
      assert store == store[..|store| - 1] + [x];
      SubsequenceSnoc(WithPks(store[..|store| - 1], ids), store[..|store| - 1], x, x.pk in ids);
      WithPks(store[..|store| - 1], ids) + (if x.pk in ids then [x] else [])
  }

  /** `queryset_to_act_on`. `filterset(params)` stands for `filterset_class(params,
      queryset=self.get_queryset()).qs` as the loop iterates it: the records the filter engine
      yields, in its order, or `None` when building the filterset or evaluating `qs` raises.
      The result is `Success(None)` when the request selects nothing. */
  function TargetRecords(t: Target, store: seq<Record>, filterset: QueryDict -> Option<seq<Record>>)
    : (r: Result<Option<seq<Record>>, DispatchError>)
    ensures r.Failure? <==> t.ByFilter? && filterset(t.params).None?
    ensures r.Failure? ==> r.error == FiltersetFailed
    ensures r == Success(None) <==> t.NoTarget?
    ensures t.ById? ==>
      (r.Success? && r.value.Some? && SubsequenceOf(r.value.value, store) &&
       forall x :: x in r.value.value <==> x in store && x.pk in t.ids)
    ensures t.ByFilter? && filterset(t.params).Some? ==> r == Success(filterset(t.params))
  {
    match t
    case ById(ids) => Success(Some(WithPks(store, ids)))
    case ByFilter(params) =>
      (match filterset(params)
       case None => Failure(FiltersetFailed)
       case Some(qs) => Success(Some(qs)))
    case NoTarget => Success(None)
  }

  /** The records the action is called on: those whose condition is truthy, in iteration order. */
  function Invoked(records: seq<Record>, a: ActionAttrs, req: Request): (r: seq<Record>)
    ensures SubsequenceOf(r, records)
    ensures forall x :: x in r <==> x in records && Condition(a, x, req) == Truthy
  {
    if records == [] then []
    else
      var x := records[|records| - 1];
      assert records == records[..|records| - 1] + [x];
      SubsequenceSnoc(Invoked(records[..|records| - 1], a, req), records[..|records| - 1], x, Condition(a, x, req) == Truthy);
      Invoked(records[..|records| - 1], a, req) + (if Condition(a, x, req) == Truthy then [x] else [])
  }

  /** The list `results` at the end of the loop of lines 319-334: for each record in turn, what the
      action returned, when the condition was truthy and the call did not raise. */
  function Results(records: seq<Record>, a: ActionAttrs, req: Request): (r: seq<Value>)
    ensures |r| <= |Invoked(records, a, req)|
  {
    if records == [] then []
    else
      var x := records[|records| - 1];
      Results(records[..|records| - 1], a, req) +
        (if Condition(a, x, req) == Truthy && a.handler(x).Returns? then [a.handler(x).value] else [])
  }

  /** What a handler returned over a sequence of records, skipping the calls that raised. */
  function Returned(records: seq<Record>, handler: Record -> HandlerOutcome): seq<Value> {
    if records == [] then []
    else
      var x := records[|records| - 1];
      Returned(records[..|records| - 1], handler) + (if handler(x).Returns? then [handler(x).value] else [])
  }

  /** `results` holds exactly what the action returned on the records it was called on, in order:
      a condition that is falsy, raises or is missing skips the record, a raising call adds
      nothing. */
  lemma {:induction false} ResultsAreReturnsOfInvoked(records: seq<Record>, a: ActionAttrs, req: Request)
    ensures Results(records, a, req) == Returned(Invoked(records, a, req), a.handler)
  {
    if records != [] {
      var x := records[|records| - 1];
      var prefix := records[..|records| - 1];
      ResultsAreReturnsOfInvoked(prefix, a, req);
      var inv := Invoked(records, a, req);
      if Condition(a, x, req) == Truthy {
        assert inv == Invoked(prefix, a, req) + [x];
        assert inv[..|inv| - 1] == Invoked(prefix, a, req) && inv[|inv| - 1] == x;
      } else {
        assert inv == Invoked(prefix, a, req);
      }
    }
  }

  /** Failure isolation: what happens on the first records does not change what the later ones
      contribute. */
  lemma {:induction false} ResultsSplit(first: seq<Record>, later: seq<Record>, a: ActionAttrs, req: Request)
    ensures Results(first + later, a, req) == Results(first, a, req) + Results(later, a, req)
    decreases |later|
  {
    if later == [] {
      assert first + later == first;
    } else {
      var x := later[|later| - 1];
      var laterPrefix := later[..|later| - 1];
      assert (first + later)[..|first + later| - 1] == first + laterPrefix;
      ResultsSplit(first, laterPrefix, a, req);
    }
  }

  /** The action is called at most as often on a record as the record occurs in the iteration,
      so at most once on a row of the store. */
  lemma CalledAtMostOnce(records: seq<Record>, a: ActionAttrs, req: Request, x: Record)
    ensures multiset(Invoked(records, a, req))[x] <= multiset(records)[x]
    ensures Condition(a, x, req) != Truthy ==> multiset(Invoked(records, a, req))[x] == 0
  {
    SubsequenceCounts(Invoked(records, a, req), records);
  }

  /** One more record extends `results` and the called records by that record's contribution. */
  lemma StepSpecs(records: seq<Record>, i: nat, a: ActionAttrs, req: Request)
    requires i < |records|
    ensures var x := records[i];
      Results(records[..i + 1], a, req) ==
        Results(records[..i], a, req) + (if Condition(a, x, req) == Truthy && a.handler(x).Returns? then [a.handler(x).value] else []) &&
      Invoked(records[..i + 1], a, req) == Invoked(records[..i], a, req) + (if Condition(a, x, req) == Truthy then [x] else [])
  {
    assert records[..i + 1][..i] == records[..i];
  }

  /** The view has the action the request names. */
  predicate Known(action: Option<string>, actions: map<string, ActionAttrs>) {
    action.Some? && action.value in actions
  }

  /** The loop of lines 317-334. It returns the collected results and the records the action was
      called on. The attribute lookup of line 320 sits outside the `try`, so an unknown action
      fails on the first record and propagates. */
  method RunAction(records: seq<Record>, action: Option<string>, actions: map<string, ActionAttrs>, req: Request)
    returns (outcome: Result<seq<Value>, DispatchError>, invoked: seq<Record>)
    ensures |records| == 0 ==> outcome == Success([]) && invoked == []
    ensures |records| > 0 && !Known(action, actions) ==> outcome == Failure(ActionLookupFailed(action)) && invoked == []
    ensures Known(action, actions) ==>
      outcome == Success(Results(records, actions[action.value], req)) &&
      invoked == Invoked(records, actions[action.value], req)
  {
    var results: seq<Value> := [];
    invoked := [];
    var i := 0;
    while i < |records|
      invariant 0 <= i <= |records|
      invariant i > 0 ==> Known(action, actions)
      invariant i == 0 ==> results == [] && invoked == []
      invariant Known(action, actions) ==>
        results == Results(records[..i], actions[action.value], req) &&
        invoked == Invoked(records[..i], actions[action.value], req)
    {
      var obj := records[i];
      if action.None? || action.value !in actions {
        return Failure(ActionLookupFailed(action)), [];
      }
      var actionMethod := actions[action.value];
      StepSpecs(records, i, actionMethod, req);
      var condition := Condition(actionMethod, obj, req);
      if condition == Truthy {
        invoked := invoked + [obj];
        var call := actionMethod.handler(obj);
        if call.Returns? {
          results := results + [call.value];
        }
      }
      i := i + 1;
    }
    assert records[..i] == records;
    outcome := Success(results);
  }

  /** `getattr(self, action)` reaches every attribute of the view: a name the view does not
      declare in `available_action_names` is still dispatched when the view has it, although
      `available_actions` never lists it. */
  lemma UndeclaredNameIsDispatched(names: seq<string>, actions: map<string, ActionAttrs>, name: string)
    requires name in actions && name !in names
    ensures Known(Some(name), actions)
    ensures forall d :: d in DeclaredActions(Some(names), actions) ==> d.name != name
  {
    DeclaredActionsNames(Some(names), actions, name);
  }

  /** An attribute without `condition`, such as a method that is not an action, is reached but
      never called: reading `condition` raises inside the `try`, so every record is skipped and
      `post` redirects. */
  lemma NonActionIsSkipped(records: seq<Record>, a: ActionAttrs, req: Request, path: string)
    requires a.condition.None?
    ensures Invoked(records, a, req) == [] && Results(records, a, req) == []
    ensures Reconcile(Results(records, a, req), path) == Redirect(path, map[])
  {
  }

  /** Every result is an object with `status_code`. */
  predicate AllReplies(results: seq<Value>)
    ensures AllReplies(results) <==> forall v :: v in results ==> v.Reply?
  {
    if results == [] then true
    else
      assert results == [results[0]] + results[1..];
      results[0].Reply? && AllReplies(results[1..])
  }

  /** Lines 340-346: a single response is returned as it is; several results that are all
      responses give the first; anything else, no result included, redirects to the request's
      path. */
  function Reconcile(results: seq<Value>, path: string): (r: Response)
    ensures |results| == 1 && results[0].Reply? ==> r == results[0].response
    ensures |results| > 1 && (forall v :: v in results ==> v.Reply?) ==> r == results[0].response
    ensures (|results| == 0 || exists v :: v in results && !v.Reply?) ==> r == Redirect(path, map[])
    ensures r == Redirect(path, map[]) || exists v :: v in results && v.Reply? && r == v.response
  {
    if |results| == 1 && results[0].Reply? then results[0].response
    else if |results| > 1 && AllReplies(results) then results[0].response
    else Redirect(path, map[])
  }

  /** The records `post` acts on, or the failure of the filterset. */
  function Selected(req: Request, store: seq<Record>, parse: string -> QueryDict,
                    filterset: QueryDict -> Option<seq<Record>>): (r: Result<Option<seq<Record>>, DispatchError>)
    ensures "pk" in req.query ==> r == Success(Some(WithPks(store, [Get(req.query, "pk").value])))
    ensures "pk" !in req.query && |GetList(req.form, "seleccionar")| > 0 ==>
      r == Success(Some(WithPks(store, GetList(req.form, "seleccionar"))))
    ensures r == Success(None) <==>
      "pk" !in req.query && |GetList(req.form, "seleccionar")| == 0 && "filter_query_string" !in req.form
    ensures r.Failure? <==>
      "pk" !in req.query && |GetList(req.form, "seleccionar")| == 0 && "filter_query_string" in req.form &&
      filterset(Resolve(req, parse).target.params).None?
    ensures "pk" !in req.query && |GetList(req.form, "seleccionar")| == 0 && "filter_query_string" in req.form &&
            filterset(Resolve(req, parse).target.params).Some? ==>
      r == Success(filterset(Resolve(req, parse).target.params))
  {
    TargetRecords(Resolve(req, parse).target, store, filterset)
  }

  /** `post`: `store` is `self.model.objects`, `parse` is `parse_qs` and `filterset` is the filter
      engine over `self.get_queryset()`. The second result lists the records the action was called
      on. */
  method Post(req: Request, actions: map<string, ActionAttrs>, store: seq<Record>,
              parse: string -> QueryDict, filterset: QueryDict -> Option<seq<Record>>)
    returns (r: Result<Response, DispatchError>, invoked: seq<Record>)
    ensures Selected(req, store, parse, filterset).Failure? ==>
      r == Failure(FiltersetFailed) && invoked == []
    ensures Selected(req, store, parse, filterset) == Success(None) ==>
      r == Success(Redirect(req.path, map[])) && invoked == []
    ensures Selected(req, store, parse, filterset) == Success(Some([])) ==>
      r == Success(Redirect(req.path, map[])) && invoked == []
    ensures Selected(req, store, parse, filterset).Success? && Selected(req, store, parse, filterset).value.Some? &&
            |Selected(req, store, parse, filterset).value.value| > 0 &&
            !Known(Resolve(req, parse).action, actions) ==>
      r == Failure(ActionLookupFailed(Resolve(req, parse).action)) && invoked == []
    ensures Selected(req, store, parse, filterset).Success? && Selected(req, store, parse, filterset).value.Some? &&
            Known(Resolve(req, parse).action, actions) ==>
      var records := Selected(req, store, parse, filterset).value.value;
      var a := actions[Resolve(req, parse).action.value];
      r == Success(Reconcile(Results(records, a, req), req.path)) && invoked == Invoked(records, a, req)
  {
    var res := Resolve(req, parse);
    var targets := TargetRecords(res.target, store, filterset);
    invoked := [];
    if targets.Failure? {
      return Failure(targets.error), [];
    }
    if targets.value.Some? {
      var outcome;
      outcome, invoked := RunAction(targets.value.value, res.action, actions, req);
      if outcome.Failure? {
        return Failure(outcome.error), invoked;
      }
      r := Success(Reconcile(outcome.value, req.path));
    } else {
      r := Success(Redirect(req.path, map[]));
    }
  }
}
