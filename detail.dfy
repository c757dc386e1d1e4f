/** `GenericDetailView.get_context_data`: the label/value list a detail page shows for one model
    instance, and its title. */
module Detail {
  import opened Wrappers
  import opened Text

  /** A Python value as the field list handles it: `None`, a boolean, a string, or anything else
      by its rendering. */
  datatype PyValue = PyNone | PyBool(b: bool) | PyStr(s: string) | PyOther(repr: string)

  /** One entry of `instance._meta.get_fields()` together with what the instance holds for it:
      the value of `getattr(instance, name)`, the result of `get_<name>_display()` when the
      instance has that method, and `verbose_name` (`None` when reading and capitalising it
      raises). */
  datatype Field = Field(
    name: string,
    concrete: bool,
    manyToMany: bool,
    verboseName: Option<string>,
    value: PyValue,
    display: Option<PyValue>)

  /** One `{"label": ..., "value": ...}` dictionary of `field_list`. */
  datatype Entry = Entry(caption: string, value: PyValue)

  /** The fields the page lists: concrete, not many-to-many and not excluded. */
  predicate Listed(f: Field, exclude: seq<string>) {
    f.concrete && !f.manyToMany && f.name !in exclude
  }

  /** `None` becomes an em dash and a boolean becomes `Sí` or `No`; everything else is kept. */
  function Normalize(v: PyValue): (r: PyValue)
    ensures !r.PyNone? && !r.PyBool?
    ensures !v.PyNone? && !v.PyBool? ==> r == v
    ensures v.PyNone? ==> r == PyStr("—")
    ensures v.PyBool? ==> r == PyStr(if v.b then "Sí" else "No")
  {
    match v
    case PyNone => PyStr("—")
    case PyBool(b) => PyStr(if b then "Sí" else "No")
    case _ => v
  }

  /** The label: the capitalised `verbose_name`, or the capitalised name when that raises. */
  function Caption(f: Field): string {
    Capitalize(f.verboseName.GetOr(f.name))
  }

  /** The entry of a listed field: the display value when there is one, normalised. */
  function EntryFor(f: Field): Entry {
    Entry(Caption(f), Normalize(f.display.GetOr(f.value)))
  }

  /** The listed fields, in `get_fields()` order. */
  function ListedFields(fields: seq<Field>, exclude: seq<string>): (r: seq<Field>)
    ensures |r| <= |fields|
    ensures forall f :: f in r <==> f in fields && Listed(f, exclude)
  {
    if fields == [] then []
    else
      var last := fields[|fields| - 1];
      assert fields == fields[..|fields| - 1] + [last];
      ListedFields(fields[..|fields| - 1], exclude) + (if Listed(last, exclude) then [last] else [])
  }

  /** `field_list` as the loop builds it. */
  function FieldEntries(fields: seq<Field>, exclude: seq<string>): seq<Entry> {
    if fields == [] then []
    else
      var last := fields[|fields| - 1];
      FieldEntries(fields[..|fields| - 1], exclude) + (if Listed(last, exclude) then [EntryFor(last)] else [])
  }

  /** The loop of `get_context_data` over the model's fields. */
  method FieldList(fields: seq<Field>, exclude: seq<string>) returns (fieldList: seq<Entry>)
    ensures fieldList == FieldEntries(fields, exclude)
  {
    fieldList := [];
    for i := 0 to |fields|
      invariant fieldList == FieldEntries(fields[..i], exclude)
    {
      var field := fields[i];
      assert fields[..i + 1][..i] == fields[..i];
      if !field.concrete || field.manyToMany {
        continue;
      }
      if field.name in exclude {
        continue;
      }
      var value := field.value;
      if field.display.Some? {
        value := field.display.value;
      }
      if value.PyNone? {
        value := PyStr("—");
      }
      if value.PyBool? {
        value := PyStr(if value.b then "Sí" else "No");
      }
      var caption := Capitalize(field.verboseName.GetOr(field.name));
      fieldList := fieldList + [Entry(caption, value)];
    }
    assert fields[..|fields|] == fields;
  }

  /** One entry per listed field, in order, each with that field's label and normalised value:
      excluded, non-concrete and many-to-many fields produce nothing. */
  lemma {:induction false} EntriesFollowListedFields(fields: seq<Field>, exclude: seq<string>)
    ensures var entries, listed := FieldEntries(fields, exclude), ListedFields(fields, exclude);
      |entries| == |listed| && forall i :: 0 <= i < |entries| ==> entries[i] == EntryFor(listed[i])
  {
    if fields != [] {
      EntriesFollowListedFields(fields[..|fields| - 1], exclude);
    }
  }

  /** No entry shows a raw `None` or boolean, and every label starts without a lower-case letter
      and goes on without an upper-case one. */
  lemma EntriesAreDisplayable(fields: seq<Field>, exclude: seq<string>, i: nat)
    requires i < |FieldEntries(fields, exclude)|
    ensures var e := FieldEntries(fields, exclude)[i];
      !e.value.PyNone? && !e.value.PyBool? &&
      (|e.caption| > 0 ==> !IsLower(e.caption[0])) &&
      forall k :: 1 <= k < |e.caption| ==> !IsUpper(e.caption[k])
  {
    EntriesFollowListedFields(fields, exclude);
  }

  /** With the default `exclude_fields = ["id"]`, no field named `id` is listed and no entry is
      built from one, whatever the model's fields. */
  lemma DefaultExcludesId(fields: seq<Field>)
    ensures forall g :: g in ListedFields(fields, ["id"]) ==> g.name != "id"
    ensures var entries, listed := FieldEntries(fields, ["id"]), ListedFields(fields, ["id"]);
      |entries| == |listed| &&
      forall i :: 0 <= i < |entries| ==> entries[i] == EntryFor(listed[i]) && listed[i].name != "id"
  {
    EntriesFollowListedFields(fields, ["id"]);
    var listed := ListedFields(fields, ["id"]);
    assert forall i :: 0 <= i < |listed| ==> listed[i] in listed;
  }

  /** With the default exclusion, a model whose only field is `id` shows nothing, and an extra
      listed field shows exactly one entry. */
  lemma DefaultExclusionExample(id: Field, f: Field)
    requires id.name == "id" && Listed(f, ["id"])
    ensures FieldEntries([id], ["id"]) == []
    ensures FieldEntries([id, f], ["id"]) == [EntryFor(f)]
  {
    assert [id, f][..1] == [id];
    assert [id][..0] == [];
  }

  /** `f"Detalle de {verbose_name.capitalize()} {instance.id}"`, with the id already rendered. */
  function DetailTitle(modelVerboseName: string, id: string): (r: string)
    ensures |r| == 12 + |modelVerboseName| + |id|
    ensures r[..11] == "Detalle de " && r[|r| - |id|..] == id
    ensures r[11..11 + |modelVerboseName|] == Capitalize(modelVerboseName) && r[11 + |modelVerboseName|] == ' '
  {
    "Detalle de " + Capitalize(modelVerboseName) + " " + id
  }
}
