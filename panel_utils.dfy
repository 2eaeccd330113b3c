/**
 * The panel's audit helper: the old/new pair of every field an edit form
 * changed, stored as the `altered_fields` JSON of an ActionLog entry.
 * Field values are modelled as strings; a key missing from `initial` or
 * `cleaned_data` reads as None, as `dict.get` gives.
 */
module PanelUtils {
  import opened Validation

  /** One `{'old': ..., 'new': ...}` entry. */
  datatype Change = Change(before: Option<string>, after: Option<string>)

  /** What get_changed_fields reads of a bound form. */
  datatype EditForm = EditForm(
    instancePk: Option<int>,
    changedData: seq<string>,
    initial: map<string, string>,
    cleanedData: map<string, string>)

  /** `d.get(key)` */
  function Get(d: map<string, string>, key: string): (r: Option<string>)
    ensures r.Some? <==> key in d
    ensures r.Some? ==> r.value == d[key]
  {
    if key in d then Some(d[key]) else None
  }

  /** `form.instance.pk` is truthy: the form edits a stored row (pk 0 or None would be a creation form). */
  predicate IsEditForm(form: EditForm) {
    form.instancePk.Some? && form.instancePk.value != 0
  }

  /** The diff of an edit form: each changed field's initial and cleaned value. */
  function Diff(form: EditForm): map<string, Change> {
    map name | name in form.changedData :: Change(Get(form.initial, name), Get(form.cleanedData, name))
  }

  /**
   * get_changed_fields: refuses creation forms; otherwise one entry per name
   * in `changed_data`, pairing the initial value with the cleaned one.
   */
  method ChangedFields(form: EditForm) returns (r: Result<map<string, Change>>)
    ensures r.Err? <==> !IsEditForm(form)
    ensures r.Err? ==> r.codes == [EditFormsOnly]
    ensures r.Ok? ==> r.value == Diff(form)
    ensures r.Ok? ==> r.value.Keys == set name | name in form.changedData
    ensures r.Ok? ==> forall name :: name in r.value ==>
      r.value[name] == Change(Get(form.initial, name), Get(form.cleanedData, name))
  {
    if !IsEditForm(form) {
      return Err([EditFormsOnly]);
    }
    var d: map<string, Change> := map[];
    var i := 0;
    while i < |form.changedData|
      invariant 0 <= i <= |form.changedData|
      invariant d.Keys == set name | name in form.changedData[..i]
      invariant forall name :: name in d ==> d[name] == Change(Get(form.initial, name), Get(form.cleanedData, name))
    {
      var name := form.changedData[i];
      d := d[name := Change(Get(form.initial, name), Get(form.cleanedData, name))];
      assert form.changedData[..i + 1] == form.changedData[..i] + [name];
      i := i + 1;
    }
    assert form.changedData[..i] == form.changedData;
    return Ok(d);
  }
}
