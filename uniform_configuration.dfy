/** The uniform-configuration page (src/routes/admin/uniform-configuration/+page.server.js):
    the lookup of existing configurations by course and gender that `load`
    builds, and the `create`, `update` and `delete` actions, whose every
    failure leaves the action as a status-500 error. */
module UniformConfiguration {
  import opened Common
  import opened Text
  import opened Forms

  /** A stored configuration row as `load` reads it. */
  datatype ConfigRow = ConfigRow(courseId: Option<int>, gender: string, wearType: string)

  /** One entry of `measurement_specs`: `parseInt` of the selected id (None
      is NaN) and the texts handed to `parseFloat` for the two numbers. */
  datatype MeasurementSpec = MeasurementSpec(
    measurementTypeId: Option<int>,
    baseCm: string,
    additionalCostPerCm: string)

  /** The values written by `create` and `update`; `basePrice` is the text
      handed to `parseFloat`. */
  datatype ConfigValues = ConfigValues(
    gender: string,
    courseId: string,
    wearType: string,
    measurementSpecs: seq<MeasurementSpec>,
    basePrice: string)

  /** How an action ends: a saved row, a removed row, or a thrown
      `error(status, message)`; the message of a re-raised SvelteKit error is
      `undefined` (None). */
  datatype Outcome =
    | Created(values: ConfigValues)
    | Updated(id: string, values: ConfigValues)
    | Deleted
    | HttpError(status: int, message: Option<string>)

  // ---------------------------------------------------------------- load

  /** `config.course_id?.toString()`: a missing course becomes the key "undefined". */
  function CourseKey(c: ConfigRow): (key: string) {
    match c.courseId
    case Some(id) => IntToString(id)
    case None => "undefined"
  }

  /** The course keys of the configurations. */
  ghost function CourseKeys(configs: seq<ConfigRow>): set<string> {
    set i | 0 <= i < |configs| :: CourseKey(configs[i])
  }

  /** The genders of the configurations with this course key. */
  ghost function Genders(configs: seq<ConfigRow>, course: string): set<string> {
    set i | 0 <= i < |configs| && CourseKey(configs[i]) == course :: configs[i].gender
  }

  /** The wear types of the configurations with this course key and gender. */
  ghost function WearTypes(configs: seq<ConfigRow>, course: string, gender: string): set<string> {
    set i | 0 <= i < |configs| && CourseKey(configs[i]) == course && configs[i].gender == gender
      :: configs[i].wearType
  }

  /** The lookup is exact for `configs`: its courses are the configurations'
      course keys, the genders under a course are those configured for it,
      and the set under both holds exactly their wear types. */
  ghost predicate DescribesConfigs(m: map<string, map<string, set<string>>>, configs: seq<ConfigRow>) {
    && m.Keys == CourseKeys(configs)
    && (forall course :: course in m ==> m[course].Keys == Genders(configs, course))
    && (forall course, gender :: course in m && gender in m[course] ==>
          m[course][gender] == WearTypes(configs, course, gender))
  }

  lemma AppendConfig(configs: seq<ConfigRow>, c: ConfigRow, xs: seq<ConfigRow>)
    requires xs == configs + [c]
    ensures CourseKeys(xs) == CourseKeys(configs) + {CourseKey(c)}
    ensures forall course ::
      Genders(xs, course) == Genders(configs, course) + (if CourseKey(c) == course then {c.gender} else {})
    ensures forall course, gender ::
      WearTypes(xs, course, gender) == WearTypes(configs, course, gender)
        + (if CourseKey(c) == course && c.gender == gender then {c.wearType} else {})
  {
    assert forall i :: 0 <= i < |configs| ==> xs[i] == configs[i];
    assert xs[|configs|] == c;
  }

  lemma WearTypesConfigured(configs: seq<ConfigRow>, course: string, gender: string)
    ensures WearTypes(configs, course, gender) != {} ==>
      course in CourseKeys(configs) && gender in Genders(configs, course)
  {
    if WearTypes(configs, course, gender) != {} {
      var x :| x in WearTypes(configs, course, gender);
      var i :| 0 <= i < |configs| && CourseKey(configs[i]) == course && configs[i].gender == gender
        && configs[i].wearType == x;
      assert course in CourseKeys(configs);
      assert gender in Genders(configs, course);
    }
  }

  /** One step of the `forEach`: the configuration's wear type added under
      its course and gender, creating the levels that are missing. */
  function AddConfig(m: map<string, map<string, set<string>>>, c: ConfigRow): (r: map<string, map<string, set<string>>>) {
    var inner := if CourseKey(c) in m then m[CourseKey(c)] else map[];
    var wears := if c.gender in inner then inner[c.gender] else {};
    m[CourseKey(c) := inner[c.gender := wears + {c.wearType}]]
  }

  lemma AddConfigGenders(m: map<string, map<string, set<string>>>, configs: seq<ConfigRow>, c: ConfigRow,
                         xs: seq<ConfigRow>, k: string)
    requires DescribesConfigs(m, configs)
    requires xs == configs + [c]
    requires k in AddConfig(m, c)
    ensures AddConfig(m, c)[k].Keys == Genders(xs, k)
  {
    AppendConfig(configs, c, xs);
    if k != CourseKey(c) {
      assert AddConfig(m, c)[k] == m[k];
    }
  }

  lemma AddConfigWears(m: map<string, map<string, set<string>>>, configs: seq<ConfigRow>, c: ConfigRow,
                       xs: seq<ConfigRow>, k: string, g: string)
    requires DescribesConfigs(m, configs)
    requires xs == configs + [c]
    requires k in AddConfig(m, c) && g in AddConfig(m, c)[k]
    ensures AddConfig(m, c)[k][g] == WearTypes(xs, k, g)
  {
    AppendConfig(configs, c, xs);
    var m' := AddConfig(m, c);
    if k == CourseKey(c) && g == c.gender {
      WearTypesConfigured(configs, k, g);
    } else if k == CourseKey(c) {
      assert m'[k][g] == m[k][g];
    } else {
      assert m'[k] == m[k];
    }
  }

  lemma AddConfigDescribes(m: map<string, map<string, set<string>>>, configs: seq<ConfigRow>, c: ConfigRow,
                            xs: seq<ConfigRow>)
    requires DescribesConfigs(m, configs)
    requires xs == configs + [c]
    ensures DescribesConfigs(AddConfig(m, c), xs)
  {
    AppendConfig(configs, c, xs);
    var m' := AddConfig(m, c);
    forall k | k in m'
      ensures m'[k].Keys == Genders(xs, k)
    {
      AddConfigGenders(m, configs, c, xs, k);
    }
    forall k, g | k in m' && g in m'[k]
      ensures m'[k][g] == WearTypes(xs, k, g)
    {
      AddConfigWears(m, configs, c, xs, k, g);
    }
  }

  /** `configurationMap`: the `forEach` that creates the nested objects on
      first use and adds each configuration's wear type to its set. */
  method BuildConfigurationMap(configs: seq<ConfigRow>) returns (m: map<string, map<string, set<string>>>)
    ensures DescribesConfigs(m, configs)
  {
    m := map[];
    var i := 0;
    while i < |configs|
      invariant 0 <= i <= |configs|
      invariant DescribesConfigs(m, configs[..i])
    {
      var c := configs[i];
      assert configs[..i + 1] == configs[..i] + [c];
      AddConfigDescribes(m, configs[..i], c, configs[..i + 1]);
      m := AddConfig(m, c);
      i := i + 1;
    }
    assert configs[..i] == configs;
  }

  /** A configuration whose course, gender and wear type are already in the
      lookup leaves it unchanged when it comes again: repeats collapse. */
  lemma DuplicatesCollapse(m: map<string, map<string, set<string>>>, configs: seq<ConfigRow>, c: ConfigRow)
    requires DescribesConfigs(m, configs)
    requires c in configs
    ensures CourseKey(c) in m && c.gender in m[CourseKey(c)]
    ensures c.wearType in m[CourseKey(c)][c.gender]
    ensures AddConfig(m, c) == m
  {
    var i :| 0 <= i < |configs| && configs[i] == c;
    assert CourseKey(c) in CourseKeys(configs);
    assert c.gender in Genders(configs, CourseKey(c));
    assert c.wearType in WearTypes(configs, CourseKey(c), c.gender);
    var inner := m[CourseKey(c)];
    assert inner[c.gender] + {c.wearType} == inner[c.gender];
    assert inner[c.gender := inner[c.gender] + {c.wearType}] == inner;
  }

  // ------------------------------------------------- create / update / delete

  /** `formData.get(name) || '0'`. */
  function SpecText(form: FormData, name: string): (r: string)
    ensures Filled(Get(form, name)) ==> r == Get(form, name).value
    ensures !Filled(Get(form, name)) ==> r == "0"
  {
    var v := Get(form, name);
    if Filled(v) then v.value else "0"
  }

  /** `measurement_specs`: one entry per selected measurement id, in the
      order selected, with the id parsed and both numbers defaulting to 0. */
  function MeasurementSpecs(form: FormData): (r: seq<MeasurementSpec>)
    ensures var selected := GetAll(form, "selectedMeasurements");
      && |r| == |selected|
      && forall i :: 0 <= i < |r| ==>
           && r[i].measurementTypeId == ParseInt(selected[i])
           && r[i].baseCm == SpecText(form, "baseCm_" + selected[i])
           && r[i].additionalCostPerCm == SpecText(form, "costPerCm_" + selected[i])
  {
    var selected := GetAll(form, "selectedMeasurements");
    seq(|selected|, i requires 0 <= i < |selected| =>
      MeasurementSpec(
        ParseInt(selected[i]),
        SpecText(form, "baseCm_" + selected[i]),
        SpecText(form, "costPerCm_" + selected[i])))
  }

  /** The required-field test shared by `create` and `update`: gender,
      course and wear type filled, a base price that parses to a non-zero
      number, and at least one measurement selected. */
  predicate HasRequiredFields(form: FormData) {
    && Filled(Get(form, "gender"))
    && Filled(Get(form, "courseId"))
    && Filled(Get(form, "wearType"))
    && ParseFloatClass(Get(form, "basePrice")) == NonZero
    && |MeasurementSpecs(form)| > 0
  }

  function ValuesOf(form: FormData): ConfigValues
    requires HasRequiredFields(form)
  {
    ConfigValues(
      Get(form, "gender").value,
      Get(form, "courseId").value,
      Get(form, "wearType").value,
      MeasurementSpecs(form),
      Get(form, "basePrice").value)
  }

  /** `actions.create`, given the insert's error message, if any. */
  function Create(form: FormData, insertError: Option<string>): Outcome {
    if !HasRequiredFields(form) then HttpError(500, None)
    else if insertError.Some? then HttpError(500, insertError)
    else Created(ValuesOf(form))
  }

  /** `actions.update`, given the update's error message, if any. */
  function Update(form: FormData, updateError: Option<string>): Outcome {
    var id := Get(form, "id");
    if !Filled(id) || !HasRequiredFields(form) then HttpError(500, None)
    else if updateError.Some? then HttpError(500, updateError)
    else Updated(id.value, ValuesOf(form))
  }

  /** `actions.delete`, given the delete's error message, if any. */
  function Delete(form: FormData, deleteError: Option<string>): Outcome {
    var id := Get(form, "id");
    if !Filled(id) then HttpError(500, None)
    else if deleteError.Some? then HttpError(500, deleteError)
    else Deleted
  }

  /** Create saves exactly when every required field is present and the
      insert succeeds; every other ending is a 500, and the one raised for a
      missing field has lost its message to the re-raise. */
  lemma CreateOutcomes(form: FormData, insertError: Option<string>)
    ensures Create(form, insertError).Created? <==> HasRequiredFields(form) && insertError.None?
    ensures !Create(form, insertError).Created? ==> Create(form, insertError).HttpError?
    ensures Create(form, insertError).HttpError? ==> Create(form, insertError).status == 500
    ensures !HasRequiredFields(form) ==> Create(form, insertError) == HttpError(500, None)
    ensures Create(form, insertError).Created? ==>
      Create(form, insertError).values.measurementSpecs == MeasurementSpecs(form)
  {
  }

  /** A base price that is missing, unparsable or zero fails create, whatever
      else the form holds. */
  lemma BasePriceRequired(form: FormData, insertError: Option<string>)
    requires ParseFloatClass(Get(form, "basePrice")) != NonZero
    ensures Create(form, insertError) == HttpError(500, None)
  {
  }

  /** With no measurement selected, create fails. */
  lemma SelectionRequired(form: FormData, insertError: Option<string>)
    requires forall i :: 0 <= i < |form| ==> form[i].key != "selectedMeasurements"
    ensures Create(form, insertError) == HttpError(500, None)
  {
  }

  /** Update is create plus the id: without an id it fails like a missing
      field, with one it ends as create would, saving the same values. */
  lemma UpdateIsCreateWithId(form: FormData, e: Option<string>)
    ensures !Filled(Get(form, "id")) ==> Update(form, e) == HttpError(500, None)
    ensures Filled(Get(form, "id")) ==>
      Update(form, e) == match Create(form, e)
                         case Created(values) => Updated(Get(form, "id").value, values)
                         case other => other
  {
  }

  /** Delete needs only the id; every failure is a 500. */
  lemma DeleteOutcomes(form: FormData, deleteError: Option<string>)
    ensures Delete(form, deleteError) == Deleted <==> Filled(Get(form, "id")) && deleteError.None?
    ensures Delete(form, deleteError) != Deleted ==> Delete(form, deleteError).HttpError?
                                                     && Delete(form, deleteError).status == 500
  {
  }
}
