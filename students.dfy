/** The students page (src/routes/admin/students/+page.server.js): the
    uniform configurations grouped by gender and course and the measurement
    types indexed by id that `load` returns, and the `create`, `edit` and
    `delete` actions with their field checks, the `measurement_<id>` form
    fields they collect and the statuses their failures map to.  The
    database is represented by the rows and errors it returns. */
module Students {
  import opened Common
  import opened Text
  import opened Forms
  import UniformConfiguration

  // ------------------------------------------------------------ last assignment wins

  /** Assigning `m[key(x)] = value(x)` for each item in turn, as a `for`
      loop over an object or `Object.fromEntries` does: a later item
      overwrites an earlier one with the same key; items without a key are
      skipped. */
  function LastWins<T, K, V>(xs: seq<T>, key: T -> Option<K>, value: T -> V): (m: map<K, V>) {
    if xs == [] then map[]
    else
      var m := LastWins(xs[..|xs| - 1], key, value);
      match key(xs[|xs| - 1])
      case None => m
      case Some(k) => m[k := value(xs[|xs| - 1])]
  }

  /** Under `k` the map holds the value of the last item with that key, and
      holds nothing when no item has it.  The returned `j` is that item's
      index, or -1. */
  lemma {:induction false} LastAssigned<T, K, V>(xs: seq<T>, key: T -> Option<K>, value: T -> V, k: K) returns (j: int)
    ensures -1 <= j < |xs|
    ensures j == -1 <==> k !in LastWins(xs, key, value)
    ensures j >= 0 ==> key(xs[j]) == Some(k) && LastWins(xs, key, value)[k] == value(xs[j])
    ensures forall i :: j < i < |xs| ==> key(xs[i]) != Some(k)
  {
    if xs == [] {
      j := -1;
    } else if key(xs[|xs| - 1]) == Some(k) {
      j := |xs| - 1;
    } else {
      var ys := xs[..|xs| - 1];
      j := LastAssigned(ys, key, value, k);
      forall i | j < i < |xs|
        ensures key(xs[i]) != Some(k)
      {
        if i < |ys| {
          assert xs[i] == ys[i];
        }
      }
    }
  }

  // ------------------------------------------------------------ load

  /** A `uniform_configuration` row; null columns are None. */
  datatype ConfigRow = ConfigRow(
    id: int,
    gender: Option<string>,
    courseId: Option<int>,
    measurementSpecs: Option<seq<UniformConfiguration.MeasurementSpec>>,
    wearType: string,
    basePrice: Option<real>)

  /** A configuration as `load` lists it, with the defaults filled in. */
  datatype GroupedConfig = GroupedConfig(
    id: int,
    gender: Option<string>,
    courseId: Option<int>,
    measurementSpecs: seq<UniformConfiguration.MeasurementSpec>,
    wearType: string,
    basePrice: real)

  /** `${value}` of a column that may be null. */
  function Interpolate(v: Option<string>): string {
    match v
    case Some(s) => s
    case None => "null"
  }

  /** The key `${config.gender}_${config.course_id}`. */
  function GroupKey(c: ConfigRow): string {
    Interpolate(c.gender) + "_" + Interpolate(if c.courseId.Some? then Some(IntToString(c.courseId.value)) else None)
  }

  /** `measurement_specs || []` and `base_price || 0`. */
  function WithDefaults(c: ConfigRow): (g: GroupedConfig)
    ensures g.measurementSpecs == c.measurementSpecs.GetOr([])
    ensures g.basePrice == c.basePrice.GetOr(0.0)
    ensures g.id == c.id && g.gender == c.gender && g.courseId == c.courseId && g.wearType == c.wearType
  {
    GroupedConfig(c.id, c.gender, c.courseId, c.measurementSpecs.GetOr([]), c.wearType, c.basePrice.GetOr(0.0))
  }

  /** Pushing `value(x)` onto the list under `key(x)` for each item in
      turn, a missing list starting empty. */
  function GroupBy<T, K, V>(xs: seq<T>, key: T -> K, value: T -> V): (grouped: map<K, seq<V>>) {
    if xs == [] then map[]
    else
      var groups := GroupBy(xs[..|xs| - 1], key, value);
      var k := key(xs[|xs| - 1]);
      groups[k := (if k in groups then groups[k] else []) + [value(xs[|xs| - 1])]]
  }

  /** The values of the items with key `k`, in order. */
  function Members<T, K(==), V>(xs: seq<T>, key: T -> K, value: T -> V, k: K): (members: seq<V>) {
    if xs == [] then []
    else Members(xs[..|xs| - 1], key, value, k) + (if key(xs[|xs| - 1]) == k then [value(xs[|xs| - 1])] else [])
  }

  /** The list lengths, as a dictionary of their own. */
  function Sizes<K, V>(groups: map<K, seq<V>>): (sizes: map<K, int>) {
    map k | k in groups :: |groups[k]|
  }

  /** Under every key the lists hold exactly the values of the items with
      that key, in order; a key is present exactly when some item has it. */
  lemma {:induction false} GroupAt<T, K, V>(xs: seq<T>, key: T -> K, value: T -> V, k: K)
    ensures k in GroupBy(xs, key, value) <==> Members(xs, key, value, k) != []
    ensures k in GroupBy(xs, key, value) ==> GroupBy(xs, key, value)[k] == Members(xs, key, value, k)
  {
    if xs != [] {
      GroupAt(xs[..|xs| - 1], key, value, k);
    }
  }

  /** Every item is listed once: the lengths add up to the number of items. */
  lemma {:induction false} GroupSizes<T, K, V>(xs: seq<T>, key: T -> K, value: T -> V)
    ensures MapSum(Sizes(GroupBy(xs, key, value))) == |xs|
  {
    if xs != [] {
      var groups := GroupBy(xs[..|xs| - 1], key, value);
      var k := key(xs[|xs| - 1]);
      var before := if k in groups then |groups[k]| else 0;
      GroupSizes(xs[..|xs| - 1], key, value);
      assert Sizes(GroupBy(xs, key, value)) == Sizes(groups)[k := before + 1];
      MapSumUpdate(Sizes(groups), k, before + 1);
    }
  }

  /** An item is listed under its own key. */
  lemma {:induction false} ListedUnderOwnKey<T, K, V>(xs: seq<T>, key: T -> K, value: T -> V, i: nat)
    requires i < |xs|
    ensures value(xs[i]) in Members(xs, key, value, key(xs[i]))
  {
    if i < |xs| - 1 {
      ListedUnderOwnKey(xs[..|xs| - 1], key, value, i);
    }
  }

  /** The lists `load` builds from `configs`. */
  function Grouped(configs: seq<ConfigRow>): map<string, seq<GroupedConfig>> {
    GroupBy(configs, GroupKey, WithDefaults)
  }

  /** The loop of `configsByGenderAndCourse`: for each item, start its
      key's list when the key is new, then push the item's value onto it. */
  method PushEach<T, K, V>(xs: seq<T>, key: T -> K, value: T -> V) returns (groups: map<K, seq<V>>)
    ensures groups == GroupBy(xs, key, value)
  {
    groups := map[];
    for i := 0 to |xs|
      invariant groups == GroupBy(xs[..i], key, value)
    {
      assert xs[..i + 1][..i] == xs[..i];
      var k := key(xs[i]);
      if k !in groups {
        groups := groups[k := []];
      }
      groups := groups[k := groups[k] + [value(xs[i])]];
    }
    assert xs[..|xs|] == xs;
  }

  /** What grouping promises for every key at once: the lists hold exactly
      the members of each key, and they hold every item once. */
  lemma GroupFacts<T, K, V>(xs: seq<T>, key: T -> K, value: T -> V)
    ensures forall k :: k in GroupBy(xs, key, value) <==> Members(xs, key, value, k) != []
    ensures forall k :: k in GroupBy(xs, key, value) ==> GroupBy(xs, key, value)[k] == Members(xs, key, value, k)
    ensures MapSum(Sizes(GroupBy(xs, key, value))) == |xs|
  {
    forall k
      ensures k in GroupBy(xs, key, value) <==> Members(xs, key, value, k) != []
    {
      GroupAt(xs, key, value, k);
    }
    forall k | k in GroupBy(xs, key, value)
      ensures GroupBy(xs, key, value)[k] == Members(xs, key, value, k)
    {
      GroupAt(xs, key, value, k);
    }
    GroupSizes(xs, key, value);
  }

  /** `configsByGenderAndCourse`: each configuration pushed, with its
      defaults, onto the list under its gender and course; no rows (null)
      give an empty dictionary.  Every configuration is listed exactly once,
      under its own key. */
  method GroupConfigs(configs: Option<seq<ConfigRow>>) returns (groups: map<string, seq<GroupedConfig>>)
    ensures groups == Grouped(configs.GetOr([]))
    ensures forall key :: key in groups <==> Members(configs.GetOr([]), GroupKey, WithDefaults, key) != []
    ensures forall key :: key in groups ==> groups[key] == Members(configs.GetOr([]), GroupKey, WithDefaults, key)
    ensures MapSum(Sizes(groups)) == |configs.GetOr([])|
  {
    var xs := configs.GetOr([]);
    groups := PushEach(xs, GroupKey, WithDefaults);
    GroupFacts(xs, GroupKey, WithDefaults);
  }

  /** A `measurement_types` row. */
  datatype MeasurementType = MeasurementType(id: int, name: string)

  function TypeId(m: MeasurementType): Option<int> { Some(m.id) }

  function Itself(m: MeasurementType): MeasurementType { m }

  /** `Object.fromEntries((measurementTypes || []).map(m => [m.id, m]))`. */
  function IndexById(types: Option<seq<MeasurementType>>): map<int, MeasurementType> {
    LastWins(types.GetOr([]), TypeId, Itself)
  }

  /** The index holds exactly the types' ids; each id leads to a type with
      that id, the last one listed; with distinct ids every type is found
      under its own id. */
  lemma IndexByIdFinds(types: seq<MeasurementType>, id: int)
    ensures id in IndexById(Some(types)) <==> exists i :: 0 <= i < |types| && types[i].id == id
    ensures id in IndexById(Some(types)) ==>
      exists j :: && 0 <= j < |types| && types[j] == IndexById(Some(types))[id] && types[j].id == id
                  && forall l :: j < l < |types| ==> types[l].id != id
  {
    var j := LastAssigned(types, TypeId, Itself, id);
    if j == -1 {
      forall i | 0 <= i < |types|
        ensures types[i].id != id
      {
        assert TypeId(types[i]) != Some(id);
      }
    } else {
      assert types[j].id == id;
      forall l | j < l < |types|
        ensures types[l].id != id
      {
        assert TypeId(types[l]) != Some(id);
      }
    }
  }

  /** With distinct ids, every type is retrievable by its own id. */
  lemma IndexRetrievable(types: seq<MeasurementType>, i: nat)
    requires forall a, b :: 0 <= a < b < |types| ==> types[a].id != types[b].id
    requires i < |types|
    ensures types[i].id in IndexById(Some(types))
    ensures IndexById(Some(types))[types[i].id] == types[i]
  {
    var j := LastAssigned(types, TypeId, Itself, types[i].id);
  }

  /** A failed query, as the thrown error carries it: its `code`, `message`
      and `details`, each empty when absent. */
  datatype ErrorInfo = ErrorInfo(code: string, message: string, details: string)

  /** What a query returned: rows (null is None) or an error. */
  datatype Query<T> = Rows(data: Option<seq<T>>) | QueryError(error: ErrorInfo)

  /** `load`'s result, or the `error(500, ...)` it throws. */
  datatype LoadOutcome<S, C> =
    | Loaded(students: seq<S>, courses: seq<C>, uniformConfigs: map<string, seq<GroupedConfig>>,
             measurementTypes: map<int, MeasurementType>)
    | LoadFailed(status: int, message: string, details: string)

  /** `err?.message || 'Internal server error'`. */
  function LoadMessage(e: ErrorInfo): string {
    if e.message != "" then e.message else "Internal server error"
  }

  /** `err?.details || 'Unknown error occurred while fetching data'`. */
  function LoadDetails(e: ErrorInfo): string {
    if e.details != "" then e.details else "Unknown error occurred while fetching data"
  }

  /** `load`: the four queries in order, the first error ending it with a 500. */
  method Load<S, C>(students: Query<S>, configs: Query<ConfigRow>, courses: Query<C>, types: Query<MeasurementType>)
    returns (r: LoadOutcome<S, C>)
    ensures students.QueryError? ==> r == LoadFailed(500, LoadMessage(students.error), LoadDetails(students.error))
    ensures students.Rows? && configs.QueryError? ==> r == LoadFailed(500, LoadMessage(configs.error), LoadDetails(configs.error))
    ensures students.Rows? && configs.Rows? && courses.QueryError? ==> r == LoadFailed(500, LoadMessage(courses.error), LoadDetails(courses.error))
    ensures students.Rows? && configs.Rows? && courses.Rows? && types.QueryError? ==>
      r == LoadFailed(500, LoadMessage(types.error), LoadDetails(types.error))
    ensures r.Loaded? <==> students.Rows? && configs.Rows? && courses.Rows? && types.Rows?
    ensures r.Loaded? ==>
      && r.students == students.data.GetOr([])
      && r.courses == courses.data.GetOr([])
      && r.uniformConfigs == Grouped(configs.data.GetOr([]))
      && r.measurementTypes == IndexById(types.data)
  {
    if students.QueryError? {
      return LoadFailed(500, LoadMessage(students.error), LoadDetails(students.error));
    }
    if configs.QueryError? {
      return LoadFailed(500, LoadMessage(configs.error), LoadDetails(configs.error));
    }
    var groups := GroupConfigs(configs.data);
    if courses.QueryError? {
      return LoadFailed(500, LoadMessage(courses.error), LoadDetails(courses.error));
    }
    if types.QueryError? {
      return LoadFailed(500, LoadMessage(types.error), LoadDetails(types.error));
    }
    r := Loaded(students.data.GetOr([]), courses.data.GetOr([]), groups, IndexById(types.data));
  }

  // ------------------------------------------------------------ measurements

  const MeasurementPrefix := "measurement_"

  /** The dictionary key of a form field: for `measurement_<id>`, the
      `parseInt` of what follows the prefix (None is NaN); other fields have none. */
  function MeasurementKey(e: Entry): Option<Option<int>> {
    if StartsWith(e.key, MeasurementPrefix) then Some(ParseInt(e.key[|MeasurementPrefix|..])) else None
  }

  /** The value stored for a field: the text handed to `parseFloat`. */
  function EntryValue(e: Entry): string { e.value }

  /** The `measurements` object built from the form's entries. */
  function Measurements(form: FormData): map<Option<int>, string> {
    LastWins(form, MeasurementKey, EntryValue)
  }

  /** The `for ... of formData.entries()` loop that fills `measurements`. */
  method CollectMeasurements(form: FormData) returns (measurements: map<Option<int>, string>)
    ensures measurements == Measurements(form)
  {
    measurements := map[];
    for i := 0 to |form|
      invariant measurements == LastWins(form[..i], MeasurementKey, EntryValue)
    {
      var entry := form[i];
      assert form[..i + 1][..i] == form[..i];
      if StartsWith(entry.key, MeasurementPrefix) {
        var measurementId := ParseInt(entry.key[|MeasurementPrefix|..]);
        measurements := measurements[measurementId := entry.value];
      }
    }
    assert form[..|form|] == form;
  }

  /** Only `measurement_` fields fill the dictionary: an id is present
      exactly when some such field parses to it, and it holds the value of
      the last of those fields. */
  lemma MeasurementsFromPrefixedFields(form: FormData, id: Option<int>)
    ensures id in Measurements(form) <==>
      exists i :: 0 <= i < |form| && StartsWith(form[i].key, MeasurementPrefix)
                  && ParseInt(form[i].key[|MeasurementPrefix|..]) == id
    ensures id in Measurements(form) ==>
      exists i :: && 0 <= i < |form| && StartsWith(form[i].key, MeasurementPrefix)
                  && ParseInt(form[i].key[|MeasurementPrefix|..]) == id
                  && Measurements(form)[id] == form[i].value
                  && forall l :: i < l < |form| ==> MeasurementKey(form[l]) != Some(id)
  {
    var j := LastAssigned(form, MeasurementKey, EntryValue, id);
    if j == -1 {
      forall i | 0 <= i < |form|
        ensures !(StartsWith(form[i].key, MeasurementPrefix) && ParseInt(form[i].key[|MeasurementPrefix|..]) == id)
      {
        assert MeasurementKey(form[i]) != Some(id);
      }
    }
  }

  /** A field without the prefix leaves the dictionary as it was. */
  lemma OtherFieldsIgnored(form: FormData, e: Entry)
    requires !StartsWith(e.key, MeasurementPrefix)
    ensures Measurements(form + [e]) == Measurements(form)
  {
    assert (form + [e])[..|form|] == form;
  }

  // ------------------------------------------------------------ create / edit / delete

  const FieldsMissing := "Required fields are missing"
  const CreateFailed := "Failed to create student"
  const UpdateFailed := "Failed to update student"
  const IdMissing := "Student ID is required"
  const HasOrders := "This student cannot be deleted because they have existing orders in the system."
  const DeleteFailed := "Failed to delete student"
  const ForeignKeyViolation := "23503"

  /** The stored student. */
  datatype StudentRow = StudentRow(
    firstName: string,
    lastName: string,
    gender: string,
    courseId: Option<int>,
    contactNumber: Option<string>,
    address: Option<string>,
    measurements: map<Option<int>, string>)

  datatype Outcome =
    | Fail(status: int, error: string)
    | Created(student: StudentRow)
    | Updated(id: string, student: StudentRow)
    | Deleted

  /** `formData.get('gender')?.toLowerCase()`. */
  function GenderOf(form: FormData): Option<string> {
    match Get(form, "gender")
    case Some(g) => Some(Lower(g))
    case None => None
  }

  /** `err.message || fallback`. */
  function MessageOr(e: ErrorInfo, fallback: string): string {
    if e.message != "" then e.message else fallback
  }

  /** `parseInt` of a form value; `parseInt(null)` is NaN. */
  function ParseField(v: Option<string>): Option<int> {
    match v
    case Some(s) => ParseInt(s)
    case None => None
  }

  /** The row `create` and `edit` write. */
  function StudentOf(form: FormData, courseId: Option<int>): StudentRow
    requires Filled(Get(form, "first_name")) && Filled(Get(form, "last_name")) && Filled(GenderOf(form))
  {
    StudentRow(
      Get(form, "first_name").value,
      Get(form, "last_name").value,
      GenderOf(form).value,
      courseId,
      OrNull(Get(form, "contact_number")),
      OrNull(Get(form, "address")),
      Measurements(form))
  }

  predicate CreateFieldsPresent(form: FormData) {
    && Filled(Get(form, "first_name"))
    && Filled(Get(form, "last_name"))
    && Filled(GenderOf(form))
    && Filled(Get(form, "course_id"))
  }

  /** `actions.create`, given the configuration query's and the insert's errors. */
  function Create(form: FormData, configError: Option<ErrorInfo>, insertError: Option<ErrorInfo>): Outcome {
    if !CreateFieldsPresent(form) then Fail(400, FieldsMissing)
    else if configError.Some? then Fail(500, MessageOr(configError.value, CreateFailed))
    else if insertError.Some? then Fail(500, MessageOr(insertError.value, CreateFailed))
    else Created(StudentOf(form, ParseInt(Get(form, "course_id").value)))
  }

  /** `!course_id` on the parsed number: NaN and 0 are falsy. */
  predicate CourseIdTruthy(c: Option<int>) { c.Some? && c.value != 0 }

  predicate EditFieldsPresent(form: FormData) {
    && Filled(Get(form, "id"))
    && Filled(Get(form, "first_name"))
    && Filled(Get(form, "last_name"))
    && Filled(GenderOf(form))
    && CourseIdTruthy(ParseField(Get(form, "course_id")))
  }

  /** `actions.edit`, given the configuration query's and the update's errors. */
  function Edit(form: FormData, configError: Option<ErrorInfo>, updateError: Option<ErrorInfo>): Outcome {
    if !EditFieldsPresent(form) then Fail(400, FieldsMissing)
    else if configError.Some? || updateError.Some? then Fail(500, UpdateFailed)
    else Updated(Get(form, "id").value, StudentOf(form, ParseField(Get(form, "course_id"))))
  }

  /** `actions.delete`, given the delete's error. */
  function Delete(form: FormData, deleteError: Option<ErrorInfo>): Outcome {
    if !Filled(Get(form, "id")) then Fail(400, IdMissing)
    else match deleteError
      case None => Deleted
      case Some(e) =>
        if e.code == ForeignKeyViolation then Fail(400, HasOrders)
        else Fail(500, MessageOr(e, DeleteFailed))
  }

  /** Create fails with 400 exactly when a required field is missing; every
      other failure is a 500 carrying the error's message or the fallback. */
  lemma CreateOutcomes(form: FormData, configError: Option<ErrorInfo>, insertError: Option<ErrorInfo>)
    ensures Create(form, configError, insertError) == Fail(400, FieldsMissing) <==> !CreateFieldsPresent(form)
    ensures Create(form, configError, insertError).Fail? ==> Create(form, configError, insertError).status in {400, 500}
    ensures Create(form, configError, insertError).Created? <==>
      CreateFieldsPresent(form) && configError.None? && insertError.None?
    ensures CreateFieldsPresent(form) && configError.Some? ==>
      Create(form, configError, insertError) == Fail(500, MessageOr(configError.value, CreateFailed))
  {
  }

  /** A created student: the names as submitted, the gender lower-cased,
      the course id `parseInt` gives, empty contact number and address
      stored as null, and the measurements from the `measurement_` fields. */
  lemma CreatedStudent(form: FormData, configError: Option<ErrorInfo>, insertError: Option<ErrorInfo>)
    requires Create(form, configError, insertError).Created?
    ensures var s := Create(form, configError, insertError).student;
      && s.firstName != [] && s.lastName != [] && s.gender != []
      && s.firstName == Get(form, "first_name").value
      && s.lastName == Get(form, "last_name").value
      && s.gender == Lower(Get(form, "gender").value)
      && (forall i :: 0 <= i < |s.gender| ==> !('A' <= s.gender[i] <= 'Z'))
      && s.courseId == ParseInt(Get(form, "course_id").value)
      && s.contactNumber == OrNull(Get(form, "contact_number"))
      && s.address == OrNull(Get(form, "address"))
      && (s.contactNumber.None? <==> !Filled(Get(form, "contact_number")))
      && (s.address.None? <==> !Filled(Get(form, "address")))
      && s.measurements == Measurements(form)
  {
    var s := StudentOf(form, ParseInt(Get(form, "course_id").value));
    assert Create(form, configError, insertError).student == s;
    LowerHasNoUpper(Get(form, "gender").value);
  }

  lemma LowerHasNoUpper(g: string)
    ensures forall i :: 0 <= i < |Lower(g)| ==> !('A' <= Lower(g)[i] <= 'Z')
  {
  }

  /** Edit fails with 400 exactly when the id or a required field is
      missing, a course id that parses to NaN or 0 counting as missing;
      every other failure is a 500 with the fixed message. */
  lemma EditOutcomes(form: FormData, configError: Option<ErrorInfo>, updateError: Option<ErrorInfo>)
    ensures Edit(form, configError, updateError) == Fail(400, FieldsMissing) <==> !EditFieldsPresent(form)
    ensures Edit(form, configError, updateError).Updated? <==>
      EditFieldsPresent(form) && configError.None? && updateError.None?
    ensures EditFieldsPresent(form) && (configError.Some? || updateError.Some?) ==>
      Edit(form, configError, updateError) == Fail(500, UpdateFailed)
    ensures Edit(form, configError, updateError).Updated? ==>
      && Edit(form, configError, updateError).student.courseId.Some?
      && Edit(form, configError, updateError).student.courseId.value != 0
  {
  }

  /** An edited student: the row with the submitted id, holding the names as
      submitted, the gender lower-cased, the parsed (non-zero) course id,
      empty contact number and address as null, and the measurements from
      the `measurement_` fields. */
  lemma EditedStudent(form: FormData, configError: Option<ErrorInfo>, updateError: Option<ErrorInfo>)
    requires Edit(form, configError, updateError).Updated?
    ensures var out := Edit(form, configError, updateError);
      var s := out.student;
      && out.id == Get(form, "id").value && out.id != []
      && s.firstName == Get(form, "first_name").value && s.firstName != []
      && s.lastName == Get(form, "last_name").value && s.lastName != []
      && s.gender == Lower(Get(form, "gender").value) && s.gender != []
      && s.courseId == ParseField(Get(form, "course_id"))
      && s.courseId.Some? && s.courseId.value != 0
      && s.contactNumber == OrNull(Get(form, "contact_number"))
      && s.address == OrNull(Get(form, "address"))
      && s.measurements == Measurements(form)
  {
  }

  /** A zero or unparsable course id fails edit with 400, whatever the other fields hold. */
  lemma EditRejectsCourseZeroOrNaN(form: FormData, configError: Option<ErrorInfo>, updateError: Option<ErrorInfo>)
    requires Get(form, "course_id") == Some("0") || ParseField(Get(form, "course_id")).None?
    ensures Edit(form, configError, updateError) == Fail(400, FieldsMissing)
  {
    CourseZeroOrNaNFalsy(Get(form, "course_id"));
    assert !EditFieldsPresent(form);
  }

  /** The text "0" and anything that does not parse give a falsy course id. */
  lemma CourseZeroOrNaNFalsy(v: Option<string>)
    requires v == Some("0") || ParseField(v).None?
    ensures !CourseIdTruthy(ParseField(v))
  {
    if v == Some("0") {
      ParseIntOfDigits("0");
    }
  }

  /** Delete: no id gives 400; the foreign-key violation `23503` gives 400
      with the existing-orders message; any other error gives 500 with its
      message or the fallback; no error deletes. */
  lemma DeleteOutcomes(form: FormData, deleteError: Option<ErrorInfo>)
    ensures !Filled(Get(form, "id")) ==> Delete(form, deleteError) == Fail(400, IdMissing)
    ensures Filled(Get(form, "id")) ==>
      match deleteError
      case None => Delete(form, deleteError) == Deleted
      case Some(e) =>
        if e.code == ForeignKeyViolation then Delete(form, deleteError) == Fail(400, HasOrders)
        else Delete(form, deleteError) == Fail(500, MessageOr(e, DeleteFailed))
    ensures Delete(form, deleteError).Fail? && Delete(form, deleteError).status == 500 <==>
      Filled(Get(form, "id")) && deleteError.Some? && deleteError.value.code != ForeignKeyViolation
  {
  }
}
