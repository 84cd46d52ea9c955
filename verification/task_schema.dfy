/** `createTaskSchema` and `updateTaskSchema`: what a task body must look like, and what it becomes. */
module TaskSchema {
  import opened Wrappers
  import opened Text
  import opened Validation

  /** The validated body of a create request. There is no owner field: the owner comes from the session. */
  datatype CreateTaskInput = CreateTaskInput(name: string, description: string)

  /** The validated body of an update request: every field optional, again with no owner field. */
  datatype UpdateTaskInput = UpdateTaskInput(name: Option<string>, description: Option<string>, isComplete: Option<bool>)

  const NAME_REQUIRED := "Task name is required"
  const NAME_TOO_LONG := "Task name must be at most 255 characters"
  const DESCRIPTION_TOO_LONG := "Description must be at most 5000 characters"

  /** The raw `name` value passes its checks: a string of 1 to 255 characters before trimming. */
  predicate NameOk(v: Option<Json>) {
    v.Some? && v.value.Str? && 1 <= |v.value.s| <= 255
  }

  /** The raw `description` value passes its check: a string of at most 5000 characters. */
  predicate DescriptionOk(v: Option<Json>) {
    v.Some? && v.value.Str? && |v.value.s| <= 5000
  }

  /** `z.string().min(1).max(255).trim()`: the bounds apply to the raw string, which is then trimmed. */
  function Name(v: Option<Json>): (r: Result<string, seq<Issue>>)
    ensures r.Success? <==> NameOk(v)
    ensures r.Success? ==> r.value == Trim(v.value.s) && |r.value| <= 255
    ensures r.Failure? ==> r.error != [] && forall i :: 0 <= i < |r.error| ==> r.error[i].field == "name"
  {
    match AsString("name", v)
    case Failure(e) => Failure(e)
    case Success(s) =>
      var issues := MinIssue("name", s, 1, NAME_REQUIRED) + MaxIssue("name", s, 255, NAME_TOO_LONG);
      if issues == [] then Success(Trim(s)) else Failure(issues)
  }

  /** `z.string().max(5000)`: an untrimmed string of at most 5000 characters. */
  function Description(v: Option<Json>): (r: Result<string, seq<Issue>>)
    ensures r.Success? <==> DescriptionOk(v)
    ensures r.Success? ==> r.value == v.value.s && |r.value| <= 5000
    ensures r.Failure? ==> r.error != [] && forall i :: 0 <= i < |r.error| ==> r.error[i].field == "description"
  {
    match AsString("description", v)
    case Failure(e) => Failure(e)
    case Success(s) =>
      var issues := MaxIssue("description", s, 5000, DESCRIPTION_TOO_LONG);
      if issues == [] then Success(s) else Failure(issues)
  }

  /** `z.boolean()`. */
  function IsComplete(v: Json): (r: Result<bool, seq<Issue>>)
    ensures r.Success? <==> v.Bool?
    ensures r.Success? ==> r.value == v.b
  {
    if v.Bool? then Success(v.b) else Failure([Issue("is_complete", WrongType("boolean", TypeName(v)))])
  }

  /**
   * `createTaskSchema.safeParse(body)`. A body that is not an object fails with no field
   * issues (zod files that issue under the form, not under a field).
   */
  function ParseCreate(body: Json): (r: Result<CreateTaskInput, seq<Issue>>)
    ensures r.Success? <==>
      body.Obj? && NameOk(Field(body.fields, "name"))
      && (Field(body.fields, "description").None? || DescriptionOk(Field(body.fields, "description")))
    ensures r.Success? ==>
      && r.value.name == Trim(body.fields["name"].s)
      && 1 <= |body.fields["name"].s| <= 255
      && |r.value.name| <= 255
      && r.value.description == (if "description" in body.fields then body.fields["description"].s else "")
      && |r.value.description| <= 5000
    ensures r.Failure? && body.Obj? ==> r.error != []
  {
    match body
    case Obj(f) =>
      var name := Name(Field(f, "name"));
      var description := if "description" in f then Description(Field(f, "description")) else Success("");
      if name.Success? && description.Success? then Success(CreateTaskInput(name.value, description.value))
      else Failure(Issues(name) + Issues(description))
    case _ => Failure([])
  }

  /** `updateTaskSchema.safeParse(body)`: each field optional, a present one checked as on create. */
  function ParseUpdate(body: Json): (r: Result<UpdateTaskInput, seq<Issue>>)
    ensures r.Success? <==>
      body.Obj?
      && ("name" in body.fields ==> NameOk(Field(body.fields, "name")))
      && ("description" in body.fields ==> DescriptionOk(Field(body.fields, "description")))
      && ("is_complete" in body.fields ==> body.fields["is_complete"].Bool?)
    ensures r.Success? ==>
      && (r.value.name.Some? <==> "name" in body.fields)
      && (r.value.name.Some? ==> r.value.name.value == Trim(body.fields["name"].s) && |r.value.name.value| <= 255)
      && (r.value.description.Some? <==> "description" in body.fields)
      && (r.value.description.Some? ==> r.value.description.value == body.fields["description"].s)
      && (r.value.isComplete.Some? <==> "is_complete" in body.fields)
      && (r.value.isComplete.Some? ==> r.value.isComplete.value == body.fields["is_complete"].b)
    ensures r.Failure? && body.Obj? ==> r.error != []
  {
    match body
    case Obj(f) =>
      var name := Optional(Field(f, "name"), (j: Json) => Name(Some(j)));
      var description := Optional(Field(f, "description"), (j: Json) => Description(Some(j)));
      var isComplete := Optional(Field(f, "is_complete"), IsComplete);
      if name.Success? && description.Success? && isComplete.Success? then
        Success(UpdateTaskInput(name.value, description.value, isComplete.value))
      else Failure(Issues(name) + Issues(description) + Issues(isComplete))
    case _ => Failure([])
  }

  /** Keys other than the schema's are stripped, so a client-sent `user_id` or `id` changes nothing. */
  lemma ParseIgnoresOtherKeys(f: map<string, Json>, k: string, v: Json)
    requires k != "name" && k != "description" && k != "is_complete"
    ensures ParseCreate(Obj(f[k := v])) == ParseCreate(Obj(f))
    ensures ParseUpdate(Obj(f[k := v])) == ParseUpdate(Obj(f))
  {
    assert Field(f[k := v], "name") == Field(f, "name");
    assert Field(f[k := v], "description") == Field(f, "description");
    assert Field(f[k := v], "is_complete") == Field(f, "is_complete");
  }

  /** The bounds are checked before trimming: a blank name is accepted and becomes empty. */
  lemma BlankNameBecomesEmpty()
    ensures ParseCreate(Obj(map["name" := Str("   ")])) == Success(CreateTaskInput("", ""))
  {
    var f := map["name" := Str("   ")];
    assert Field(f, "name") == Some(Str("   "));
    assert NameOk(Field(f, "name"));
    assert Trim("   ") == "";
  }

  /** An update body with no fields validates to the empty patch. */
  lemma EmptyUpdateIsEmptyPatch()
    ensures ParseUpdate(Obj(map[])) == Success(UpdateTaskInput(None, None, None))
  {
  }
}
