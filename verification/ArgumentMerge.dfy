/** Merging the arguments a plan gives to a tool with those the model calls it with. */
module ArgumentMerge {
  import opened Wrappers
  import opened JsonValues

  const LLM_WORKER_TOOL := "llm_worker"

  /** The value a key gets from the actual arguments: objects are merged into a planned value, others replace it. */
  function MergedValue(planned: map<string, Json>, key: string, value: Json): Json
    decreases value, 1
  {
    if key in planned && value.Object? then Merge(planned[key], value) else value
  }

  function Merge(planned: Json, actual: Json): Json
    decreases actual, 0
  {
    if planned.Object? && actual.Object? then
      Object(map key | key in planned.fields.Keys + actual.fields.Keys
                       && (key in planned.fields || !actual.fields[key].Null?) ::
        if key in actual.fields && !actual.fields[key].Null? then MergedValue(planned.fields, key, actual.fields[key])
        else planned.fields[key])
    else if actual.Null? then planned
    else actual
  }

  /** Only null merges to null here, so a merged value that is null is a null that was given. */
  lemma MergedNull(planned: map<string, Json>, key: string, value: Json)
    ensures MergedValue(planned, key, value).Null? <==> value.Null?
  {
  }

  /** The planned fields with all actual ones but those in `left` written over them. */
  ghost predicate Overwritten(planned: map<string, Json>, actual: map<string, Json>, left: set<string>, fields: map<string, Json>) {
    && (forall key :: key in fields ==> key in planned || key in actual)
    && (forall key :: key in planned || key in actual ==> FieldSo(planned, actual, key, left, fields))
  }

  /** What one key holds: the actual value once it left `left`, until then the planned one. */
  ghost predicate FieldSo(planned: map<string, Json>, actual: map<string, Json>, key: string, left: set<string>,
                          fields: map<string, Json>) {
    if key !in left && key in actual && !actual[key].Null?
    then key in fields && fields[key] == MergedValue(planned, key, actual[key])
    else (key in fields <==> key in planned) && (key in fields ==> fields[key] == planned[key])
  }

  lemma AllOverwritten(planned: Json, actual: Json, fields: map<string, Json>)
    requires planned.Object? && actual.Object? && Overwritten(planned.fields, actual.fields, {}, fields)
    ensures Object(fields) == Merge(planned, actual)
  {
    var merged := Merge(planned, actual).fields;
    forall key ensures key in fields <==> key in merged {
      if key in planned.fields || key in actual.fields { assert FieldSo(planned.fields, actual.fields, key, {}, fields); }
    }
    forall key | key in merged ensures fields[key] == merged[key] {
      assert FieldSo(planned.fields, actual.fields, key, {}, fields);
    }
    assert fields == merged;
  }

  lemma OverwriteNext(planned: map<string, Json>, actual: map<string, Json>, left: set<string>, key: string,
                      fields: map<string, Json>)
    requires key in left && key in actual && Overwritten(planned, actual, left, fields)
    ensures FieldSo(planned, actual, key, left, fields)
    ensures var value := MergedValue(planned, key, actual[key]);
            Overwritten(planned, actual, left - {key}, if value.Null? then fields else fields[key := value])
  {
    MergedNull(planned, key, actual[key]);
    assert FieldSo(planned, actual, key, left, fields);
    var value := MergedValue(planned, key, actual[key]);
    var fields' := if value.Null? then fields else fields[key := value];
    forall k | k in planned || k in actual ensures FieldSo(planned, actual, k, left - {key}, fields') {
      assert FieldSo(planned, actual, k, left, fields);
    }
  }

  /** The merge as it runs: the planned map, overwritten key by key. */
  method MergeToolArguments(planned: Json, actual: Json) returns (merged: Json)
    ensures merged == Merge(planned, actual)
    decreases actual
  {
    if !planned.Object? || !actual.Object? {
      return if actual.Null? then planned else actual;
    }
    var fields, left := planned.fields, actual.fields.Keys;
    while left != {}
      invariant left <= actual.fields.Keys && Overwritten(planned.fields, actual.fields, left, fields)
      decreases |left|
    {
      var key :| key in left;
      var value := actual.fields[key];
      OverwriteNext(planned.fields, actual.fields, left, key, fields);
      var mergedValue := value;
      if key in fields && value.Object? {
        mergedValue := MergeToolArguments(fields[key], value);
      }
      if !mergedValue.Null? { fields := fields[key := mergedValue]; }
      left := left - {key};
    }
    AllOverwritten(planned, actual, fields);
    return Object(fields);
  }

  // ── Laws ─────────────────────────────────────────────────────────────

  /** Merging arguments with themselves changes nothing. */
  lemma {:induction false} MergeSame(a: Json)
    ensures Merge(a, a) == a
    decreases a
  {
    if !a.Object? {
    } else {
      forall key | key in a.fields ensures Merge(a, a).fields[key] == a.fields[key] {
        if a.fields[key].Object? { MergeSame(a.fields[key]); }
      }
      assert Merge(a, a).fields == a.fields;
    }
  }

  /** Where the actual arguments have a value, the merge has it, merged into the planned one if it is an object. */
  lemma MergeAt(p: Json, a: Json, key: string)
    requires p.Object? && a.Object? && key in a.fields && !a.fields[key].Null?
    ensures Merge(p, a).Object? && key in Merge(p, a).fields
    ensures Merge(p, a).fields[key] ==
            if key in p.fields && a.fields[key].Object? then Merge(p.fields[key], a.fields[key]) else a.fields[key]
  {
  }

  /** Merging the same actual arguments a second time changes nothing. */
  lemma {:induction false} MergeTwice(p: Json, a: Json)
    ensures Merge(Merge(p, a), a) == Merge(p, a)
    decreases a
  {
    if p.Object? && a.Object? {
      var once := Merge(p, a);
      var twice := Merge(once, a);
      assert twice.fields.Keys == once.fields.Keys;
      forall key | key in once.fields ensures twice.fields[key] == once.fields[key] {
        if key in a.fields && !a.fields[key].Null? {
          MergeAt(p, a, key);
          MergeAt(once, a, key);
          if !a.fields[key].Object? {
          } else if key in p.fields {
            MergeTwice(p.fields[key], a.fields[key]);
          } else {
            MergeSame(a.fields[key]);
          }
        }
      }
      assert twice.fields == once.fields;
    } else if a.Object? {
      MergeSame(a);
    }
  }

  /** The keys of a merge are the planned keys and the actual keys with a value. */
  lemma MergeKeys(p: Json, a: Json)
    requires p.Object? && a.Object?
    ensures Merge(p, a).Object?
    ensures Merge(p, a).fields.Keys == p.fields.Keys + set key | key in a.fields && !a.fields[key].Null?
  {
    var m := Merge(p, a);
    forall key | key in p.fields.Keys + set k | k in a.fields && !a.fields[k].Null? ensures key in m.fields {}
    forall key | key in m.fields ensures key in p.fields.Keys + set k | k in a.fields && !a.fields[k].Null? {}
  }

  /** A null says nothing: it keeps what is planned, and adds nothing; so does a key that is not given. */
  lemma NullKeepsPlanned(p: Json, a: Json, key: string)
    ensures Merge(p, Null) == p
    ensures p.Object? && a.Object? && (key !in a.fields || a.fields[key] == Null) ==>
              Field(Merge(p, a), key) == Field(p, key)
    ensures !p.Object? && a != Null ==> Merge(p, a) == a
    ensures !a.Object? && a != Null ==> Merge(p, a) == a
  {
  }

  /** A path of keys through nested objects. */
  function At(v: Json, path: seq<string>): Option<Json> {
    if path == [] then Some(v)
    else
      var next := Field(v, path[0]);
      if next.Some? then At(next.value, path[1..]) else None
  }

  /** At every depth, what the actual arguments say other than null and objects is what the merge says. */
  lemma {:induction false} ActualWins(p: Json, a: Json, path: seq<string>)
    requires At(a, path).Some? && !At(a, path).value.Null? && !At(a, path).value.Object?
    ensures At(Merge(p, a), path) == At(a, path)
    decreases |path|
  {
    if path == [] || !p.Object? {
    } else {
      var value := a.fields[path[0]];
      assert !value.Null?;
      var m := Merge(p, a).fields[path[0]];
      if path[0] in p.fields && value.Object? { ActualWins(p.fields[path[0]], value, path[1..]); }
    }
  }

  // ── The deterministic fast path ──────────────────────────────────────

  datatype PlannedCall = PlannedCall(tool: Option<string>, args: Option<Json>)

  datatype ToolCall = ToolCall(name: string, arguments: Json)

  /** The call a plan prescribes; none for a step of the model itself or without a tool. */
  function MakePlannedCall(step: PlannedCall): Option<ToolCall> {
    if step.tool.None? || step.tool.value == LLM_WORKER_TOOL then None
    else Some(ToolCall(step.tool.value, if step.args.Some? then step.args.value else Object(map[])))
  }

  /** A step whose arguments are all given runs without asking the model. */
  predicate FastPath(step: PlannedCall) {
    && step.tool.Some? && step.tool.value != LLM_WORKER_TOOL
    && step.args.Some? && step.args.value.Object? && step.args.value.fields != map[]
  }

  const FILE_WRITE := "file_write"

  const PDF_CREATE := "pdf_create"

  /** The path ends in `.pdf` in any case; no other letter becomes one of these in lower case. */
  predicate IsPdf(path: string) {
    var k := |path| - 4;
    k >= 0 && path[k] == '.' && path[k + 1] in "pP" && path[k + 2] in "dD" && path[k + 3] in "fF"
  }

  /** What follows the last slash. */
  function FileName(path: string): (name: string)
    ensures |name| <= |path|
  {
    if path == "" then ""
    else if '/' in path[1..] then FileName(path[1..])
    else if path[0] == '/' then path[1..]
    else path
  }

  /** The file name without its `.pdf`, unless it is nothing else. */
  function FileStem(path: string): string {
    var name := FileName(path);
    if |name| > 4 then name[..|name| - 4] else name
  }

  function TextField(v: Json, key: string): Option<string> {
    var field := Field(v, key);
    if field.Some? && field.value.Str? then Some(field.value.s) else None
  }

  /** A call that would write a PDF as text: it is turned into one that creates a PDF. */
  predicate WritesPdf(call: ToolCall) {
    call.name == FILE_WRITE && TextField(call.arguments, "path").Some? && IsPdf(TextField(call.arguments, "path").value)
  }

  function NormalizeToolCall(call: ToolCall): ToolCall {
    if WritesPdf(call) then
      var path, content := TextField(call.arguments, "path").value, TextField(call.arguments, "content");
      ToolCall(PDF_CREATE, Object(map[
        "path" := Str(path),
        "title" := Str(FileStem(path)),
        "content" := Str(if content.Some? then content.value else "")]))
    else call
  }

  /** The call that is executed: normalized, and merged with the planned arguments if it then calls the planned tool. */
  function FinalCall(step: PlannedCall, call: ToolCall): ToolCall {
    var normal := NormalizeToolCall(call);
    if step.tool == Some(normal.name) && step.args.Some?
    then normal.(arguments := Merge(step.args.value, normal.arguments))
    else normal
  }

  /**
   On the fast path the call handed on is the planned call, with exactly the planned arguments, if and
   only if the plan does not write a file whose path is a text that ends in `.pdf`.
   */
  lemma FastPathArguments(step: PlannedCall)
    requires FastPath(step)
    ensures MakePlannedCall(step) == Some(ToolCall(step.tool.value, step.args.value))
    ensures FinalCall(step, MakePlannedCall(step).value) == MakePlannedCall(step).value
       <==> !WritesPdf(ToolCall(step.tool.value, step.args.value))
  {
    MergeSame(step.args.value);
  }

  lemma {:induction false} FileNameOf(dir: string, name: string)
    requires '/' !in name
    ensures FileName(dir + (['/'] + name)) == name && FileName(name) == name
  {
    if dir == "" {
      assert dir + (['/'] + name) == ['/'] + name && (['/'] + name)[1..] == name;
    } else {
      var path := dir + (['/'] + name);
      assert path[1..] == dir[1..] + (['/'] + name);
      assert path[1..][|dir| - 1] == '/';
      FileNameOf(dir[1..], name);
    }
  }

  /** The rewritten call keeps path and content, and is titled by the file name without `.pdf`. */
  lemma RewrittenCall(call: ToolCall, dir: string, name: string, extension: string)
    requires call.name == FILE_WRITE && '/' !in name && name != "" && |extension| == 4 && IsPdf(extension)
    requires var file := name + extension;
             TextField(call.arguments, "path") == Some(file) || TextField(call.arguments, "path") == Some(dir + (['/'] + file))
    ensures WritesPdf(call)
    ensures var normal := NormalizeToolCall(call);
            && normal.name == "pdf_create" && normal.arguments.Object?
            && normal.arguments.fields.Keys == {"path", "title", "content"}
            && TextField(normal.arguments, "path") == TextField(call.arguments, "path")
            && TextField(normal.arguments, "title") == Some(name)
            && TextField(normal.arguments, "content")
               == Some(if TextField(call.arguments, "content").Some? then TextField(call.arguments, "content").value else "")
  {
    PdfPath(TextField(call.arguments, "path").value, dir, name, extension);
  }

  lemma PdfPath(path: string, dir: string, name: string, extension: string)
    requires '/' !in name && name != "" && |extension| == 4 && IsPdf(extension)
    requires path == name + extension || path == dir + (['/'] + (name + extension))
    ensures IsPdf(path) && FileStem(path) == name
  {
    var file, k := name + extension, |path| - 4;
    FileNameOf(dir, file);
    assert FileName(path) == file && file[..|file| - 4] == name;
    assert path[k] == extension[0] && path[k + 1] == extension[1] && path[k + 2] == extension[2] && path[k + 3] == extension[3];
  }

  /** A call to a tool the plan does not name goes through as the model made it; the model's own worker is never called. */
  lemma OtherCalls(step: PlannedCall, call: ToolCall)
    ensures !WritesPdf(call) && step.tool != Some(call.name) ==> FinalCall(step, call) == call
    ensures !WritesPdf(call) && step.tool == Some(call.name) && step.args.Some? ==>
              FinalCall(step, call) == ToolCall(call.name, Merge(step.args.value, call.arguments))
    ensures step.tool == None || step.tool == Some("llm_worker") ==> MakePlannedCall(step) == None
    ensures step.tool.Some? && step.tool.value != "llm_worker" && step.args.None? ==>
              MakePlannedCall(step) == Some(ToolCall(step.tool.value, Object(map[])))
  {
  }

  /** A plan to write `a.pdf` is on the fast path, and its arguments are not handed on. */
  lemma PlannedPdfIsRewritten(step: PlannedCall)
    requires step == PlannedCall(Some(FILE_WRITE), Some(Object(map["path" := Str("a.pdf"), "content" := Str("x")])))
    ensures FastPath(step)
    ensures FinalCall(step, MakePlannedCall(step).value)
         == ToolCall(PDF_CREATE, Object(map["path" := Str("a.pdf"), "title" := Str("a"), "content" := Str("x")]))
  {
    assert "path" in step.args.value.fields;
    assert "a" + ".pdf" == "a.pdf";
    PdfPath("a.pdf", "", "a", ".pdf");
    PlannedWrite("a.pdf", "a", "x");
  }

  lemma PlannedWrite(path: string, title: string, content: string)
    requires IsPdf(path) && FileStem(path) == title
    ensures NormalizeToolCall(ToolCall(FILE_WRITE, Object(map["path" := Str(path), "content" := Str(content)])))
         == ToolCall(PDF_CREATE, Object(map["path" := Str(path), "title" := Str(title), "content" := Str(content)]))
  {
  }

  /** A rewritten call of the model is merged with a plan that creates a PDF itself, and its path wins. */
  lemma RewrittenIntoPlan(step: PlannedCall, call: ToolCall)
    requires WritesPdf(call) && step.tool == Some(PDF_CREATE) && step.args.Some? && step.args.value.Object?
    ensures FinalCall(step, call).name == PDF_CREATE
    ensures FinalCall(step, call).arguments.Object?
    ensures FinalCall(step, call).arguments.fields.Keys == step.args.value.fields.Keys + {"path", "title", "content"}
    ensures TextField(FinalCall(step, call).arguments, "path") == TextField(call.arguments, "path")
  {
    var normal := NormalizeToolCall(call);
    MergeKeys(step.args.value, normal.arguments);
    ActualWins(step.args.value, normal.arguments, ["path"]);
  }
}
