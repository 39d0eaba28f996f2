/** The build protocol's response: a manifest of what the built module exports, its code, or
    diagnostics. A refusal is `None`; which of the two codes it carries is not told apart. */
module BuildResponse {
  import opened Sequences
  import opened Wrappers
  import opened BuildContract

  const CONTRACT := 1
  const NAME_MAX := 64
  const DESCRIPTION_MAX := 1024
  const MESSAGE_MAX := 2048
  const CODE_MAX := 2097152
  const TOOLS_MAX := 64
  const MODULES_MAX := 4
  const CALLS_MAX := 32
  const DIAGNOSTICS_MAX := 200
  const NESTING_MAX := 16
  const ENTRIES_MAX := 256
  const SAFE_INTEGER_MAX := 9007199254740991
  const HOOKS := {"system-prompt/assemble", "agent/tool-exposure", "agent/request", "tools/pre-execute",
                  "tools/post-execute", "agent/turn-stopping", "theme/assemble"}
  const PROTO := "__proto__"
  const STAGES := {"descriptor", "typecheck", "bundle", "describe"}
  const SEVERITIES := {"error", "warning"}

  /** A lower-case letter, or with `anyStart` any letter or digit, then letters of that case,
      digits and `marks`. */
  datatype Pattern = Pattern(anyStart: bool, marks: set<char>, most: nat)

  const TOOL_NAME := Pattern(false, {'_'}, 64)
  const SERVICE_NAME := Pattern(false, {'-'}, 64)
  const TRIGGER_NAME := Pattern(false, {'_', '-'}, 64)
  const SURFACE_ID := Pattern(true, {'.', '_', '-'}, 128)
  const CARD_ID := Pattern(false, {'_'}, 32)
  const MODULE_ID := Pattern(false, {'-'}, 32)

  predicate Matches(p: Pattern, s: string) {
    && 1 <= |s| <= p.most
    && (Lower(s[0]) || (p.anyStart && ('A' <= s[0] <= 'Z' || Digit(s[0]))))
    && forall i :: 1 <= i < |s| ==> Lower(s[i]) || Digit(s[i]) || s[i] in p.marks || (p.anyStart && 'A' <= s[i] <= 'Z')
  }

  predicate Sha256(s: string) {
    |s| == 64 && forall i :: 0 <= i < |s| ==> Digit(s[i]) || 'a' <= s[i] <= 'f'
  }

  datatype Tool = Tool(name: string, description: string, schema: map<string, Json>)

  datatype Module = Module(id: string, calls: seq<string>, hash: string)

  datatype Manifest = Manifest(
    tools: seq<Tool>, hooks: seq<string>, services: seq<string>, triggers: seq<string>, views: seq<string>,
    cards: seq<string>, modelProviders: seq<string>, modules: seq<Module>, hash: string)

  datatype Artifact = Artifact(id: string, code: string)

  datatype Diagnostic = Diagnostic(file: string, line: int, column: int, message: string, severity: string)

  datatype Response =
    | Checked
    | Built(manifest: Manifest, code: string, artifacts: seq<Artifact>)
    | Failed(stage: string, diagnostics: seq<Diagnostic>)

  // ---- lists and fields ----------------------------------------------------------------

  /** Each item decoded, or nothing when one is refused. */
  function Each<T>(items: seq<Json>, one: Json -> Option<T>): Option<seq<T>> {
    if items == [] then Some([])
    else
      var first, rest := one(items[0]), Each(items[1..], one);
      if first.Some? && rest.Some? then Some([first.value] + rest.value) else None
  }

  function AtMost<T>(input: Json, limit: nat, one: Json -> Option<T>): Option<seq<T>> {
    if input.List? && |input.items| <= limit then Each(input.items, one) else None
  }

  function Encoded<T>(vs: seq<T>, encode: T -> Json): Json {
    List(seq(|vs|, i requires 0 <= i < |vs| => encode(vs[i])))
  }

  predicate AllFine<T>(vs: seq<T>, fine: T -> bool) {
    forall i :: 0 <= i < |vs| ==> fine(vs[i])
  }

  /** What the decoder makes of an item, one by one. */
  function ListAsRead(input: Json, asRead: Json -> Json): Json {
    if !input.List? then input
    else List(seq(|input.items|, i requires 0 <= i < |input.items| => asRead(input.items[i])))
  }

  function AsWritten(j: Json): Json {
    j
  }

  lemma ListAsWritten(input: Json)
    ensures ListAsRead(input, AsWritten) == input
  {
    if input.List? {
      assert ListAsRead(input, AsWritten).items == input.items;
    }
  }

  /** A decoder that reads exactly what, once it is as read, its encoder writes of fine values. */
  ghost predicate Inverse<T(!new)>(one: Json -> Option<T>, asRead: Json -> Json, encode: T -> Json, fine: T -> bool) {
    forall j, v :: one(j) == Some(v) <==> fine(v) && asRead(j) == encode(v)
  }

  lemma {:induction false} EachReads<T(!new)>(items: seq<Json>, one: Json -> Option<T>, asRead: Json -> Json,
                                              encode: T -> Json, fine: T -> bool, vs: seq<T>)
    requires Inverse(one, asRead, encode, fine)
    ensures Each(items, one) == Some(vs) <==>
      AllFine(vs, fine) && ListAsRead(List(items), asRead) == Encoded(vs, encode)
    decreases |items|
  {
    var read, written := ListAsRead(List(items), asRead).items, Encoded(vs, encode).items;
    if items != [] && vs != [] {
      EachReads(items[1..], one, asRead, encode, fine, vs[1..]);
      assert Encoded(vs[1..], encode).items == written[1..];
      assert ListAsRead(List(items[1..]), asRead).items == read[1..];
      assert vs == [vs[0]] + vs[1..];
      assert read == [read[0]] + read[1..] && written == [written[0]] + written[1..];
      assert AllFine(vs, fine) <==> fine(vs[0]) && AllFine(vs[1..], fine) by {
        assert forall i :: 1 <= i < |vs| ==> vs[i] == vs[1..][i - 1];
      }
      assert one(items[0]) == Some(vs[0]) <==> fine(vs[0]) && read[0] == written[0];
    }
  }

  lemma AtMostReads<T(!new)>(input: Json, limit: nat, one: Json -> Option<T>, asRead: Json -> Json,
                             encode: T -> Json, fine: T -> bool, vs: seq<T>)
    requires Inverse(one, asRead, encode, fine)
    ensures AtMost(input, limit, one) == Some(vs) <==>
      |vs| <= limit && AllFine(vs, fine) && ListAsRead(input, asRead) == Encoded(vs, encode)
  {
    if input.List? {
      assert input == List(input.items) && |ListAsRead(input, asRead).items| == |input.items|;
      EachReads(input.items, one, asRead, encode, fine, vs);
    }
  }

  lemma AtMostReadsBack<T(!new)>(input: Json, limit: nat, one: Json -> Option<T>, encode: T -> Json, fine: T -> bool,
                          vs: seq<T>)
    requires Inverse(one, AsWritten, encode, fine)
    ensures AtMost(input, limit, one) == Some(vs) <==>
      |vs| <= limit && AllFine(vs, fine) && input == Encoded(vs, encode)
  {
    AtMostReads(input, limit, one, AsWritten, encode, fine, vs);
    ListAsWritten(input);
  }

  /** A record with no field unknown, read field by field, is the record written. */
  lemma SameFields(o: map<string, Json>, written: map<string, Json>)
    requires o.Keys <= written.Keys
    requires forall k :: k in written ==> written[k] != Null && Field(o, k) == written[k]
    ensures o == written
  {
    forall k | k in written ensures k in o && o[k] == written[k] {
      assert Field(o, k) != Null;
    }
  }

  /** A field left out, or null, stands for an empty list. */
  function OrEmpty(j: Json): Json {
    if j == Null then List([]) else j
  }

  // ---- the parts -----------------------------------------------------------------------

  function Phrase(input: Json, most: nat): Option<string> {
    if input.Text? && 1 <= |input.s| <= most then Some(input.s) else None
  }

  function Count(input: Json): Option<int> {
    if input.Number? && 1 <= input.n <= SAFE_INTEGER_MAX then Some(input.n) else None
  }

  function Hash(input: Json): Option<string> {
    var s := Phrase(input, 64);
    if s.Some? && Sha256(s.value) then s else None
  }

  function Name(p: Pattern): Json -> Option<string> {
    (input: Json) => var s := Phrase(input, NAME_MAX); if s.Some? && Matches(p, s.value) then s else None
  }

  predicate NameFine(p: Pattern, s: string) {
    |s| <= NAME_MAX && Matches(p, s)
  }

  function Names(input: Json, p: Pattern, limit: nat): Option<seq<string>> {
    var names := AtMost(input, limit, Name(p));
    if names.Some? && Distinct(names.value) then names else None
  }

  predicate NamesFine(names: seq<string>, p: Pattern, limit: nat) {
    |names| <= limit && Distinct(names) && AllFine(names, (s: string) => NameFine(p, s))
  }

  function Texts(names: seq<string>): Json {
    Encoded(names, (s: string) => Text(s))
  }

  lemma NamesRead(input: Json, p: Pattern, limit: nat, names: seq<string>)
    ensures Names(input, p, limit) == Some(names) <==> NamesFine(names, p, limit) && input == Texts(names)
  {
    AtMostReadsBack(input, limit, Name(p), (s: string) => Text(s), (s: string) => NameFine(p, s), names);
  }

  function Hook(input: Json): Option<string> {
    if input.Text? && input.s in HOOKS then Some(input.s) else None
  }

  function Hooks(input: Json): Option<seq<string>> {
    var hooks := AtMost(input, |HOOKS|, Hook);
    if hooks.Some? && Distinct(hooks.value) then hooks else None
  }

  predicate HooksFine(hooks: seq<string>) {
    |hooks| <= |HOOKS| && Distinct(hooks) && AllFine(hooks, (s: string) => s in HOOKS)
  }

  lemma HooksRead(input: Json, hooks: seq<string>)
    ensures Hooks(input) == Some(hooks) <==> HooksFine(hooks) && input == Texts(hooks)
  {
    AtMostReadsBack(input, |HOOKS|, Hook, (s: string) => Text(s), (s: string) => s in HOOKS, hooks);
  }

  /** A value within bounds: no part nested past sixteen, none with more than 256 entries. */
  predicate Shallow(j: Json, depth: nat)
    decreases j
  {
    && depth <= NESTING_MAX
    && match j
       case List(items) => |items| <= ENTRIES_MAX && forall i :: 0 <= i < |items| ==> Shallow(items[i], depth + 1)
       case Record(fields) => |fields.Keys| <= ENTRIES_MAX && forall k :: k in fields ==> Shallow(fields[k], depth + 1)
       case _ => true
  }

  /** The value copied part by part, or nothing when a part is out of bounds. The copy of a
      record is an object assigned field after field, and the assignment to the field that
      names an object's prototype leaves no field of that name. */
  function Copied(j: Json, depth: nat): Option<Json>
    decreases j
  {
    if depth > NESTING_MAX then None
    else
      match j
      case List(items) =>
        if |items| > ENTRIES_MAX || exists i :: 0 <= i < |items| && Copied(items[i], depth + 1) == None then None
        else Some(List(seq(|items|, i requires 0 <= i < |items| => Copied(items[i], depth + 1).value)))
      case Record(fields) =>
        if |fields.Keys| > ENTRIES_MAX || exists k :: k in fields && Copied(fields[k], depth + 1) == None then None
        else Some(Record(map k | k in fields && k != PROTO :: Copied(fields[k], depth + 1).value))
      case _ => Some(j)
  }

  /** The value without the fields a copy loses. */
  function Stripped(j: Json): Json
    decreases j
  {
    match j
    case List(items) => List(seq(|items|, i requires 0 <= i < |items| => Stripped(items[i])))
    case Record(fields) => Record(map k | k in fields && k != PROTO :: Stripped(fields[k]))
    case _ => j
  }

  predicate ProtoFree(j: Json)
    decreases j
  {
    match j
    case List(items) => forall i :: 0 <= i < |items| ==> ProtoFree(items[i])
    case Record(fields) => PROTO !in fields && forall k :: k in fields ==> ProtoFree(fields[k])
    case _ => true
  }

  /** `Stripped` loses nothing exactly where there is nothing to lose. */
  ghost predicate StripsRight(j: Json) {
    (Stripped(j) == j <==> ProtoFree(j)) && ProtoFree(Stripped(j))
  }

  /** A copy is `Stripped`, within the same bounds. */
  ghost predicate CopiesRight(j: Json, depth: nat) {
    && Copied(j, depth) == (if Shallow(j, depth) then Some(Stripped(j)) else None)
    && (Shallow(j, depth) ==> Shallow(Stripped(j), depth))
  }

  lemma ListStripped(items: seq<Json>)
    requires forall i :: 0 <= i < |items| ==> StripsRight(items[i])
    ensures StripsRight(List(items))
  {
    var stripped := Stripped(List(items)).items;
    assert forall i :: 0 <= i < |items| ==> stripped[i] == Stripped(items[i]);
    if ProtoFree(List(items)) {
      assert stripped == items;
    }
  }

  lemma RecordStripped(fields: map<string, Json>)
    requires forall k :: k in fields ==> StripsRight(fields[k])
    ensures StripsRight(Record(fields))
  {
    var stripped := Stripped(Record(fields)).fields;
    assert stripped.Keys == fields.Keys - {PROTO};
    if stripped == fields {
      assert forall k :: k in fields ==> stripped[k] == Stripped(fields[k]);
    }
    if ProtoFree(Record(fields)) {
      assert stripped == fields;
    }
  }

  lemma ListCopied(items: seq<Json>, depth: nat)
    requires forall i :: 0 <= i < |items| ==> CopiesRight(items[i], depth + 1)
    ensures CopiesRight(List(items), depth)
  {
    if Shallow(List(items), depth) {
      assert Copied(List(items), depth).value.items == Stripped(List(items)).items;
    }
  }

  lemma RecordStaysShallow(fields: map<string, Json>, depth: nat)
    requires forall k :: k in fields ==> CopiesRight(fields[k], depth + 1)
    requires Shallow(Record(fields), depth)
    ensures Shallow(Stripped(Record(fields)), depth)
  {
    var stripped := Stripped(Record(fields)).fields;
    assert stripped.Keys == fields.Keys - {PROTO};
    FewerKeys(fields.Keys);
    forall k | k in stripped ensures Shallow(stripped[k], depth + 1) {
      assert CopiesRight(fields[k], depth + 1);
    }
  }

  lemma RecordCopied(fields: map<string, Json>, depth: nat)
    requires forall k :: k in fields ==> CopiesRight(fields[k], depth + 1)
    ensures CopiesRight(Record(fields), depth)
  {
    if Shallow(Record(fields), depth) {
      RecordStaysShallow(fields, depth);
      assert Copied(Record(fields), depth).value.fields == Stripped(Record(fields)).fields;
    }
  }

  lemma FewerKeys(keys: set<string>)
    ensures |keys - {PROTO}| <= |keys|
  {
    assert PROTO in keys ==> keys == (keys - {PROTO}) + {PROTO};
    assert PROTO !in keys ==> keys - {PROTO} == keys;
  }

  lemma {:induction false} StrippedRight(j: Json)
    ensures StripsRight(j)
    decreases j
  {
    match j
    case List(items) =>
      forall i | 0 <= i < |items| ensures StripsRight(items[i]) {
        StrippedRight(items[i]);
      }
      ListStripped(items);
    case Record(fields) =>
      forall k | k in fields ensures StripsRight(fields[k]) {
        StrippedRight(fields[k]);
      }
      RecordStripped(fields);
    case _ =>
  }

  lemma {:induction false} CopiedRight(j: Json, depth: nat)
    ensures CopiesRight(j, depth)
    decreases j
  {
    match j
    case List(items) =>
      forall i | 0 <= i < |items| ensures CopiesRight(items[i], depth + 1) {
        CopiedRight(items[i], depth + 1);
      }
      ListCopied(items, depth);
    case Record(fields) =>
      forall k | k in fields ensures CopiesRight(fields[k], depth + 1) {
        CopiedRight(fields[k], depth + 1);
      }
      RecordCopied(fields, depth);
    case _ =>
  }

  /** A value is refused exactly when it is out of bounds, the lost fields judged with it, and
      is copied as it is exactly when it is within bounds and loses no field. */
  lemma CopiedIs(j: Json, depth: nat)
    ensures Copied(j, depth) == None <==> !Shallow(j, depth)
    ensures Copied(j, depth) == Some(j) <==> Shallow(j, depth) && ProtoFree(j)
    ensures Shallow(j, depth) ==> Copied(j, depth) == Some(Stripped(j))
  {
    CopiedRight(j, depth);
    StrippedRight(j);
  }

  // ---- tools, modules, diagnostics -----------------------------------------------------

  function Schema(input: Json): Option<map<string, Json>> {
    var copy := Copied(input, 0);
    if copy.Some? && copy.value.Record? then Some(copy.value.fields) else None
  }

  function SchemaAsRead(input: Json): Json {
    if Shallow(input, 0) then Stripped(input) else input
  }

  predicate SchemaFine(schema: map<string, Json>) {
    Shallow(Record(schema), 0) && ProtoFree(Record(schema))
  }

  lemma SchemaReads(input: Json, schema: map<string, Json>)
    ensures Schema(input) == Some(schema) <==> SchemaFine(schema) && SchemaAsRead(input) == Record(schema)
  {
    CopiedRight(input, 0);
    StrippedRight(input);
  }

  function DecodeTool(input: Json): Option<Tool> {
    if !input.Record? || !(input.fields.Keys <= {"name", "description", "inputSchema"}) then None
    else
      var o := input.fields;
      var name, description := Name(TOOL_NAME)(Field(o, "name")), Phrase(Field(o, "description"), DESCRIPTION_MAX);
      var schema := Schema(Field(o, "inputSchema"));
      if name == None || description == None || schema == None then None
      else Some(Tool(name.value, description.value, schema.value))
  }

  function EncodeTool(t: Tool): Json {
    Record(map["name" := Text(t.name), "description" := Text(t.description), "inputSchema" := Record(t.schema)])
  }

  predicate ToolFine(t: Tool) {
    NameFine(TOOL_NAME, t.name) && 1 <= |t.description| <= DESCRIPTION_MAX && SchemaFine(t.schema)
  }

  /** The tool with its schema as read. */
  function ToolAsRead(input: Json): Json {
    if input.Record? && "inputSchema" in input.fields
    then Record(input.fields["inputSchema" := SchemaAsRead(input.fields["inputSchema"])])
    else input
  }

  lemma ToolFields(o: map<string, Json>)
    ensures var read := ToolAsRead(Record(o)).fields;
      && read.Keys == o.Keys
      && Field(read, "name") == Field(o, "name") && Field(read, "description") == Field(o, "description")
      && Field(read, "inputSchema") == SchemaAsRead(Field(o, "inputSchema"))
  {
  }

  lemma ToolReads(input: Json, t: Tool)
    ensures DecodeTool(input) == Some(t) <==> ToolFine(t) && ToolAsRead(input) == EncodeTool(t)
  {
    if input.Record? {
      var read := ToolAsRead(input).fields;
      SchemaReads(Field(input.fields, "inputSchema"), t.schema);
      ToolFields(input.fields);
      if DecodeTool(input) == Some(t) {
        SameFields(read, EncodeTool(t).fields);
      }
    }
  }

  function DecodeModule(input: Json): Option<Module> {
    if !input.Record? || !(input.fields.Keys <= {"id", "calls", "hash"}) then None
    else
      var o := input.fields;
      var id, hash := Phrase(Field(o, "id"), 32), Hash(Field(o, "hash"));
      var calls := Names(Field(o, "calls"), TRIGGER_NAME, CALLS_MAX);
      if id == None || !Matches(MODULE_ID, id.value) || calls == None || hash == None then None
      else Some(Module(id.value, calls.value, hash.value))
  }

  function EncodeModule(m: Module): Json {
    Record(map["id" := Text(m.id), "calls" := Texts(m.calls), "hash" := Text(m.hash)])
  }

  predicate ModuleFine(m: Module) {
    Matches(MODULE_ID, m.id) && NamesFine(m.calls, TRIGGER_NAME, CALLS_MAX) && Sha256(m.hash)
  }

  lemma ModuleReads(input: Json, m: Module)
    ensures DecodeModule(input) == Some(m) <==> ModuleFine(m) && input == EncodeModule(m)
  {
    if input.Record? {
      NamesRead(Field(input.fields, "calls"), TRIGGER_NAME, CALLS_MAX, m.calls);
      if DecodeModule(input) == Some(m) {
        SameFields(input.fields, EncodeModule(m).fields);
      }
    }
  }

  function DecodeDiagnostic(input: Json): Option<Diagnostic> {
    if !input.Record? || !(input.fields.Keys <= {"file", "line", "column", "message", "severity"}) then None
    else
      var o := input.fields;
      var file, line, column := Phrase(Field(o, "file"), PATH_MAX), Count(Field(o, "line")), Count(Field(o, "column"));
      var message, severity := Phrase(Field(o, "message"), MESSAGE_MAX), Field(o, "severity");
      if !severity.Text? || severity.s !in SEVERITIES then None
      else if file == None || line == None || column == None || message == None then None
      else Some(Diagnostic(file.value, line.value, column.value, message.value, severity.s))
  }

  function EncodeDiagnostic(d: Diagnostic): Json {
    Record(map["file" := Text(d.file), "line" := Number(d.line), "column" := Number(d.column),
               "message" := Text(d.message), "severity" := Text(d.severity)])
  }

  predicate DiagnosticFine(d: Diagnostic) {
    && 1 <= |d.file| <= PATH_MAX && 1 <= |d.message| <= MESSAGE_MAX && d.severity in SEVERITIES
    && 1 <= d.line <= SAFE_INTEGER_MAX && 1 <= d.column <= SAFE_INTEGER_MAX
  }

  lemma DiagnosticReads(input: Json, d: Diagnostic)
    ensures DecodeDiagnostic(input) == Some(d) <==> DiagnosticFine(d) && input == EncodeDiagnostic(d)
  {
    if input.Record? && DecodeDiagnostic(input) == Some(d) {
      SameFields(input.fields, EncodeDiagnostic(d).fields);
    }
  }

  lemma ToolsInverse()
    ensures Inverse(DecodeTool, ToolAsRead, EncodeTool, ToolFine)
  {
    forall j, t ensures DecodeTool(j) == Some(t) <==> ToolFine(t) && ToolAsRead(j) == EncodeTool(t) {
      ToolReads(j, t);
    }
  }

  lemma ModulesInverse()
    ensures Inverse(DecodeModule, AsWritten, EncodeModule, ModuleFine)
  {
    forall j, m ensures DecodeModule(j) == Some(m) <==> ModuleFine(m) && j == EncodeModule(m) {
      ModuleReads(j, m);
    }
  }

  lemma DiagnosticsInverse()
    ensures Inverse(DecodeDiagnostic, AsWritten, EncodeDiagnostic, DiagnosticFine)
  {
    forall j, d ensures DecodeDiagnostic(j) == Some(d) <==> DiagnosticFine(d) && j == EncodeDiagnostic(d) {
      DiagnosticReads(j, d);
    }
  }

  // ---- the manifest --------------------------------------------------------------------

  function ToolNames(tools: seq<Tool>): seq<string> {
    seq(|tools|, i requires 0 <= i < |tools| => tools[i].name)
  }

  function ModuleIds(modules: seq<Module>): seq<string> {
    seq(|modules|, i requires 0 <= i < |modules| => modules[i].id)
  }

  function Tools(input: Json): Option<seq<Tool>> {
    var tools := AtMost(input, TOOLS_MAX, DecodeTool);
    if tools.Some? && Distinct(ToolNames(tools.value)) then tools else None
  }

  function Modules(input: Json): Option<seq<Module>> {
    var modules := AtMost(input, MODULES_MAX, DecodeModule);
    if modules.Some? && Distinct(ModuleIds(modules.value)) then modules else None
  }

  function ModuleHash(input: Json): Option<string> {
    if !input.Record? || !(input.fields.Keys <= {"module"}) then None else Hash(Field(input.fields, "module"))
  }

  const MANIFEST_FIELDS := {"contract", "tools", "hooks", "services", "triggers", "views", "cards",
                            "modelProviders", "modules", "hashes"}

  function DecodeManifest(input: Json): Option<Manifest> {
    if !input.Record? || !(input.fields.Keys <= MANIFEST_FIELDS) then None
    else
      var o := input.fields;
      var tools, hooks := Tools(Field(o, "tools")), Hooks(Field(o, "hooks"));
      var modules, hash := Modules(OrEmpty(Field(o, "modules"))), ModuleHash(Field(o, "hashes"));
      var services := Names(Field(o, "services"), SERVICE_NAME, 32);
      var triggers := Names(Field(o, "triggers"), TRIGGER_NAME, 16);
      var views := Names(Field(o, "views"), SURFACE_ID, 16);
      var cards := Names(OrEmpty(Field(o, "cards")), CARD_ID, 16);
      var providers := Names(OrEmpty(Field(o, "modelProviders")), SERVICE_NAME, 4);
      if Field(o, "contract") != Number(CONTRACT) || tools == None || hooks == None || modules == None || hash == None
        || services == None || triggers == None || views == None || cards == None || providers == None
      then None
      else Some(Manifest(tools.value, hooks.value, services.value, triggers.value, views.value,
                         cards.value, providers.value, modules.value, hash.value))
  }

  function EncodeManifest(m: Manifest): Json {
    Record(map["contract" := Number(CONTRACT), "tools" := Encoded(m.tools, EncodeTool), "hooks" := Texts(m.hooks),
               "services" := Texts(m.services), "triggers" := Texts(m.triggers), "views" := Texts(m.views),
               "cards" := Texts(m.cards), "modelProviders" := Texts(m.modelProviders),
               "modules" := Encoded(m.modules, EncodeModule), "hashes" := Record(map["module" := Text(m.hash)])])
  }

  predicate ManifestFine(m: Manifest) {
    && |m.tools| <= TOOLS_MAX && AllFine(m.tools, ToolFine) && Distinct(ToolNames(m.tools))
    && HooksFine(m.hooks)
    && NamesFine(m.services, SERVICE_NAME, 32) && NamesFine(m.triggers, TRIGGER_NAME, 16)
    && NamesFine(m.views, SURFACE_ID, 16)
    && NamesFine(m.cards, CARD_ID, 16) && NamesFine(m.modelProviders, SERVICE_NAME, 4)
    && |m.modules| <= MODULES_MAX && AllFine(m.modules, ModuleFine) && Distinct(ModuleIds(m.modules))
    && Sha256(m.hash)
  }

  function ToolsAsRead(input: Json): Json {
    ListAsRead(input, ToolAsRead)
  }

  /** The manifest with its schemas as read, and with what an older build leaves out written
      as the empty lists it means. */
  function ManifestAsRead(input: Json): Json {
    if !input.Record? then input
    else
      var o := input.fields;
      var listed := o["cards" := OrEmpty(Field(o, "cards"))]["modelProviders" := OrEmpty(Field(o, "modelProviders"))]
                     ["modules" := OrEmpty(Field(o, "modules"))];
      Record(if "tools" in o then listed["tools" := ToolsAsRead(o["tools"])] else listed)
  }

  lemma PartsRead(o: map<string, Json>, m: Manifest)
    ensures Tools(Field(o, "tools")) == Some(m.tools) <==>
      |m.tools| <= TOOLS_MAX && AllFine(m.tools, ToolFine) && Distinct(ToolNames(m.tools))
      && ToolsAsRead(Field(o, "tools")) == Encoded(m.tools, EncodeTool)
    ensures Modules(OrEmpty(Field(o, "modules"))) == Some(m.modules) <==>
      |m.modules| <= MODULES_MAX && AllFine(m.modules, ModuleFine) && Distinct(ModuleIds(m.modules))
      && OrEmpty(Field(o, "modules")) == Encoded(m.modules, EncodeModule)
    ensures ModuleHash(Field(o, "hashes")) == Some(m.hash) <==>
      Sha256(m.hash) && Field(o, "hashes") == Record(map["module" := Text(m.hash)])
  {
    ToolsInverse();
    ModulesInverse();
    AtMostReads(Field(o, "tools"), TOOLS_MAX, DecodeTool, ToolAsRead, EncodeTool, ToolFine, m.tools);
    AtMostReadsBack(OrEmpty(Field(o, "modules")), MODULES_MAX, DecodeModule, EncodeModule, ModuleFine, m.modules);
    var hashes := Field(o, "hashes");
    if ModuleHash(hashes) == Some(m.hash) {
      SameFields(hashes.fields, map["module" := Text(m.hash)]);
    }
  }

  lemma NamedPartsRead(o: map<string, Json>, m: Manifest)
    ensures Hooks(Field(o, "hooks")) == Some(m.hooks) <==> HooksFine(m.hooks) && Field(o, "hooks") == Texts(m.hooks)
    ensures Names(Field(o, "services"), SERVICE_NAME, 32) == Some(m.services) <==>
      NamesFine(m.services, SERVICE_NAME, 32) && Field(o, "services") == Texts(m.services)
    ensures Names(Field(o, "triggers"), TRIGGER_NAME, 16) == Some(m.triggers) <==>
      NamesFine(m.triggers, TRIGGER_NAME, 16) && Field(o, "triggers") == Texts(m.triggers)
    ensures Names(Field(o, "views"), SURFACE_ID, 16) == Some(m.views) <==>
      NamesFine(m.views, SURFACE_ID, 16) && Field(o, "views") == Texts(m.views)
    ensures Names(OrEmpty(Field(o, "cards")), CARD_ID, 16) == Some(m.cards) <==>
      NamesFine(m.cards, CARD_ID, 16) && OrEmpty(Field(o, "cards")) == Texts(m.cards)
    ensures Names(OrEmpty(Field(o, "modelProviders")), SERVICE_NAME, 4) == Some(m.modelProviders) <==>
      NamesFine(m.modelProviders, SERVICE_NAME, 4) && OrEmpty(Field(o, "modelProviders")) == Texts(m.modelProviders)
  {
    HooksRead(Field(o, "hooks"), m.hooks);
    NamesRead(Field(o, "services"), SERVICE_NAME, 32, m.services);
    NamesRead(Field(o, "triggers"), TRIGGER_NAME, 16, m.triggers);
    NamesRead(Field(o, "views"), SURFACE_ID, 16, m.views);
    NamesRead(OrEmpty(Field(o, "cards")), CARD_ID, 16, m.cards);
    NamesRead(OrEmpty(Field(o, "modelProviders")), SERVICE_NAME, 4, m.modelProviders);
  }

  const NAME_FIELDS := {"hooks", "services", "triggers", "views", "cards", "modelProviders"}
  const OPTIONAL_FIELDS := {"cards", "modelProviders", "modules"}

  /** The lists of names are the ones `m` is written with. */
  predicate NamesOf(o: map<string, Json>, m: Manifest) {
    && Field(o, "hooks") == Texts(m.hooks) && Field(o, "services") == Texts(m.services)
    && Field(o, "triggers") == Texts(m.triggers) && Field(o, "views") == Texts(m.views)
    && OrEmpty(Field(o, "cards")) == Texts(m.cards) && OrEmpty(Field(o, "modelProviders")) == Texts(m.modelProviders)
  }

  /** And the other fields. */
  predicate OthersOf(o: map<string, Json>, m: Manifest) {
    && Field(o, "contract") == Number(CONTRACT) && ToolsAsRead(Field(o, "tools")) == Encoded(m.tools, EncodeTool)
    && OrEmpty(Field(o, "modules")) == Encoded(m.modules, EncodeModule)
    && Field(o, "hashes") == Record(map["module" := Text(m.hash)])
  }

  lemma FieldAsRead(o: map<string, Json>, k: string)
    ensures Field(ManifestAsRead(Record(o)).fields, k) ==
      if k in OPTIONAL_FIELDS then OrEmpty(Field(o, k))
      else if k == "tools" then ToolsAsRead(Field(o, k)) else Field(o, k)
  {
  }

  lemma NamesAreWritten(o: map<string, Json>, m: Manifest, k: string)
    requires NamesOf(o, m) && k in NAME_FIELDS
    ensures k in EncodeManifest(m).fields && EncodeManifest(m).fields[k] != Null
    ensures Field(ManifestAsRead(Record(o)).fields, k) == EncodeManifest(m).fields[k]
  {
    FieldAsRead(o, k);
  }

  lemma OthersAreWritten(o: map<string, Json>, m: Manifest, k: string)
    requires OthersOf(o, m) && k in MANIFEST_FIELDS - NAME_FIELDS
    ensures k in EncodeManifest(m).fields && EncodeManifest(m).fields[k] != Null
    ensures Field(ManifestAsRead(Record(o)).fields, k) == EncodeManifest(m).fields[k]
  {
    FieldAsRead(o, k);
  }

  lemma ManifestKeys(o: map<string, Json>, m: Manifest)
    ensures ManifestAsRead(Record(o)).fields.Keys == o.Keys + OPTIONAL_FIELDS
    ensures EncodeManifest(m).fields.Keys == MANIFEST_FIELDS
  {
  }

  lemma FieldsAreWritten(o: map<string, Json>, m: Manifest)
    requires o.Keys <= MANIFEST_FIELDS && NamesOf(o, m) && OthersOf(o, m)
    ensures ManifestAsRead(Record(o)) == EncodeManifest(m)
  {
    var filled, written := ManifestAsRead(Record(o)).fields, EncodeManifest(m).fields;
    ManifestKeys(o, m);
    forall k | k in written ensures written[k] != Null && Field(filled, k) == written[k] {
      if k in NAME_FIELDS {
        NamesAreWritten(o, m, k);
      } else {
        OthersAreWritten(o, m, k);
      }
    }
    SameFields(filled, written);
  }

  lemma WrittenNames(o: map<string, Json>, m: Manifest)
    requires ManifestAsRead(Record(o)) == EncodeManifest(m)
    ensures NamesOf(o, m)
  {
    FieldAsRead(o, "hooks");
    FieldAsRead(o, "services");
    FieldAsRead(o, "triggers");
    FieldAsRead(o, "views");
    FieldAsRead(o, "cards");
    FieldAsRead(o, "modelProviders");
  }

  lemma WrittenOthers(o: map<string, Json>, m: Manifest)
    requires ManifestAsRead(Record(o)) == EncodeManifest(m)
    ensures o.Keys <= MANIFEST_FIELDS && OthersOf(o, m)
  {
    ManifestKeys(o, m);
    FieldAsRead(o, "contract");
    FieldAsRead(o, "tools");
    FieldAsRead(o, "modules");
    FieldAsRead(o, "hashes");
  }

  predicate PartsDecode(o: map<string, Json>, m: Manifest) {
    && Field(o, "contract") == Number(CONTRACT)
    && Tools(Field(o, "tools")) == Some(m.tools) && Hooks(Field(o, "hooks")) == Some(m.hooks)
    && Names(Field(o, "services"), SERVICE_NAME, 32) == Some(m.services)
    && Names(Field(o, "triggers"), TRIGGER_NAME, 16) == Some(m.triggers)
    && Names(Field(o, "views"), SURFACE_ID, 16) == Some(m.views)
    && Names(OrEmpty(Field(o, "cards")), CARD_ID, 16) == Some(m.cards)
    && Names(OrEmpty(Field(o, "modelProviders")), SERVICE_NAME, 4) == Some(m.modelProviders)
    && Modules(OrEmpty(Field(o, "modules"))) == Some(m.modules)
    && ModuleHash(Field(o, "hashes")) == Some(m.hash)
  }

  lemma PartsDecodeRead(o: map<string, Json>, m: Manifest)
    ensures PartsDecode(o, m) <==> ManifestFine(m) && NamesOf(o, m) && OthersOf(o, m)
  {
    PartsRead(o, m);
    NamedPartsRead(o, m);
  }

  lemma DecodesByParts(o: map<string, Json>, m: Manifest)
    ensures DecodeManifest(Record(o)) == Some(m) <==> o.Keys <= MANIFEST_FIELDS && PartsDecode(o, m)
  {
  }

  lemma ManifestReads(input: Json, m: Manifest)
    ensures DecodeManifest(input) == Some(m) <==> ManifestFine(m) && ManifestAsRead(input) == EncodeManifest(m)
  {
    if input.Record? {
      var o := input.fields;
      DecodesByParts(o, m);
      PartsDecodeRead(o, m);
      if o.Keys <= MANIFEST_FIELDS && NamesOf(o, m) && OthersOf(o, m) {
        FieldsAreWritten(o, m);
      }
      if ManifestAsRead(input) == EncodeManifest(m) {
        WrittenNames(o, m);
        WrittenOthers(o, m);
      }
    }
  }

  // ---- the response --------------------------------------------------------------------

  /** The device modules' code, one for each module the manifest declares and in that order. */
  function Artifacts(items: seq<Json>, declared: seq<Module>): Option<seq<Artifact>>
    requires |items| == |declared|
  {
    if items == [] then Some([])
    else
      var first, rest := DecodeArtifact(items[0], declared[0].id), Artifacts(items[1..], declared[1..]);
      if first.Some? && rest.Some? then Some([first.value] + rest.value) else None
  }

  function DecodeArtifact(input: Json, id: string): Option<Artifact> {
    if !input.Record? || !(input.fields.Keys <= {"id", "code"}) then None
    else
      var code := Field(input.fields, "code");
      if Field(input.fields, "id") != Text(id) || !code.Text? || |code.s| > CODE_MAX then None
      else Some(Artifact(id, code.s))
  }

  function EncodeArtifact(a: Artifact): Json {
    Record(map["id" := Text(a.id), "code" := Text(a.code)])
  }

  predicate ArtifactsFine(artifacts: seq<Artifact>, declared: seq<Module>) {
    && |artifacts| == |declared|
    && forall i :: 0 <= i < |artifacts| ==> artifacts[i].id == declared[i].id && |artifacts[i].code| <= CODE_MAX
  }

  lemma ArtifactReads(input: Json, id: string, a: Artifact)
    ensures DecodeArtifact(input, id) == Some(a) <==> a.id == id && |a.code| <= CODE_MAX && input == EncodeArtifact(a)
  {
    if input.Record? && DecodeArtifact(input, id) == Some(a) {
      SameFields(input.fields, EncodeArtifact(a).fields);
    }
  }

  lemma {:induction false} ArtifactsRead(items: seq<Json>, declared: seq<Module>, artifacts: seq<Artifact>)
    requires |items| == |declared|
    ensures Artifacts(items, declared) == Some(artifacts) <==>
      ArtifactsFine(artifacts, declared) && List(items) == Encoded(artifacts, EncodeArtifact)
    decreases |items|
  {
    var written := Encoded(artifacts, EncodeArtifact).items;
    if items != [] && artifacts != [] {
      ArtifactReads(items[0], declared[0].id, artifacts[0]);
      ArtifactsRead(items[1..], declared[1..], artifacts[1..]);
      assert Encoded(artifacts[1..], EncodeArtifact).items == written[1..];
      assert artifacts == [artifacts[0]] + artifacts[1..];
      assert items == [items[0]] + items[1..] && written == [written[0]] + written[1..];
      if |artifacts| == |declared| {
        assert forall i :: 1 <= i < |artifacts| ==>
          artifacts[i] == artifacts[1..][i - 1] && declared[i] == declared[1..][i - 1];
      }
    }
  }

  function DecodeResponse(input: Json): Option<Response> {
    if !input.Record? then None
    else
      var o := input.fields;
      if Field(o, "status") == Text("failed") then DecodeFailed(o)
      else if Field(o, "status") != Text("built") then None
      else if "manifest" !in o && "module" !in o then (if o.Keys <= {"status"} then Some(Checked) else None)
      else DecodeBuilt(o)
  }

  function DecodeFailed(o: map<string, Json>): Option<Response> {
    var stage, diagnostics := Field(o, "stage"), AtMost(Field(o, "diagnostics"), DIAGNOSTICS_MAX, DecodeDiagnostic);
    if !(o.Keys <= {"status", "stage", "diagnostics"}) then None
    else if !stage.Text? || stage.s !in STAGES || diagnostics == None then None
    else Some(Failed(stage.s, diagnostics.value))
  }

  function DecodeBuilt(o: map<string, Json>): Option<Response> {
    var manifest := DecodeManifest(Field(o, "manifest"));
    var code, modules := Field(o, "module"), OrEmpty(Field(o, "modules"));
    if !(o.Keys <= {"status", "manifest", "module", "modules"}) then None
    else if manifest == None || !code.Text? || |code.s| > CODE_MAX then None
    else if !modules.List? || |modules.items| != |manifest.value.modules| then None
    else
      var artifacts := Artifacts(modules.items, manifest.value.modules);
      if artifacts == None then None else Some(Built(manifest.value, code.s, artifacts.value))
  }

  function EncodeResponse(r: Response): Json {
    match r
    case Checked => Record(map["status" := Text("built")])
    case Built(manifest, code, artifacts) =>
      Record(map["status" := Text("built"), "manifest" := EncodeManifest(manifest), "module" := Text(code),
                 "modules" := Encoded(artifacts, EncodeArtifact)])
    case Failed(stage, diagnostics) =>
      Record(map["status" := Text("failed"), "stage" := Text(stage),
                 "diagnostics" := Encoded(diagnostics, EncodeDiagnostic)])
  }

  predicate ResponseFine(r: Response) {
    match r
    case Checked => true
    case Built(manifest, code, artifacts) =>
      ManifestFine(manifest) && |code| <= CODE_MAX && ArtifactsFine(artifacts, manifest.modules)
    case Failed(stage, diagnostics) =>
      stage in STAGES && |diagnostics| <= DIAGNOSTICS_MAX && AllFine(diagnostics, DiagnosticFine)
  }

  predicate CarriesBuild(o: map<string, Json>) {
    Field(o, "status") == Text("built") && ("manifest" in o || "module" in o)
  }

  /** The response as it is read: its schemas copied, and what an older build leaves out written
      as the empty lists it means. */
  function ResponseAsRead(input: Json): Json {
    if !input.Record? || !CarriesBuild(input.fields) then input
    else
      var o := input.fields;
      Record(o["manifest" := ManifestAsRead(Field(o, "manifest"))]["modules" := OrEmpty(Field(o, "modules"))])
  }

  /** Every field is the one the build is written with. */
  predicate BuiltFields(o: map<string, Json>, r: Response)
    requires r.Built?
  {
    && o.Keys <= {"status", "manifest", "module", "modules"} && Field(o, "status") == Text("built")
    && ManifestAsRead(Field(o, "manifest")) == EncodeManifest(r.manifest) && Field(o, "module") == Text(r.code)
    && OrEmpty(Field(o, "modules")) == Encoded(r.artifacts, EncodeArtifact)
  }

  lemma BuiltFieldsFill(o: map<string, Json>, r: Response)
    requires r.Built? && CarriesBuild(o)
    ensures BuiltFields(o, r) <==> ResponseAsRead(Record(o)) == EncodeResponse(r)
  {
    var filled, written := ResponseAsRead(Record(o)).fields, EncodeResponse(r).fields;
    assert filled.Keys == o.Keys + {"manifest", "modules"};
    assert written.Keys == {"status", "manifest", "module", "modules"};
    assert Field(filled, "status") == Field(o, "status") && Field(filled, "module") == Field(o, "module");
    assert Field(filled, "manifest") == ManifestAsRead(Field(o, "manifest"));
    assert Field(filled, "modules") == OrEmpty(Field(o, "modules"));
    if BuiltFields(o, r) {
      SameFields(filled, written);
    }
    if filled == written {
      assert o.Keys <= written.Keys;
    }
  }

  lemma BuiltReads(o: map<string, Json>, r: Response)
    requires r.Built? && CarriesBuild(o)
    ensures DecodeBuilt(o) == Some(r) <==> ResponseFine(r) && BuiltFields(o, r)
  {
    var modules := OrEmpty(Field(o, "modules"));
    ManifestReads(Field(o, "manifest"), r.manifest);
    if modules.List? && |modules.items| == |r.manifest.modules| {
      ArtifactsRead(modules.items, r.manifest.modules, r.artifacts);
    }
  }

  lemma BuiltIsBuilt(o: map<string, Json>, r: Response)
    requires CarriesBuild(o) && !r.Built?
    ensures ResponseAsRead(Record(o)) != EncodeResponse(r)
  {
    assert "manifest" in ResponseAsRead(Record(o)).fields;
  }

  lemma FailedReads(o: map<string, Json>, r: Response)
    requires Field(o, "status") == Text("failed")
    ensures DecodeFailed(o) == Some(r) <==> ResponseFine(r) && Record(o) == EncodeResponse(r)
  {
    if r.Failed? {
      DiagnosticsInverse();
      AtMostReadsBack(Field(o, "diagnostics"), DIAGNOSTICS_MAX, DecodeDiagnostic, EncodeDiagnostic, DiagnosticFine,
                      r.diagnostics);
      if DecodeFailed(o) == Some(r) {
        SameFields(o, EncodeResponse(r).fields);
      }
    }
  }

  /** What decodes is, as it is read, exactly the encoding of a response within bounds whose
      schemas name no lost field. */
  lemma ResponseCodec(input: Json, r: Response)
    ensures DecodeResponse(input) == Some(r) <==> ResponseFine(r) && ResponseAsRead(input) == EncodeResponse(r)
  {
    if input.Record? {
      var o := input.fields;
      if Field(o, "status") == Text("failed") {
        FailedReads(o, r);
      } else if CarriesBuild(o) {
        if r.Built? {
          BuiltReads(o, r);
          BuiltFieldsFill(o, r);
        } else {
          BuiltIsBuilt(o, r);
        }
      } else if DecodeResponse(input) == Some(r) {
        SameFields(o, map["status" := Text("built")]);
      }
    }
  }

  // ---- what comes back of a response ---------------------------------------------------

  function ToolKept(t: Tool): Tool {
    t.(schema := Stripped(Record(t.schema)).fields)
  }

  function ToolsKept(tools: seq<Tool>): seq<Tool> {
    seq(|tools|, i requires 0 <= i < |tools| => ToolKept(tools[i]))
  }

  /** The response without the fields its schemas lose. */
  function ResponseKept(r: Response): Response {
    if r.Built? then r.(manifest := r.manifest.(tools := ToolsKept(r.manifest.tools))) else r
  }

  predicate SchemasShallow(r: Response) {
    r.Built? ==> forall i :: 0 <= i < |r.manifest.tools| ==> Shallow(Record(r.manifest.tools[i].schema), 0)
  }

  lemma EncodedToolAsRead(t: Tool)
    requires Shallow(Record(t.schema), 0)
    ensures ToolAsRead(EncodeTool(t)) == EncodeTool(ToolKept(t))
  {
    assert ToolAsRead(EncodeTool(t)).fields == EncodeTool(ToolKept(t)).fields;
  }

  lemma EncodedToolsAsRead(tools: seq<Tool>)
    requires forall i :: 0 <= i < |tools| ==> Shallow(Record(tools[i].schema), 0)
    ensures ToolsAsRead(Encoded(tools, EncodeTool)) == Encoded(ToolsKept(tools), EncodeTool)
  {
    var read, written := ToolsAsRead(Encoded(tools, EncodeTool)).items, Encoded(ToolsKept(tools), EncodeTool).items;
    forall i | 0 <= i < |tools| ensures read[i] == written[i] {
      EncodedToolAsRead(tools[i]);
    }
    assert read == written;
  }

  lemma EncodedManifestAsRead(m: Manifest)
    requires forall i :: 0 <= i < |m.tools| ==> Shallow(Record(m.tools[i].schema), 0)
    ensures ManifestAsRead(EncodeManifest(m)) == EncodeManifest(m.(tools := ToolsKept(m.tools)))
  {
    var o, kept := EncodeManifest(m).fields, m.(tools := ToolsKept(m.tools));
    EncodedToolsAsRead(m.tools);
    EncodedNames(o, m, kept);
    FieldsAreWritten(o, kept);
  }

  lemma EncodedNames(o: map<string, Json>, m: Manifest, kept: Manifest)
    requires o == EncodeManifest(m).fields && kept == m.(tools := kept.tools)
    requires ToolsAsRead(Encoded(m.tools, EncodeTool)) == Encoded(kept.tools, EncodeTool)
    ensures o.Keys <= MANIFEST_FIELDS && NamesOf(o, kept) && OthersOf(o, kept)
  {
    ManifestKeys(o, m);
  }

  lemma EncodedAsRead(r: Response)
    requires SchemasShallow(r)
    ensures ResponseAsRead(EncodeResponse(r)) == EncodeResponse(ResponseKept(r))
  {
    if r.Built? {
      EncodedManifestAsRead(r.manifest);
      BuiltFieldsFill(EncodeResponse(r).fields, ResponseKept(r));
    }
  }

  /** A response encoded comes back exactly when it is within bounds and its schemas name no
      lost field. */
  lemma EncodedComesBack(r: Response)
    ensures DecodeResponse(EncodeResponse(r)) == Some(r) <==> ResponseFine(r)
  {
    ResponseCodec(EncodeResponse(r), r);
    if ResponseFine(r) {
      EncodedAsRead(r);
      KeptWhole(r);
    }
  }

  lemma KeptWhole(r: Response)
    requires ResponseFine(r)
    ensures SchemasShallow(r) && ResponseKept(r) == r
  {
    if r.Built? {
      forall i | 0 <= i < |r.manifest.tools| ensures ToolKept(r.manifest.tools[i]) == r.manifest.tools[i] {
        assert ToolFine(r.manifest.tools[i]);
        StrippedRight(Record(r.manifest.tools[i].schema));
      }
      assert ToolsKept(r.manifest.tools) == r.manifest.tools;
    }
  }

  /** Otherwise within bounds, it comes back without those fields. */
  lemma EncodedLoses(r: Response)
    requires SchemasShallow(r) && ResponseFine(ResponseKept(r))
    ensures DecodeResponse(EncodeResponse(r)) == Some(ResponseKept(r))
  {
    EncodedAsRead(r);
    ResponseCodec(EncodeResponse(r), ResponseKept(r));
  }

  function OneTool(schema: map<string, Json>): Response {
    Built(Manifest([Tool("t", "d", schema)], [], [], [], [], [], [], [], seq(64, _ => '0')), "", [])
  }

  lemma OneToolFine()
    ensures ResponseFine(OneTool(map[]))
  {
  }

  lemma ProtoStripped()
    ensures var schema := map[PROTO := Record(map[])];
      Shallow(Record(schema), 0) && Stripped(Record(schema)) == Record(map[])
  {
    var schema := map[PROTO := Record(map[])];
    assert |schema.Keys| == 1;
    assert Stripped(Record(schema)).fields == map[];
  }

  /** A build of one tool, its schema an empty object under the lost name: the schema comes
      back empty. */
  lemma ProtoIsLost()
    ensures DecodeResponse(EncodeResponse(OneTool(map[PROTO := Record(map[])]))) == Some(OneTool(map[]))
  {
    var sent := OneTool(map[PROTO := Record(map[])]);
    ProtoStripped();
    OneToolFine();
    assert ToolsKept(sent.manifest.tools) == [Tool("t", "d", map[])];
    EncodedLoses(sent);
  }

  /** A view id may have 128 characters by its pattern, and is refused past 64. */
  lemma LongViewRefused(input: Json, m: Manifest, view: string)
    requires Matches(SURFACE_ID, view) && view in m.views
    ensures |view| > NAME_MAX ==> DecodeManifest(input) != Some(m)
  {
    ManifestReads(input, m);
    var i :| 0 <= i < |m.views| && m.views[i] == view;
  }

  /** Such ids are there: sixty-five times the same letter. */
  lemma LongViewMatches()
    ensures var view := seq(65, _ => 'a'); Matches(SURFACE_ID, view) && |view| > NAME_MAX
  {
  }
}
