/**
 * The tool dispatcher of src/index.ts: the two tool descriptors announced by ListTools, the zod argument
 * schemas, and the CallTool handler that routes a tool name to the service and turns anything thrown into
 * an `isError: true` envelope.
 */
module McpServer {
  import opened Wrappers
  import opened Text
  import opened LottoService

  // ---------------------------------------------------------------- JSON values and JSON Schema

  /** A JSON value as it arrives in `arguments` (numbers are integers in this model). */
  datatype Json =
    | JNull
    | JBool(b: bool)
    | JNumber(n: int)
    | JString(s: string)
    | JArray(items: seq<Json>)
    | JObject(fields: map<string, Json>)

  /** The fragment of JSON Schema the tool descriptors use. */
  datatype Schema =
    | NumberSchema(minimum: Option<int>, maximum: Option<int>)
    | ArraySchema(items: Schema, minItems: Option<nat>, maxItems: Option<nat>)
    | ObjectSchema(properties: seq<Property>, required: seq<string>)

  datatype Property = Property(name: string, schema: Schema, description: string)

  datatype ToolDescriptor = ToolDescriptor(name: string, description: string, inputSchema: Schema)

  /** Validation of a JSON value against a schema: the reference the argument parsers are compared with. */
  predicate Conforms(v: Json, s: Schema)
    decreases s
  {
    match s
    case NumberSchema(minimum, maximum) =>
      && v.JNumber?
      && (minimum.Some? ==> minimum.value <= v.n)
      && (maximum.Some? ==> v.n <= maximum.value)
    case ArraySchema(items, minItems, maxItems) =>
      && v.JArray?
      && (minItems.Some? ==> minItems.value <= |v.items|)
      && (maxItems.Some? ==> |v.items| <= maxItems.value)
      && forall i :: 0 <= i < |v.items| ==> Conforms(v.items[i], items)
    case ObjectSchema(properties, required) =>
      && v.JObject?
      && (forall i :: 0 <= i < |required| ==> required[i] in v.fields)
      && forall i :: 0 <= i < |properties| && properties[i].name in v.fields ==>
           Conforms(v.fields[properties[i].name], properties[i].schema)
  }

  /** `arguments` may be omitted altogether; an omitted value conforms to no object schema. */
  predicate ArgsConform(args: Option<Json>, s: Schema)
  {
    args.Some? && Conforms(args.value, s)
  }

  const PurchaseToolName: string := "purchase_lotto"
  const CheckToolName: string := "check_lotto_winning"

  const CountSchema: Schema := NumberSchema(Some(1), Some(5))
  const CellSchema: Schema := NumberSchema(Some(1), Some(45))

  /** The input schema announced for `purchase_lotto`. */
  const PurchaseInputSchema: Schema :=
    ObjectSchema([Property("count", CountSchema, "구매할 로또 게임 수 (1-5)")], ["count"])

  /** The input schema announced for `check_lotto_winning`: rows of exactly six numbers in 1..45. */
  const CheckInputSchema: Schema :=
    ObjectSchema(
      [ Property("numbers", ArraySchema(ArraySchema(CellSchema, Some(6), Some(6)), None, None),
                 "확인할 로또 번호 배열 (예: [[1,2,3,4,5,6], [7,8,9,10,11,12]])"),
        Property("round", NumberSchema(None, None), "확인할 회차 (선택사항, 기본값: 현재 회차)") ],
      ["numbers"])

  /** What the zod schema of `check_lotto_winning` enforces: the announced schema without the row length. */
  const CheckParsedSchema: Schema :=
    ObjectSchema(
      [ Property("numbers", ArraySchema(ArraySchema(CellSchema, None, None), None, None), "확인할 로또 번호 배열"),
        Property("round", NumberSchema(None, None), "확인할 회차 (선택사항, 기본값: 현재 회차)") ],
      ["numbers"])

  /** The ListTools handler: exactly the two tools, in this order. */
  function ListTools(): (tools: seq<ToolDescriptor>)
    ensures |tools| == 2
    ensures tools[0].name == PurchaseToolName && tools[0].inputSchema == PurchaseInputSchema
    ensures tools[1].name == CheckToolName && tools[1].inputSchema == CheckInputSchema
  {
    [ ToolDescriptor(PurchaseToolName,
        "동행복권에서 로또를 자동으로 구매합니다. (계정 정보는 환경변수에서 자동으로 가져옵니다)",
        PurchaseInputSchema),
      ToolDescriptor(CheckToolName, "로또 번호의 당첨 결과를 확인합니다.", CheckInputSchema) ]
  }

  // ---------------------------------------------------------------- zod argument parsing

  datatype PathItem = Key(key: string) | Index(index: nat)

  /** The zod issues these schemas can raise. */
  datatype Issue =
    | InvalidType(path: seq<PathItem>, expected: string, received: string)
    | TooSmall(path: seq<PathItem>, minimum: int)
    | TooBig(path: seq<PathItem>, maximum: int)

  /** zod's default message for an issue. */
  function IssueMessage(issue: Issue): (r: string)
  {
    match issue
    case InvalidType(_, expected, received) =>
      if received == "undefined" then "Required" else "Expected " + expected + ", received " + received
    case TooSmall(_, minimum) => "Number must be greater than or equal to " + IntToString(minimum)
    case TooBig(_, maximum) => "Number must be less than or equal to " + IntToString(maximum)
  }

  /** The type zod reports having received; `None` is an absent value. */
  function ReceivedType(v: Option<Json>): (r: string)
  {
    match v
    case None => "undefined"
    case Some(JNull) => "null"
    case Some(JBool(_)) => "boolean"
    case Some(JNumber(_)) => "number"
    case Some(JString(_)) => "string"
    case Some(JArray(_)) => "array"
    case Some(JObject(_)) => "object"
  }

  /** The value of an object's field, absent when the key is missing. */
  function Field(fields: map<string, Json>, key: string): (r: Option<Json>)
  {
    if key in fields then Some(fields[key]) else None
  }

  /** `z.number()` with optional `.min()` and `.max()`: both bounds are checked, each adding its own issue. */
  function NumberIssues(v: Option<Json>, path: seq<PathItem>, minimum: Option<int>, maximum: Option<int>): (r: seq<Issue>)
  {
    if v.Some? && v.value.JNumber? then
      (if minimum.Some? && v.value.n < minimum.value then [TooSmall(path, minimum.value)] else [])
      + (if maximum.Some? && v.value.n > maximum.value then [TooBig(path, maximum.value)] else [])
    else [InvalidType(path, "number", ReceivedType(v))]
  }

  /** The elements of a row of `z.array(z.number().min(1).max(45))`, from position `start` on. */
  function CellsIssues(cells: seq<Json>, path: seq<PathItem>, start: nat): (r: seq<Issue>)
    decreases |cells|
  {
    if cells == [] then []
    else NumberIssues(Some(cells[0]), path + [Index(start)], Some(1), Some(45)) + CellsIssues(cells[1..], path, start + 1)
  }

  function RowIssues(row: Json, path: seq<PathItem>): (r: seq<Issue>)
  {
    if row.JArray? then CellsIssues(row.items, path, 0) else [InvalidType(path, "array", ReceivedType(Some(row)))]
  }

  /** The rows of `numbers`, from position `start` on; zod reports the issues of every row. */
  function RowsIssues(rows: seq<Json>, path: seq<PathItem>, start: nat): (r: seq<Issue>)
    decreases |rows|
  {
    if rows == [] then []
    else RowIssues(rows[0], path + [Index(start)]) + RowsIssues(rows[1..], path, start + 1)
  }

  /** `PurchaseLottoSchema.parse`'s issues. */
  function PurchaseArgsIssues(args: Option<Json>): (r: seq<Issue>)
  {
    if args.Some? && args.value.JObject? then NumberIssues(Field(args.value.fields, "count"), [Key("count")], Some(1), Some(5))
    else [InvalidType([], "object", ReceivedType(args))]
  }

  /** `CheckLottoSchema.parse`'s issues: those of `numbers`, then those of `round`. */
  function CheckArgsIssues(args: Option<Json>): (r: seq<Issue>)
  {
    if args.Some? && args.value.JObject? then
      var numbers := Field(args.value.fields, "numbers");
      var round := Field(args.value.fields, "round");
      (if numbers.Some? && numbers.value.JArray? then RowsIssues(numbers.value.items, [Key("numbers")], 0)
       else [InvalidType([Key("numbers")], "array", ReceivedType(numbers))])
      + (if round.Some? then NumberIssues(round, [Key("round")], None, None) else [])
    else [InvalidType([], "object", ReceivedType(args))]
  }

  /** Every element is a number. */
  predicate AllNumbers(cells: seq<Json>)
  {
    forall i :: 0 <= i < |cells| ==> cells[i].JNumber?
  }

  function Numbers(cells: seq<Json>): (r: seq<int>)
    requires AllNumbers(cells)
  {
    seq(|cells|, i requires 0 <= i < |cells| => cells[i].n)
  }

  predicate AllRows(rows: seq<Json>)
  {
    forall i :: 0 <= i < |rows| ==> rows[i].JArray? && AllNumbers(rows[i].items)
  }

  function Rows(rows: seq<Json>): (r: seq<seq<int>>)
    requires AllRows(rows)
  {
    seq(|rows|, i requires 0 <= i < |rows| && AllRows(rows) => Numbers(rows[i].items))
  }

  /**
   * `PurchaseLottoSchema.parse(args)`: the count, or every issue found. It accepts exactly the arguments
   * the announced `purchase_lotto` schema admits, and yields the count as sent.
   */
  function ParsePurchaseArgs(args: Option<Json>): (r: Result<int, seq<Issue>>)
    ensures r.Ok? <==> ArgsConform(args, PurchaseInputSchema)
    ensures r.Ok? ==>
      && args.Some? && args.value.JObject? && "count" in args.value.fields
      && args.value.fields["count"] == JNumber(r.value) && 1 <= r.value <= 5
    ensures r.Err? ==> r.error == PurchaseArgsIssues(args) && r.error != []
  {
    PurchaseIssuesMatchSchema(args);
    var issues := PurchaseArgsIssues(args);
    if issues == [] then Ok(args.value.fields["count"].n) else Err(issues)
  }

  datatype CheckArgs = CheckArgs(numbers: seq<seq<int>>, round: Option<int>)

  /**
   * `CheckLottoSchema.parse(args)`: the rows and the optional round, or every issue found. It accepts
   * exactly the arguments the announced `check_lotto_winning` schema admits once its row length is
   * dropped, and yields the rows and the round as sent, every number within 1..45.
   */
  function ParseCheckArgs(args: Option<Json>): (r: Result<CheckArgs, seq<Issue>>)
    ensures r.Ok? <==> ArgsConform(args, CheckParsedSchema)
    ensures r.Ok? ==>
      && args.Some? && args.value.JObject? && "numbers" in args.value.fields
      && args.value.fields["numbers"].JArray?
      && |r.value.numbers| == |args.value.fields["numbers"].items|
      && (forall i :: 0 <= i < |r.value.numbers| ==>
            args.value.fields["numbers"].items[i].JArray?
            && |r.value.numbers[i]| == |args.value.fields["numbers"].items[i].items|)
      && (forall i, j :: 0 <= i < |r.value.numbers| && 0 <= j < |r.value.numbers[i]| ==>
            args.value.fields["numbers"].items[i].items[j] == JNumber(r.value.numbers[i][j])
            && 1 <= r.value.numbers[i][j] <= 45)
      && (r.value.round.Some? <==> "round" in args.value.fields)
      && (r.value.round.Some? ==> args.value.fields["round"] == JNumber(r.value.round.value))
    ensures r.Err? ==> r.error == CheckArgsIssues(args) && r.error != []
  {
    CheckIssuesMatchSchema(args);
    var issues := CheckArgsIssues(args);
    if issues == [] then
      var fields := args.value.fields;
      var rows := fields["numbers"].items;
      RowsWellTyped(rows, [Key("numbers")], 0);
      var numbers := Rows(rows);
      RowsInRange(rows, numbers);
      Ok(CheckArgs(numbers, if "round" in fields then Some(fields["round"].n) else None))
    else Err(issues)
  }

  // ---------------------------------------------------------------- parsers against the schemas

  lemma NumberIssuesConform(v: Json, path: seq<PathItem>, minimum: Option<int>, maximum: Option<int>)
    ensures NumberIssues(Some(v), path, minimum, maximum) == [] <==> Conforms(v, NumberSchema(minimum, maximum))
  {
  }

  lemma {:induction false} CellsIssuesConform(cells: seq<Json>, path: seq<PathItem>, start: nat)
    ensures CellsIssues(cells, path, start) == [] <==> forall i :: 0 <= i < |cells| ==> Conforms(cells[i], CellSchema)
    decreases |cells|
  {
    if cells != [] {
      NumberIssuesConform(cells[0], path + [Index(start)], Some(1), Some(45));
      CellsIssuesConform(cells[1..], path, start + 1);
      assert forall i :: 1 <= i < |cells| ==> cells[i] == cells[1..][i - 1];
    }
  }

  lemma RowIssuesConform(row: Json, path: seq<PathItem>)
    ensures RowIssues(row, path) == [] <==> Conforms(row, ArraySchema(CellSchema, None, None))
  {
    if row.JArray? {
      CellsIssuesConform(row.items, path, 0);
    }
  }

  lemma {:induction false} RowsIssuesConform(rows: seq<Json>, path: seq<PathItem>, start: nat)
    ensures RowsIssues(rows, path, start) == [] <==>
      forall i :: 0 <= i < |rows| ==> Conforms(rows[i], ArraySchema(CellSchema, None, None))
    decreases |rows|
  {
    if rows != [] {
      RowIssuesConform(rows[0], path + [Index(start)]);
      RowsIssuesConform(rows[1..], path, start + 1);
      assert forall i :: 1 <= i < |rows| ==> rows[i] == rows[1..][i - 1];
    }
  }

  lemma RowsWellTyped(rows: seq<Json>, path: seq<PathItem>, start: nat)
    requires RowsIssues(rows, path, start) == []
    ensures AllRows(rows)
  {
    RowsIssuesConform(rows, path, start);
    forall i | 0 <= i < |rows| ensures rows[i].JArray? && AllNumbers(rows[i].items) {
      assert Conforms(rows[i], ArraySchema(CellSchema, None, None));
    }
  }

  /** A one-property object schema whose property is required. */
  lemma OnePropertyConforms(v: Json, p: Property)
    ensures Conforms(v, ObjectSchema([p], [p.name])) <==>
      v.JObject? && p.name in v.fields && Conforms(v.fields[p.name], p.schema)
  {
    assert [p][0] == p && [p.name][0] == p.name;
  }

  /** A two-property object schema whose first property is required and whose second is optional. */
  lemma TwoPropertiesConform(v: Json, p: Property, q: Property)
    ensures Conforms(v, ObjectSchema([p, q], [p.name])) <==>
      && v.JObject? && p.name in v.fields && Conforms(v.fields[p.name], p.schema)
      && (q.name in v.fields ==> Conforms(v.fields[q.name], q.schema))
  {
    assert [p, q][0] == p && [p, q][1] == q && [p.name][0] == p.name;
  }

  /** No purchase issue exactly when the announced schema admits the arguments, whose count is then a number in 1..5. */
  lemma PurchaseIssuesMatchSchema(args: Option<Json>)
    ensures PurchaseArgsIssues(args) == [] <==> ArgsConform(args, PurchaseInputSchema)
    ensures PurchaseArgsIssues(args) == [] ==>
      args.Some? && args.value.JObject? && "count" in args.value.fields && args.value.fields["count"].JNumber?
      && 1 <= args.value.fields["count"].n <= 5
  {
    if args.Some? {
      OnePropertyConforms(args.value, PurchaseInputSchema.properties[0]);
    }
    if args.Some? && args.value.JObject? && "count" in args.value.fields {
      NumberIssuesConform(args.value.fields["count"], [Key("count")], Some(1), Some(5));
    }
  }

  /** No check issue exactly when the announced schema without the row length admits the arguments. */
  lemma CheckIssuesMatchSchema(args: Option<Json>)
    ensures CheckArgsIssues(args) == [] <==> ArgsConform(args, CheckParsedSchema)
    ensures CheckArgsIssues(args) == [] ==>
      && args.Some? && args.value.JObject? && "numbers" in args.value.fields && args.value.fields["numbers"].JArray?
      && (forall i :: 0 <= i < |args.value.fields["numbers"].items| ==>
            Conforms(args.value.fields["numbers"].items[i], ArraySchema(CellSchema, None, None)))
      && ("round" in args.value.fields ==> args.value.fields["round"].JNumber?)
  {
    if args.Some? && args.value.JObject? {
      var fields := args.value.fields;
      if "numbers" in fields && fields["numbers"].JArray? {
        RowsIssuesConform(fields["numbers"].items, [Key("numbers")], 0);
      }
      if "round" in fields {
        NumberIssuesConform(fields["round"], [Key("round")], None, None);
      }
      TwoPropertiesConform(args.value, CheckParsedSchema.properties[0], CheckParsedSchema.properties[1]);
    }
  }

  /** Rows that conform to the parsed schema read back as numbers within 1..45. */
  lemma RowsInRange(rows: seq<Json>, numbers: seq<seq<int>>)
    requires AllRows(rows) && numbers == Rows(rows)
    requires forall i :: 0 <= i < |rows| ==> Conforms(rows[i], ArraySchema(CellSchema, None, None))
    ensures |numbers| == |rows|
    ensures forall i :: 0 <= i < |numbers| ==> |numbers[i]| == |rows[i].items|
    ensures forall i, j :: 0 <= i < |numbers| && 0 <= j < |numbers[i]| ==>
      rows[i].items[j] == JNumber(numbers[i][j]) && 1 <= numbers[i][j] <= 45
  {
    forall i, j | 0 <= i < |numbers| && 0 <= j < |numbers[i]|
      ensures rows[i].items[j] == JNumber(numbers[i][j]) && 1 <= numbers[i][j] <= 45
    {
      assert numbers[i] == Numbers(rows[i].items);
      assert Conforms(rows[i].items[j], CellSchema);
    }
  }

  /** The announced schema of `check_lotto_winning` admits only what its parser accepts ... */
  lemma CheckSchemaStricterThanParser(args: Option<Json>)
    requires ArgsConform(args, CheckInputSchema)
    ensures ParseCheckArgs(args).Ok?
  {
    var v := args.value;
    TwoPropertiesConform(v, CheckInputSchema.properties[0], CheckInputSchema.properties[1]);
    TwoPropertiesConform(v, CheckParsedSchema.properties[0], CheckParsedSchema.properties[1]);
    var numbers := v.fields["numbers"];
    assert Conforms(numbers, ArraySchema(ArraySchema(CellSchema, Some(6), Some(6)), None, None));
    forall i | 0 <= i < |numbers.items| ensures Conforms(numbers.items[i], ArraySchema(CellSchema, None, None)) {
      assert Conforms(numbers.items[i], ArraySchema(CellSchema, Some(6), Some(6)));
    }
    assert Conforms(numbers, ArraySchema(ArraySchema(CellSchema, None, None), None, None));
  }

  /** ... but not conversely: a row of numbers in 1..45 of any length other than six passes the parser, though the announced schema rejects it. */
  lemma WrongRowLengthPassesParser(cells: seq<Json>)
    requires |cells| != 6 && forall i :: 0 <= i < |cells| ==> Conforms(cells[i], CellSchema)
    ensures var args := Some(JObject(map["numbers" := JArray([JArray(cells)])]));
      ParseCheckArgs(args).Ok? && !ArgsConform(args, CheckInputSchema)
  {
    var row := JArray(cells);
    var numbers := JArray([row]);
    var v := JObject(map["numbers" := numbers]);
    assert v.fields["numbers"] == numbers && "round" !in v.fields;
    TwoPropertiesConform(v, CheckInputSchema.properties[0], CheckInputSchema.properties[1]);
    TwoPropertiesConform(v, CheckParsedSchema.properties[0], CheckParsedSchema.properties[1]);
    assert numbers.items[0] == row;
    assert Conforms(row, ArraySchema(CellSchema, None, None));
    assert !Conforms(row, ArraySchema(CellSchema, Some(6), Some(6)));
    assert Conforms(numbers, ArraySchema(ArraySchema(CellSchema, None, None), None, None));
    assert !Conforms(numbers, ArraySchema(ArraySchema(CellSchema, Some(6), Some(6)), None, None));
  }

  // ---------------------------------------------------------------- routing and the CallTool handler

  /** A call the handler forwards to the service. */
  datatype Call = PurchaseCall(count: int) | CheckCall(numbers: seq<seq<int>>, round: Option<int>)

  /** What the handler's `try` block can throw: a `ZodError` or the unknown-tool `Error`. */
  datatype Thrown = ValidationError(issues: seq<Issue>) | UnknownTool(name: string)

  /** The switch over the tool name, with the argument parse of the chosen tool. */
  function Route(name: string, args: Option<Json>): (r: Result<Call, Thrown>)
    ensures name != PurchaseToolName && name != CheckToolName ==> r == Err(UnknownTool(name))
    // a known tool's call carries exactly what its parser yields, and its failure the parser's issues
    ensures name == PurchaseToolName ==>
      (r.Ok? <==> ArgsConform(args, PurchaseInputSchema))
      && (r.Ok? ==> r.value == PurchaseCall(ParsePurchaseArgs(args).value) && 1 <= r.value.count <= 5)
      && (r.Err? ==> r.error == ValidationError(ParsePurchaseArgs(args).error))
    ensures name == CheckToolName ==>
      (r.Ok? <==> ArgsConform(args, CheckParsedSchema))
      && (r.Ok? ==> r.value == CheckCall(ParseCheckArgs(args).value.numbers, ParseCheckArgs(args).value.round))
      && (r.Err? ==> r.error == ValidationError(ParseCheckArgs(args).error))
    ensures r.Err? && r.error.ValidationError? ==> r.error.issues != []
  {
    if name == PurchaseToolName then
      match ParsePurchaseArgs(args)
      case Ok(count) => Ok(PurchaseCall(count))
      case Err(issues) => Err(ValidationError(issues))
    else if name == CheckToolName then
      match ParseCheckArgs(args)
      case Ok(parsed) => Ok(CheckCall(parsed.numbers, parsed.round))
      case Err(issues) => Err(ValidationError(issues))
    else Err(UnknownTool(name))
  }

  /** The issues of a `ZodError`, one message per line (standing in for zod's JSON rendering of the issue list). */
  function IssuesText(issues: seq<Issue>): (r: string)
    decreases |issues|
  {
    if issues == [] then []
    else if |issues| == 1 then IssueMessage(issues[0])
    else IssueMessage(issues[0]) + "\n" + IssuesText(issues[1..])
  }

  /** `error.message` of what was thrown. */
  function ThrownMessage(t: Thrown): (r: string)
  {
    match t
    case ValidationError(issues) => IssuesText(issues)
    case UnknownTool(name) => "Unknown tool: " + name
  }

  const ErrorPrefix: string := "오류 발생: "

  /** The single text content of a CallTool response. */
  datatype Content =
    | PurchaseContent(purchase: PurchaseResult)
    | CheckContent(check: CheckResult)
    | ErrorContent(message: string)

  datatype ToolResponse = ToolResponse(content: Content, isError: bool)

  /** The `catch` block: `{success: false, message: "오류 발생: ..."}` marked `isError`. */
  function ErrorResponse(t: Thrown): (response: ToolResponse)
    ensures response.isError && response.content.ErrorContent?
    ensures ErrorPrefix <= response.content.message
  {
    ToolResponse(ErrorContent(ErrorPrefix + ThrownMessage(t)), true)
  }

  /** An unknown tool name is answered with the error envelope naming it, whatever the arguments. */
  lemma UnknownToolEnvelope(name: string, args: Option<Json>)
    requires name != PurchaseToolName && name != CheckToolName
    ensures Route(name, args) == Err(UnknownTool(name))
    ensures ErrorResponse(UnknownTool(name)) == ToolResponse(ErrorContent(ErrorPrefix + "Unknown tool: " + name), true)
  {
  }

  /**
   * The CallTool handler: an argument or name error is answered with the error envelope and reaches no
   * service; otherwise the service receives the parsed fields unchanged and its result, successful or not,
   * is returned as ordinary content without `isError`.
   */
  method CallTool(service: LottoMCPService, name: string, args: Option<Json>) returns (response: ToolResponse)
    modifies service`isSignedIn, service.client`requests
    ensures response.isError <==> Route(name, args).Err?
    ensures Route(name, args).Err? ==>
      && response == ErrorResponse(Route(name, args).error)
      && service.isSignedIn == old(service.isSignedIn)
      && service.client.requests == old(service.client.requests)
    ensures Route(name, args).Ok? && Route(name, args).value.PurchaseCall? ==>
      var o := PurchaseStep(service.config, old(service.isSignedIn), Route(name, args).value.count, service.client.replies);
      && response == ToolResponse(PurchaseContent(o.result), false)
      && service.isSignedIn == o.signedIn
      && service.client.requests == old(service.client.requests) + o.requests
    ensures Route(name, args).Ok? && Route(name, args).value.CheckCall? ==>
      var call := Route(name, args).value;
      var o := CheckStep(call.numbers, call.round, service.client.replies);
      && response == ToolResponse(CheckContent(o.result), false)
      && service.isSignedIn == old(service.isSignedIn)
      && service.client.requests == old(service.client.requests) + o.requests
  {
    var route := Route(name, args);
    match route
    case Err(thrown) =>
      response := ErrorResponse(thrown);
    case Ok(PurchaseCall(count)) =>
      var result := service.PurchaseLotto(count);
      response := ToolResponse(PurchaseContent(result), false);
    case Ok(CheckCall(numbers, round)) =>
      var result := service.CheckLottoWinning(numbers, round);
      response := ToolResponse(CheckContent(result), false);
  }
}
