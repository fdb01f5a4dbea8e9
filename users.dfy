/** The admin user API (`/api/users`): the decision logic of the GET,
    POST, PUT, DELETE and OPTIONS handlers. The identity provider is not
    modelled; each handler receives the provider's answer as an input and
    reports, besides the response, which provider call (if any) it made.
    When the handler makes no call the answer is never looked at. */
module Users {
  import opened Common
  import opened JsNumber

  /** A parsed JSON value (JSON numbers kept as integers). */
  datatype Json =
    | JNull
    | JBool(b: bool)
    | JNum(n: int)
    | JStr(s: string)
    | JArr(items: seq<Json>)
    | JObj(fields: map<string, Json>)

  /** A user record as the identity provider returns it; `other` holds the
      fields the API never passes on (phone, role, identities, ...). */
  datatype User = User(
    id: string,
    email: Option<string>,
    createdAt: string,
    updatedAt: Option<string>,
    lastSignInAt: Option<string>,
    userMetadata: map<string, Json>,
    appMetadata: map<string, Json>,
    other: map<string, Json>)

  /** The projection of a user that GET returns. */
  datatype UserSummary = UserSummary(
    id: string,
    email: Option<string>,
    createdAt: string,
    lastSignInAt: Option<string>,
    userMetadata: map<string, Json>,
    appMetadata: map<string, Json>)

  /** `user?.field` for the user in a create or update answer; a missing
      value is omitted from the JSON. */
  datatype CreatedUser = CreatedUser(id: Option<string>, email: Option<string>, createdAt: Option<string>)
  datatype UpdatedUser = UpdatedUser(id: Option<string>, email: Option<string>, updatedAt: Option<string>)

  /** The JSON bodies the handlers produce. */
  datatype Body =
    | ErrorBody(error: string)
    | UserList(users: seq<UserSummary>, page: JsonNumber, perPage: JsonNumber, total: nat)
    | Created(message: string, created: CreatedUser)
    | Updated(message: string, updated: UpdatedUser)
    | Deleted(message: string, deletedUserId: string)
    | NoBody

  /** `headers` holds only the headers the handler sets itself. */
  datatype Response = Response(status: int, body: Body, headers: map<string, string>)

  /** What the handler asked the identity provider to do. */
  datatype Updates = Updates(
    email: Option<string>,
    password: Option<string>,
    userMetadata: Option<map<string, Json>>,
    appMetadata: Option<map<string, Json>>)

  datatype Call =
    | ListUsers(page: Num, perPage: Num)
    | CreateUser(email: string, password: string, userData: Option<map<string, Json>>)
    | UpdateUser(userId: string, updates: Updates)
    | DeleteUser(userId: string)

  /** The provider's answer: data, an error object with a message, or an
      exception (a rejected promise). */
  datatype Reply<T> = Ok(value: T) | Failed(message: string) | Threw

  /** `await request.json()`: the body is valid JSON, or reading it throws. */
  datatype BodyRead = Unreadable | Read(json: Json)

  datatype Outcome = Outcome(call: Option<Call>, response: Response)

  // ---------------------------------------------------------------------
  // Responses

  /** `errorResponse(message, status)`: the error envelope `{error}`. */
  function ErrorResponse(message: string, status: int): (r: Response)
    ensures r.status == status && r.body.ErrorBody? && r.body.error == message
    ensures r.headers == map[]
  {
    Response(status, ErrorBody(message), map[])
  }

  const InternalError := ErrorResponse("Internal server error", 500)

  // ---------------------------------------------------------------------
  // Query parameters

  /** `searchParams.get(name) || fallback`: an absent or empty parameter
      takes the fallback. */
  function ParamOr(param: Option<string>, fallback: string): (s: string)
    ensures param.None? || param.value == [] ==> s == fallback
    ensures param.Some? && param.value != [] ==> s == param.value
  {
    if param.None? || param.value == [] then fallback else param.value
  }

  /** `page = parseInt(page || '1')` */
  function RequestedPage(param: Option<string>): Num {
    ParseInt(ParamOr(param, "1"))
  }

  /** `perPage = Math.min(parseInt(per_page || '10'), 100)`: never above
      100, NaN exactly when the parameter does not start with a number. */
  function RequestedPerPage(param: Option<string>): (r: Num)
    ensures r.Int? ==> r.value <= 100
    ensures r.NaN? <==> ParseInt(ParamOr(param, "10")).NaN?
    ensures var n := ParseInt(ParamOr(param, "10")); n.Int? && n.value <= 100 ==> r == n
    ensures var n := ParseInt(ParamOr(param, "10")); n.Int? && n.value >= 100 ==> r == Int(100)
  {
    Min(ParseInt(ParamOr(param, "10")), Int(100))
  }

  /** The guard `page < 1 || perPage < 1`; NaN passes it. */
  predicate PaginationRejected(page: Num, perPage: Num) {
    Less(page, Int(1)) || Less(perPage, Int(1))
  }

  /** `searchParams.get('id')` is falsy: absent or empty. */
  predicate IdMissing(id: Option<string>) {
    id.None? || id.value == []
  }

  // ---------------------------------------------------------------------
  // Validation (the zod schemas, with email syntax left to `isEmail`)

  datatype Validation<T> = Valid(data: T) | Invalid(issues: seq<string>)

  datatype CreateInput = CreateInput(email: string, password: string, userData: Option<map<string, Json>>)

  /** The type name zod reports in "Expected ..., received <name>". */
  function TypeName(j: Json): string {
    match j
    case JNull => "null"
    case JBool(_) => "boolean"
    case JNum(_) => "number"
    case JStr(_) => "string"
    case JArr(_) => "array"
    case JObj(_) => "object"
  }

  function Field(o: map<string, Json>, key: string): Option<Json> {
    if key in o then Some(o[key]) else None
  }

  /** zod's `.min(8)`: at least 8 UTF-16 code units, JavaScript's
      `length`. */
  predicate MinLength8(s: string) {
    Utf16Length(s) >= 8
  }

  /** For characters below U+10000 the rule is "at least 8 characters". */
  lemma MinLength8Basic(s: string)
    requires forall i :: 0 <= i < |s| ==> (s[i] as int) < 0x1_0000
    ensures MinLength8(s) <==> |s| >= 8
  {
    Utf16LengthBasic(s);
  }

  /** Four characters above U+FFFF, each a surrogate pair, already reach
      8 code units. */
  lemma MinLength8Astral(s: string)
    requires forall i :: 0 <= i < |s| ==> (s[i] as int) >= 0x1_0000
    ensures MinLength8(s) <==> |s| >= 4
  {
    Utf16LengthAstral(s);
  }

  /** The issues of a `z.string()` field with one refinement `ok` whose
      failure message is `message`; an absent required field is
      "Required", an absent optional one is fine. */
  function StringIssues(v: Option<Json>, required: bool, ok: string -> bool, message: string): (r: seq<string>)
    ensures |r| <= 1
    ensures r == [] <==> (v.None? && !required) || (v.Some? && v.value.JStr? && ok(v.value.s))
  {
    match v
    case None => if required then ["Required"] else []
    case Some(JStr(s)) => if ok(s) then [] else [message]
    case Some(other) => ["Expected string, received " + TypeName(other)]
  }

  /** The issues of an optional `z.record(z.any())` field. */
  function RecordIssues(v: Option<Json>): (r: seq<string>)
    ensures |r| <= 1
    ensures r == [] <==> v.None? || v.value.JObj?
  {
    match v
    case None => []
    case Some(JObj(_)) => []
    case Some(other) => ["Expected object, received " + TypeName(other)]
  }

  function OptionalRecord(v: Option<Json>): Option<map<string, Json>> {
    if v.Some? && v.value.JObj? then Some(v.value.fields) else None
  }

  function OptionalString(v: Option<Json>): Option<string> {
    if v.Some? && v.value.JStr? then Some(v.value.s) else None
  }

  /** Issues of `createUserSchema`, in the schema's field order. */
  function CreateIssues(o: map<string, Json>, isEmail: string -> bool): seq<string> {
    StringIssues(Field(o, "email"), true, isEmail, "Invalid email address") +
    StringIssues(Field(o, "password"), true, MinLength8, "Password must be at least 8 characters") +
    RecordIssues(Field(o, "userData"))
  }

  /** `createUserSchema.safeParse(body)`. A valid result carries exactly the
      schema's fields, each of which meets its rule. */
  function ValidateCreate(body: Json, isEmail: string -> bool): (v: Validation<CreateInput>)
    ensures v.Invalid? ==> v.issues != []
    ensures v.Valid? <==> body.JObj? && CreateIssues(body.fields, isEmail) == []
    ensures v.Valid? ==> Field(body.fields, "email") == Some(JStr(v.data.email)) && isEmail(v.data.email)
    ensures v.Valid? ==> Field(body.fields, "password") == Some(JStr(v.data.password)) && Utf16Length(v.data.password) >= 8
    ensures v.Valid? ==> v.data.userData == OptionalRecord(Field(body.fields, "userData"))
  {
    if !body.JObj? then Invalid(["Expected object, received " + TypeName(body)])
    else
      var o := body.fields;
      var issues := CreateIssues(o, isEmail);
      if issues != [] then Invalid(issues)
      else Valid(CreateInput(o["email"].s, o["password"].s, OptionalRecord(Field(o, "userData"))))
  }

  /** Issues of `updateUserSchema`: every field optional, zod's default
      messages. */
  function UpdateIssues(o: map<string, Json>, isEmail: string -> bool): seq<string> {
    StringIssues(Field(o, "email"), false, isEmail, "Invalid email") +
    StringIssues(Field(o, "password"), false, MinLength8, "String must contain at least 8 character(s)") +
    RecordIssues(Field(o, "user_metadata")) +
    RecordIssues(Field(o, "app_metadata"))
  }

  /** `updateUserSchema.safeParse(body)`; unknown keys are stripped. */
  function ValidateUpdate(body: Json, isEmail: string -> bool): (v: Validation<Updates>)
    ensures v.Invalid? ==> v.issues != []
    ensures v.Valid? <==> body.JObj? && UpdateIssues(body.fields, isEmail) == []
    ensures v.Valid? ==> v.data.email == OptionalString(Field(body.fields, "email"))
    ensures v.Valid? && v.data.email.Some? ==> isEmail(v.data.email.value)
    ensures v.Valid? ==> v.data.password == OptionalString(Field(body.fields, "password"))
    ensures v.Valid? && v.data.password.Some? ==> Utf16Length(v.data.password.value) >= 8
    ensures v.Valid? ==> v.data.userMetadata == OptionalRecord(Field(body.fields, "user_metadata"))
    ensures v.Valid? ==> v.data.appMetadata == OptionalRecord(Field(body.fields, "app_metadata"))
  {
    if !body.JObj? then Invalid(["Expected object, received " + TypeName(body)])
    else
      var o := body.fields;
      var issues := UpdateIssues(o, isEmail);
      if issues != [] then Invalid(issues)
      else Valid(Updates(
        OptionalString(Field(o, "email")),
        OptionalString(Field(o, "password")),
        OptionalRecord(Field(o, "user_metadata")),
        OptionalRecord(Field(o, "app_metadata"))))
  }

  function ValidationMessage(issues: seq<string>): string {
    "Validation error: " + Join(issues, ", ")
  }

  // ---------------------------------------------------------------------
  // Handlers

  function Summary(u: User): UserSummary {
    UserSummary(u.id, u.email, u.createdAt, u.lastSignInAt, u.userMetadata, u.appMetadata)
  }

  function Summaries(users: seq<User>): (r: seq<UserSummary>)
    ensures |r| == |users|
    ensures forall i :: 0 <= i < |users| ==> r[i] == Summary(users[i])
  {
    seq(|users|, i requires 0 <= i < |users| => Summary(users[i]))
  }

  /** GET /api/users */
  function Get(pageParam: Option<string>, perPageParam: Option<string>, reply: Reply<Option<seq<User>>>): Outcome {
    var page := RequestedPage(pageParam);
    var perPage := RequestedPerPage(perPageParam);
    if PaginationRejected(page, perPage) then
      Outcome(None, ErrorResponse("Invalid pagination parameters", 400))
    else
      Outcome(Some(ListUsers(page, perPage)),
        match reply
        case Threw => InternalError
        case Failed(_) => ErrorResponse("Failed to fetch users", 500)
        case Ok(users) =>
          var list := users.GetOr([]);
          Response(200, UserList(Summaries(list), ToJson(page), ToJson(perPage), |list|), map[]))
  }

  /** POST /api/users */
  function Post(body: BodyRead, isEmail: string -> bool, reply: Reply<Option<User>>): Outcome {
    match body
    case Unreadable => Outcome(None, InternalError)
    case Read(json) =>
      match ValidateCreate(json, isEmail)
      case Invalid(issues) => Outcome(None, ErrorResponse(ValidationMessage(issues), 400))
      case Valid(input) =>
        Outcome(Some(CreateUser(input.email, input.password, input.userData)),
          match reply
          case Threw => InternalError
          case Failed(message) =>
            if Contains(message, "already registered") then ErrorResponse("User with this email already exists", 409)
            else ErrorResponse("Failed to create user", 500)
          case Ok(user) =>
            Response(201, Created("User created successfully",
              CreatedUser(
                if user.Some? then Some(user.value.id) else None,
                if user.Some? then user.value.email else None,
                if user.Some? then Some(user.value.createdAt) else None)), map[]))
  }

  /** PUT /api/users?id=... */
  function Put(idParam: Option<string>, body: BodyRead, isEmail: string -> bool, reply: Reply<Option<User>>): Outcome {
    if IdMissing(idParam) then Outcome(None, ErrorResponse("User ID is required", 400))
    else
      var id := idParam.value;
      match body
      case Unreadable => Outcome(None, InternalError)
      case Read(json) =>
        match ValidateUpdate(json, isEmail)
        case Invalid(issues) => Outcome(None, ErrorResponse(ValidationMessage(issues), 400))
        case Valid(updates) =>
          Outcome(Some(UpdateUser(id, updates)),
            match reply
            case Threw => InternalError
            case Failed(message) =>
              if Contains(message, "not found") then ErrorResponse("User not found", 404)
              else ErrorResponse("Failed to update user", 500)
            case Ok(user) =>
              Response(200, Updated("User updated successfully",
                UpdatedUser(
                  if user.Some? then Some(user.value.id) else None,
                  if user.Some? then user.value.email else None,
                  if user.Some? then user.value.updatedAt else None)), map[]))
  }

  /** DELETE /api/users?id=... */
  function Delete(idParam: Option<string>, reply: Reply<Option<User>>): Outcome {
    if IdMissing(idParam) then Outcome(None, ErrorResponse("User ID is required", 400))
    else
      var id := idParam.value;
      Outcome(Some(DeleteUser(id)),
        match reply
        case Threw => InternalError
        case Failed(message) =>
          if Contains(message, "not found") then ErrorResponse("User not found", 404)
          else ErrorResponse("Failed to delete user", 500)
        case Ok(_) => Response(200, Deleted("User deleted successfully", id), map[]))
  }

  const AllowMethods: string := "GET, POST, PUT, DELETE, OPTIONS"

  /** OPTIONS /api/users: the CORS preflight answer. */
  function Options(): (r: Response)
    ensures r.status == 200 && r.body == NoBody
    ensures r.headers.Keys == {"Access-Control-Allow-Origin", "Access-Control-Allow-Methods",
                               "Access-Control-Allow-Headers", "Access-Control-Max-Age"}
    ensures r.headers["Access-Control-Allow-Origin"] == "*"
    ensures r.headers["Access-Control-Allow-Methods"] == AllowMethods
    ensures r.headers["Access-Control-Allow-Headers"] == "Content-Type, Authorization"
    ensures r.headers["Access-Control-Max-Age"] == "86400"
  {
    Response(200, NoBody, map[
      "Access-Control-Allow-Origin" := "*",
      "Access-Control-Allow-Methods" := AllowMethods,
      "Access-Control-Allow-Headers" := "Content-Type, Authorization",
      "Access-Control-Max-Age" := "86400"])
  }

  lemma AllowsGet() ensures Contains(AllowMethods, "GET") {
    assert AllowMethods == "GET" + ", POST, PUT, DELETE, OPTIONS";
    ContainsPrefix("GET", ", POST, PUT, DELETE, OPTIONS");
  }

  lemma AllowsPost() ensures Contains(AllowMethods, "POST") {
    assert AllowMethods == "GET, " + ("POST" + ", PUT, DELETE, OPTIONS");
    ContainsPrefix("POST", ", PUT, DELETE, OPTIONS");
    ContainsInSuffix("GET, ", "POST" + ", PUT, DELETE, OPTIONS", "POST");
  }

  lemma AllowsPut() ensures Contains(AllowMethods, "PUT") {
    assert AllowMethods == "GET, POST, " + ("PUT" + ", DELETE, OPTIONS");
    ContainsPrefix("PUT", ", DELETE, OPTIONS");
    ContainsInSuffix("GET, POST, ", "PUT" + ", DELETE, OPTIONS", "PUT");
  }

  lemma AllowsDelete() ensures Contains(AllowMethods, "DELETE") {
    assert AllowMethods == "GET, POST, PUT, " + ("DELETE" + ", OPTIONS");
    ContainsPrefix("DELETE", ", OPTIONS");
    ContainsInSuffix("GET, POST, PUT, ", "DELETE" + ", OPTIONS", "DELETE");
  }

  lemma AllowsOptions() ensures Contains(AllowMethods, "OPTIONS") {
    assert AllowMethods == "GET, POST, PUT, DELETE, " + ("OPTIONS" + "");
    ContainsPrefix("OPTIONS", "");
    ContainsInSuffix("GET, POST, PUT, DELETE, ", "OPTIONS" + "", "OPTIONS");
  }

  /** The preflight answer allows every method this route handles. */
  lemma OptionsAllowsHandledMethods()
    ensures var allowed := Options().headers["Access-Control-Allow-Methods"];
      Contains(allowed, "GET") && Contains(allowed, "POST") && Contains(allowed, "PUT") &&
      Contains(allowed, "DELETE") && Contains(allowed, "OPTIONS")
  {
    AllowsGet();
    AllowsPost();
    AllowsPut();
    AllowsDelete();
    AllowsOptions();
  }

  // ---------------------------------------------------------------------
  // Properties

  /** Absent or empty pagination parameters mean page 1 of 10 users. */
  lemma DefaultPagination()
    ensures RequestedPage(None) == Int(1) && RequestedPage(Some("")) == Int(1)
    ensures RequestedPerPage(None) == Int(10) && RequestedPerPage(Some("")) == Int(10)
  {
    ParseIntOfNatToString(1);
    ParseIntOfNatToString(10);
    assert NatToString(1) == "1";
    assert NatToString(10) == "10";
  }

  /** GET calls the provider exactly when the guard passes, with the
      parsed page and the clamped page size; otherwise it answers 400. */
  lemma GetCallsProviderIff(pageParam: Option<string>, perPageParam: Option<string>, reply: Reply<Option<seq<User>>>)
    ensures var o := Get(pageParam, perPageParam, reply);
      var page := RequestedPage(pageParam);
      var perPage := RequestedPerPage(perPageParam);
      && (o.call.None? <==> PaginationRejected(page, perPage))
      && (o.call.None? ==> o.response == ErrorResponse("Invalid pagination parameters", 400))
      && (o.call.Some? ==> o.call.value == ListUsers(page, perPage))
  {
  }

  /** The page size forwarded to the provider never exceeds 100. */
  lemma GetPerPageAtMost100(pageParam: Option<string>, perPageParam: Option<string>, reply: Reply<Option<seq<User>>>)
    ensures var o := Get(pageParam, perPageParam, reply);
      o.call.Some? && o.call.value.perPage.Int? ==> 1 <= o.call.value.perPage.value <= 100
  {
  }

  /** A page below 1 is rejected before any provider call. */
  lemma GetRejectsPageBelowOne(pageParam: Option<string>, perPageParam: Option<string>, reply: Reply<Option<seq<User>>>)
    requires RequestedPage(pageParam).Int? && RequestedPage(pageParam).value < 1
    ensures Get(pageParam, perPageParam, reply) == Outcome(None, ErrorResponse("Invalid pagination parameters", 400))
  {
  }

  /** A page that does not parse (NaN) is not rejected: it is forwarded
      and, on success, echoed as JSON `null`. */
  lemma GetForwardsNaNPage(perPageParam: Option<string>, users: Option<seq<User>>)
    requires !Less(RequestedPerPage(perPageParam), Int(1))
    ensures var o := Get(Some("abc"), perPageParam, Ok(users));
      && o.call == Some(ListUsers(NaN, RequestedPerPage(perPageParam)))
      && o.response.status == 200
      && o.response.body.page == JsonNull
  {
    ParseIntNonNumeric();
  }

  /** The default request `GET /api/users` asks for page 1 of 10. */
  lemma GetDefaultCall(reply: Reply<Option<seq<User>>>)
    ensures Get(None, None, reply).call == Some(ListUsers(Int(1), Int(10)))
  {
    DefaultPagination();
  }

  /** A successful listing returns the projection of every user, echoes
      the pagination and reports as total the number of users on the page. */
  lemma GetListsUsers(pageParam: Option<string>, perPageParam: Option<string>, users: seq<User>)
    requires !PaginationRejected(RequestedPage(pageParam), RequestedPerPage(perPageParam))
    ensures var r := Get(pageParam, perPageParam, Ok(Some(users))).response;
      && r.status == 200
      && r.body == UserList(Summaries(users), ToJson(RequestedPage(pageParam)), ToJson(RequestedPerPage(perPageParam)), |users|)
      && |r.body.users| == r.body.total
      && forall i :: 0 <= i < |users| ==> r.body.users[i].id == users[i].id && r.body.users[i].email == users[i].email
  {
  }

  /** A list answer without a user array is an empty page. */
  lemma GetMissingUsersIsEmpty(pageParam: Option<string>, perPageParam: Option<string>)
    requires !PaginationRejected(RequestedPage(pageParam), RequestedPerPage(perPageParam))
    ensures var r := Get(pageParam, perPageParam, Ok(None)).response;
      r.status == 200 && r.body.users == [] && r.body.total == 0
  {
  }

  /** A list error is a 500 with a fixed message, an exception the generic 500. */
  lemma GetProviderFailures(pageParam: Option<string>, perPageParam: Option<string>, message: string)
    requires !PaginationRejected(RequestedPage(pageParam), RequestedPerPage(perPageParam))
    ensures Get(pageParam, perPageParam, Failed(message)).response == ErrorResponse("Failed to fetch users", 500)
    ensures Get(pageParam, perPageParam, Threw).response == ErrorResponse("Internal server error", 500)
  {
  }

  /** GET answers 200, 400 or 500, and every answer other than 200 is the
      error envelope. */
  lemma GetStatuses(pageParam: Option<string>, perPageParam: Option<string>, reply: Reply<Option<seq<User>>>)
    ensures var r := Get(pageParam, perPageParam, reply).response;
      r.status in {200, 400, 500} && (r.status != 200 <==> r.body.ErrorBody?)
  {
  }

  /** POST calls the provider only with input that passed validation: a
      string email accepted by the email check and a password of at least
      8 characters, taken from the request body. */
  lemma PostCallsOnlyWithValidInput(body: BodyRead, isEmail: string -> bool, reply: Reply<Option<User>>)
    ensures var o := Post(body, isEmail, reply);
      o.call.Some? ==>
        && body.Read? && body.json.JObj?
        && o.call.value.CreateUser?
        && Field(body.json.fields, "email") == Some(JStr(o.call.value.email))
        && isEmail(o.call.value.email)
        && Field(body.json.fields, "password") == Some(JStr(o.call.value.password))
        && Utf16Length(o.call.value.password) >= 8
  {
  }

  /** An invalid body is a 400 listing every issue, and no provider call. */
  lemma PostValidationError(json: Json, isEmail: string -> bool, reply: Reply<Option<User>>)
    requires ValidateCreate(json, isEmail).Invalid?
    ensures var o := Post(Read(json), isEmail, reply);
      && o.call.None?
      && o.response == ErrorResponse("Validation error: " + Join(ValidateCreate(json, isEmail).issues, ", "), 400)
  {
  }

  /** A password shorter than 8 UTF-16 code units is always refused with 400,
      whatever else the body holds, and the message names the rule. */
  lemma PostShortPasswordRejected(fields: map<string, Json>, password: string, isEmail: string -> bool, reply: Reply<Option<User>>)
    requires Field(fields, "password") == Some(JStr(password)) && Utf16Length(password) < 8
    ensures var o := Post(Read(JObj(fields)), isEmail, reply);
      && o.call.None?
      && o.response.status == 400
      && StartsWith(o.response.body.error, "Validation error: ")
      && Contains(o.response.body.error, "Password must be at least 8 characters")
  {
    var issues := CreateIssues(fields, isEmail);
    var e := StringIssues(Field(fields, "email"), true, isEmail, "Invalid email address");
    var k := |e|;
    assert issues[k] == "Password must be at least 8 characters";
    JoinContainsElement(issues, ", ", k);
    ContainsInSuffix("Validation error: ", Join(issues, ", "), "Password must be at least 8 characters");
  }

  /** An unreadable body is the generic 500, before any provider call. */
  lemma PostUnreadableBody(isEmail: string -> bool, reply: Reply<Option<User>>)
    ensures Post(Unreadable, isEmail, reply) == Outcome(None, ErrorResponse("Internal server error", 500))
  {
  }

  /** After validation, a provider error is 409 exactly when its message
      mentions "already registered", otherwise 500. */
  lemma PostProviderError(json: Json, isEmail: string -> bool, message: string)
    requires ValidateCreate(json, isEmail).Valid?
    ensures var r := Post(Read(json), isEmail, Failed(message)).response;
      && (r.status == 409 <==> Contains(message, "already registered"))
      && (r.status == 409 ==> r == ErrorResponse("User with this email already exists", 409))
      && (r.status != 409 ==> r == ErrorResponse("Failed to create user", 500))
  {
  }

  /** A created user is answered with 201 and its id, email and creation time. */
  lemma PostCreated(json: Json, isEmail: string -> bool, user: User)
    requires ValidateCreate(json, isEmail).Valid?
    ensures var r := Post(Read(json), isEmail, Ok(Some(user))).response;
      && r.status == 201
      && r.body == Created("User created successfully", CreatedUser(Some(user.id), user.email, Some(user.createdAt)))
  {
  }

  /** POST answers 201, 400, 409 or 500; every answer other than 201 is the
      error envelope. */
  lemma PostStatuses(body: BodyRead, isEmail: string -> bool, reply: Reply<Option<User>>)
    ensures var r := Post(body, isEmail, reply).response;
      r.status in {201, 400, 409, 500} && (r.status != 201 <==> r.body.ErrorBody?)
  {
  }

  /** Without an id, PUT answers 400 before it reads the body or calls the
      provider: the outcome is the same whatever the body and the answer. */
  lemma PutMissingId(id: Option<string>, body: BodyRead, isEmail: string -> bool, reply: Reply<Option<User>>)
    requires IdMissing(id)
    ensures Put(id, body, isEmail, reply) == Outcome(None, ErrorResponse("User ID is required", 400))
    ensures Put(id, body, isEmail, reply) == Put(id, Unreadable, isEmail, Threw)
  {
  }

  /** With an id, a body that cannot be read as JSON is a 500 and no
      provider call. */
  lemma PutUnreadableBody(id: Option<string>, isEmail: string -> bool, reply: Reply<Option<User>>)
    requires !IdMissing(id)
    ensures Put(id, Unreadable, isEmail, reply) == Outcome(None, InternalError)
    ensures Put(id, Unreadable, isEmail, reply).response == ErrorResponse("Internal server error", 500)
  {
  }

  /** PUT calls the provider only for the requested id, with the updates
      that passed validation. */
  lemma PutCallsOnlyWithValidUpdates(id: Option<string>, body: BodyRead, isEmail: string -> bool, reply: Reply<Option<User>>)
    ensures var o := Put(id, body, isEmail, reply);
      o.call.Some? ==>
        && !IdMissing(id) && body.Read?
        && o.call.value == UpdateUser(id.value, ValidateUpdate(body.json, isEmail).data)
        && ValidateUpdate(body.json, isEmail).Valid?
  {
  }

  /** A provider error on update is 404 exactly when it mentions
      "not found", otherwise 500. */
  lemma PutProviderError(id: string, json: Json, isEmail: string -> bool, message: string)
    requires id != [] && ValidateUpdate(json, isEmail).Valid?
    ensures var r := Put(Some(id), Read(json), isEmail, Failed(message)).response;
      && (r.status == 404 <==> Contains(message, "not found"))
      && (r.status == 404 ==> r == ErrorResponse("User not found", 404))
      && (r.status != 404 ==> r == ErrorResponse("Failed to update user", 500))
  {
  }

  /** PUT answers 200, 400, 404 or 500; every answer other than 200 is the
      error envelope. */
  lemma PutStatuses(id: Option<string>, body: BodyRead, isEmail: string -> bool, reply: Reply<Option<User>>)
    ensures var r := Put(id, body, isEmail, reply).response;
      r.status in {200, 400, 404, 500} && (r.status != 200 <==> r.body.ErrorBody?)
  {
  }

  /** Without an id, DELETE answers 400 and never calls the provider. */
  lemma DeleteMissingId(id: Option<string>, reply: Reply<Option<User>>)
    requires IdMissing(id)
    ensures Delete(id, reply) == Outcome(None, ErrorResponse("User ID is required", 400))
  {
  }

  /** DELETE deletes exactly the requested id and, on success, echoes it. */
  lemma DeleteEchoesId(id: string, user: Option<User>)
    requires id != []
    ensures var o := Delete(Some(id), Ok(user));
      && o.call == Some(DeleteUser(id))
      && o.response.status == 200
      && o.response.body.deletedUserId == id
  {
  }

  /** A provider error on delete is 404 exactly when it mentions
      "not found", otherwise 500. */
  lemma DeleteProviderError(id: string, message: string)
    requires id != []
    ensures var r := Delete(Some(id), Failed(message)).response;
      && (r.status == 404 <==> Contains(message, "not found"))
      && (r.status == 404 ==> r == ErrorResponse("User not found", 404))
      && (r.status != 404 ==> r == ErrorResponse("Failed to delete user", 500))
  {
  }

  /** DELETE answers 200, 400, 404 or 500; every answer other than 200 is
      the error envelope. */
  lemma DeleteStatuses(id: Option<string>, reply: Reply<Option<User>>)
    ensures var r := Delete(id, reply).response;
      r.status in {200, 400, 404, 500} && (r.status != 200 <==> r.body.ErrorBody?)
  {
  }

  /** An exception from the provider is answered with the generic 500 by
      every handler that made a call. */
  lemma GetThrownIsInternalError(pageParam: Option<string>, perPageParam: Option<string>)
    ensures Get(pageParam, perPageParam, Threw).call.Some? ==> Get(pageParam, perPageParam, Threw).response == InternalError
  {
  }

  lemma PostThrownIsInternalError(body: BodyRead, isEmail: string -> bool)
    ensures Post(body, isEmail, Threw).call.Some? ==> Post(body, isEmail, Threw).response == InternalError
  {
  }

  lemma PutThrownIsInternalError(id: Option<string>, body: BodyRead, isEmail: string -> bool)
    ensures Put(id, body, isEmail, Threw).call.Some? ==> Put(id, body, isEmail, Threw).response == InternalError
  {
  }

  lemma DeleteThrownIsInternalError(id: Option<string>)
    ensures Delete(id, Threw).call.Some? ==> Delete(id, Threw).response == InternalError
  {
  }
}
