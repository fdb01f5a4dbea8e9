/** The health endpoint (`/api/health`): a database probe, a check of the
    required environment variables, and the GET and HEAD answers that
    combine them into 200 (healthy) or 503 (unhealthy). The database query
    and the process environment are inputs; the runtime figures the GET
    report also carries (time stamp, uptime, memory, response time,
    platform) are left out. */
module Health {
  import opened Common

  /** What the probe query `from('_health_check').select('1').limit(1).single()`
      gives back: an answer whose `error` may carry a message, or an
      exception, whose message is known only when it is an `Error`. */
  datatype DbReply =
    | Answered(error: Option<string>)
    | Raised(message: Option<string>)

  /** The `status` field of a check: `'error'` appears only in the report
      of a GET that failed as a whole. */
  datatype CheckStatus = Healthy | Unhealthy | CheckFailed

  datatype CheckResult = CheckResult(status: CheckStatus, error: Option<string>)

  /** The error text a caught exception is reported with. */
  function ExceptionText(message: Option<string>): (r: string)
    ensures message.Some? ==> r == message.value
    ensures message.None? ==> r == "Unknown error"
  {
    message.GetOr("Unknown error")
  }

  const MissingTable := "does not exist"

  /** `checkDatabaseHealth()`: healthy when the query answered without an
      error, or with an error saying the probe table does not exist (the
      database was reached); otherwise unhealthy with the error's message. */
  function DatabaseHealth(reply: DbReply): (r: CheckResult)
    ensures r.status != CheckFailed
    ensures r.status == Healthy <==>
      reply.Answered? && (reply.error.None? || Contains(reply.error.value, MissingTable))
    ensures r.status == Healthy ==> r.error.None?
    ensures r.status == Unhealthy && reply.Answered? ==> r.error == reply.error
    ensures reply.Raised? ==> r == CheckResult(Unhealthy, Some(ExceptionText(reply.message)))
  {
    match reply
    case Answered(error) =>
      if error.Some? && !Contains(error.value, MissingTable) then CheckResult(Unhealthy, error)
      else CheckResult(Healthy, None)
    case Raised(message) => CheckResult(Unhealthy, Some(ExceptionText(message)))
  }

  /** A query that fails only because `_health_check` is missing still
      counts as a reachable, healthy database. */
  lemma MissingTableTolerated(before: string, after: string)
    ensures DatabaseHealth(Answered(Some(before + MissingTable + after))).status == Healthy
  {
    ContainsPrefix(MissingTable, after);
    ContainsInSuffix(before, MissingTable + after, MissingTable);
    assert before + MissingTable + after == before + (MissingTable + after);
  }

  /** Any other query error makes the database unhealthy, with that message. */
  lemma OtherQueryErrorUnhealthy(message: string)
    requires !Contains(message, MissingTable)
    ensures DatabaseHealth(Answered(Some(message))) == CheckResult(Unhealthy, Some(message))
  {
  }

  const SupabaseUrl := "NEXT_PUBLIC_SUPABASE_URL"
  const ServiceRoleKey := "SUPABASE_SERVICE_ROLE_KEY"
  const RequiredEnvVars: seq<string> := [SupabaseUrl, ServiceRoleKey]

  /** `!process.env[name]`: the variable is unset or set to the empty string. */
  predicate Unset(env: map<string, string>, name: string) {
    name !in env || env[name] == ""
  }

  /** `names.filter(name => !process.env[name])` */
  function MissingVars(names: seq<string>, env: map<string, string>): (r: seq<string>)
    ensures |r| <= |names|
    ensures forall v :: v in r <==> v in names && Unset(env, v)
    ensures r == [] <==> forall i :: 0 <= i < |names| ==> !Unset(env, names[i])
  {
    if names == [] then []
    else if Unset(env, names[0]) then [names[0]] + MissingVars(names[1..], env)
    else MissingVars(names[1..], env)
  }

  const MissingPrefix := "Missing environment variables: "

  /** `checkEnvironmentHealth()`: healthy exactly when every required
      variable is set to a non-empty value; otherwise the error lists the
      missing ones, in order, separated by `", "`. */
  function EnvironmentHealth(env: map<string, string>): (r: CheckResult)
    ensures r.status != CheckFailed
    ensures r.status == Healthy <==> forall v :: v in RequiredEnvVars ==> !Unset(env, v)
    ensures r.status == Healthy ==> r.error.None?
    ensures r.status == Unhealthy ==>
      r.error == Some(MissingPrefix + Join(MissingVars(RequiredEnvVars, env), ", "))
  {
    var missing := MissingVars(RequiredEnvVars, env);
    if |missing| > 0 then CheckResult(Unhealthy, Some(MissingPrefix + Join(missing, ", ")))
    else CheckResult(Healthy, None)
  }

  /** Every missing variable is named in the error message. */
  lemma MissingVarNamed(env: map<string, string>, v: string)
    requires v in RequiredEnvVars && Unset(env, v)
    ensures EnvironmentHealth(env).status == Unhealthy
    ensures Contains(EnvironmentHealth(env).error.value, v)
  {
    var missing := MissingVars(RequiredEnvVars, env);
    var i :| 0 <= i < |missing| && missing[i] == v;
    JoinContainsElement(missing, ", ", i);
    ContainsInSuffix(MissingPrefix, Join(missing, ", "), v);
  }

  /** The messages the check produces: the missing names in the order
      they are required, separated by a comma and a space. */
  lemma EnvironmentMessages(env: map<string, string>)
    ensures Unset(env, SupabaseUrl) && !Unset(env, ServiceRoleKey) ==>
      EnvironmentHealth(env).error == Some(MissingPrefix + SupabaseUrl)
    ensures !Unset(env, SupabaseUrl) && Unset(env, ServiceRoleKey) ==>
      EnvironmentHealth(env).error == Some(MissingPrefix + ServiceRoleKey)
    ensures Unset(env, SupabaseUrl) && Unset(env, ServiceRoleKey) ==>
      EnvironmentHealth(env).error == Some(MissingPrefix + SupabaseUrl + ", " + ServiceRoleKey)
  {
    var names := RequiredEnvVars;
    assert names[1..] == [ServiceRoleKey];
    assert names[1..][1..] == [];
    if Unset(env, SupabaseUrl) && Unset(env, ServiceRoleKey) {
      assert MissingVars(names, env) == [SupabaseUrl, ServiceRoleKey];
      JoinTwo(SupabaseUrl, ServiceRoleKey, ", ");
      assert MissingPrefix + (SupabaseUrl + ", " + ServiceRoleKey) ==
        MissingPrefix + SupabaseUrl + ", " + ServiceRoleKey;
    }
  }

  lemma JoinTwo(a: string, b: string, sep: string)
    ensures Join([a, b], sep) == a + sep + b
  {
    assert [a, b][1..] == [b];
  }

  /** The body of a GET answer: the report, or the fallback written when
      building the report threw. */
  datatype Report =
    | Report(healthy: bool, version: string, database: CheckResult, environment: CheckResult)
    | FailureReport(error: string, database: CheckResult, environment: CheckResult)

  datatype HealthResponse = HealthResponse(status: int, body: Option<Report>, headers: seq<(string, string)>)

  const NoCache := "no-cache, no-store, must-revalidate"

  /** `process.env.npm_package_version || 'unknown'` */
  function Version(env: map<string, string>): (r: string)
    ensures Unset(env, "npm_package_version") ==> r == "unknown"
    ensures !Unset(env, "npm_package_version") ==> r == env["npm_package_version"]
  {
    if Unset(env, "npm_package_version") then "unknown" else env["npm_package_version"]
  }

  /** Both checks report healthy. */
  predicate BothHealthy(db: CheckResult, envCheck: CheckResult) {
    db.status == Healthy && envCheck.status == Healthy
  }

  /** `GET /api/health`. `crash` is `Some(message)` when gathering the
      runtime figures throws (with the exception's message when it is an
      `Error`); the answer is then a 503 whose checks both say
      `'Health check failed'`. */
  function Get(db: DbReply, env: map<string, string>, crash: Option<Option<string>>): (r: HealthResponse)
    ensures r.status == 200 || r.status == 503
    ensures r.body.Some?
  {
    var dbHealth := DatabaseHealth(db);
    var envHealth := EnvironmentHealth(env);
    match crash
    case Some(message) =>
      var failed := CheckResult(CheckFailed, Some("Health check failed"));
      HealthResponse(503, Some(FailureReport(ExceptionText(message), failed, failed)), [])
    case None =>
      var healthy := BothHealthy(dbHealth, envHealth);
      HealthResponse(if healthy then 200 else 503,
                     Some(Report(healthy, Version(env), dbHealth, envHealth)),
                     [("Cache-Control", NoCache), ("Pragma", "no-cache"), ("Expires", "0")])
  }

  /** `HEAD /api/health`: the same decision with no body. `crashed` says
      that the checks threw; the answer is then a bare 503. */
  function Head(db: DbReply, env: map<string, string>, crashed: bool): (r: HealthResponse)
    ensures r.body.None?
    ensures r.status == 200 || r.status == 503
    ensures crashed ==> r.status == 503 && r.headers == []
    ensures !crashed ==> r.headers == [("Cache-Control", NoCache)]
  {
    if crashed then HealthResponse(503, None, [])
    else
      var healthy := BothHealthy(DatabaseHealth(db), EnvironmentHealth(env));
      HealthResponse(if healthy then 200 else 503, None, [("Cache-Control", NoCache)])
  }

  /** GET answers 200 exactly when nothing threw, the database was reached
      and every required variable is set; the report's status agrees with
      the code and the report embeds both checks unchanged. */
  lemma GetHealthyIff(db: DbReply, env: map<string, string>, crash: Option<Option<string>>)
    ensures Get(db, env, crash).status == 200 <==>
      crash.None? && DatabaseHealth(db).status == Healthy && EnvironmentHealth(env).status == Healthy
    ensures crash.None? ==>
      var b := Get(db, env, crash).body.value;
      b.Report? && (b.healthy <==> Get(db, env, crash).status == 200) &&
      b.database == DatabaseHealth(db) && b.environment == EnvironmentHealth(env) &&
      b.version == Version(env)
  {
  }

  /** A GET that throws while building its report still answers 503 (never
      500), with the exception's message and both checks marked failed. */
  lemma GetCrashIs503(db: DbReply, env: map<string, string>, message: Option<string>)
    ensures var r := Get(db, env, Some(message));
      && r.status == 503
      && r.body == Some(FailureReport(ExceptionText(message),
                                      CheckResult(CheckFailed, Some("Health check failed")),
                                      CheckResult(CheckFailed, Some("Health check failed"))))
  {
  }

  /** The answered GET is never cached. */
  lemma GetNotCached(db: DbReply, env: map<string, string>)
    ensures Get(db, env, None).headers ==
      [("Cache-Control", NoCache), ("Pragma", "no-cache"), ("Expires", "0")]
  {
  }

  /** HEAD and an answered GET give load balancers the same status. */
  lemma HeadAgreesWithGet(db: DbReply, env: map<string, string>)
    ensures Head(db, env, false).status == Get(db, env, None).status
    ensures Head(db, env, false).status == 200 <==>
      DatabaseHealth(db).status == Healthy && forall v :: v in RequiredEnvVars ==> !Unset(env, v)
  {
  }

  /** A missing required variable makes both answers 503, whatever the
      database says. */
  lemma MissingVarIsUnavailable(db: DbReply, env: map<string, string>, v: string)
    requires v in RequiredEnvVars && Unset(env, v)
    ensures Get(db, env, None).status == 503 && Head(db, env, false).status == 503
  {
  }

  /** A database exception makes both answers 503. */
  lemma DatabaseExceptionIsUnavailable(message: Option<string>, env: map<string, string>)
    ensures Get(Raised(message), env, None).status == 503
    ensures Head(Raised(message), env, false).status == 503
    ensures Get(Raised(message), env, None).body.value.database ==
      CheckResult(Unhealthy, Some(ExceptionText(message)))
  {
  }
}
