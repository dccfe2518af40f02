/**
 * `ONOC_Frontend_Form` (includes/class-frontend-form.php): the public request form's
 * AJAX handler. It sanitises the posted fields, checks them one by one collecting an
 * error per failed rule, and only when none failed inserts the request, counts the
 * submission against the client's address and mails a confirmation.
 */
module FrontendForm {
  import opened Wrappers
  import opened Text
  import opened Dates
  import opened Host
  import opened Db
  import opened Store

  // ---- The posted fields ----

  /** The ten fields after `trim(sanitize_*(...))`; an unposted field is ''. */
  datatype FormData = FormData(
    fullName: string,
    employeeId: string,
    email: string,
    joiningDate: string,
    position: string,
    department: string,
    visitingCountry: string,
    purpose: string,
    leaveStart: string,
    leaveEnd: string)

  /** `isset($_POST[key]) ? trim(clean($_POST[key])) : ''`. */
  function Field(post: map<string, string>, key: string, clean: string -> string): string {
    if key in post then Trim(clean(post[key])) else ""
  }

  /** The `$data` array: text fields through `sanitize_text_field`, the e-mail through `sanitize_email`, the purpose through `sanitize_textarea_field`. */
  function Gather(post: map<string, string>, env: Env): FormData {
    FormData(
      Field(post, "full_name", env.sanitizeText),
      Field(post, "employee_id", env.sanitizeText),
      Field(post, "email", env.sanitizeEmail),
      Field(post, "joining_date", env.sanitizeText),
      Field(post, "position", env.sanitizeText),
      Field(post, "department", env.sanitizeText),
      Field(post, "visiting_country", env.sanitizeText),
      Field(post, "purpose", env.sanitizeTextarea),
      Field(post, "leave_start", env.sanitizeText),
      Field(post, "leave_end", env.sanitizeText))
  }

  /** What `insert_request` receives. */
  function ToSubmission(d: FormData): Submission {
    Submission(d.fullName, Some(d.employeeId), d.email, Some(d.joiningDate), Some(d.position),
      Some(d.department), d.visitingCountry, d.purpose, d.leaveStart, d.leaveEnd)
  }

  // ---- Validation ----

  /** One failed rule; `Message` gives the sentence the form shows for it. */
  datatype Problem =
    | FullNameMissing | FullNameShort
    | EmployeeIdMissing | EmployeeIdBlank
    | EmailMissing | EmailInvalid
    | JoiningMissing | JoiningFormat | JoiningInvalid | JoiningFuture
    | PositionMissing | PositionShort
    | DepartmentMissing | DepartmentShort
    | CountryMissing
    | PurposeMissing | PurposeShort
    | LeaveStartMissing | LeaveStartFormat | LeaveStartInvalid | LeaveStartPast
    | LeaveEndMissing | LeaveEndFormat | LeaveEndInvalid | LeaveEndPast
    | LeaveOrder

  function Message(p: Problem): string {
    match p
    case FullNameMissing => "Full name is required."
    case FullNameShort => "Full name must be at least 2 characters long."
    case EmployeeIdMissing => "Employee ID is required."
    case EmployeeIdBlank => "Employee ID cannot be empty."
    case EmailMissing => "Email is required."
    case EmailInvalid => "Please enter a valid email address."
    case JoiningMissing => "Joining date is required."
    case JoiningFormat => "Invalid joining date format."
    case JoiningInvalid => "Invalid joining date."
    case JoiningFuture => "Joining date cannot be in the future."
    case PositionMissing => "Position is required."
    case PositionShort => "Position must be at least 2 characters long."
    case DepartmentMissing => "Department is required."
    case DepartmentShort => "Department must be at least 2 characters long."
    case CountryMissing => "Visiting country is required."
    case PurposeMissing => "Purpose of visit is required."
    case PurposeShort => "Purpose of visit must be at least 10 characters long."
    case LeaveStartMissing => "Leave start date is required."
    case LeaveStartFormat => "Invalid leave start date format."
    case LeaveStartInvalid => "Invalid leave start date."
    case LeaveStartPast => "Leave start date cannot be in the past."
    case LeaveEndMissing => "Leave end date is required."
    case LeaveEndFormat => "Invalid leave end date format."
    case LeaveEndInvalid => "Invalid leave end date."
    case LeaveEndPast => "Leave end date cannot be in the past."
    case LeaveOrder => "Leave end date must be after start date."
  }

  /** A required text with a minimum length: missing when `empty()`, short when fewer than `min` characters. */
  function LengthCheck(v: string, min: nat, missing: Problem, short: Problem): seq<Problem> {
    if PhpEmpty(v) then [missing] else if |v| < min then [short] else []
  }

  /** The employee id: its second rule (`strlen < 1` after `!empty`) can never fire. */
  function EmployeeIdCheck(v: string): seq<Problem> {
    if PhpEmpty(v) then [EmployeeIdMissing] else if |v| < 1 then [EmployeeIdBlank] else []
  }

  function EmailCheck(v: string, env: Env): seq<Problem> {
    if PhpEmpty(v) then [EmailMissing] else if !env.isEmail(v) then [EmailInvalid] else []
  }

  function CountryCheck(v: string): seq<Problem> {
    if PhpEmpty(v) then [CountryMissing] else []
  }

  /**
   * A date field: required, `^\d{4}-\d{2}-\d{2}$`, accepted by `strtotime`, and then
   * not after today (`notAfter`, the joining date) or not before today (the leave dates).
   */
  function DateCheck(v: string, env: Env, notAfter: bool, missing: Problem, format: Problem, invalid: Problem, outOfRange: Problem): seq<Problem> {
    if PhpEmpty(v) then [missing]
    else if !IsIsoShape(v) then [format]
    else
      match StrToDay(v, env)
      case None => [invalid]
      case Some(day) => if (notAfter && day > env.today) || (!notAfter && day < env.today) then [outOfRange] else []
  }

  /** Both leave dates given and parsable, with the start after the end. */
  function LeaveOrderCheck(start: string, end: string, env: Env): seq<Problem> {
    if !PhpEmpty(start) && !PhpEmpty(end) && StrToDay(start, env).Some? && StrToDay(end, env).Some?
       && StrToDay(start, env).value > StrToDay(end, env).value
    then [LeaveOrder]
    else []
  }

  /** Every failed rule, in the order `handle_submission` checks them. */
  function Problems(d: FormData, env: Env): (r: seq<Problem>)
    ensures r == [] <==> Acceptable(d, env)
  {
    var parts := [
      LengthCheck(d.fullName, 2, FullNameMissing, FullNameShort),
      EmployeeIdCheck(d.employeeId),
      EmailCheck(d.email, env),
      DateCheck(d.joiningDate, env, true, JoiningMissing, JoiningFormat, JoiningInvalid, JoiningFuture),
      LengthCheck(d.position, 2, PositionMissing, PositionShort),
      LengthCheck(d.department, 2, DepartmentMissing, DepartmentShort),
      CountryCheck(d.visitingCountry),
      LengthCheck(d.purpose, 10, PurposeMissing, PurposeShort),
      DateCheck(d.leaveStart, env, false, LeaveStartMissing, LeaveStartFormat, LeaveStartInvalid, LeaveStartPast),
      DateCheck(d.leaveEnd, env, false, LeaveEndMissing, LeaveEndFormat, LeaveEndInvalid, LeaveEndPast),
      LeaveOrderCheck(d.leaveStart, d.leaveEnd, env)];
    parts[0] + parts[1] + parts[2] + parts[3] + parts[4] + parts[5] + parts[6] + parts[7] + parts[8] + parts[9] + parts[10]
  }

  /** The messages of `ps`, in order. */
  function Messages(ps: seq<Problem>): (r: seq<string>)
    ensures |r| == |ps| && forall i :: 0 <= i < |ps| ==> r[i] == Message(ps[i])
  {
    seq(|ps|, i requires 0 <= i < |ps| => Message(ps[i]))
  }

  /** A calendar day `strtotime` accepts, written `YYYY-MM-DD`. */
  predicate IsoDate(v: string, env: Env) {
    IsIsoShape(v) && StrToDay(v, env).Some?
  }

  /**
   * What an acceptable submission is, stated rule by rule: names, position and
   * department of at least two characters, a purpose of at least ten, an e-mail
   * `is_email` accepts, a country, a joining date not after today and a leave that
   * starts no earlier than today and ends no earlier than it starts.
   */
  predicate Acceptable(d: FormData, env: Env) {
    && !PhpEmpty(d.fullName) && |d.fullName| >= 2
    && !PhpEmpty(d.employeeId)
    && !PhpEmpty(d.email) && env.isEmail(d.email)
    && !PhpEmpty(d.joiningDate) && IsoDate(d.joiningDate, env) && StrToDay(d.joiningDate, env).value <= env.today
    && !PhpEmpty(d.position) && |d.position| >= 2
    && !PhpEmpty(d.department) && |d.department| >= 2
    && !PhpEmpty(d.visitingCountry)
    && !PhpEmpty(d.purpose) && |d.purpose| >= 10
    && !PhpEmpty(d.leaveStart) && IsoDate(d.leaveStart, env) && StrToDay(d.leaveStart, env).value >= env.today
    && !PhpEmpty(d.leaveEnd) && IsoDate(d.leaveEnd, env) && StrToDay(d.leaveEnd, env).value >= env.today
    && StrToDay(d.leaveStart, env).value <= StrToDay(d.leaveEnd, env).value
  }

  /** The form accepts a submission exactly when no rule fails. */
  lemma NoProblemsIffAcceptable(d: FormData, env: Env)
    ensures Problems(d, env) == [] <==> Acceptable(d, env)
  {
  }

  /** `strlen($employee_id) < 1` after `! empty($employee_id)` is dead: that message never appears. */
  lemma EmployeeIdBlankNeverReported(d: FormData, env: Env)
    ensures EmployeeIdBlank !in Problems(d, env)
  {
  }

  /** A leave ending before it starts is reported, after every per-field message. */
  lemma LeaveOrderReportedLast(d: FormData, env: Env)
    requires IsoDate(d.leaveStart, env) && IsoDate(d.leaveEnd, env)
    requires StrToDay(d.leaveStart, env).value > StrToDay(d.leaveEnd, env).value
    ensures |Problems(d, env)| > 0 && Problems(d, env)[|Problems(d, env)| - 1] == LeaveOrder
  {
  }

  /** The checks of `handle_submission`, appended to `$errors` one after another. */
  method Validate(d: FormData, env: Env) returns (errors: seq<Problem>)
    ensures errors == Problems(d, env)
  {
    errors := AppendLengthCheck([], d.fullName, 2, FullNameMissing, FullNameShort);
    assert errors == LengthCheck(d.fullName, 2, FullNameMissing, FullNameShort);
    errors := AppendEmployeeIdCheck(errors, d.employeeId);
    errors := AppendEmailCheck(errors, d.email, env);
    errors := AppendDateCheck(errors, d.joiningDate, env, true, JoiningMissing, JoiningFormat, JoiningInvalid, JoiningFuture);
    errors := AppendLengthCheck(errors, d.position, 2, PositionMissing, PositionShort);
    errors := AppendLengthCheck(errors, d.department, 2, DepartmentMissing, DepartmentShort);
    errors := AppendCountryCheck(errors, d.visitingCountry);
    errors := AppendLengthCheck(errors, d.purpose, 10, PurposeMissing, PurposeShort);
    errors := AppendDateCheck(errors, d.leaveStart, env, false, LeaveStartMissing, LeaveStartFormat, LeaveStartInvalid, LeaveStartPast);
    errors := AppendDateCheck(errors, d.leaveEnd, env, false, LeaveEndMissing, LeaveEndFormat, LeaveEndInvalid, LeaveEndPast);
    errors := AppendLeaveOrderCheck(errors, d.leaveStart, d.leaveEnd, env);
  }

  method AppendCountryCheck(errors: seq<Problem>, v: string) returns (r: seq<Problem>)
    ensures r == errors + CountryCheck(v)
  {
    r := errors;
    if PhpEmpty(v) {
      r := r + [CountryMissing];
    }
  }

  /** The leave-order rule, checked only when both dates are given and parse. */
  method AppendLeaveOrderCheck(errors: seq<Problem>, start: string, end: string, env: Env) returns (r: seq<Problem>)
    ensures r == errors + LeaveOrderCheck(start, end, env)
  {
    r := errors;
    if !PhpEmpty(start) && !PhpEmpty(end) {
      var first, last := StrToDay(start, env), StrToDay(end, env);
      if first.Some? && last.Some? {
        if first.value > last.value {
          r := r + [LeaveOrder];
        }
      }
    }
  }

  /** A required text with a minimum length, appended to `errors`. */
  method AppendLengthCheck(errors: seq<Problem>, v: string, min: nat, missing: Problem, short: Problem) returns (r: seq<Problem>)
    ensures r == errors + LengthCheck(v, min, missing, short)
  {
    r := errors;
    if PhpEmpty(v) {
      r := r + [missing];
    } else if |v| < min {
      r := r + [short];
    }
  }

  method AppendEmployeeIdCheck(errors: seq<Problem>, v: string) returns (r: seq<Problem>)
    ensures r == errors + EmployeeIdCheck(v)
  {
    r := errors;
    if PhpEmpty(v) {
      r := r + [EmployeeIdMissing];
    } else if |v| < 1 {
      r := r + [EmployeeIdBlank];
    }
  }

  method AppendEmailCheck(errors: seq<Problem>, v: string, env: Env) returns (r: seq<Problem>)
    ensures r == errors + EmailCheck(v, env)
  {
    r := errors;
    if PhpEmpty(v) {
      r := r + [EmailMissing];
    } else if !env.isEmail(v) {
      r := r + [EmailInvalid];
    }
  }

  /** One date field's checks, appended to `errors`. */
  method AppendDateCheck(errors: seq<Problem>, v: string, env: Env, notAfter: bool, missing: Problem, format: Problem, invalid: Problem, outOfRange: Problem)
    returns (r: seq<Problem>)
    ensures r == errors + DateCheck(v, env, notAfter, missing, format, invalid, outOfRange)
  {
    r := errors;
    if PhpEmpty(v) {
      r := r + [missing];
    } else if !IsIsoShape(v) {
      r := r + [format];
    } else {
      var day := StrToDay(v, env);
      if day.None? {
        r := r + [invalid];
      } else if notAfter && day.value > env.today {
        r := r + [outOfRange];
      } else if !notAfter && day.value < env.today {
        r := r + [outOfRange];
      }
    }
  }

  // ---- The client address and the rate limiter ----

  /** The `$_SERVER` keys tried, most specific proxy header first. */
  const IpKeys: seq<string> := ["HTTP_CF_CONNECTING_IP", "HTTP_X_REAL_IP", "HTTP_X_FORWARDED_FOR", "REMOTE_ADDR"]

  /** The value of the first of `keys` that is set and not `empty()`. */
  function FirstSet(server: map<string, string>, keys: seq<string>): (r: Option<string>)
    ensures r.Some? ==> !PhpEmpty(r.value) && exists i :: 0 <= i < |keys| && keys[i] in server && server[keys[i]] == r.value
    ensures r.None? <==> forall i :: 0 <= i < |keys| ==> keys[i] !in server || PhpEmpty(server[keys[i]])
    decreases |keys|
  {
    if keys == [] then None
    else if keys[0] in server && !PhpEmpty(server[keys[0]]) then Some(server[keys[0]])
    else FirstSet(server, keys[1..])
  }

  /** `get_client_ip()`: the first set header, sanitised, cut at the first comma and trimmed; '0.0.0.0' when none is set. */
  function ClientIp(server: map<string, string>, env: Env): (r: string)
    ensures FirstSet(server, IpKeys).None? ==> r == "0.0.0.0"
  {
    match FirstSet(server, IpKeys)
    case None => "0.0.0.0"
    case Some(v) => Trim(BeforeFirst(env.sanitizeText(v), ','))
  }

  /** The loop of `get_client_ip`, returning from inside on the first set header. */
  method GetClientIp(server: map<string, string>, env: Env) returns (ip: string)
    ensures ip == ClientIp(server, env)
  {
    var i := 0;
    while i < |IpKeys|
      invariant 0 <= i <= |IpKeys|
      invariant FirstSet(server, IpKeys) == FirstSet(server, IpKeys[i..])
    {
      var key := IpKeys[i];
      if key in server && !PhpEmpty(server[key]) {
        var v := env.sanitizeText(server[key]);
        ip := BeforeFirst(v, ',');
        return Trim(ip);
      }
      assert IpKeys[i..][1..] == IpKeys[i + 1..];
      i := i + 1;
    }
    return "0.0.0.0";
  }

  /** `Trim` keeps a middle part of its argument. */
  lemma TrimIsInfix(s: string)
    ensures exists a, b :: 0 <= a <= b <= |s| && Trim(s) == s[a..b]
  {
    TrimLeftShape(s);
    var l := TrimLeft(s);
    TrimRightShape(l);
    var a := |s| - |l|;
    var b := a + |TrimRight(l)|;
    assert Trim(s) == l[..|TrimRight(l)|] == s[a..b];
  }

  /** The address never holds a comma: a forwarded chain is cut to its first hop. */
  lemma ClientIpHasNoComma(server: map<string, string>, env: Env)
    ensures ',' !in ClientIp(server, env)
  {
    match FirstSet(server, IpKeys)
    case None =>
    case Some(v) =>
      var cut := BeforeFirst(env.sanitizeText(v), ',');
      TrimIsInfix(cut);
      var a, b :| 0 <= a <= b <= |cut| && Trim(cut) == cut[a..b];
      assert forall k :: 0 <= k < b - a ==> Trim(cut)[k] == cut[a + k];
  }

  /** With no header set the address is '0.0.0.0'; a Cloudflare header, when set, wins over every other. */
  lemma ClientIpSources(server: map<string, string>, env: Env)
    ensures (forall k :: k in IpKeys ==> k !in server || PhpEmpty(server[k])) ==> ClientIp(server, env) == "0.0.0.0"
    ensures "HTTP_CF_CONNECTING_IP" in server && !PhpEmpty(server["HTTP_CF_CONNECTING_IP"]) ==>
              ClientIp(server, env) == Trim(BeforeFirst(env.sanitizeText(server["HTTP_CF_CONNECTING_IP"]), ','))
  {
    if forall k :: k in IpKeys ==> k !in server || PhpEmpty(server[k]) {
      assert forall i :: 0 <= i < |IpKeys| ==> IpKeys[i] in IpKeys;
    }
  }

  /** The transient that counts one address's submissions. */
  function RateLimitKey(ip: string, env: Env): string {
    "onoc_rate_limit_" + env.md5(ip)
  }

  /** `check_rate_limit()`: allowed when no counter is stored, otherwise when it is below 3. */
  predicate RateLimitAllows(counters: map<string, int>, key: string) {
    key !in counters || counters[key] < 3
  }

  /** The counters after `record_rate_limit()`: 1 for a new key, one more otherwise. */
  function Recorded(counters: map<string, int>, key: string): map<string, int> {
    counters[key := if key in counters then counters[key] + 1 else 1]
  }

  /** `record_rate_limit()` for the client's address. */
  method RecordRateLimit(t: Transients, server: map<string, string>, env: Env)
    modifies t
    ensures t.counters == Recorded(old(t.counters), RateLimitKey(ClientIp(server, env), env))
  {
    var ip := GetClientIp(server, env);
    var key := RateLimitKey(ip, env);
    if key in t.counters {
      t.counters := t.counters[key := t.counters[key] + 1];
    } else {
      t.counters := t.counters[key := 1];
    }
  }

  /** The counters after `n` recordings for `key`. */
  function RecordedTimes(counters: map<string, int>, key: string, n: nat): map<string, int> {
    if n == 0 then counters else Recorded(RecordedTimes(counters, key, n - 1), key)
  }

  /** Starting from no counter, `n` recordings leave the counter at `n`, and other keys alone. */
  lemma {:induction false} RecordedCounts(counters: map<string, int>, key: string, n: nat)
    requires key !in counters
    ensures n > 0 ==> key in RecordedTimes(counters, key, n) && RecordedTimes(counters, key, n)[key] == n
    ensures forall k :: k != key ==> (k in RecordedTimes(counters, key, n) <==> k in counters)
    ensures forall k :: k != key && k in counters ==> RecordedTimes(counters, key, n)[k] == counters[k]
  {
    if n > 0 {
      RecordedCounts(counters, key, n - 1);
    }
  }

  /** Three recorded submissions per address are allowed; the fourth check refuses. */
  lemma ThreeSubmissionsPerWindow(counters: map<string, int>, key: string, n: nat)
    requires key !in counters
    ensures RateLimitAllows(RecordedTimes(counters, key, n), key) <==> n < 3
  {
    RecordedCounts(counters, key, n);
  }

  // ---- The handler ----

  /** The JSON reply: `wp_send_json_error` or `wp_send_json_success`. */
  datatype Reply = Failure(message: string) | Success(message: string, referenceId: string)

  const SuccessPrefix := "Your NOC request has been submitted successfully. Reference ID: "

  /**
   * `handle_submission()`. The nonce check is a boolean input; the rate-limit check
   * is not called (it is commented out in the handler), but every accepted
   * submission is counted. `year`, `draw`, `extra`, `now` and `driverOk` go to
   * `insert_request` as in `Db`.
   */
  method HandleSubmission(post: map<string, string>, server: map<string, string>, nonceOk: bool,
                          db: Database, outbox: Outbox, limits: Transients,
                          year: string, draw: nat -> string, extra: string, now: string, driverOk: bool, env: Env)
    returns (reply: Reply)
    requires db.Valid()
    requires db != outbox as object && db != limits as object && outbox != limits as object
    modifies db, outbox, limits
    ensures db.Valid()
    ensures var d := Gather(post, env);
            (!nonceOk || Problems(d, env) != [] || reply.Failure?) ==>
              outbox.sent == old(outbox.sent) && limits.counters == old(limits.counters)
    ensures !nonceOk ==> reply == Failure("Security check failed.") && db.rows == old(db.rows)
    ensures var d := Gather(post, env);
            nonceOk && Problems(d, env) != [] ==>
              reply == Failure(Join(Messages(Problems(d, env)), " ")) && db.rows == old(db.rows)
    ensures var d := Gather(post, env);
            nonceOk && Problems(d, env) == [] ==>
              (reply.Success? <==>
                 HasEmployeeId(ToSubmission(d), env) && driverOk
                 && !Taken(old(db.rows), GeneratedReference(old(db.rows), year, draw, extra)))
    ensures var d := Gather(post, env);
            nonceOk && Problems(d, env) == [] && !reply.Success? ==>
              reply == Failure("Failed to save request. Please try again.") && db.rows == old(db.rows)
    ensures var d := Gather(post, env);
            reply.Success? ==>
              && nonceOk && Acceptable(d, env)
              && db.nextId == old(db.nextId) + 1
              && db.rows == old(db.rows) + [NewRow(old(db.nextId), reply.referenceId, ToSubmission(d), now, env)]
              && reply.referenceId == GeneratedReference(old(db.rows), year, draw, extra)
              && StartsWith(reply.referenceId, "NOC" + year)
              && reply.message == SuccessPrefix + reply.referenceId
              && outbox.sent == old(outbox.sent) + [Confirmation(d.email, reply.referenceId)]
              && limits.counters == Recorded(old(limits.counters), RateLimitKey(ClientIp(server, env), env))
  {
    if !nonceOk {
      return Failure("Security check failed.");
    }
    var d := Gather(post, env);
    var errors := Validate(d, env);
    if errors != [] {
      return Failure(Join(Messages(errors), " "));
    }
    NoProblemsIffAcceptable(d, env);
    var result := db.InsertRequest(ToSubmission(d), year, draw, extra, now, driverOk, env);
    if result.InsertFailed? {
      return Failure("Failed to save request. Please try again.");
    }
    RecordRateLimit(limits, server, env);
    outbox.Send(Confirmation(d.email, result.referenceId));
    reply := Success(SuccessPrefix + result.referenceId, result.referenceId);
  }
}
