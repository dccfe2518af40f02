/**
 * `ONOC_DB` (includes/class-db.php): the `noc_requests` table, reference-id generation,
 * inserting and updating requests, and the filter and paging arithmetic of the list
 * queries. The table is the `rows` field of `Database`, in id order; the SQL text and
 * the driver are not modelled, only the rows each statement reads or writes and, where
 * the driver may fail, a boolean saying whether it did.
 */
module Db {
  import opened Wrappers
  import opened Text
  import opened Host

  /** One row of the table. `None` is a NULL column. */
  datatype Request = Request(
    id: nat,
    referenceId: string,
    fullName: string,
    employeeId: string,
    email: string,
    joiningDate: Option<string>,
    position: string,
    department: string,
    visitingCountry: string,
    purpose: string,
    leaveStart: string,
    leaveEnd: string,
    status: string,
    hrNote: Option<string>,
    pdfUrl: Option<string>,
    createdAt: string)

  /** The `$data` array handed to `insert_request`; `None` marks a key that is not set. */
  datatype Submission = Submission(
    fullName: string,
    employeeId: Option<string>,
    email: string,
    joiningDate: Option<string>,
    position: Option<string>,
    department: Option<string>,
    visitingCountry: string,
    purpose: string,
    leaveStart: string,
    leaveEnd: string)

  datatype InsertResult = Inserted(id: nat, referenceId: string) | InsertFailed(error: string)

  /** The `$data` array handed to `update_request`: only these three keys are looked at. */
  datatype Patch = Patch(status: Option<string>, hrNote: Option<string>, pdfUrl: Option<string>)

  function FindById(rows: seq<Request>, id: nat): (r: Option<Request>)
    ensures r.Some? ==> r.value in rows && r.value.id == id
    ensures r.None? ==> forall i :: 0 <= i < |rows| ==> rows[i].id != id
    decreases |rows|
  {
    if rows == [] then None
    else if rows[0].id == id then Some(rows[0])
    else
      var r := FindById(rows[1..], id);
      assert forall i :: 1 <= i < |rows| ==> rows[i] == rows[1..][i - 1];
      r
  }

  /** `get_request_by_reference`: the row whose reference id equals `ref` (byte for byte). */
  function FindByReference(rows: seq<Request>, ref: string): (r: Option<Request>)
    ensures r.Some? ==> r.value in rows && r.value.referenceId == ref
    ensures r.None? ==> forall i :: 0 <= i < |rows| ==> rows[i].referenceId != ref
    decreases |rows|
  {
    if rows == [] then None
    else if rows[0].referenceId == ref then Some(rows[0])
    else
      var r := FindByReference(rows[1..], ref);
      assert forall i :: 1 <= i < |rows| ==> rows[i] == rows[1..][i - 1];
      r
  }

  // ---- Reference ids ----

  const MaxAttempts: nat := 10

  /** The alphabet the reference-id comment describes: upper-case letters and digits. */
  const IntendedAlphabet: string := Digits + UpperLetters

  /**
   * The alphabet `wp_generate_password(n, false, '0123…XYZ')` draws from: the third
   * argument is WordPress's `$extra_special_chars` flag, and a non-empty string turns it
   * on, so lower-case letters and the extra punctuation are included.
   */
  const GeneratorAlphabet: string := LowerLetters + UpperLetters + Digits + ExtraSpecial

  const LowerLetters: string := "abcdefghijklmnopqrstuvwxyz"
  const UpperLetters: string := "ABCDEFGHIJKLMNOPQRSTUVWXYZ"
  const Digits: string := "0123456789"
  const ExtraSpecial: string := "-_ []{}<>~`+=,.;:/?|"

  /** `draw` is a string of `len` characters of `alphabet`: what the password generator may return. */
  predicate DrawnFrom(alphabet: string, len: nat, draw: string) {
    |draw| == len && forall i :: 0 <= i < |draw| ==> draw[i] in alphabet
  }

  /** `preg_replace('/[^A-Z0-9]/', '', strtoupper($draw))`. */
  function RandomPart(draw: string): string {
    KeepUpperAlnum(ToUpper(draw))
  }

  /** `"NOC{$year}{$random_part}"`. */
  function ReferenceFor(year: string, draw: string): string {
    "NOC" + year + RandomPart(draw)
  }

  /** The duplicate check: some row already carries `ref`. */
  predicate Taken(rows: seq<Request>, ref: string) {
    exists i :: 0 <= i < |rows| && rows[i].referenceId == ref
  }

  /** A reference id is `NOC`, the year, and then only upper-case letters and digits. */
  lemma ReferenceShape(year: string, draw: string)
    ensures var ref := ReferenceFor(year, draw);
            StartsWith(ref, "NOC" + year)
            && forall i :: 3 + |year| <= i < |ref| ==> IsUpper(ref[i]) || IsDigit(ref[i])
  {
    var ref := ReferenceFor(year, draw);
    ConcatStartsWith("NOC" + year, RandomPart(draw));
    forall i | 3 + |year| <= i < |ref| ensures IsUpper(ref[i]) || IsDigit(ref[i]) {
      assert ref[i] == RandomPart(draw)[i - 3 - |year|];
    }
  }

  /**
   * As written, a draw may contain characters the filter then removes: the eight
   * characters `ABCDEFG-` are a possible draw and leave a random part of seven.
   */
  lemma ShortRandomPart()
    ensures DrawnFrom(GeneratorAlphabet, 8, "ABCDEFG-")
    ensures |RandomPart("ABCDEFG-")| < 8
  {
    var d := "ABCDEFG-";
    assert d[7] == ExtraSpecial[0];
    assert d[..7] == UpperLetters[..7];
    assert forall i :: 0 <= i < 7 ==> d[i] == UpperLetters[i];
    assert forall c :: c in UpperLetters || c in ExtraSpecial ==> c in GeneratorAlphabet;
    assert ToUpper(d)[7] == '-';
    KeepUpperAlnumDrops(ToUpper(d), 7);
  }

  lemma IntendedChar(c: char)
    requires c in IntendedAlphabet
    ensures IsUpper(c) || IsDigit(c)
  {
    var k :| 0 <= k < |IntendedAlphabet| && IntendedAlphabet[k] == c;
  }

  /** Drawn from the intended alphabet, the random part is the draw itself, so it keeps its length. */
  lemma IntendedDrawKeepsLength(year: string, draw: string, len: nat)
    requires DrawnFrom(IntendedAlphabet, len, draw)
    ensures RandomPart(draw) == draw
    ensures |ReferenceFor(year, draw)| == 3 + |year| + len
  {
    forall i | 0 <= i < |draw| ensures IsUpper(draw[i]) || IsDigit(draw[i]) {
      IntendedChar(draw[i]);
    }
    assert ToUpper(draw) == draw;
    KeepUpperAlnumIdentity(draw);
  }

  /** The employee id survives `empty()` before and after sanitising. */
  predicate HasEmployeeId(data: Submission, env: Env) {
    data.employeeId.Some? && !PhpEmpty(data.employeeId.value) && !PhpEmpty(env.sanitizeText(data.employeeId.value))
  }

  /** The row `insert_request` writes: each column sanitised, optional ones defaulted, status 'pending'. */
  function NewRow(id: nat, ref: string, data: Submission, now: string, env: Env): (r: Request)
    requires data.employeeId.Some?
    ensures r.id == id && r.referenceId == ref && r.status == "pending"
    ensures r.hrNote.None? && r.pdfUrl.None? && r.createdAt == now
    ensures r.employeeId == env.sanitizeText(data.employeeId.value)
    ensures r.joiningDate.Some? <==> data.joiningDate.Some?
  {
    Request(id, ref, env.sanitizeText(data.fullName), env.sanitizeText(data.employeeId.value),
      env.sanitizeEmail(data.email),
      if data.joiningDate.Some? then Some(env.sanitizeText(data.joiningDate.value)) else None,
      if data.position.Some? then env.sanitizeText(data.position.value) else "",
      if data.department.Some? then env.sanitizeText(data.department.value) else "",
      env.sanitizeText(data.visitingCountry), env.sanitizeTextarea(data.purpose),
      env.sanitizeText(data.leaveStart), env.sanitizeText(data.leaveEnd),
      "pending", None, None, now)
  }

  // ---- Updates ----

  /** The fields `update_request` writes, after sanitising. */
  function SanitizePatch(p: Patch, env: Env): Patch {
    Patch(
      if p.status.Some? then Some(env.sanitizeText(p.status.value)) else None,
      if p.hrNote.Some? then Some(env.sanitizeTextarea(p.hrNote.value)) else None,
      if p.pdfUrl.Some? then Some(env.escUrlRaw(p.pdfUrl.value)) else None)
  }

  predicate HasAny(p: Patch) {
    p.status.Some? || p.hrNote.Some? || p.pdfUrl.Some?
  }

  function ApplyPatch(r: Request, p: Patch): Request {
    r.(status := if p.status.Some? then p.status.value else r.status,
       hrNote := if p.hrNote.Some? then p.hrNote else r.hrNote,
       pdfUrl := if p.pdfUrl.Some? then p.pdfUrl else r.pdfUrl)
  }

  /** `UPDATE … WHERE id = $id`. */
  function PatchRows(rows: seq<Request>, id: nat, p: Patch): (r: seq<Request>)
    ensures |r| == |rows|
  {
    seq(|rows|, i requires 0 <= i < |rows| => if rows[i].id == id then ApplyPatch(rows[i], p) else rows[i])
  }

  /** Two rows agree on every column but the three the update may write. */
  predicate SameBesideReview(a: Request, b: Request) {
    a.id == b.id && a.referenceId == b.referenceId && a.fullName == b.fullName
    && a.employeeId == b.employeeId && a.email == b.email && a.joiningDate == b.joiningDate
    && a.position == b.position && a.department == b.department
    && a.visitingCountry == b.visitingCountry && a.purpose == b.purpose
    && a.leaveStart == b.leaveStart && a.leaveEnd == b.leaveEnd && a.createdAt == b.createdAt
  }

  /** An update changes status, hr_note and pdf_url of the addressed row only; every other row and column is kept. */
  lemma PatchOnlyTouchesWhitelist(rows: seq<Request>, id: nat, p: Patch)
    ensures var out := PatchRows(rows, id, p);
            forall i :: 0 <= i < |rows| ==>
              SameBesideReview(out[i], rows[i]) && (rows[i].id != id ==> out[i] == rows[i])
  {
  }

  /** The patch `approve_request` sends: status approved, the PDF URL, and the note only when non-empty. */
  function ApprovePatch(pdfUrl: string, hrNote: string): (p: Patch)
    ensures p.hrNote.Some? <==> !PhpEmpty(hrNote)
  {
    Patch(Some("approved"), if !PhpEmpty(hrNote) then Some(hrNote) else None, Some(pdfUrl))
  }

  function RejectPatch(hrNote: string): Patch {
    Patch(Some("rejected"), Some(hrNote), None)
  }

  /**
   * Approval does not look at the current status: whatever the row's status was
   * (pending, rejected or already approved), it becomes 'approved' with the new PDF URL,
   * and an empty note keeps the old one.
   */
  lemma ApproveIgnoresCurrentStatus(rows: seq<Request>, id: nat, pdfUrl: string, hrNote: string, env: Env, i: nat)
    requires i < |rows| && rows[i].id == id
    requires env.sanitizeText("approved") == "approved"
    ensures var out := PatchRows(rows, id, SanitizePatch(ApprovePatch(pdfUrl, hrNote), env));
            out[i].status == "approved" && out[i].pdfUrl == Some(env.escUrlRaw(pdfUrl))
            && (PhpEmpty(hrNote) ==> out[i].hrNote == rows[i].hrNote)
            && (!PhpEmpty(hrNote) ==> out[i].hrNote == Some(env.sanitizeTextarea(hrNote)))
  {
  }

  /** Rejection writes status 'rejected' and the note, and leaves the PDF URL as it was. */
  lemma RejectKeepsPdf(rows: seq<Request>, id: nat, hrNote: string, env: Env, i: nat)
    requires i < |rows| && rows[i].id == id
    requires env.sanitizeText("rejected") == "rejected"
    ensures var out := PatchRows(rows, id, SanitizePatch(RejectPatch(hrNote), env));
            out[i].status == "rejected" && out[i].hrNote == Some(env.sanitizeTextarea(hrNote))
            && out[i].pdfUrl == rows[i].pdfUrl
  {
  }

  // ---- Filters and paging ----

  /** A value bound to a `%s` or `%d` placeholder. */
  datatype SqlValue = SqlStr(s: string) | SqlInt(n: int)

  datatype FilterArgs = FilterArgs(status: string, search: string, dateFrom: string, dateTo: string, page: int, perPage: int)

  /** The fragments the where-clause is joined from with ' AND '. */
  datatype Clause = Always | StatusIs | SearchLike | CreatedFrom | CreatedTo

  function ClauseSql(c: Clause): string {
    match c
    case Always => "1=1"
    case StatusIs => "status = %s"
    case SearchLike => "(full_name LIKE %s OR email LIKE %s)"
    case CreatedFrom => "DATE(created_at) >= %s"
    case CreatedTo => "DATE(created_at) <= %s"
  }

  /** The number of `%s` placeholders in a fragment. */
  function Arity(c: Clause): nat {
    match c
    case Always => 0
    case SearchLike => 2
    case _ => 1
  }

  function TotalArity(clauses: seq<Clause>): nat
    decreases |clauses|
  {
    if clauses == [] then 0 else TotalArity(clauses[..|clauses| - 1]) + Arity(clauses[|clauses| - 1])
  }

  /** The where-clause text. */
  function WhereSql(clauses: seq<Clause>): string {
    Join(seq(|clauses|, i requires 0 <= i < |clauses| => ClauseSql(clauses[i])), " AND ")
  }

  predicate IsStatus(s: string) {
    s == "pending" || s == "approved" || s == "rejected"
  }

  /** `($page - 1) * $per_page`. */
  function Offset(page: int, perPage: int): int {
    (page - 1) * perPage
  }

  /** `ceil($total / $per_page)` for a row count. */
  function Pages(total: nat, perPage: int): (r: nat)
    requires perPage > 0
  {
    (total + perPage - 1) / perPage
  }

  /** `Pages` is the ceiling: enough pages for every row, and no empty last page. */
  lemma PagesIsCeiling(total: nat, perPage: int)
    requires perPage > 0
    ensures Pages(total, perPage) * perPage >= total
    ensures total > 0 ==> (Pages(total, perPage) - 1) * perPage < total
    ensures Pages(total, perPage) == 0 <==> total == 0
  {
    var q := Pages(total, perPage);
    var n := total + perPage - 1;
    assert n == q * perPage + n % perPage;
  }

  /**
   * `ceil((int) $total / $per_page)` for any per-page count the block attribute can carry
   * after `(int)`: None when it is 0 (PHP throws `DivisionByZeroError` and the page fails);
   * for a negative one, the ceiling of the negative quotient, which is zero or below.
   */
  function PageCount(total: nat, perPage: int): (r: Option<int>)
    ensures r.None? <==> perPage == 0
    ensures perPage > 0 ==> r == Some(Pages(total, perPage))
    ensures perPage < 0 ==> r.Some? && r.value <= 0
  {
    if perPage == 0 then None
    else if perPage > 0 then Some(Pages(total, perPage))
    else Some(-(total / -perPage))
  }

  /** With a negative per-page count the result is still the ceiling of the quotient. */
  lemma NegativePageCountIsCeiling(total: nat, perPage: int)
    requires perPage < 0
    ensures var c := PageCount(total, perPage).value;
            c * perPage <= total < (c - 1) * perPage
  {
    var q := -perPage;
    var c := PageCount(total, perPage).value;
    assert total == (total / q) * q + total % q;
    assert c * perPage == (total / q) * q;
    assert (c - 1) * perPage == (total / q) * q + q;
  }

  /** Consecutive pages start `per_page` rows apart, the first at offset 0. */
  lemma OffsetSteps(page: int, perPage: int)
    ensures Offset(1, perPage) == 0
    ensures Offset(page + 1, perPage) == Offset(page, perPage) + perPage
  {
  }

  /**
   * `LIMIT $per_page OFFSET $offset` applied to the ordered result: the rows of page
   * `page`. A negative limit or offset is rejected by the database, which leaves no
   * rows, and `LIMIT 0` selects none.
   */
  function PageOf<T>(xs: seq<T>, page: int, perPage: int): (r: seq<T>)
    ensures perPage <= 0 ==> r == []
    ensures perPage > 0 ==> |r| <= perPage
  {
    var off := Offset(page, perPage);
    if perPage <= 0 || off < 0 || off >= |xs| then []
    else if off + perPage <= |xs| then xs[off..off + perPage]
    else xs[off..]
  }

  /**
   * Paging loses no row: row `i` of the ordered result is row `i % per_page` of page
   * `i / per_page + 1`, and that page is within the page count.
   */
  lemma PagesCoverRows<T>(xs: seq<T>, perPage: int, i: nat)
    requires perPage > 0 && i < |xs|
    ensures var page := i / perPage + 1;
            page <= Pages(|xs|, perPage)
            && i % perPage < |PageOf(xs, page, perPage)|
            && PageOf(xs, page, perPage)[i % perPage] == xs[i]
  {
    var q, m := i / perPage, i % perPage;
    assert i == q * perPage + m;
    assert Offset(q + 1, perPage) == q * perPage;
    DivAtLeast(|xs| + perPage - 1, q + 1, perPage);
  }

  lemma MulCancel(a: int, b: int, d: int)
    requires d > 0 && a * d > b * d
    ensures a > b
  {
    if a <= b {
      MulMonotone(a, b, d);
    }
  }

  lemma MulMonotone(a: int, b: int, d: int)
    requires d > 0 && a <= b
    ensures a * d <= b * d
  {
    assert b * d - a * d == (b - a) * d;
  }

  /** `n / d` is at least `k` when `n` holds `k` multiples of `d`. */
  lemma DivAtLeast(n: int, k: nat, d: int)
    requires d > 0 && n >= k * d
    ensures n / d >= k
  {
    var q := n / d;
    assert n == q * d + n % d;
    assert q * d > (k - 1) * d;
    MulCancel(q, k - 1, d);
  }

  lemma TotalAritySnoc(clauses: seq<Clause>, c: Clause)
    ensures TotalArity(clauses + [c]) == TotalArity(clauses) + Arity(c)
  {
    assert (clauses + [c])[..|clauses|] == clauses;
  }

  /** `xs` when `cond` holds, nothing otherwise. */
  function When<T>(cond: bool, xs: seq<T>): seq<T> {
    if cond then xs else []
  }

  /** One `if (…) { $where[] = …; $values[] = …; }` step of the where-clause builder. */
  method AddClause(clauses: seq<Clause>, values: seq<SqlValue>, cond: bool, c: Clause, vs: seq<SqlValue>)
    returns (clauses': seq<Clause>, values': seq<SqlValue>)
    requires |clauses| >= 1 && |vs| == Arity(c) && |values| == TotalArity(clauses)
    ensures clauses' == clauses + When(cond, [c])
    ensures values' == values + When(cond, vs)
    ensures |clauses'| >= 1 && clauses'[0] == clauses[0]
    ensures forall d :: d in clauses' <==> d in clauses || (cond && d == c)
    ensures |values'| == TotalArity(clauses')
    ensures forall v :: v in values ==> v in values'
    ensures cond ==> forall v :: v in vs ==> v in values'
  {
    if cond {
      TotalAritySnoc(clauses, c);
      clauses' := clauses + [c];
      values' := values + vs;
    } else {
      clauses', values' := clauses, values;
      assert clauses + [] == clauses && values + [] == values;
    }
  }

  /** Which filters appear in a clause list built from `[Always]` by the four optional steps. */
  lemma FilterMembership(st: bool, se: bool, df: bool, dt: bool, clauses: seq<Clause>)
    requires clauses == [Always] + When(st, [StatusIs]) + When(se, [SearchLike]) + When(df, [CreatedFrom]) + When(dt, [CreatedTo])
    ensures StatusIs in clauses <==> st
    ensures SearchLike in clauses <==> se
    ensures CreatedFrom in clauses <==> df
    ensures CreatedTo in clauses <==> dt
  {
  }

  /**
   * The where-clause `get_requests_filtered` builds, with the values for the count
   * query (`countValues`) and for the page query (`queryValues`, which adds LIMIT and
   * OFFSET). The status filter is applied only for one of the three known statuses.
   */
  method BuildFilterQuery(args: FilterArgs, env: Env) returns (clauses: seq<Clause>, countValues: seq<SqlValue>, queryValues: seq<SqlValue>)
    ensures clauses == [Always]
                       + When(!PhpEmpty(args.status) && IsStatus(args.status), [StatusIs])
                       + When(!PhpEmpty(args.search), [SearchLike])
                       + When(!PhpEmpty(args.dateFrom), [CreatedFrom])
                       + When(!PhpEmpty(args.dateTo), [CreatedTo])
    ensures var term := SqlStr("%" + env.escLike(args.search) + "%");
            countValues == When(!PhpEmpty(args.status) && IsStatus(args.status), [SqlStr(args.status)])
                           + When(!PhpEmpty(args.search), [term, term])
                           + When(!PhpEmpty(args.dateFrom), [SqlStr(args.dateFrom)])
                           + When(!PhpEmpty(args.dateTo), [SqlStr(args.dateTo)])
    ensures |clauses| >= 1 && clauses[0] == Always
    ensures StatusIs in clauses <==> !PhpEmpty(args.status) && IsStatus(args.status)
    ensures SearchLike in clauses <==> !PhpEmpty(args.search)
    ensures CreatedFrom in clauses <==> !PhpEmpty(args.dateFrom)
    ensures CreatedTo in clauses <==> !PhpEmpty(args.dateTo)
    ensures |countValues| == TotalArity(clauses)
    ensures !PhpEmpty(args.search) ==> SqlStr("%" + env.escLike(args.search) + "%") in countValues
    ensures queryValues == countValues + [SqlInt(args.perPage), SqlInt(Offset(args.page, args.perPage))]
  {
    var st, se := !PhpEmpty(args.status) && IsStatus(args.status), !PhpEmpty(args.search);
    var df, dt := !PhpEmpty(args.dateFrom), !PhpEmpty(args.dateTo);
    var term := "%" + env.escLike(args.search) + "%";
    var c0: seq<Clause> := [Always];
    assert TotalArity(c0) == 0 by { assert c0[..0] == []; }
    var c1, v1 := AddClause(c0, [], st, StatusIs, [SqlStr(args.status)]);
    var c2, v2 := AddClause(c1, v1, se, SearchLike, [SqlStr(term), SqlStr(term)]);
    var c3, v3 := AddClause(c2, v2, df, CreatedFrom, [SqlStr(args.dateFrom)]);
    clauses, countValues := AddClause(c3, v3, dt, CreatedTo, [SqlStr(args.dateTo)]);
    assert v1 == When(st, [SqlStr(args.status)]);
    FilterMembership(st, se, df, dt, clauses);
    queryValues := countValues + [SqlInt(args.perPage), SqlInt(Offset(args.page, args.perPage))];
  }

  // ---- The table ----

  /** The ten ids the generator tries, one per attempt. */
  function Candidates(year: string, draw: nat -> string): (cs: seq<string>)
    ensures |cs| == MaxAttempts
    ensures forall k :: 0 <= k < MaxAttempts ==> cs[k] == ReferenceFor(year, draw(k))
  {
    seq(MaxAttempts, k requires 0 <= k => ReferenceFor(year, draw(k)))
  }

  /**
   * The first of `cands` no row carries; when every one is taken, the `fallback`, which
   * is not checked.
   */
  function FirstFree(rows: seq<Request>, cands: seq<string>, fallback: string): string
    decreases |cands|
  {
    if cands == [] then fallback
    else if !Taken(rows, cands[0]) then cands[0]
    else FirstFree(rows, cands[1..], fallback)
  }

  /** The id a fresh call of `generate_reference_id` returns against `rows`. */
  function GeneratedReference(rows: seq<Request>, year: string, draw: nat -> string, extra: string): string {
    FirstFree(rows, Candidates(year, draw), ReferenceFor(year, extra))
  }

  /**
   * The chosen id is free in the table, unless it is the fallback after every candidate
   * was taken: only then can the insert meet a duplicate.
   */
  lemma {:induction false} FirstFreeIsFreeOrFallback(rows: seq<Request>, cands: seq<string>, fallback: string)
    ensures var r := FirstFree(rows, cands, fallback);
            (r in cands && !Taken(rows, r))
            || (r == fallback && forall j :: 0 <= j < |cands| ==> Taken(rows, cands[j]))
    decreases |cands|
  {
    if cands != [] && Taken(rows, cands[0]) {
      FirstFreeIsFreeOrFallback(rows, cands[1..], fallback);
      assert forall j :: 1 <= j < |cands| ==> cands[j] == cands[1..][j - 1];
    }
  }

  /** A taken candidate hands the choice to the rest. */
  lemma FirstFreeStep(rows: seq<Request>, cands: seq<string>, fallback: string, k: nat)
    requires k < |cands| && Taken(rows, cands[k])
    ensures FirstFree(rows, cands[k..], fallback) == FirstFree(rows, cands[k + 1..], fallback)
  {
    assert cands[k..][0] == cands[k] && cands[k..][1..] == cands[k + 1..];
  }

  /** A free candidate is the choice. */
  lemma FirstFreeStop(rows: seq<Request>, cands: seq<string>, fallback: string, k: nat)
    requires k < |cands| && !Taken(rows, cands[k])
    ensures FirstFree(rows, cands[k..], fallback) == cands[k]
  {
    assert cands[k..][0] == cands[k];
  }

  /** With one candidate left and taken, the fallback is the choice. */
  lemma FirstFreeLast(rows: seq<Request>, cands: seq<string>, fallback: string)
    requires |cands| > 0 && Taken(rows, cands[|cands| - 1])
    ensures FirstFree(rows, cands[|cands| - 1..], fallback) == fallback
  {
    var last := cands[|cands| - 1..];
    assert last[0] == cands[|cands| - 1] && last[1..] == [];
  }

  /** What the generator's loop leaves behind determines its answer and the answer's shape. */
  lemma GeneratorOutcome(rows: seq<Request>, year: string, draw: nat -> string, extra: string, attempts: nat, last: string, ref: string)
    requires 1 <= attempts <= MaxAttempts && last == ReferenceFor(year, draw(attempts - 1))
    requires Taken(rows, last) ==> attempts == MaxAttempts
    requires GeneratedReference(rows, year, draw, extra)
             == FirstFree(rows, Candidates(year, draw)[attempts - 1..], ReferenceFor(year, extra))
    requires ref == if Taken(rows, last) then ReferenceFor(year, extra) else last
    ensures ref == GeneratedReference(rows, year, draw, extra)
    ensures StartsWith(ref, "NOC" + year)
    ensures (forall k :: 0 <= k < MaxAttempts ==> DrawnFrom(IntendedAlphabet, 8, draw(k)))
            && DrawnFrom(IntendedAlphabet, 10, extra) ==>
              |ref| == 3 + |year| + (if Taken(rows, last) then 10 else 8)
  {
    var cands := Candidates(year, draw);
    if Taken(rows, last) {
      FirstFreeLast(rows, cands, ReferenceFor(year, extra));
      ReferenceShape(year, extra);
      if DrawnFrom(IntendedAlphabet, 10, extra) {
        IntendedDrawKeepsLength(year, extra, 10);
      }
    } else {
      FirstFreeStop(rows, cands, ReferenceFor(year, extra), attempts - 1);
      ReferenceShape(year, draw(attempts - 1));
      if DrawnFrom(IntendedAlphabet, 8, draw(attempts - 1)) {
        IntendedDrawKeepsLength(year, draw(attempts - 1), 8);
      }
    }
  }

  /** The table's invariant: ids below the next one, strictly increasing, reference ids unique. */
  ghost predicate WellFormed(rows: seq<Request>, nextId: nat) {
    && (forall i :: 0 <= i < |rows| ==> rows[i].id < nextId)
    && (forall i, j :: 0 <= i < j < |rows| ==> rows[i].id < rows[j].id)
    && UniqueReferences(rows)
  }

  /** Appending a row under the next id with a free reference id keeps the invariant. */
  lemma AppendKeepsWellFormed(rows: seq<Request>, nextId: nat, row: Request)
    requires WellFormed(rows, nextId) && row.id == nextId && !Taken(rows, row.referenceId)
    ensures WellFormed(rows + [row], nextId + 1)
  {
    AppendKeepsUnique(rows, row);
  }

  /** Appending a row whose reference id is not stored keeps reference ids unique. */
  lemma AppendKeepsUnique(rows: seq<Request>, row: Request)
    requires UniqueReferences(rows) && !Taken(rows, row.referenceId)
    ensures UniqueReferences(rows + [row])
  {
    var out := rows + [row];
    forall i, j | 0 <= i < j < |out| ensures out[i].referenceId != out[j].referenceId {
      if j == |rows| {
        assert out[i] == rows[i];
      } else {
        assert out[i] == rows[i] && out[j] == rows[j];
      }
    }
  }

  /** Reference ids are pairwise distinct (the table's `UNIQUE KEY reference_id`). */
  predicate UniqueReferences(rows: seq<Request>) {
    forall i, j :: 0 <= i < j < |rows| ==> rows[i].referenceId != rows[j].referenceId
  }

  class Database {
    /** The table's rows, in id order. */
    var rows: seq<Request>
    /** The next AUTO_INCREMENT id. */
    var nextId: nat

    /** Ids are below `nextId` and increase along the table; reference ids are unique. */
    ghost predicate Valid()
      reads this
    {
      WellFormed(rows, nextId)
    }

    constructor()
      ensures rows == [] && nextId == 1 && Valid()
    {
      rows := [];
      nextId := 1;
    }

    /**
     * `generate_reference_id`. `draw(k)` is the password generator's output on the
     * k-th attempt and `extra` its output for the ten-character fallback. Up to ten
     * candidates are checked against the table; if the tenth is still taken, the
     * fallback is used without another check.
     */
    method GenerateReferenceId(year: string, draw: nat -> string, extra: string) returns (ref: string, attempts: nat)
      ensures 1 <= attempts <= MaxAttempts
      ensures forall k :: 0 <= k < attempts - 1 ==> Taken(rows, ReferenceFor(year, draw(k)))
      ensures !Taken(rows, ReferenceFor(year, draw(attempts - 1))) ==> ref == ReferenceFor(year, draw(attempts - 1))
      ensures Taken(rows, ReferenceFor(year, draw(attempts - 1))) ==> attempts == MaxAttempts && ref == ReferenceFor(year, extra)
      ensures ref == GeneratedReference(rows, year, draw, extra)
      ensures StartsWith(ref, "NOC" + year)
      ensures (forall k :: 0 <= k < MaxAttempts ==> DrawnFrom(IntendedAlphabet, 8, draw(k)))
              && DrawnFrom(IntendedAlphabet, 10, extra) ==>
                |ref| == 3 + |year| + (if attempts == MaxAttempts && Taken(rows, ReferenceFor(year, draw(attempts - 1))) then 10 else 8)
    {
      ref := ReferenceFor(year, draw(0));
      var taken := Taken(rows, ref);
      attempts := 1;
      while taken && attempts < MaxAttempts
        invariant 1 <= attempts <= MaxAttempts
        invariant ref == ReferenceFor(year, draw(attempts - 1)) && taken == Taken(rows, ref)
        invariant forall k :: 0 <= k < attempts - 1 ==> Taken(rows, Candidates(year, draw)[k])
        invariant GeneratedReference(rows, year, draw, extra)
                  == FirstFree(rows, Candidates(year, draw)[attempts - 1..], ReferenceFor(year, extra))
      {
        FirstFreeStep(rows, Candidates(year, draw), ReferenceFor(year, extra), attempts - 1);
        ref := ReferenceFor(year, draw(attempts));
        taken := Taken(rows, ref);
        attempts := attempts + 1;
      }
      var last := ref;
      if taken {
        ref := ReferenceFor(year, extra);
      }
      GeneratorOutcome(rows, year, draw, extra, attempts, last, ref);
    }

    /**
     * `insert_request`. A missing or empty employee id (also after sanitising) is
     * refused before anything is written. Otherwise a row with status 'pending' is
     * appended, unless the driver fails or the generated id is already stored: the
     * unchecked fallback id can collide, and the table's unique key then rejects the
     * row.
     */
    method InsertRequest(data: Submission, year: string, draw: nat -> string, extra: string, now: string, driverOk: bool, env: Env)
      returns (result: InsertResult)
      requires Valid()
      modifies this
      ensures Valid()
      ensures result.InsertFailed? ==> rows == old(rows) && nextId == old(nextId)
      ensures !HasEmployeeId(data, env) ==> result == InsertFailed("Employee ID is required.")
      ensures result.Inserted? <==>
                HasEmployeeId(data, env) && driverOk
                && !Taken(old(rows), GeneratedReference(old(rows), year, draw, extra))
      ensures result.Inserted? ==>
                && result.id == old(nextId) && nextId == old(nextId) + 1
                && result.referenceId == GeneratedReference(old(rows), year, draw, extra)
                && rows == old(rows) + [NewRow(result.id, result.referenceId, data, now, env)]
                && StartsWith(result.referenceId, "NOC" + year)
    {
      var ref, attempts := GenerateReferenceId(year, draw, extra);
      if !HasEmployeeId(data, env) {
        return InsertFailed("Employee ID is required.");
      }
      if !driverOk || Taken(rows, ref) {
        return InsertFailed("database error");
      }
      var row := NewRow(nextId, ref, data, now, env);
      AppendKeepsWellFormed(rows, nextId, row);
      rows := rows + [row];
      result := Inserted(nextId, ref);
      nextId := nextId + 1;
    }

    /**
     * `update_request`: only status, hr_note and pdf_url are copied; with none of them
     * the call returns false without touching the table. A successful statement returns
     * true even when no row has the id.
     */
    method UpdateRequest(id: nat, patch: Patch, driverOk: bool, env: Env) returns (ok: bool)
      requires Valid()
      modifies this
      ensures Valid()
      ensures nextId == old(nextId)
      ensures !HasAny(patch) ==> !ok && rows == old(rows)
      ensures HasAny(patch) && !driverOk ==> !ok && rows == old(rows)
      ensures HasAny(patch) && driverOk ==> ok && rows == PatchRows(old(rows), id, SanitizePatch(patch, env))
    {
      var clean := SanitizePatch(patch, env);
      if !HasAny(clean) {
        return false;
      }
      if !driverOk {
        return false;
      }
      PatchKeepsValidIds(rows, id, clean, nextId);
      rows := PatchRows(rows, id, clean);
      ok := true;
    }

    /** `approve_request`. */
    method ApproveRequest(id: nat, pdfUrl: string, hrNote: string, driverOk: bool, env: Env) returns (ok: bool)
      requires Valid()
      modifies this
      ensures Valid()
      ensures nextId == old(nextId)
      ensures ok == driverOk
      ensures ok ==> rows == PatchRows(old(rows), id, SanitizePatch(ApprovePatch(pdfUrl, hrNote), env))
      ensures !ok ==> rows == old(rows)
    {
      ok := UpdateRequest(id, ApprovePatch(pdfUrl, hrNote), driverOk, env);
    }

    /** `reject_request`. */
    method RejectRequest(id: nat, hrNote: string, driverOk: bool, env: Env) returns (ok: bool)
      requires Valid()
      modifies this
      ensures Valid()
      ensures nextId == old(nextId)
      ensures ok == driverOk
      ensures ok ==> rows == PatchRows(old(rows), id, SanitizePatch(RejectPatch(hrNote), env))
      ensures !ok ==> rows == old(rows)
    {
      ok := UpdateRequest(id, RejectPatch(hrNote), driverOk, env);
    }
  }

  /** Updates keep the table's invariant: ids and reference ids are never rewritten. */
  lemma PatchKeepsValidIds(rows: seq<Request>, id: nat, p: Patch, nextId: nat)
    requires WellFormed(rows, nextId)
    ensures WellFormed(PatchRows(rows, id, p), nextId)
  {
  }
}
