/**
 * The state-changing actions of `ONOC_Gutenberg_Admin`
 * (includes/class-gutenberg-admin.php): approving and rejecting a request, saving the
 * PDF template and removing an uploaded image, plus the two values the review screens
 * compute (the status badge and the total leave days).
 *
 * Nonce verification and `current_user_can('manage_options')` are boolean inputs;
 * `(int) $_POST['request_id']` is taken as already cast.
 */
module Admin {
  import opened Wrappers
  import opened Text
  import opened Host
  import opened Db
  import opened Store
  import opened Placeholders
  import opened Pdf
  import opened Templates

  // ---- The guard chain ----

  const SecurityFailed := "Security check failed."
  const NoPermission := "Insufficient permissions."
  const InvalidId := "Invalid request ID."
  const ApproveNoteRequired := "HR note is required for approval."
  const RejectNoteRequired := "HR note (rejection reason) is required."

  /** `isset($_POST['hr_note']) ? trim(sanitize_textarea_field($_POST['hr_note'])) : ''`. */
  function HrNote(raw: Option<string>, env: Env): string {
    match raw
    case None => ""
    case Some(s) => Trim(env.sanitizeTextarea(s))
  }

  /**
   * The checks both review actions run before touching anything, in order: nonce,
   * capability, a non-zero request id, a non-empty note. The first that fails ends the
   * request with its message.
   */
  function GuardFailure(nonceOk: bool, canManage: bool, requestId: int, note: string, noteMessage: string): (r: Option<string>)
    ensures r.None? <==> nonceOk && canManage && requestId != 0 && !PhpEmpty(note)
    ensures r.Some? ==> r.value in [SecurityFailed, NoPermission, InvalidId, noteMessage]
  {
    if !nonceOk then Some(SecurityFailed)
    else if !canManage then Some(NoPermission)
    else if requestId == 0 then Some(InvalidId)
    else if PhpEmpty(note) then Some(noteMessage)
    else None
  }

  /** The guards pass exactly when every check holds, and an earlier failure hides every later one. */
  lemma GuardPassesIffAllHold(nonceOk: bool, canManage: bool, requestId: int, note: string, noteMessage: string)
    ensures GuardFailure(nonceOk, canManage, requestId, note, noteMessage).None?
            <==> nonceOk && canManage && requestId != 0 && !PhpEmpty(note)
    ensures !nonceOk ==> GuardFailure(nonceOk, canManage, requestId, note, noteMessage) == Some(SecurityFailed)
    ensures nonceOk && !canManage ==> GuardFailure(nonceOk, canManage, requestId, note, noteMessage) == Some(NoPermission)
  {
  }

  /** The JSON replies of the review actions. */
  datatype Reply = Failure(message: string) | Approved(pdfUrl: string) | Rejected

  /** The text `wp_send_json_*` carries. */
  function ReplyMessage(r: Reply): string {
    match r
    case Failure(m) => m
    case Approved(_) => "Request approved successfully. PDF generated and email sent."
    case Rejected => "Request rejected. Email sent to applicant."
  }

  // ---- Approve and reject ----

  /**
   * `generate_pdf` succeeds for this id: the row exists, a template is stored and Dompdf
   * renders the document.
   */
  predicate PdfProduced(requestId: int, rows: seq<Request>, opts: Options, env: Env) {
    && requestId > 0
    && FindById(rows, requestId as nat).Some?
    && !PhpEmpty(GetOption(opts, TemplateOption))
    && env.dompdfAvailable
    && env.dompdfRender(DocumentFor(FindById(rows, requestId as nat).value, opts, env)).Some?
  }

  /**
   * `approve_request()`: after the guards, the PDF is generated first; only when that
   * succeeds is the row updated, and only when the update succeeds is the approval
   * mail sent. The row is found by id; a negative id matches none, so the PDF step
   * fails for it.
   */
  method Approve(nonceOk: bool, canManage: bool, requestId: int, rawNote: Option<string>,
                 db: Database, opts: Options, fs: FileStore, outbox: Outbox,
                 writeOk: bool, driverOk: bool, env: Env)
    returns (reply: Reply)
    requires db != outbox as object && outbox != fs as object && db != fs as object
    requires db.Valid()
    modifies db, fs, outbox
    ensures db.Valid()
    ensures db.nextId == old(db.nextId)
    ensures var note := HrNote(rawNote, env);
            GuardFailure(nonceOk, canManage, requestId, note, ApproveNoteRequired).Some? ==>
              && reply == Failure(GuardFailure(nonceOk, canManage, requestId, note, ApproveNoteRequired).value)
              && db.rows == old(db.rows) && outbox.sent == old(outbox.sent)
              && fs.files == old(fs.files) && fs.dirs == old(fs.dirs)
    ensures GuardFailure(nonceOk, canManage, requestId, HrNote(rawNote, env), ApproveNoteRequired).None? ==>
              && (reply.Approved? <==> PdfProduced(requestId, old(db.rows), opts, env) && driverOk)
              && (!PdfProduced(requestId, old(db.rows), opts, env) ==> reply == Failure("Failed to generate PDF."))
              && (PdfProduced(requestId, old(db.rows), opts, env) && !driverOk ==> reply == Failure("Failed to update request."))
    ensures GuardFailure(nonceOk, canManage, requestId, HrNote(rawNote, env), ApproveNoteRequired).None?
            && PdfProduced(requestId, old(db.rows), opts, env) ==>
              && fs.dirs == old(fs.dirs) + {PdfDir(env)}
              && fs.files == PdfWritten(old(fs.files), FindById(old(db.rows), requestId as nat).value, opts, env, writeOk)
    ensures !(GuardFailure(nonceOk, canManage, requestId, HrNote(rawNote, env), ApproveNoteRequired).None?
              && PdfProduced(requestId, old(db.rows), opts, env)) ==>
              fs.dirs == old(fs.dirs) && fs.files == old(fs.files)
    ensures reply == Failure("Failed to generate PDF.") ==> db.rows == old(db.rows) && outbox.sent == old(outbox.sent)
    ensures reply == Failure("Failed to update request.") ==> db.rows == old(db.rows) && outbox.sent == old(outbox.sent)
    ensures reply.Approved? ==>
              && GuardFailure(nonceOk, canManage, requestId, HrNote(rawNote, env), ApproveNoteRequired).None?
              && requestId > 0
              && FindById(old(db.rows), requestId as nat).Some?
              && reply.pdfUrl == PdfUrl(FindById(old(db.rows), requestId as nat).value.referenceId, env)
              && db.rows == PatchRows(old(db.rows), requestId as nat,
                                      SanitizePatch(ApprovePatch(reply.pdfUrl, HrNote(rawNote, env)), env))
              && outbox.sent == old(outbox.sent) + [Approval(requestId)]
    ensures !reply.Approved? ==> outbox.sent == old(outbox.sent) && db.rows == old(db.rows)
  {
    var note := HrNote(rawNote, env);
    var failure := GuardFailure(nonceOk, canManage, requestId, note, ApproveNoteRequired);
    if failure.Some? {
      return Failure(failure.value);
    }
    if requestId < 0 {
      return Failure("Failed to generate PDF.");
    }
    var pdfUrl := GeneratePdf(requestId as nat, db, opts, env, fs, writeOk);
    assert pdfUrl.Some? <==> PdfProduced(requestId, old(db.rows), opts, env);
    if pdfUrl.None? {
      return Failure("Failed to generate PDF.");
    }
    var ok := db.ApproveRequest(requestId as nat, pdfUrl.value, note, driverOk, env);
    if !ok {
      return Failure("Failed to update request.");
    }
    outbox.Send(Approval(requestId));
    reply := Approved(pdfUrl.value);
  }

  /**
   * `reject_request()`: the same guards, no PDF step; the mail goes out only after a
   * successful update. The update statement succeeds whether or not a row has the id,
   * so a request id no row has (a negative one included) still sends the mail.
   */
  method Reject(nonceOk: bool, canManage: bool, requestId: int, rawNote: Option<string>,
                db: Database, outbox: Outbox, driverOk: bool, env: Env)
    returns (reply: Reply)
    requires db != outbox as object
    requires db.Valid()
    modifies db, outbox
    ensures db.Valid()
    ensures db.nextId == old(db.nextId)
    ensures var note := HrNote(rawNote, env);
            GuardFailure(nonceOk, canManage, requestId, note, RejectNoteRequired).Some? ==>
              && reply == Failure(GuardFailure(nonceOk, canManage, requestId, note, RejectNoteRequired).value)
              && db.rows == old(db.rows) && outbox.sent == old(outbox.sent)
    ensures GuardFailure(nonceOk, canManage, requestId, HrNote(rawNote, env), RejectNoteRequired).None? ==>
              (reply == Rejected <==> driverOk)
    ensures !reply.Rejected? ==> db.rows == old(db.rows) && outbox.sent == old(outbox.sent)
    ensures reply.Rejected? ==>
              && outbox.sent == old(outbox.sent) + [Rejection(requestId)]
              && (requestId > 0 ==> db.rows == PatchRows(old(db.rows), requestId as nat, SanitizePatch(RejectPatch(HrNote(rawNote, env)), env)))
              && (requestId < 0 ==> db.rows == old(db.rows))
  {
    var note := HrNote(rawNote, env);
    var failure := GuardFailure(nonceOk, canManage, requestId, note, RejectNoteRequired);
    if failure.Some? {
      return Failure(failure.value);
    }
    var ok;
    if requestId < 0 {
      ok := driverOk;
    } else {
      ok := db.RejectRequest(requestId as nat, note, driverOk, env);
    }
    if !ok {
      return Failure("Failed to update request.");
    }
    outbox.Send(Rejection(requestId));
    reply := Rejected;
  }

  // ---- Saving the template ----

  /** What the template designer reports after a POST. */
  datatype SaveOutcome = NotSaved | Saved | InvalidJson | Cleared

  /** The options after a save: valid non-empty JSON verbatim, '' for empty input, nothing for invalid JSON. */
  function SavedOptions(opts: Options, json: string, env: Env): Options {
    if PhpEmpty(json) then opts[TemplateOption := ""]
    else if env.jsonValid(json) then opts[TemplateOption := json]
    else opts
  }

  /**
   * The save branch of `render_template_designer()`: runs for a user who may manage
   * options, when the save button was posted with a valid nonce.
   */
  method SaveTemplate(canManage: bool, submitted: bool, nonceOk: bool, rawJson: Option<string>,
                      store: OptionStore, env: Env)
    returns (outcome: SaveOutcome)
    modifies store
    ensures !(canManage && submitted && nonceOk) ==> outcome == NotSaved && store.options == old(store.options)
    ensures canManage && submitted && nonceOk ==>
              var json := if rawJson.Some? then env.unslash(rawJson.value) else "";
              && store.options == SavedOptions(old(store.options), json, env)
              && outcome == (if PhpEmpty(json) then Cleared else if env.jsonValid(json) then Saved else InvalidJson)
  {
    if !canManage || !submitted || !nonceOk {
      return NotSaved;
    }
    var json := if rawJson.Some? then env.unslash(rawJson.value) else "";
    if !PhpEmpty(json) {
      if env.jsonValid(json) {
        store.Update(TemplateOption, json);
        outcome := Saved;
      } else {
        outcome := InvalidJson;
      }
    } else {
      store.Update(TemplateOption, "");
      outcome := Cleared;
    }
  }

  /** The stored template is '' or JSON that parsed. */
  predicate StoredTemplateOk(opts: Options, env: Env) {
    var t := GetOption(opts, TemplateOption);
    t == "" || env.jsonValid(t)
  }

  /**
   * Saving keeps the stored template '' or valid JSON, touches no other option, and
   * never leaves a rejected text behind.
   */
  lemma SaveKeepsTemplateValid(opts: Options, json: string, env: Env)
    requires StoredTemplateOk(opts, env)
    ensures StoredTemplateOk(SavedOptions(opts, json, env), env)
    ensures forall k :: k != TemplateOption ==> GetOption(SavedOptions(opts, json, env), k) == GetOption(opts, k)
    ensures !PhpEmpty(json) && !env.jsonValid(json) ==> SavedOptions(opts, json, env) == opts
  {
  }

  /** Posting "0" clears the template, since `empty('0')` holds. */
  lemma ZeroClearsTemplate(opts: Options, env: Env)
    ensures GetOption(SavedOptions(opts, "0", env), TemplateOption) == ""
  {
  }

  // ---- Removing an image ----

  /** The URL and path options of each removable image, and the container the reply names. */
  function ImageSlot(kind: string): Option<(string, string, string)> {
    if kind == "signature" then Some(("onoc_signature_image", "onoc_signature_image_path", "onoc-signature-image-container"))
    else if kind == "header" then Some((HeaderUrlOption, HeaderPathOption, "onoc-header-image-container"))
    else if kind == "footer" then Some((FooterUrlOption, FooterPathOption, "onoc-footer-image-container"))
    else None
  }

  datatype RemoveReply = RemoveFailed(message: string) | Removed(containerId: string)

  /** The files after `@unlink($file_path)` when the path is set and names an existing file. */
  function Unlinked(files: map<string, string>, path: string): map<string, string> {
    if !PhpEmpty(path) && path in files then files - {path} else files
  }

  /**
   * `ajax_remove_image()`: an image type outside {signature, header, footer} is
   * refused; a valid one deletes its stored file and exactly its own two options.
   */
  method RemoveImage(nonceOk: bool, canManage: bool, rawType: Option<string>,
                     store: OptionStore, fs: FileStore, env: Env)
    returns (reply: RemoveReply)
    requires store != fs as object
    modifies store, fs
    ensures fs.dirs == old(fs.dirs)
    ensures !nonceOk ==> reply == RemoveFailed(SecurityFailed)
    ensures nonceOk && !canManage ==> reply == RemoveFailed(NoPermission)
    ensures reply.RemoveFailed? ==> store.options == old(store.options) && fs.files == old(fs.files)
    ensures var kind := if rawType.Some? then env.sanitizeText(rawType.value) else "";
            nonceOk && canManage ==>
              match ImageSlot(kind)
              case None => reply == RemoveFailed("Invalid image type.")
              case Some(slot) =>
                && reply == Removed(slot.2)
                && store.options == old(store.options) - {slot.0, slot.1}
                && fs.files == Unlinked(old(fs.files), GetOption(old(store.options), slot.1))
  {
    if !nonceOk {
      return RemoveFailed(SecurityFailed);
    }
    if !canManage {
      return RemoveFailed(NoPermission);
    }
    var kind := if rawType.Some? then env.sanitizeText(rawType.value) else "";
    var slot := ImageSlot(kind);
    if slot.None? {
      return RemoveFailed("Invalid image type.");
    }
    var (urlOption, pathOption, container) := slot.value;
    var filePath := GetOption(store.options, pathOption);
    if !PhpEmpty(filePath) && filePath in fs.files {
      fs.files := fs.files - {filePath};
    }
    store.Delete(urlOption);
    store.Delete(pathOption);
    reply := Removed(container);
  }

  /** Each image type owns two options of its own: removing one image never touches another's. */
  lemma ImageSlotsDisjoint(a: string, b: string)
    requires ImageSlot(a).Some? && ImageSlot(b).Some? && a != b
    ensures var sa, sb := ImageSlot(a).value, ImageSlot(b).value;
            {sa.0, sa.1} !! {sb.0, sb.1}
  {
  }

  // ---- Values shown on the review screens ----

  /** The status badge: approved and rejected show as themselves, anything else as pending. */
  function StatusBadge(status: string): (r: (string, string))
    ensures r.0 in {"status-approved", "status-rejected", "status-pending"}
  {
    if status == "approved" then ("status-approved", "Approved")
    else if status == "rejected" then ("status-rejected", "Rejected")
    else ("status-pending", "Pending")
  }

  /** A status the workflow never writes, or a differently cased one, still shows as pending. */
  lemma UnknownStatusIsPending(status: string)
    ensures status != "approved" && status != "rejected" <==> StatusBadge(status) == ("status-pending", "Pending")
  {
  }

  /** The "Total Leave Days" row: shown only when both dates are set, as the absolute difference plus one. */
  function TotalLeaveDays(start: string, end: string, env: Env): (r: Option<int>)
    ensures r.Some? <==> !PhpEmpty(start) && !PhpEmpty(end)
    ensures r.Some? ==> r.value >= 1
  {
    if PhpEmpty(start) || PhpEmpty(end) then None
    else
      var diff := DateTimeDay(end, env) - DateTimeDay(start, env);
      Some((if diff < 0 then -diff else diff) + 1)
  }

  /** The review screen counts the same days as the letter's `{{number_of_days}}`, and at least one. */
  lemma ReviewDaysMatchLetter(start: string, end: string, env: Env)
    ensures TotalLeaveDays(start, end, env).Some? <==> NumberOfDays(Some(start), Some(end), env) > 0
    ensures TotalLeaveDays(start, end, env).Some? ==>
              TotalLeaveDays(start, end, env).value == NumberOfDays(Some(start), Some(end), env) >= 1
  {
  }
}
