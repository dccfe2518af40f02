/**
 * `ONOC_PDF_Generator` (includes/class-pdf-generator.php): composes the rendered
 * template into a printable document and turns it into a PDF file under the upload
 * directory. Dompdf, the QR encoder and the filesystem are the `Env`'s and
 * `FileStore`'s; what is modelled is the order of steps and where each can fail.
 */
module Pdf {
  import opened Wrappers
  import opened Text
  import opened Host
  import opened Placeholders
  import opened ImageResolver
  import opened Rendering
  import opened Db
  import opened Store

  // ---- QR code ----

  /** The verification URL the QR code encodes. */
  function QrPayload(referenceId: string, env: Env): string {
    env.homeUrl("/noc-verification/?ref=" + env.rawUrlEncode(referenceId))
  }

  /**
   * `generate_qr_code`: the encoder's data URI for the verification URL, or '' when the
   * library is missing or throws.
   */
  function GenerateQrCode(referenceId: string, env: Env): (r: string)
    ensures !env.qrAvailable ==> r == ""
    ensures env.qrAvailable && env.qrEncode(QrPayload(referenceId, env)).None? ==> r == ""
    ensures env.qrAvailable && env.qrEncode(QrPayload(referenceId, env)).Some? ==> r == env.qrEncode(QrPayload(referenceId, env)).value
  {
    if !env.qrAvailable then ""
    else
      match env.qrEncode(QrPayload(referenceId, env))
      case None => ""
      case Some(uri) => uri
  }

  // ---- Document composition ----

  const HeaderPathOption := "onoc_pdf_header_path"
  const HeaderUrlOption := "onoc_pdf_header"
  const FooterPathOption := "onoc_pdf_footer_path"
  const FooterUrlOption := "onoc_pdf_footer"

  /** The stored file path when there is one, otherwise the stored URL. */
  function ChosenImage(opts: Options, pathOption: string, urlOption: string): (r: string)
    ensures !PhpEmpty(GetOption(opts, pathOption)) ==> r == GetOption(opts, pathOption)
    ensures PhpEmpty(GetOption(opts, pathOption)) ==> r == GetOption(opts, urlOption)
  {
    var path := GetOption(opts, pathOption);
    if !PhpEmpty(path) then path else GetOption(opts, urlOption)
  }

  const HeaderOpen := "<div class=\"onoc-pdf-header\"><img src=\""
  const HeaderClose := "\" style=\"width: 100%; max-height: 100px; object-fit: contain;\" /></div>"
  const FooterOpen := "<div class=\"onoc-pdf-footer\"><img src=\""
  const FooterClose := "\" style=\"width: 100%; max-height: 100px; object-fit: contain; display: block; margin: 0 auto;\" alt=\"Footer\" /></div>"

  /** An image division: '' unless the chosen image is set and resolves to something. */
  function ImageDiv(image: string, isFooter: bool, env: Env): (r: string)
    ensures r != "" <==> !PhpEmpty(image) && !PhpEmpty(ResolveImage(image, env))
    ensures r != "" && !isFooter ==> r == HeaderOpen + env.escAttr(ResolveImage(image, env)) + HeaderClose
    ensures r != "" && isFooter ==> r == FooterOpen + env.escAttr(ResolveImage(image, env)) + FooterClose
  {
    if !PhpEmpty(image) then
      var url := ResolveImage(image, env);
      if !PhpEmpty(url) then
        if isFooter then
          var d := FooterOpen + env.escAttr(url) + FooterClose;
          assert d[0] == '<';
          d
        else
          var d := HeaderOpen + env.escAttr(url) + HeaderClose;
          assert d[0] == '<';
          d
      else ""
    else ""
  }

  function HeaderHtml(opts: Options, env: Env): string {
    ImageDiv(ChosenImage(opts, HeaderPathOption, HeaderUrlOption), false, env)
  }

  function FooterHtml(opts: Options, env: Env): string {
    ImageDiv(ChosenImage(opts, FooterPathOption, FooterUrlOption), true, env)
  }

  /** The stylesheet inside `<style>`: a fixed text whose rules the model does not spell out. */
  const Stylesheet: string

  const DocumentHead: string := "<!DOCTYPE html>\n<html>\n<head>\n\t<meta charset=\"UTF-8\">\n\t<style>" + Stylesheet + "</style>\n</head>\n<body>\n\t"
  const ContentOpen := "\n\t<div class=\"onoc-pdf-content\">\n\t\t"
  const ContentClose := "\n\t</div>\n\t"
  const DocumentTail := "\n</body>\n</html>"

  /** Everything before the content: the head, the header division and the content division's opening. */
  function WrapPrefix(opts: Options, env: Env): (r: string)
    ensures StartsWith(r, DocumentHead + HeaderHtml(opts, env))
    ensures EndsWith(r, ContentOpen)
  {
    var r := DocumentHead + HeaderHtml(opts, env) + ContentOpen;
    ConcatStartsWith(DocumentHead + HeaderHtml(opts, env), ContentOpen);
    ConcatEndsWith(DocumentHead + HeaderHtml(opts, env), ContentOpen);
    r
  }

  /** Everything after the content: the content division's end, the footer division and the end of the document. */
  function WrapSuffix(opts: Options, env: Env): (r: string)
    ensures StartsWith(r, ContentClose + FooterHtml(opts, env))
    ensures EndsWith(r, DocumentTail)
  {
    var r := ContentClose + FooterHtml(opts, env) + DocumentTail;
    ConcatStartsWith(ContentClose + FooterHtml(opts, env), DocumentTail);
    ConcatEndsWith(ContentClose + FooterHtml(opts, env), DocumentTail);
    r
  }

  /**
   * `wrap_html`: the header, then the content division holding `content` exactly as
   * given, then the footer. Only the content depends on the argument.
   */
  function WrapHtml(content: string, opts: Options, env: Env): (r: string)
    ensures r == WrapPrefix(opts, env) + content + WrapSuffix(opts, env)
  {
    DocumentHead + HeaderHtml(opts, env) + ContentOpen + content + (ContentClose + FooterHtml(opts, env) + DocumentTail)
  }

  /** Two documents differ exactly where their contents differ: wrapping is injective. */
  lemma WrapInjective(c1: string, c2: string, opts: Options, env: Env)
    requires WrapHtml(c1, opts, env) == WrapHtml(c2, opts, env)
    ensures c1 == c2
  {
    var p, s := WrapPrefix(opts, env), WrapSuffix(opts, env);
    var w1, w2 := WrapHtml(c1, opts, env), WrapHtml(c2, opts, env);
    assert |c1| == |c2|;
    forall i | 0 <= i < |c1| ensures c1[i] == c2[i] {
      assert w1[|p| + i] == c1[i];
      assert w2[|p| + i] == c2[i];
    }
  }

  /** The header image comes from the path option whenever that option is set. */
  lemma HeaderPrefersPath(opts: Options, env: Env)
    requires !PhpEmpty(GetOption(opts, HeaderPathOption))
    ensures HeaderHtml(opts, env) == ImageDiv(GetOption(opts, HeaderPathOption), false, env)
  {
  }

  /** No header and no footer option gives a document with neither division. */
  lemma NoImagesNoDivisions(opts: Options, env: Env)
    requires HeaderPathOption !in opts && HeaderUrlOption !in opts
    requires FooterPathOption !in opts && FooterUrlOption !in opts
    ensures HeaderHtml(opts, env) == "" && FooterHtml(opts, env) == ""
  {
  }

  // ---- The PDF file ----

  /** `'noc-' . sanitize_file_name($reference_id) . '.pdf'`. */
  function PdfFileName(referenceId: string, env: Env): string {
    "noc-" + env.sanitizeFileName(referenceId) + ".pdf"
  }

  function PdfDir(env: Env): string {
    env.uploadBaseDir + "/noc-pdfs"
  }

  function PdfPath(referenceId: string, env: Env): string {
    PdfDir(env) + "/" + PdfFileName(referenceId, env)
  }

  /** The URL `create_pdf` returns. */
  function PdfUrl(referenceId: string, env: Env): (r: string)
    ensures StartsWith(r, env.uploadBaseUrl + "/noc-pdfs/noc-")
    ensures EndsWith(r, ".pdf")
  {
    var r := env.uploadBaseUrl + "/noc-pdfs/" + ("noc-" + env.sanitizeFileName(referenceId) + ".pdf");
    assert r == (env.uploadBaseUrl + "/noc-pdfs/noc-") + (env.sanitizeFileName(referenceId) + ".pdf");
    ConcatStartsWith(env.uploadBaseUrl + "/noc-pdfs/noc-", env.sanitizeFileName(referenceId) + ".pdf");
    ConcatEndsWith(env.uploadBaseUrl + "/noc-pdfs/noc-" + env.sanitizeFileName(referenceId), ".pdf");
    r
  }

  /** Ids that sanitise alike share a file: the name depends on the reference id alone. */
  lemma PdfUrlDeterministic(ref1: string, ref2: string, env: Env)
    requires env.sanitizeFileName(ref1) == env.sanitizeFileName(ref2)
    ensures PdfUrl(ref1, env) == PdfUrl(ref2, env) && PdfPath(ref1, env) == PdfPath(ref2, env)
  {
  }

  /**
   * `create_pdf`. Without Dompdf, or when it throws, nothing is written and the result is
   * None (PHP false). Otherwise the directory is created if missing, the bytes are
   * written (`writeOk` is whether `file_put_contents` succeeded) and the URL is returned
   * whether or not the write succeeded.
   */
  method CreatePdf(html: string, referenceId: string, env: Env, fs: FileStore, writeOk: bool) returns (r: Option<string>)
    modifies fs
    ensures r.Some? <==> env.dompdfAvailable && env.dompdfRender(html).Some?
    ensures r.Some? ==> r.value == PdfUrl(referenceId, env)
    ensures r.None? ==> fs.dirs == old(fs.dirs) && fs.files == old(fs.files)
    ensures r.Some? ==> fs.dirs == old(fs.dirs) + {PdfDir(env)}
    ensures r.Some? && writeOk ==> fs.files == old(fs.files)[PdfPath(referenceId, env) := env.dompdfRender(html).value]
    ensures r.Some? && !writeOk ==> fs.files == old(fs.files)
  {
    if !env.dompdfAvailable {
      return None;
    }
    var output := env.dompdfRender(html);
    if output.None? {
      return None;
    }
    var nocDir := env.uploadBaseDir + "/noc-pdfs";
    if nocDir !in fs.dirs {
      fs.dirs := fs.dirs + {nocDir};
    }
    var filename := "noc-" + env.sanitizeFileName(referenceId) + ".pdf";
    var filepath := nocDir + "/" + filename;
    if writeOk {
      fs.files := fs.files[filepath := output.value];
    }
    r := Some(env.uploadBaseUrl + "/noc-pdfs/" + filename);
  }

  /** The placeholder data `generate_pdf` builds from a stored row and the QR code. */
  function RequestDataOf(q: Request, qrCode: string): (d: RequestData)
    ensures d.referenceId == Some(q.referenceId) && d.qrCode == Some(qrCode)
  {
    RequestData(
      Some(q.fullName), Some(q.employeeId), Some(q.email), Some(q.referenceId),
      Some(q.joiningDate.GetOr("")), Some(q.position), Some(q.department),
      Some(q.visitingCountry), Some(q.purpose), Some(q.leaveStart), Some(q.leaveEnd),
      Some(qrCode))
  }

  /** The document `generate_pdf` hands to Dompdf for a row. */
  function DocumentFor(q: Request, opts: Options, env: Env): string {
    var ph := BuildPlaceholders(RequestDataOf(q, GenerateQrCode(q.referenceId, env)), opts, env);
    WrapHtml(TemplateHtml(ph, env, GetOption(opts, "noc_pdf_template")), opts, env)
  }

  /** Placeholders, rendering and wrapping for one row, as `generate_pdf` performs them. */
  method RenderDocument(q: Request, templateJson: string, opts: Options, env: Env) returns (html: string)
    requires templateJson == GetOption(opts, "noc_pdf_template")
    ensures html == DocumentFor(q, opts, env)
  {
    var qrCode := GenerateQrCode(q.referenceId, env);
    var renderer := new BlockRenderer(env);
    renderer.SetPlaceholders(RequestDataOf(q, qrCode), opts);
    html := renderer.RenderBlocks(templateJson);
    html := WrapHtml(html, opts, env);
  }

  /**
   * The files after `create_pdf` stored the rendered document of `q`: the bytes at the PDF
   * path when `file_put_contents` succeeds, nothing new otherwise.
   */
  function PdfWritten(files: map<string, string>, q: Request, opts: Options, env: Env, writeOk: bool): map<string, string>
    requires env.dompdfRender(DocumentFor(q, opts, env)).Some?
  {
    if writeOk then files[PdfPath(q.referenceId, env) := env.dompdfRender(DocumentFor(q, opts, env)).value]
    else files
  }

  /**
   * `generate_pdf`. A missing row or an empty stored template gives None before
   * anything is rendered or written; a failed QR code only leaves `{{qr_code}}` empty;
   * otherwise the result is `create_pdf`'s.
   */
  method GeneratePdf(requestId: nat, db: Database, opts: Options, env: Env, fs: FileStore, writeOk: bool) returns (r: Option<string>)
    modifies fs
    ensures FindById(db.rows, requestId).None? ==> r.None? && fs.dirs == old(fs.dirs) && fs.files == old(fs.files)
    ensures PhpEmpty(GetOption(opts, "noc_pdf_template")) ==> r.None? && fs.dirs == old(fs.dirs) && fs.files == old(fs.files)
    ensures r.Some? ==>
              && FindById(db.rows, requestId).Some?
              && !PhpEmpty(GetOption(opts, "noc_pdf_template"))
              && r.value == PdfUrl(FindById(db.rows, requestId).value.referenceId, env)
    ensures FindById(db.rows, requestId).Some? && !PhpEmpty(GetOption(opts, "noc_pdf_template")) ==>
              (r.Some? <==> env.dompdfAvailable && env.dompdfRender(DocumentFor(FindById(db.rows, requestId).value, opts, env)).Some?)
    ensures r.None? ==> fs.dirs == old(fs.dirs) && fs.files == old(fs.files)
    ensures r.Some? ==> fs.dirs == old(fs.dirs) + {PdfDir(env)}
    ensures r.Some? ==> fs.files == PdfWritten(old(fs.files), FindById(db.rows, requestId).value, opts, env, writeOk)
  {
    var request := FindById(db.rows, requestId);
    if request.None? {
      return None;
    }
    var templateJson := GetOption(opts, "noc_pdf_template");
    if PhpEmpty(templateJson) {
      return None;
    }
    var html := RenderDocument(request.value, templateJson, opts, env);
    r := CreatePdf(html, request.value.referenceId, env, fs, writeOk);
  }
}
