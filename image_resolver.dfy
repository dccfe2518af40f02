/**
 * `get_image_for_pdf`: turns an image reference (inline data URI, absolute URL,
 * upload URL, root-relative path, filesystem path) into something Dompdf can embed.
 * The renderer (includes/class-block-renderer.php) and the PDF generator
 * (includes/class-pdf-generator.php) carry the same routine; they differ only in the
 * diagnostics they log, so one definition serves both.
 */
module ImageResolver {
  import opened Wrappers
  import opened Text
  import opened Host

  predicate IsHttpUrl(url: string) {
    StartsWith(url, "http://") || StartsWith(url, "https://")
  }

  /** The local file the routine probes for `url` ('' when it has no candidate). */
  function LocalPath(url: string, env: Env): string {
    if env.isFile(url) then url
    else if IsHttpUrl(url) then
      if Contains(url, env.uploadBaseUrl) then ReplaceAll(url, env.uploadBaseUrl, env.uploadBaseDir)
      else
        var path := env.urlPath(url);
        if Contains(path, "/wp-content/uploads/") then env.absPath + LTrimChar(path, '/')
        else if !PhpEmpty(path) then env.absPath + LTrimChar(path, '/')
        else ""
    else if Contains(url, env.uploadBaseUrl) then ReplaceAll(url, env.uploadBaseUrl, env.uploadBaseDir)
    else if StartsWith(url, "/") then env.absPath + LTrimChar(url, '/')
    else if Contains(url, "wp-content/uploads") then env.absPath + LTrimChar(url, '/')
    else ""
  }

  /** The data URI for a readable image file; None when the file is missing, unreadable or not an image. */
  function Inline(filePath: string, env: Env): (r: Option<string>)
    ensures r.Some? <==>
              !PhpEmpty(filePath) && env.isReadable(filePath)
              && env.readFile(filePath).Some? && env.imageMime(filePath).Some?
    ensures r.Some? ==>
              r.value == "data:" + env.imageMime(filePath).value + ";base64," + env.base64(env.readFile(filePath).value)
    ensures r.Some? ==> StartsWith(r.value, "data:")
  {
    if !PhpEmpty(filePath) && env.isReadable(filePath) then
      match env.readFile(filePath)
      case None => None
      case Some(data) =>
        match env.imageMime(filePath)
        case None => None
        case Some(mime) =>
          var uri := "data:" + mime + ";base64," + env.base64(data);
          assert uri[..5] == "data:";
          Some(uri)
    else None
  }

  /** The URL the routine falls back to when nothing could be inlined. */
  function FallbackUrl(url: string, env: Env): (r: string)
    ensures StartsWith(url, "/") ==> r == env.homeUrl(url)
  {
    if IsHttpUrl(url) then
      assert url[0] == 'h';
      url
    else if StartsWith(url, "/") then env.homeUrl(url)
    else if !StartsWith(url, "http") then env.homeUrl("/" + LTrimChar(url, '/'))
    else url
  }

  /**
   * The embeddable form of `url`. Empty input gives ''; a data URI passes through; a
   * readable local image is inlined as a data URI; otherwise an http(s) URL is kept and
   * anything else becomes a site URL through `home_url`.
   */
  function ResolveImage(url: string, env: Env): (r: string)
    ensures PhpEmpty(url) ==> r == ""
    ensures StartsWith(url, "data:") ==> r == url
    ensures !PhpEmpty(url) && !StartsWith(url, "data:") && Inline(LocalPath(url, env), env).Some? ==>
              r == Inline(LocalPath(url, env), env).value
    ensures Inline(LocalPath(url, env), env).None? && IsHttpUrl(url) ==> r == url
    ensures Inline(LocalPath(url, env), env).None? && StartsWith(url, "/") ==> r == env.homeUrl(url)
    ensures r == "" || r == url || StartsWith(r, "data:")
            || r == env.homeUrl(url) || r == env.homeUrl("/" + LTrimChar(url, '/'))
  {
    if PhpEmpty(url) then
      assert url == [] || url[0] == '0';
      ""
    else if StartsWith(url, "data:") then
      assert url[0] == "data:"[0];
      url
    else
      match Inline(LocalPath(url, env), env)
      case Some(uri) => uri
      case None => FallbackUrl(url, env)
  }

  /**
   * Resolving again changes nothing when the first pass returned '', the input itself or
   * a data URI; only a `home_url` rewrite may resolve differently a second time.
   */
  lemma ResolveIdempotent(url: string, env: Env)
    ensures var r := ResolveImage(url, env);
            (r == "" || r == url || StartsWith(r, "data:")) ==> ResolveImage(r, env) == r
  {
  }

  /**
   * A relative path that names no readable file is not dropped: it becomes a site URL
   * (so the empty result promised for a missing file only happens for empty input).
   */
  lemma ResolveMissingRelativeFile(url: string, env: Env)
    requires !PhpEmpty(url) && !StartsWith(url, "http") && !StartsWith(url, "/") && !StartsWith(url, "data:")
    requires Inline(LocalPath(url, env), env).None?
    ensures ResolveImage(url, env) == env.homeUrl("/" + url)
  {
  }
}
