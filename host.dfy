/**
 * Everything the plugin calls but does not define: WordPress escaping and sanitising,
 * URLs, the filesystem, JSON, the date library, the QR encoder and Dompdf. Each is a
 * field of `Env`; the model fixes none of their behaviour beyond what the plugin's own
 * code decides around them.
 */
module Host {
  import opened Wrappers
  import opened Text
  import opened Dates
  import opened Blocks

  datatype Env = Env(
    // escaping and sanitising
    escHtml: string -> string,            // esc_html
    escAttr: string -> string,            // esc_attr
    sanitizeText: string -> string,       // sanitize_text_field
    sanitizeTextarea: string -> string,   // sanitize_textarea_field
    sanitizeEmail: string -> string,      // sanitize_email
    sanitizeFileName: string -> string,   // sanitize_file_name
    escUrlRaw: string -> string,          // esc_url_raw
    escLike: string -> string,            // $wpdb->esc_like
    unslash: string -> string,            // wp_unslash
    isEmail: string -> bool,              // is_email
    md5: string -> string,                // md5
    rawUrlEncode: string -> string,       // rawurlencode
    // URLs and the upload tree
    homeUrl: string -> string,            // home_url
    uploadBaseUrl: string,                // wp_upload_dir()['baseurl']
    uploadBaseDir: string,                // wp_upload_dir()['basedir']
    absPath: string,                      // ABSPATH
    urlPath: string -> string,            // parse_url($url)['path'] ?? ''
    // filesystem
    isFile: string -> bool,               // file_exists && is_file
    isReadable: string -> bool,           // file_exists && is_readable
    readFile: string -> Option<string>,   // file_get_contents (None for false)
    imageMime: string -> Option<string>,  // getimagesize()['mime'] (None for false)
    base64: string -> string,             // base64_encode
    // JSON
    jsonDecode: string -> Option<seq<Block>>,  // json_decode($s, true), None unless an array
    jsonValid: string -> bool,                 // json_last_error() === JSON_ERROR_NONE
    jsonEncode: seq<Block> -> string,          // wp_json_encode
    // WordPress's own block renderer, used for unknown block names
    coreRenderAvailable: bool,            // function_exists('render_block')
    coreRender: Block -> string,          // render_block
    // dates
    strToTime: string -> Option<int>,     // strtotime on anything but YYYY-MM-DD, as a day number
    dateTimeDay: string -> int,           // new DateTime($s) on anything but YYYY-MM-DD, as a day number
    dateI18n: (string, int) -> string,    // date_i18n($format, $day)
    today: int,                           // the current day number
    // PDF and QR libraries
    qrAvailable: bool,                    // class_exists('Endroid\QrCode\QrCode')
    qrEncode: string -> Option<string>,   // QR data URI, None when the library throws
    dompdfAvailable: bool,                // class_exists('Dompdf\Dompdf')
    dompdfRender: string -> Option<string>  // PDF bytes, None when Dompdf throws
  )

  /** The option store (`wp_options`): option name to stored value. */
  type Options = map<string, string>

  /** `get_option($key, '')`. */
  function GetOption(opts: Options, key: string): string {
    if key in opts then opts[key] else ""
  }

  /**
   * `strtotime($s)` as a day number: PHP's reading of `YYYY-MM-DD` (month 00 and day 00
   * included), the library's for anything else.
   */
  function StrToDay(s: string, env: Env): Option<int> {
    if IsIsoShape(s) then ParseIsoDay(s) else env.strToTime(s)
  }

  /** `new DateTime($s)` as a day number. */
  function DateTimeDay(s: string, env: Env): int {
    match ParseIsoDay(s)
    case Some(d) => d
    case None => env.dateTimeDay(s)
  }
}
