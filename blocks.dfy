/**
 * The block tree of a PDF template, as `json_decode($json, true)` hands it to the
 * renderer: each block is an associative array with the optional keys `blockName`,
 * `attrs`, `innerBlocks` and `innerContent`.
 */
module Blocks {
  import opened Wrappers
  import opened Text

  /** A scalar attribute value (a JSON null counts as absent, as `isset` sees it). */
  datatype JsonValue = JStr(s: string) | JInt(n: int) | JBool(b: bool)

  /** PHP's conversion of an attribute value to a string (`'x' . $v`): true is "1", false is "". */
  function ToText(v: JsonValue): string {
    match v
    case JStr(s) => s
    case JInt(n) => IntToString(n)
    case JBool(b) => if b then "1" else ""
  }

  /** PHP truthiness of an attribute value (`if ($v)`). */
  predicate Truthy(v: JsonValue) {
    match v
    case JStr(s) => !PhpEmpty(s)
    case JInt(n) => n != 0
    case JBool(b) => b
  }

  /** One `innerContent` entry: literal markup, or a null gap where a child block goes. */
  datatype Fragment = Text(s: string) | Gap

  /**
   * The `innerContent` value: normally a JSON array of fragments (absent means the
   * empty array); a JSON string or another scalar is kept apart because the
   * handlers treat it differently.
   */
  datatype InnerContent = Fragments(items: seq<Fragment>) | Scalar(s: string) | Other

  datatype Block = Block(
    name: Option<string>,
    attrs: map<string, JsonValue>,
    innerBlocks: seq<Block>,
    innerContent: InnerContent)

  /** `isset($attrs[key]) ? (string) $attrs[key] : null`. */
  function Attr(attrs: map<string, JsonValue>, key: string): Option<string> {
    if key in attrs then Some(ToText(attrs[key])) else None
  }

  const ParagraphName := "core/paragraph"
  const HeadingName := "core/heading"
  const ImageName := "core/image"
  const ColumnsName := "core/columns"
  const ColumnName := "core/column"
  const SpacerName := "core/spacer"
  const ListName := "core/list"
  const QuoteName := "core/quote"
  const SeparatorName := "core/separator"

  /** The block names the renderer handles itself; any other name takes the default branch. */
  predicate IsKnownName(n: string) {
    n in {ParagraphName, HeadingName, ImageName, ColumnsName, ColumnName,
          SpacerName, ListName, QuoteName, SeparatorName}
  }
}
