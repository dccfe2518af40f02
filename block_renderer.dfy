/**
 * `ONOC_Block_Renderer` (includes/class-block-renderer.php): turns the stored block
 * template into HTML for the PDF, substituting the placeholder map.
 *
 * The functions below say what each handler returns as a function of the placeholder
 * map, the host environment and the block; the class `BlockRenderer` keeps the map in
 * a field, as the PHP object does, and builds its strings with loops proved equal to
 * those functions.
 */
module Rendering {
  import opened Wrappers
  import opened Text
  import opened Blocks
  import opened Host
  import opened ImageResolver
  import opened Placeholders

  // ---- innerContent ----

  /** `empty(trim($s))`: after trimming, '' and '0' count as blank. */
  predicate Blank(s: string) {
    PhpEmpty(Trim(s))
  }

  /** What one entry adds to a paragraph, heading or quote: its text when it is a non-blank string. */
  function KeptText(f: Fragment): string {
    if f.Text? && !Blank(f.s) then f.s else ""
  }

  /** The non-blank string entries, concatenated in order. */
  function Collect(items: seq<Fragment>): string
    decreases |items|
  {
    if items == [] then "" else KeptText(items[0]) + Collect(items[1..])
  }

  /**
   * The text of a paragraph, heading or quote. An array contributes its non-blank
   * strings; a bare string contributes `$inner_content[0]`, its first character; any
   * other value contributes nothing.
   */
  function InnerText(ic: InnerContent): string {
    match ic
    case Fragments(items) => Collect(items)
    case Scalar(s) => if s == [] then "" else [s[0]]
    case Other => ""
  }

  lemma {:induction false} CollectAppend(a: seq<Fragment>, b: seq<Fragment>)
    ensures Collect(a + b) == Collect(a) + Collect(b)
    decreases |a|
  {
    if a == [] {
      assert a + b == b;
    } else {
      assert (a + b)[1..] == a[1..] + b;
      CollectAppend(a[1..], b);
    }
  }

  lemma CollectSnoc(items: seq<Fragment>, i: nat)
    requires i < |items|
    ensures Collect(items[..i + 1]) == Collect(items[..i]) + KeptText(items[i])
  {
    CollectAppend(items[..i], [items[i]]);
    assert items[..i + 1] == items[..i] + [items[i]];
    assert Collect([items[i]]) == KeptText(items[i]) + Collect([]);
  }

  /** Entries that are gaps or blank strings contribute nothing. */
  lemma {:induction false} CollectAllBlank(items: seq<Fragment>)
    requires forall i :: 0 <= i < |items| ==> items[i].Gap? || Blank(items[i].s)
    ensures Collect(items) == ""
    decreases |items|
  {
    if items != [] {
      CollectAllBlank(items[1..]);
    }
  }

  // ---- Attribute fragments ----

  /** `' align' . $attrs['align']`, or '' when unset. */
  function AlignPart(attrs: map<string, JsonValue>): string {
    match Attr(attrs, "align")
    case None => ""
    case Some(a) => " align" + a
  }

  /** `' ' . $attrs['className']`, or '' when unset. */
  function ClassPart(attrs: map<string, JsonValue>): string {
    match Attr(attrs, "className")
    case None => ""
    case Some(c) => " " + c
  }

  /** The class attribute of paragraphs, headings and images: `trim($align . $class)`. */
  function ClassAttr(attrs: map<string, JsonValue>): string {
    Trim(AlignPart(attrs) + ClassPart(attrs))
  }

  // ---- The handlers ----

  function ParagraphHtml(ph: PlaceholderMap, env: Env, attrs: map<string, JsonValue>, ic: InnerContent): (r: string)
    ensures StartsWith(r, "<p class=\"") && EndsWith(r, "</p>")
  {
    "<p class=\"" + env.escAttr(ClassAttr(attrs)) + "\">" + ReplacePlaceholders(ph, InnerText(ic)) + "</p>"
  }

  /** The heading level: the `level` attribute, 2 when unset. */
  function HeadingLevel(attrs: map<string, JsonValue>): string {
    Attr(attrs, "level").GetOr("2")
  }

  function HeadingHtml(ph: PlaceholderMap, env: Env, attrs: map<string, JsonValue>, ic: InnerContent): (r: string)
    ensures StartsWith(r, "<h" + HeadingLevel(attrs) + " class=\"") && EndsWith(r, "</h" + HeadingLevel(attrs) + ">")
  {
    var level := HeadingLevel(attrs);
    "<h" + level + " class=\"" + env.escAttr(ClassAttr(attrs)) + "\">"
      + ReplacePlaceholders(ph, InnerText(ic)) + ("</h" + level + ">")
  }

  /** The image tokens whose value is taken straight from the map. */
  predicate IsImageToken(url: string) {
    url == TokenOf("qr_code") || url == TokenOf("signature") || url == TokenOf("company_logo")
  }

  /** The image URL after the token lookup and, when `{{` remains, placeholder substitution. */
  function ImageUrl(ph: PlaceholderMap, attrs: map<string, JsonValue>): string {
    var raw := Attr(attrs, "url").GetOr("");
    var url := if IsImageToken(raw) then Lookup(ph, raw).GetOr("") else raw;
    if Contains(url, "{{") then ReplacePlaceholders(ph, url) else url
  }

  /** The `src` written out: data URIs and http(s) URLs as they are, anything else resolved when that gives something. */
  function ImageSource(ph: PlaceholderMap, env: Env, attrs: map<string, JsonValue>): string {
    var url := ImageUrl(ph, attrs);
    if PhpEmpty(url) || StartsWith(url, "data:") || IsHttpUrl(url) then url
    else
      var converted := ResolveImage(url, env);
      if !PhpEmpty(converted) then converted else url
  }

  /** The inline style of the `<img>`: a width and a height part, each only when that attribute is truthy. */
  function ImgStyle(env: Env, attrs: map<string, JsonValue>): string {
    (if "width" in attrs && Truthy(attrs["width"]) then "width: " + env.escAttr(ToText(attrs["width"])) + "px; " else "")
    + (if "height" in attrs && Truthy(attrs["height"]) then "height: " + env.escAttr(ToText(attrs["height"])) + "px; " else "")
  }

  function ImageHtml(ph: PlaceholderMap, env: Env, attrs: map<string, JsonValue>): (r: string)
    ensures r == "" <==> PhpEmpty(ImageSource(ph, env, attrs))
  {
    var src := ImageSource(ph, env, attrs);
    if PhpEmpty(src) then ""
    else
      var style := ImgStyle(env, attrs);
      "<figure class=\"" + env.escAttr(ClassAttr(attrs)) + "\">\n\t\t\t<img src=\"" + env.escAttr(src)
        + "\" alt=\"" + env.escAttr(Attr(attrs, "alt").GetOr("")) + "\""
        + (if style == "" then "" else " style=\"" + env.escAttr(style) + "\"")
        + " />\n\t\t</figure>"
  }

  function ColumnsOpen(env: Env, attrs: map<string, JsonValue>): string {
    "<div class=\"wp-block-columns" + env.escAttr(ClassPart(attrs)) + "\">"
  }

  /** The opening tag of a column, with `flex-basis` only when `width` is set. */
  function ColumnOpen(env: Env, attrs: map<string, JsonValue>): string {
    var width := match Attr(attrs, "width")
      case None => ""
      case Some(w) => " style=\"flex-basis: " + env.escAttr(w) + "%\"";
    "<div class=\"wp-block-column" + env.escAttr(ClassPart(attrs)) + "\"" + width + ">"
  }

  function SpacerHtml(env: Env, attrs: map<string, JsonValue>): (r: string)
    ensures StartsWith(r, "<div class=\"wp-block-spacer\" style=\"height: ") && EndsWith(r, "px;\"></div>")
  {
    "<div class=\"wp-block-spacer\" style=\"height: " + env.escAttr(Attr(attrs, "height").GetOr("100")) + "px;\"></div>"
  }

  /** `ol` when `ordered` is set and truthy, `ul` otherwise. */
  function ListTag(attrs: map<string, JsonValue>): string {
    if "ordered" in attrs && Truthy(attrs["ordered"]) then "ol" else "ul"
  }

  /** One `<li>` per non-blank string entry, in order, each with the placeholders substituted. */
  function ListItems(ph: PlaceholderMap, items: seq<Fragment>): string
    decreases |items|
  {
    if items == [] then ""
    else
      (if items[0].Text? && !Blank(items[0].s) then "<li>" + ReplacePlaceholders(ph, items[0].s) + "</li>" else "")
      + ListItems(ph, items[1..])
  }

  function ListHtml(ph: PlaceholderMap, env: Env, attrs: map<string, JsonValue>, ic: InnerContent): (r: string)
    ensures StartsWith(r, "<" + ListTag(attrs) + " class=\"wp-block-list") && EndsWith(r, "</" + ListTag(attrs) + ">")
  {
    var tag := ListTag(attrs);
    var items := if ic.Fragments? then ListItems(ph, ic.items) else "";
    "<" + tag + " class=\"wp-block-list" + env.escAttr(ClassPart(attrs)) + "\">" + items + ("</" + tag + ">")
  }

  function QuoteHtml(ph: PlaceholderMap, env: Env, attrs: map<string, JsonValue>, ic: InnerContent): (r: string)
    ensures StartsWith(r, "<blockquote class=\"wp-block-quote") && EndsWith(r, "</blockquote>")
  {
    "<blockquote class=\"wp-block-quote" + env.escAttr(ClassPart(attrs)) + "\">"
      + ReplacePlaceholders(ph, InnerText(ic)) + "</blockquote>"
  }

  const SeparatorHtml := "<hr class=\"wp-block-separator\" />"

  // ---- Dispatch ----

  /** The handlers that do not recurse into child blocks, and the default branch. */
  function LeafHtml(ph: PlaceholderMap, env: Env, b: Block, n: string): string {
    if n == ParagraphName then ParagraphHtml(ph, env, b.attrs, b.innerContent)
    else if n == HeadingName then HeadingHtml(ph, env, b.attrs, b.innerContent)
    else if n == ImageName then ImageHtml(ph, env, b.attrs)
    else if n == SpacerName then SpacerHtml(env, b.attrs)
    else if n == ListName then ListHtml(ph, env, b.attrs, b.innerContent)
    else if n == QuoteName then QuoteHtml(ph, env, b.attrs, b.innerContent)
    else if n == SeparatorName then SeparatorHtml
    else if env.coreRenderAvailable then ReplacePlaceholders(ph, env.coreRender(b))
    else ""
  }

  /** `render_block`: dispatch on the block name; a block without one renders as ''. */
  function BlockHtml(ph: PlaceholderMap, env: Env, b: Block): (r: string)
    ensures b.name.None? ==> r == ""
    decreases b
  {
    match b.name
    case None => ""
    case Some(n) =>
      if n == ColumnsName then ColumnsOpen(env, b.attrs) + BlocksHtml(ph, env, b.innerBlocks) + "</div>"
      else if n == ColumnName then ColumnOpen(env, b.attrs) + BlocksHtml(ph, env, b.innerBlocks) + "</div>"
      else LeafHtml(ph, env, b, n)
  }

  /** The blocks rendered one after another. */
  function BlocksHtml(ph: PlaceholderMap, env: Env, bs: seq<Block>): (r: string)
    ensures (forall i :: 0 <= i < |bs| ==> bs[i].name.None?) ==> r == ""
    decreases bs
  {
    if bs == [] then "" else BlockHtml(ph, env, bs[0]) + BlocksHtml(ph, env, bs[1..])
  }

  /** `render_blocks` on the stored JSON: '' when empty or when it does not decode to an array. */
  function TemplateHtml(ph: PlaceholderMap, env: Env, json: string): (r: string)
    ensures PhpEmpty(json) || env.jsonDecode(json).None? ==> r == ""
  {
    if PhpEmpty(json) then ""
    else
      match env.jsonDecode(json)
      case None => ""
      case Some(bs) => BlocksHtml(ph, env, bs)
  }

  // ---- Properties ----

  /** Rendering a list of blocks is rendering its parts and concatenating. */
  lemma {:induction false} BlocksHtmlAppend(ph: PlaceholderMap, env: Env, a: seq<Block>, b: seq<Block>)
    ensures BlocksHtml(ph, env, a + b) == BlocksHtml(ph, env, a) + BlocksHtml(ph, env, b)
    decreases |a|
  {
    if a == [] {
      assert a + b == b;
    } else {
      assert (a + b)[1..] == a[1..] + b;
      BlocksHtmlAppend(ph, env, a[1..], b);
    }
  }

  lemma BlocksHtmlSnoc(ph: PlaceholderMap, env: Env, bs: seq<Block>, i: nat)
    requires i < |bs|
    ensures BlocksHtml(ph, env, bs[..i + 1]) == BlocksHtml(ph, env, bs[..i]) + BlockHtml(ph, env, bs[i])
  {
    BlocksHtmlAppend(ph, env, bs[..i], [bs[i]]);
    assert bs[..i + 1] == bs[..i] + [bs[i]];
    assert BlocksHtml(ph, env, [bs[i]]) == BlockHtml(ph, env, bs[i]) + BlocksHtml(ph, env, []);
  }

  /** A block without `blockName` adds nothing and leaves its siblings as they were. */
  lemma NamelessBlockIsSkipped(ph: PlaceholderMap, env: Env, before: seq<Block>, b: Block, after: seq<Block>)
    requires b.name.None?
    ensures BlocksHtml(ph, env, before + [b] + after) == BlocksHtml(ph, env, before) + BlocksHtml(ph, env, after)
  {
    var rest := [b] + after;
    assert before + [b] + after == before + rest;
    BlocksHtmlAppend(ph, env, before, rest);
    assert rest[0] == b && rest[1..] == after;
    assert BlockHtml(ph, env, b) == "";
    EmptyConcat(BlocksHtml(ph, env, after));
  }

  /** Columns and column containers wrap their children's concatenated output. */
  lemma ContainersConcatenate(ph: PlaceholderMap, env: Env, b: Block, split: nat)
    requires b.name == Some(ColumnsName) || b.name == Some(ColumnName)
    requires split <= |b.innerBlocks|
    ensures var open := if b.name == Some(ColumnsName) then ColumnsOpen(env, b.attrs) else ColumnOpen(env, b.attrs);
            BlockHtml(ph, env, b)
              == open + BlocksHtml(ph, env, b.innerBlocks[..split]) + BlocksHtml(ph, env, b.innerBlocks[split..]) + "</div>"
  {
    var open := if b.name == Some(ColumnsName) then ColumnsOpen(env, b.attrs) else ColumnOpen(env, b.attrs);
    var front, back := b.innerBlocks[..split], b.innerBlocks[split..];
    assert front + back == b.innerBlocks;
    BlocksHtmlAppend(ph, env, front, back);
    assert BlockHtml(ph, env, b) == open + BlocksHtml(ph, env, b.innerBlocks) + "</div>";
    ConcatAssoc(open, BlocksHtml(ph, env, front), BlocksHtml(ph, env, back));
  }

  // Steps of ParagraphExample, kept apart so that each step's string literals stay out of the others' proofs.

  lemma HelloCollected()
    ensures InnerText(Fragments([Text("Hello {{full_name}}")])) == "Hello {{full_name}}"
  {
    assert TrimLeft("Hello {{full_name}}") == "Hello {{full_name}}";
    assert TrimRight("Hello {{full_name}}") == "Hello {{full_name}}";
    assert Collect([Text("Hello {{full_name}}")]) == "Hello {{full_name}}" + Collect([]);
  }

  lemma HelloPieces()
    ensures WellFormed([Lit("Hello "), Tok("full_name")])
    ensures Flatten([Lit("Hello "), Tok("full_name")]) == "Hello {{full_name}}"
  {
    var ps := [Lit("Hello "), Tok("full_name")];
    assert PieceOk(ps[0]) && PieceOk(ps[1]);
    assert Flatten(ps[2..]) == "";
    assert Flatten(ps[1..]) == "{{full_name}}" + "";
    assert Flatten(ps) == "Hello " + "{{full_name}}";
  }

  lemma HelloExpanded(ph: PlaceholderMap)
    requires Lookup(ph, TokenOf("full_name")) == Some("Jane Doe")
    ensures Expand([Lit("Hello "), Tok("full_name")], ph) == "Hello Jane Doe"
  {
    assert Expand([Lit("Hello "), Tok("full_name")], ph) == "Hello " + ("Jane Doe" + Expand([], ph));
  }

  lemma HelloSubstituted(ph: PlaceholderMap)
    requires KeysAreTokens(ph) && ValuesBraceFree(ph)
    requires Lookup(ph, TokenOf("full_name")) == Some("Jane Doe")
    ensures ReplacePlaceholders(ph, "Hello {{full_name}}") == "Hello Jane Doe"
  {
    HelloPieces();
    SequentialIsSimultaneous([Lit("Hello "), Tok("full_name")], ph);
    HelloExpanded(ph);
    assert ph != [];
  }

  /** `Hello {{full_name}}` with full_name = Jane Doe renders as `<p class="">Hello Jane Doe</p>`. */
  lemma ParagraphExample(ph: PlaceholderMap, env: Env)
    requires KeysAreTokens(ph) && ValuesBraceFree(ph)
    requires Lookup(ph, TokenOf("full_name")) == Some("Jane Doe")
    requires env.escAttr("") == ""
    ensures ParagraphHtml(ph, env, map[], Fragments([Text("Hello {{full_name}}")])) == "<p class=\"\">Hello Jane Doe</p>"
  {
    HelloCollected();
    HelloSubstituted(ph);
    assert AlignPart(map[]) + ClassPart(map[]) == "";
    ParagraphLiteral();
  }

  lemma ParagraphLiteral()
    ensures "<p class=\"" + "" + "\">" + "Hello Jane Doe" + "</p>" == "<p class=\"\">Hello Jane Doe</p>"
  {
  }

  /** The heading's opening and closing tags carry the same level, 2 when unset. */
  lemma HeadingTagsMatch(ph: PlaceholderMap, env: Env, attrs: map<string, JsonValue>, ic: InnerContent)
    ensures var html := HeadingHtml(ph, env, attrs, ic);
            var level := if "level" in attrs then ToText(attrs["level"]) else "2";
            StartsWith(html, "<h" + level + " class=\"") && EndsWith(html, "</h" + level + ">")
  {
    var level := HeadingLevel(attrs);
    var open := "<h" + level + " class=\"";
    var s1 := open + env.escAttr(ClassAttr(attrs));
    var s2 := s1 + "\">";
    var s3 := s2 + ReplacePlaceholders(ph, InnerText(ic));
    ConcatStartsWith(open, env.escAttr(ClassAttr(attrs)));
    StartsWithExtend(s1, open, "\">");
    StartsWithExtend(s2, open, ReplacePlaceholders(ph, InnerText(ic)));
    StartsWithExtend(s3, open, "</h" + level + ">");
    ConcatEndsWith(s3, "</h" + level + ">");
  }

  /** A spacer without a height renders exactly the 100px default. */
  lemma SpacerDefault(env: Env, attrs: map<string, JsonValue>)
    requires "height" !in attrs && env.escAttr("100") == "100"
    ensures SpacerHtml(env, attrs) == "<div class=\"wp-block-spacer\" style=\"height: 100px;\"></div>"
  {
  }

  /** A list opens and closes with `ol` exactly when `ordered` is truthy, and with `ul` otherwise. */
  lemma ListTagChoice(ph: PlaceholderMap, env: Env, attrs: map<string, JsonValue>, ic: InnerContent)
    ensures var html := ListHtml(ph, env, attrs, ic);
            var ordered := "ordered" in attrs && Truthy(attrs["ordered"]);
            (StartsWith(html, "<ol ") <==> ordered) && (StartsWith(html, "<ul ") <==> !ordered)
            && EndsWith(html, if ordered then "</ol>" else "</ul>")
  {
    var tag := ListTag(attrs);
    var items := if ic.Fragments? then ListItems(ph, ic.items) else "";
    var open := "<" + tag + " ";
    var s1 := "<" + tag + " class=\"wp-block-list";
    var s2 := s1 + env.escAttr(ClassPart(attrs));
    var s3 := s2 + "\">";
    var s4 := s3 + items;
    ListOpenPrefix(tag);
    StartsWithExtend(s1, open, env.escAttr(ClassPart(attrs)));
    StartsWithExtend(s2, open, "\">");
    StartsWithExtend(s3, open, items);
    StartsWithExtend(s4, open, "</" + tag + ">");
    ConcatEndsWith(s4, "</" + tag + ">");
    ListTagPrefix(tag, s4 + ("</" + tag + ">"));
  }

  lemma ListOpenPrefix(tag: string)
    requires |tag| == 2
    ensures StartsWith("<" + tag + " class=\"wp-block-list", "<" + tag + " ")
  {
    assert ("<" + tag + " class=\"wp-block-list")[..4] == "<" + tag + " ";
  }

  lemma ListTagPrefix(tag: string, html: string)
    requires tag == "ol" || tag == "ul"
    requires StartsWith(html, "<" + tag + " ")
    ensures StartsWith(html, "<ol ") <==> tag == "ol"
    ensures StartsWith(html, "<ul ") <==> tag == "ul"
  {
    assert html[1] == tag[0];
  }

  lemma {:induction false} ListItemsAppend(ph: PlaceholderMap, a: seq<Fragment>, b: seq<Fragment>)
    ensures ListItems(ph, a + b) == ListItems(ph, a) + ListItems(ph, b)
    decreases |a|
  {
    if a == [] {
      assert a + b == b;
    } else {
      assert (a + b)[1..] == a[1..] + b;
      ListItemsAppend(ph, a[1..], b);
    }
  }

  lemma ListItemsSnoc(ph: PlaceholderMap, items: seq<Fragment>, i: nat)
    requires i < |items|
    ensures ListItems(ph, items[..i + 1]) == ListItems(ph, items[..i]) + ListItems(ph, [items[i]])
  {
    ListItemsAppend(ph, items[..i], [items[i]]);
    assert items[..i + 1] == items[..i] + [items[i]];
  }

  /** A single entry gives one `<li>` with its substituted text when non-blank, and nothing otherwise. */
  lemma ListItemOne(ph: PlaceholderMap, f: Fragment)
    ensures f.Text? && !Blank(f.s) ==> ListItems(ph, [f]) == "<li>" + ReplacePlaceholders(ph, f.s) + "</li>"
    ensures !(f.Text? && !Blank(f.s)) ==> ListItems(ph, [f]) == ""
  {
    assert ListItems(ph, [f]) == (if f.Text? && !Blank(f.s) then "<li>" + ReplacePlaceholders(ph, f.s) + "</li>" else "") + ListItems(ph, []);
  }

  /** An image whose url is one of the three image tokens shows the map's value for it. */
  lemma ImageTokenTakesMapValue(ph: PlaceholderMap, env: Env, attrs: map<string, JsonValue>, token: string, value: string)
    requires IsImageToken(token) && "url" in attrs && attrs["url"] == JStr(token)
    requires Lookup(ph, token) == Some(value) && !Contains(value, "{{")
    requires StartsWith(value, "data:") || IsHttpUrl(value)
    ensures ImageSource(ph, env, attrs) == value
  {
    assert !PhpEmpty(value) by {
      assert |value| >= 5;
    }
  }

  /** An image token the map does not define leaves the image out altogether. */
  lemma ImageTokenMissing(ph: PlaceholderMap, env: Env, attrs: map<string, JsonValue>, token: string)
    requires IsImageToken(token) && "url" in attrs && attrs["url"] == JStr(token)
    requires Lookup(ph, token).None?
    ensures ImageHtml(ph, env, attrs) == ""
  {
    assert !Contains("", "{{");
  }

  /** No url after substitution, no output. */
  lemma ImageEmptyUrl(ph: PlaceholderMap, env: Env, attrs: map<string, JsonValue>)
    requires PhpEmpty(ImageUrl(ph, attrs))
    ensures ImageHtml(ph, env, attrs) == ""
  {
  }

  /** The `style` attribute of the `<img>` is present exactly when width or height is truthy. */
  lemma ImageStyleWhenSized(env: Env, attrs: map<string, JsonValue>)
    ensures ImgStyle(env, attrs) != "" <==> ("width" in attrs && Truthy(attrs["width"])) || ("height" in attrs && Truthy(attrs["height"]))
  {
  }

  // ---- The renderer object ----

  class BlockRenderer {
    /** `$this->placeholders`. */
    var placeholders: PlaceholderMap
    /** The WordPress installation the renderer runs in. */
    const env: Env

    constructor(env: Env)
      ensures this.env == env && placeholders == []
    {
      this.env := env;
      placeholders := [];
    }

    /** `set_placeholders`: replaces the whole map with the one built from the request and the options. */
    method SetPlaceholders(data: RequestData, opts: Options)
      modifies this
      ensures placeholders == BuildPlaceholders(data, opts, env)
    {
      placeholders := BuildPlaceholders(data, opts, env);
    }

    /** `render_blocks` on the stored template. */
    method RenderBlocks(json: string) returns (html: string)
      ensures html == TemplateHtml(placeholders, env, json)
    {
      if PhpEmpty(json) {
        return "";
      }
      var decoded := env.jsonDecode(json);
      if decoded.None? {
        return "";
      }
      html := RenderSequence(decoded.value);
    }

    /** The `foreach … .= render_block(…)` loop shared by `render_blocks`, `render_columns` and `render_column`. */
    method RenderSequence(bs: seq<Block>) returns (html: string)
      ensures html == BlocksHtml(placeholders, env, bs)
      decreases bs, 0
    {
      html := "";
      var i := 0;
      while i < |bs|
        invariant 0 <= i <= |bs|
        invariant html == BlocksHtml(placeholders, env, bs[..i])
      {
        var one := RenderBlock(bs[i]);
        BlocksHtmlSnoc(placeholders, env, bs, i);
        html := html + one;
        i := i + 1;
      }
      assert bs[..|bs|] == bs;
    }

    /** `render_block`. */
    method RenderBlock(b: Block) returns (html: string)
      ensures html == BlockHtml(placeholders, env, b)
      decreases b, 2
    {
      if b.name.None? {
        return "";
      }
      var n := b.name.value;
      if n == ParagraphName {
        var content := CollectContent(b.innerContent);
        html := "<p class=\"" + env.escAttr(ClassAttr(b.attrs)) + "\">" + ReplacePlaceholders(placeholders, content) + "</p>";
      } else if n == HeadingName {
        var content := CollectContent(b.innerContent);
        var level := HeadingLevel(b.attrs);
        html := "<h" + level + " class=\"" + env.escAttr(ClassAttr(b.attrs)) + "\">"
          + ReplacePlaceholders(placeholders, content) + ("</h" + level + ">");
      } else if n == ImageName {
        html := ImageHtml(placeholders, env, b.attrs);
      } else if n == ColumnsName {
        html := RenderColumns(b.attrs, b.innerBlocks);
      } else if n == ColumnName {
        html := RenderColumn(b.attrs, b.innerBlocks);
      } else if n == SpacerName {
        html := SpacerHtml(env, b.attrs);
      } else if n == ListName {
        html := RenderList(b.attrs, b.innerContent);
      } else if n == QuoteName {
        var content := CollectContent(b.innerContent);
        html := "<blockquote class=\"wp-block-quote" + env.escAttr(ClassPart(b.attrs)) + "\">"
          + ReplacePlaceholders(placeholders, content) + "</blockquote>";
      } else if n == SeparatorName {
        html := SeparatorHtml;
      } else if env.coreRenderAvailable {
        html := ReplacePlaceholders(placeholders, env.coreRender(b));
      } else {
        html := "";
      }
    }

    method RenderColumns(attrs: map<string, JsonValue>, kids: seq<Block>) returns (html: string)
      ensures html == ColumnsOpen(env, attrs) + BlocksHtml(placeholders, env, kids) + "</div>"
      decreases kids, 1
    {
      html := ColumnsOpen(env, attrs);
      var inner := RenderSequence(kids);
      html := html + inner + "</div>";
    }

    method RenderColumn(attrs: map<string, JsonValue>, kids: seq<Block>) returns (html: string)
      ensures html == ColumnOpen(env, attrs) + BlocksHtml(placeholders, env, kids) + "</div>"
      decreases kids, 1
    {
      html := ColumnOpen(env, attrs);
      var inner := RenderSequence(kids);
      html := html + inner + "</div>";
    }

    /** The content loop of the paragraph, heading and quote handlers. */
    method CollectContent(ic: InnerContent) returns (content: string)
      ensures content == InnerText(ic)
    {
      match ic
      case Fragments(items) =>
        content := "";
        var i := 0;
        while i < |items|
          invariant 0 <= i <= |items|
          invariant content == Collect(items[..i])
        {
          CollectSnoc(items, i);
          if items[i].Text? && !Blank(items[i].s) {
            content := content + items[i].s;
          }
          i := i + 1;
        }
        assert items[..|items|] == items;
      case Scalar(s) =>
        content := if s == [] then "" else [s[0]];
      case Other =>
        content := "";
    }

    /** `render_list`. */
    method RenderList(attrs: map<string, JsonValue>, ic: InnerContent) returns (html: string)
      ensures html == ListHtml(placeholders, env, attrs, ic)
    {
      var ordered := "ordered" in attrs && Truthy(attrs["ordered"]);
      var tag := if ordered then "ol" else "ul";
      html := "<" + tag + " class=\"wp-block-list" + env.escAttr(ClassPart(attrs)) + "\">";
      var items := if ic.Fragments? then ic.items else [];
      var body := "";
      var i := 0;
      while i < |items|
        invariant 0 <= i <= |items|
        invariant body == ListItems(placeholders, items[..i])
      {
        ListItemsSnoc(placeholders, items, i);
        ListItemOne(placeholders, items[i]);
        if items[i].Text? && !Blank(items[i].s) {
          body := body + "<li>" + ReplacePlaceholders(placeholders, items[i].s) + "</li>";
        }
        i := i + 1;
      }
      assert items[..|items|] == items;
      assert ic.Fragments? || ListItems(placeholders, []) == "";
      html := html + body + ("</" + tag + ">");
    }
  }
}
