/**
 * `ONOC_Template_Helper` (includes/class-template-helper.php): the letter template the
 * plugin installs when none is stored, and its installation in the option store.
 *
 * Each paragraph of the letter is written as literal runs and `{{name}}` tokens
 * (`Piece`s), cut at sentence boundaries; the block holds the text they spell.
 */
module Templates {
  import opened Wrappers
  import opened Text
  import opened Blocks
  import opened Host
  import opened Placeholders
  import opened Rendering
  import opened Store

  // ---- The letter's paragraphs ----

  const DateLine: seq<Piece> := [
    Lit("<strong>Date:</strong> "), Tok("issue_date")
  ]

  const Salutation: seq<Piece> := [
    Lit("To whom it may concern")
  ]

  const SubjectLine: seq<Piece> := [
    Lit("<strong>"), Lit("Subject:</strong> "), Lit("Regarding No Objection "),
    Lit("Letter for "), Tok("full_name")
  ]

  const EmployeeIdentity: seq<Piece> := [
    Lit("This letter is to "), Lit("confirm that <strong>"), Tok("full_name"),
    Lit("</strong> (Employee ID: "), Lit("<strong>"), Tok("employee_id"), Lit("</strong>) ")
  ]

  const EmployeeBasis: seq<Piece> := [
    Lit("is an employee with our "), Lit("company on a full-time "), Lit("basis. ")
  ]

  const EmployeeTenure: seq<Piece> := [
    Lit("He has been with "), Tok("company_name"), Lit(" since "), Tok("joining_date"),
    Lit(". ")
  ]

  const EmployeeRole: seq<Piece> := [
    Lit("He is currently working "), Lit("as <strong>"), Tok("position"),
    Lit("</strong> at the "), Lit("<strong>"), Tok("department"),
    Lit("</strong> Department of "), Tok("company_name"), Lit(".")
  ]

  const Employment: seq<Piece> := EmployeeIdentity + EmployeeBasis + EmployeeTenure + EmployeeRole

  const VisitInterest: seq<Piece> := [
    Lit("Mr./Ms. "), Tok("full_name"), Lit(" has expressed interest "),
    Lit("in visiting <strong>"), Tok("visiting_country"), Lit("</strong>, for "),
    Tok("purpose"), Lit(". ")
  ]

  const VisitConsent: seq<Piece> := [
    Lit("Our organization has no "), Lit("objection regarding "), Lit("his/her visit to "),
    Tok("visiting_country"), Lit(", ")
  ]

  const VisitLength: seq<Piece> := [
    Lit("for <strong>"), Tok("number_of_days"), Lit("</strong> days. ")
  ]

  const VisitLeave: seq<Piece> := [
    Lit("His/her leave for that "), Lit("trip has been "), Lit("sanctioned from <strong>"),
    Tok("leave_start"), Lit("</strong> to <strong>"), Tok("leave_end"), Lit("</strong>. ")
  ]

  const VisitReturn: seq<Piece> := [
    Lit("On the expiry of "), Lit("consent, he/she will "), Lit("report for duty as soon "),
    Lit("as he/she returns.")
  ]

  const Visit: seq<Piece> := VisitInterest + VisitConsent + VisitLength + VisitLeave + VisitReturn

  const Closing: seq<Piece> := [
    Lit("Please feel free to "), Lit("contact me if your "), Lit("office should require "),
    Lit("any further information.")
  ]

  const SignatoryLines: seq<Piece> := [
    Tok("hr_name"), Lit("<br/>"), Tok("hr_title"), Lit("<br/>"), Tok("company_name"),
    Lit("<br/>"), Tok("company_address"), Lit("<br/>")
  ]

  const ContactLines: seq<Piece> := [
    Lit("Email: "), Tok("company_email"), Lit("<br/>Phone: "), Tok("company_phone"),
    Lit("</br>Reference ID: "), Lit("<strong>"), Tok("reference_id"), Lit("</strong>")
  ]

  const SignOff: seq<Piece> := SignatoryLines + ContactLines

  /** The seven paragraphs, in the order the letter shows them. */
  const LetterParagraphs: seq<seq<Piece>> := [DateLine, Salutation, SubjectLine, Employment, Visit, Closing, SignOff]

  // ---- The blocks ----

  /** A paragraph block as the helper writes it: no attributes, one string of markup. */
  function ParagraphBlock(ps: seq<Piece>): Block {
    Block(Some(ParagraphName), map[], [], Fragments([Text(Flatten(ps))]))
  }

  /** A spacer block: only the `height` attribute, no `innerContent`. */
  function SpacerBlock(height: int): Block {
    Block(Some(SpacerName), map["height" := JInt(height)], [], Fragments([]))
  }

  /** An image block whose url is the token `{{name}}`. */
  function ImageBlock(name: string, alt: string, align: string, width: int, height: int): Block {
    Block(Some(ImageName),
      map["url" := JStr(TokenOf(name)), "alt" := JStr(alt), "align" := JStr(align),
          "width" := JInt(width), "height" := JInt(height)],
      [], Fragments([]))
  }

  /**
   * The layout of the letter around its seven paragraphs: a spacer after each of the
   * first six, the signature image before the last and the QR code after it.
   */
  function LetterTemplate(paras: seq<seq<Piece>>): (r: seq<Block>)
    requires |paras| == 7
  {
    [ ParagraphBlock(paras[0]), SpacerBlock(10),
      ParagraphBlock(paras[1]), SpacerBlock(10),
      ParagraphBlock(paras[2]), SpacerBlock(10),
      ParagraphBlock(paras[3]), SpacerBlock(8),
      ParagraphBlock(paras[4]), SpacerBlock(8),
      ParagraphBlock(paras[5]), SpacerBlock(20),
      ImageBlock("signature", "HR Signature", "left", 100, 50),
      ParagraphBlock(paras[6]),
      ImageBlock("qr_code", "QR Code", "center", 60, 60) ]
  }

  /** `get_default_template()`: the formal letter, fifteen blocks. */
  const DefaultTemplate: seq<Block> := LetterTemplate(LetterParagraphs)

  // ---- Well-formed text ----

  /** A piece the letter may hold: brace-free, and a token only of a name the placeholder map defines. */
  predicate Known(p: Piece) {
    PieceOk(p) && (p.Tok? ==> p.name in TokenNames)
  }

  predicate Sound(ps: seq<Piece>) {
    forall i :: 0 <= i < |ps| ==> Known(ps[i])
  }

  lemma TokenKnown(n: string)
    requires n in TokenNames
    ensures Known(Tok(n))
  {
    NamesBraceFree();
    var j :| 0 <= j < |TokenNames| && TokenNames[j] == n;
    assert BraceFree(TokenNames[j]);
  }

  lemma SoundConcat(a: seq<Piece>, b: seq<Piece>)
    requires Sound(a) && Sound(b)
    ensures Sound(a + b)
  {
    forall i | 0 <= i < |a + b| ensures Known((a + b)[i]) {
      if i >= |a| { assert (a + b)[i] == b[i - |a|]; }
    }
  }

  // ---- Properties of the letter ----

  /** Where the seven paragraphs and the two images sit among the fifteen blocks. */
  const ParagraphSlots: seq<nat> := [0, 2, 4, 6, 8, 10, 13]
  const SignatureSlot := 12
  const QrSlot := 14

  /** The letter holds only blocks the renderer handles itself: paragraphs, spacers and images, none with children. */
  lemma LetterBlocksKnown(paras: seq<seq<Piece>>)
    requires |paras| == 7
    ensures var t := LetterTemplate(paras);
            |t| == 15 && forall i :: 0 <= i < |t| ==> t[i].name.Some? && IsKnownName(t[i].name.value) && t[i].innerBlocks == []
  {
  }

  /** The seven paragraphs sit at `ParagraphSlots`, in order. */
  lemma LetterParagraphSlots(paras: seq<seq<Piece>>)
    requires |paras| == 7
    ensures var t := LetterTemplate(paras);
            |t| == 15 && forall k :: 0 <= k < |ParagraphSlots| ==> t[ParagraphSlots[k]] == ParagraphBlock(paras[k])
  {
  }

  /**
   * The spacers between the paragraphs are 10, 10, 10, 8, 8 and 20 high, and the two
   * images show `{{signature}}` (left, 100 by 50) and `{{qr_code}}` (centred, 60 by 60).
   */
  lemma LetterSpacersAndImages(paras: seq<seq<Piece>>)
    requires |paras| == 7
    ensures var t := LetterTemplate(paras);
            |t| == 15
            && [t[1], t[3], t[5], t[7], t[9], t[11]]
               == [SpacerBlock(10), SpacerBlock(10), SpacerBlock(10), SpacerBlock(8), SpacerBlock(8), SpacerBlock(20)]
            && t[SignatureSlot] == ImageBlock("signature", "HR Signature", "left", 100, 50)
            && t[QrSlot] == ImageBlock("qr_code", "QR Code", "center", 60, 60)
  {
  }

  /** Every paragraph of the letter is made of brace-free literals and tokens the placeholder map defines. */
  lemma LetterParagraphsSound()
    ensures forall k :: 0 <= k < |LetterParagraphs| ==> Sound(LetterParagraphs[k])
  {
    DateLineSound();
    SalutationSound();
    SubjectLineSound();
    EmployeeIdentitySound();
    EmployeeBasisSound();
    EmployeeTenureSound();
    EmployeeRoleSound();
    SoundConcat(EmployeeIdentity, EmployeeBasis);
    SoundConcat(EmployeeIdentity + EmployeeBasis, EmployeeTenure);
    SoundConcat(EmployeeIdentity + EmployeeBasis + EmployeeTenure, EmployeeRole);
    VisitInterestSound();
    VisitConsentSound();
    VisitLengthSound();
    VisitLeaveSound();
    VisitReturnSound();
    SoundConcat(VisitInterest, VisitConsent);
    SoundConcat(VisitInterest + VisitConsent, VisitLength);
    SoundConcat(VisitInterest + VisitConsent + VisitLength, VisitLeave);
    SoundConcat(VisitInterest + VisitConsent + VisitLength + VisitLeave, VisitReturn);
    ClosingSound();
    SignatoryLinesSound();
    ContactLinesSound();
    SoundConcat(SignatoryLines, ContactLines);
  }

  /** Text whose first piece starts with neither a trim space nor '0', so `empty(trim(...))` is false. */
  predicate StartsSolid(ps: seq<Piece>) {
    |ps| > 0 && |PieceText(ps[0])| > 0 && !IsTrimSpace(PieceText(ps[0])[0]) && PieceText(ps[0])[0] != '0'
  }

  lemma LetterParagraphsStartSolid()
    ensures forall k :: 0 <= k < |LetterParagraphs| ==> StartsSolid(LetterParagraphs[k])
  {
    assert Employment[0] == EmployeeIdentity[0];
    assert Visit[0] == VisitInterest[0];
    assert SignOff[0] == SignatoryLines[0];
  }

  /** A string that starts with neither a trim space nor '0' is neither blank after trimming nor empty. */
  lemma SolidStartNotBlank(s: string)
    requires |s| > 0 && !IsTrimSpace(s[0]) && s[0] != '0'
    ensures !Blank(s) && !PhpEmpty(s)
  {
    assert TrimLeft(s) == s;
    TrimRightShape(s);
  }

  /**
   * A paragraph block of well-formed text that does not start blank renders as the
   * text with every token replaced by its value at once, whenever the map's keys are
   * tokens and its values hold no brace.
   */
  lemma ParagraphRendersExpanded(ph: PlaceholderMap, env: Env, ps: seq<Piece>)
    requires WellFormed(ps) && StartsSolid(ps)
    requires KeysAreTokens(ph) && ValuesBraceFree(ph)
    ensures BlockHtml(ph, env, ParagraphBlock(ps)) == "<p class=\"" + env.escAttr("") + "\">" + Expand(ps, ph) + "</p>"
  {
    var t := Flatten(ps);
    assert t == PieceText(ps[0]) + Flatten(ps[1..]);
    assert t[0] == PieceText(ps[0])[0];
    SolidStartNotBlank(t);
    ParagraphBlockHtml(ph, env, t);
    SubstitutedText(ph, ps);
  }

  /** The paragraph handler on a block with no attributes and one string of markup. */
  lemma ParagraphBlockHtml(ph: PlaceholderMap, env: Env, t: string)
    requires !Blank(t)
    ensures BlockHtml(ph, env, Block(Some(ParagraphName), map[], [], Fragments([Text(t)])))
            == "<p class=\"" + env.escAttr("") + "\">" + ReplacePlaceholders(ph, t) + "</p>"
  {
    var b := Block(Some(ParagraphName), map[], [], Fragments([Text(t)]));
    assert ParagraphName != ColumnsName && ParagraphName != ColumnName;
    assert BlockHtml(ph, env, b) == LeafHtml(ph, env, b, ParagraphName);
    assert LeafHtml(ph, env, b, ParagraphName) == ParagraphHtml(ph, env, map[], b.innerContent);
    assert [Text(t)][1..] == [];
    assert KeptText(Text(t)) == t;
    assert Collect([Text(t)]) == t + Collect([]);
    assert InnerText(b.innerContent) == t;
    assert ClassAttr(map[]) == "" by {
      assert AlignPart(map[]) + ClassPart(map[]) == "";
    }
  }

  /** `replace_placeholders` on well-formed text is simultaneous substitution. */
  lemma SubstitutedText(ph: PlaceholderMap, ps: seq<Piece>)
    requires WellFormed(ps) && KeysAreTokens(ph) && ValuesBraceFree(ph)
    ensures ReplacePlaceholders(ph, Flatten(ps)) == Expand(ps, ph)
  {
    if ph == [] {
      ExpandEmpty(ps);
    } else {
      SequentialIsSimultaneous(ps, ph);
    }
  }

  /** A sound text has only tokens the built map defines; with brace-free values, none survives. */
  lemma SoundExpandsFully(ps: seq<Piece>, data: RequestData, opts: Options, env: Env)
    requires Sound(ps) && ValuesBraceFree(BuildPlaceholders(data, opts, env))
    ensures WellFormed(ps)
    ensures BraceFree(Expand(ps, BuildPlaceholders(data, opts, env)))
  {
    var ph := BuildPlaceholders(data, opts, env);
    forall n | n in TokensOf(ps) ensures Lookup(ph, TokenOf(n)).Some? {
      var i :| 0 <= i < |ps| && ps[i].Tok? && ps[i].name == n;
      assert Known(ps[i]);
      BuiltLookup(data, opts, env, n);
    }
    assert WellFormed(ps) by {
      forall i | 0 <= i < |ps| ensures PieceOk(ps[i]) {
        assert Known(ps[i]);
      }
    }
    ExpandBraceFree(ps, ph);
  }

  /**
   * With the map `set_placeholders` builds and no value holding a brace, each paragraph
   * of the default letter renders as `<p class="">` around its text with every token
   * replaced by its value, and no brace (so no `{{token}}`) is left in what it prints.
   */
  lemma LetterParagraphRenders(data: RequestData, opts: Options, env: Env, k: nat)
    requires k < |LetterParagraphs|
    requires ValuesBraceFree(BuildPlaceholders(data, opts, env))
    ensures var ph := BuildPlaceholders(data, opts, env);
            var text := Expand(LetterParagraphs[k], ph);
            BlockHtml(ph, env, ParagraphBlock(LetterParagraphs[k])) == "<p class=\"" + env.escAttr("") + "\">" + text + "</p>"
            && BraceFree(text)
  {
    var ph := BuildPlaceholders(data, opts, env);
    var ps := LetterParagraphs[k];
    LetterParagraphsSound();
    LetterParagraphsStartSolid();
    SoundExpandsFully(ps, data, opts, env);
    BuiltKeysAreTokens(data, opts, env);
    ParagraphRendersExpanded(ph, env, ps);
  }

  /**
   * Both images of the letter name an image token that the built map defines, so the
   * image handler takes their source from the map rather than from the template.
   */
  lemma LetterImagesFromMap(paras: seq<seq<Piece>>, data: RequestData, opts: Options, env: Env)
    requires |paras| == 7
    ensures var ph := BuildPlaceholders(data, opts, env);
            var t := LetterTemplate(paras);
            IsImageToken(t[SignatureSlot].attrs["url"].s) && Lookup(ph, t[SignatureSlot].attrs["url"].s).Some?
            && IsImageToken(t[QrSlot].attrs["url"].s) && Lookup(ph, t[QrSlot].attrs["url"].s).Some?
  {
    LetterSpacersAndImages(paras);
    var t := LetterTemplate(paras);
    assert t[SignatureSlot].attrs["url"].s == TokenOf("signature");
    assert t[QrSlot].attrs["url"].s == TokenOf("qr_code");
    BuiltLookup(data, opts, env, "signature");
    BuiltLookup(data, opts, env, "qr_code");
  }

  // ---- Installation ----

  const TemplateOption := "noc_pdf_template"

  /** The options after `init_default_template()` with `letter` the encoded default template. */
  function Installed(opts: Options, letter: string): Options {
    if PhpEmpty(GetOption(opts, TemplateOption)) then opts[TemplateOption := letter] else opts
  }

  /** `init_default_template()`: store the encoded letter when the option is unset, '' or '0'. */
  method InitDefaultTemplate(store: OptionStore, env: Env)
    modifies store
    ensures store.options == Installed(old(store.options), env.jsonEncode(DefaultTemplate))
  {
    var existing := GetOption(store.options, TemplateOption);
    if PhpEmpty(existing) {
      store.Update(TemplateOption, env.jsonEncode(DefaultTemplate));
    }
  }

  /** A stored template is never overwritten, and no other option is touched. */
  lemma InstallKeepsStoredTemplate(opts: Options, letter: string)
    ensures !PhpEmpty(GetOption(opts, TemplateOption)) ==> Installed(opts, letter) == opts
    ensures forall k :: k != TemplateOption ==> GetOption(Installed(opts, letter), k) == GetOption(opts, k)
  {
  }

  /** Once the encoded letter is non-empty, a second installation changes nothing. */
  lemma InstallIdempotent(opts: Options, letter: string)
    requires !PhpEmpty(letter)
    ensures Installed(Installed(opts, letter), letter) == Installed(opts, letter)
  {
  }

  /**
   * Installing into an empty option and rendering what was stored is rendering the
   * default letter, when `json_decode` undoes `wp_json_encode` on it.
   */
  lemma InstalledRendersDefault(ph: PlaceholderMap, opts: Options, env: Env)
    requires PhpEmpty(GetOption(opts, TemplateOption))
    requires !PhpEmpty(env.jsonEncode(DefaultTemplate))
    requires env.jsonDecode(env.jsonEncode(DefaultTemplate)) == Some(DefaultTemplate)
    ensures TemplateHtml(ph, env, GetOption(Installed(opts, env.jsonEncode(DefaultTemplate)), TemplateOption))
            == BlocksHtml(ph, env, DefaultTemplate)
  {
  }

  // ---- Per-sentence facts ----
  // The literals of a long sentence are shown brace-free in separate lemmas: checked together
  // with the sentence they exceed the solver's budget.

  lemma DateLineSound()
    ensures Sound(DateLine)
  {
    assert BraceFree("<strong>Date:</strong> ");
    TokenKnown("issue_date");
  }

  lemma SalutationSound()
    ensures Sound(Salutation)
  {
    assert BraceFree("To whom it may concern");
  }

  lemma SubjectLineLiterals1()
    ensures BraceFree("<strong>")
    ensures BraceFree("Subject:</strong> ")
    ensures BraceFree("Regarding No Objection ")
  {
  }

  lemma SubjectLineLiterals2()
    ensures BraceFree("Letter for ")
  {
  }

  lemma SubjectLineSound()
    ensures Sound(SubjectLine)
  {
    SubjectLineLiterals1();
    SubjectLineLiterals2();
    TokenKnown("full_name");
  }

  lemma EmployeeIdentityLiterals1()
    ensures BraceFree("This letter is to ")
    ensures BraceFree("confirm that <strong>")
    ensures BraceFree("</strong> (Employee ID: ")
  {
  }

  lemma EmployeeIdentityLiterals2()
    ensures BraceFree("<strong>")
    ensures BraceFree("</strong>) ")
  {
  }

  lemma EmployeeIdentitySound()
    ensures Sound(EmployeeIdentity)
  {
    EmployeeIdentityLiterals1();
    EmployeeIdentityLiterals2();
    TokenKnown("full_name");
    TokenKnown("employee_id");
  }

  lemma EmployeeBasisSound()
    ensures Sound(EmployeeBasis)
  {
    assert BraceFree("is an employee with our ");
    assert BraceFree("company on a full-time ");
    assert BraceFree("basis. ");
  }

  lemma EmployeeTenureSound()
    ensures Sound(EmployeeTenure)
  {
    assert BraceFree("He has been with ");
    assert BraceFree(" since ");
    assert BraceFree(". ");
    TokenKnown("company_name");
    TokenKnown("joining_date");
  }

  lemma EmployeeRoleLiterals1()
    ensures BraceFree("He is currently working ")
    ensures BraceFree("as <strong>")
    ensures BraceFree("</strong> at the ")
  {
  }

  lemma EmployeeRoleLiterals2()
    ensures BraceFree("<strong>")
    ensures BraceFree("</strong> Department of ")
    ensures BraceFree(".")
  {
  }

  lemma EmployeeRoleSound()
    ensures Sound(EmployeeRole)
  {
    EmployeeRoleLiterals1();
    EmployeeRoleLiterals2();
    TokenKnown("position");
    TokenKnown("department");
    TokenKnown("company_name");
  }

  lemma VisitInterestLiterals1()
    ensures BraceFree("Mr./Ms. ")
    ensures BraceFree(" has expressed interest ")
    ensures BraceFree("in visiting <strong>")
  {
  }

  lemma VisitInterestLiterals2()
    ensures BraceFree("</strong>, for ")
    ensures BraceFree(". ")
  {
  }

  lemma VisitInterestSound()
    ensures Sound(VisitInterest)
  {
    VisitInterestLiterals1();
    VisitInterestLiterals2();
    TokenKnown("full_name");
    TokenKnown("visiting_country");
    TokenKnown("purpose");
  }

  lemma VisitConsentLiterals1()
    ensures BraceFree("Our organization has no ")
    ensures BraceFree("objection regarding ")
    ensures BraceFree("his/her visit to ")
  {
  }

  lemma VisitConsentLiterals2()
    ensures BraceFree(", ")
  {
  }

  lemma VisitConsentSound()
    ensures Sound(VisitConsent)
  {
    VisitConsentLiterals1();
    VisitConsentLiterals2();
    TokenKnown("visiting_country");
  }

  lemma VisitLengthSound()
    ensures Sound(VisitLength)
  {
    assert BraceFree("for <strong>");
    assert BraceFree("</strong> days. ");
    TokenKnown("number_of_days");
  }

  lemma VisitLeaveLiterals1()
    ensures BraceFree("His/her leave for that ")
    ensures BraceFree("trip has been ")
    ensures BraceFree("sanctioned from <strong>")
  {
  }

  lemma VisitLeaveLiterals2()
    ensures BraceFree("</strong> to <strong>")
    ensures BraceFree("</strong>. ")
  {
  }

  lemma VisitLeaveSound()
    ensures Sound(VisitLeave)
  {
    VisitLeaveLiterals1();
    VisitLeaveLiterals2();
    TokenKnown("leave_start");
    TokenKnown("leave_end");
  }

  lemma VisitReturnLiterals1()
    ensures BraceFree("On the expiry of ")
    ensures BraceFree("consent, he/she will ")
    ensures BraceFree("report for duty as soon ")
  {
  }

  lemma VisitReturnLiterals2()
    ensures BraceFree("as he/she returns.")
  {
  }

  lemma VisitReturnSound()
    ensures Sound(VisitReturn)
  {
    VisitReturnLiterals1();
    VisitReturnLiterals2();
  }

  lemma ClosingLiterals1()
    ensures BraceFree("Please feel free to ")
    ensures BraceFree("contact me if your ")
    ensures BraceFree("office should require ")
  {
  }

  lemma ClosingLiterals2()
    ensures BraceFree("any further information.")
  {
  }

  lemma ClosingSound()
    ensures Sound(Closing)
  {
    ClosingLiterals1();
    ClosingLiterals2();
  }

  lemma SignatoryLinesSound()
    ensures Sound(SignatoryLines)
  {
    assert BraceFree("<br/>");
    TokenKnown("hr_name");
    TokenKnown("hr_title");
    TokenKnown("company_name");
    TokenKnown("company_address");
  }

  lemma ContactLinesLiterals1()
    ensures BraceFree("Email: ")
    ensures BraceFree("<br/>Phone: ")
    ensures BraceFree("</br>Reference ID: ")
  {
  }

  lemma ContactLinesLiterals2()
    ensures BraceFree("<strong>")
    ensures BraceFree("</strong>")
  {
  }

  lemma ContactLinesSound()
    ensures Sound(ContactLines)
  {
    ContactLinesLiterals1();
    ContactLinesLiterals2();
    TokenKnown("company_email");
    TokenKnown("company_phone");
    TokenKnown("reference_id");
  }

}
