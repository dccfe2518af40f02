/**
 * The placeholder map of the block renderer (`set_placeholders`) and the substitution
 * it drives (`replace_placeholders`, includes/class-block-renderer.php).
 *
 * PHP's `str_replace(array_keys($m), array_values($m), $s)` does NOT substitute all
 * tokens at once: it replaces the first key everywhere, then the second key in that
 * result, and so on in the map's insertion order. `StrReplace` is that left fold. The
 * lemmas show when it agrees with simultaneous token substitution (`Expand`) — every
 * replacement value free of braces — and that it differs otherwise.
 */
module Placeholders {
  import opened Wrappers
  import opened Text
  import opened Dates
  import opened Host
  import opened ImageResolver

  /** `$this->placeholders`: token and replacement, in insertion order. */
  type PlaceholderMap = seq<(string, string)>

  /** The token `{{name}}`. */
  function TokenOf(name: string): string {
    "{{" + name + "}}"
  }

  /** The placeholder names, in the order `set_placeholders` inserts them. */
  const TokenNames: seq<string> := [
    "full_name", "employee_id", "email", "reference_id", "joining_date", "position",
    "department", "visiting_country", "purpose", "leave_start", "leave_end",
    "number_of_days", "issue_date", "qr_code", "company_name", "company_logo",
    "signature", "company_address", "company_phone", "company_email", "hr_name", "hr_title"
  ]

  // ---- Substitution ----

  /** `str_replace` with arrays: replace each key over the running result, in map order. */
  function StrReplace(pairs: PlaceholderMap, s: string): string
    decreases |pairs|
  {
    if pairs == [] then s
    else StrReplace(pairs[1..], ReplaceAll(s, pairs[0].0, pairs[0].1))
  }

  /** `replace_placeholders`: nothing happens for an empty map or empty ('' or '0') content. */
  function ReplacePlaceholders(pairs: PlaceholderMap, content: string): (r: string)
    ensures pairs == [] || PhpEmpty(content) ==> r == content
    ensures KeysAreTokens(pairs) && BraceFree(content) ==> r == content
  {
    if pairs == [] || PhpEmpty(content) then content
    else
      assert KeysAreTokens(pairs) && BraceFree(content) ==> StrReplace(pairs, content) == content by {
        if KeysAreTokens(pairs) && BraceFree(content) {
          StrReplaceBraceFree(pairs, content);
        }
      }
      StrReplace(pairs, content)
  }

  /** The value the map holds for `key` (the first entry, as in a PHP array). */
  function Lookup(pairs: PlaceholderMap, key: string): (r: Option<string>)
    ensures r.None? <==> forall i :: 0 <= i < |pairs| ==> pairs[i].0 != key
    ensures r.Some? ==> exists i :: 0 <= i < |pairs| && pairs[i] == (key, r.value)
                                    && forall j :: 0 <= j < i ==> pairs[j].0 != key
    decreases |pairs|
  {
    if pairs == [] then None
    else if pairs[0].0 == key then
      assert pairs[0] == (key, pairs[0].1);
      Some(pairs[0].1)
    else
      var r := Lookup(pairs[1..], key);
      if r.Some? then
        var i :| 0 <= i < |pairs[1..]| && pairs[1..][i] == (key, r.value)
                 && forall j :: 0 <= j < i ==> pairs[1..][j].0 != key;
        assert pairs[i + 1] == (key, r.value);
        assert forall j :: 0 <= j < i + 1 ==> pairs[j].0 != key by {
          forall j | 0 <= j < i + 1 ensures pairs[j].0 != key {
            if j > 0 { assert pairs[j] == pairs[1..][j - 1]; }
          }
        }
        r
      else
        assert forall i :: 0 <= i < |pairs| ==> pairs[i].0 != key by {
          forall i | 0 <= i < |pairs| ensures pairs[i].0 != key {
            if i > 0 { assert pairs[i] == pairs[1..][i - 1]; }
          }
        }
        r
  }

  /** Appending an entry to the map adds one more replacement pass at the end. */
  lemma {:induction false} StrReplaceSnoc(pairs: PlaceholderMap, key: string, value: string, s: string)
    ensures StrReplace(pairs + [(key, value)], s) == ReplaceAll(StrReplace(pairs, s), key, value)
    decreases |pairs|
  {
    if pairs == [] {
      assert pairs + [(key, value)] == [(key, value)];
    } else {
      assert (pairs + [(key, value)])[1..] == pairs[1..] + [(key, value)];
      StrReplaceSnoc(pairs[1..], key, value, ReplaceAll(s, pairs[0].0, pairs[0].1));
    }
  }

  /** Content that contains no brace at all comes back unchanged from any map of tokens. */
  lemma {:induction false} StrReplaceBraceFree(pairs: PlaceholderMap, s: string)
    requires KeysAreTokens(pairs)
    requires BraceFree(s)
    ensures StrReplace(pairs, s) == s
    decreases |pairs|
  {
    if pairs != [] {
      assert pairs[0].0[0] == '{';
      assert pairs[0].0[0] !in s;
      ReplaceAllAbsent(s, pairs[0].0, pairs[0].1);
      StrReplaceBraceFree(pairs[1..], s);
    }
  }

  // ---- Tokens and pieces ----

  /** `k` is `{{name}}` for a brace-free name. */
  predicate IsTokenKey(k: string) {
    |k| >= 4 && BraceFree(k[2..|k| - 2]) && k == TokenOf(k[2..|k| - 2])
  }

  predicate KeysAreTokens(pairs: PlaceholderMap) {
    forall i :: 0 <= i < |pairs| ==> IsTokenKey(pairs[i].0)
  }

  predicate ValuesBraceFree(pairs: PlaceholderMap) {
    forall i :: 0 <= i < |pairs| ==> BraceFree(pairs[i].1)
  }

  lemma TokenKeyOf(name: string)
    requires BraceFree(name)
    ensures IsTokenKey(TokenOf(name))
  {
    var k := TokenOf(name);
    assert k[2..|k| - 2] == name;
  }

  lemma TokenOfInjective(a: string, b: string)
    requires TokenOf(a) == TokenOf(b)
    ensures a == b
  {
    var ka, kb := TokenOf(a), TokenOf(b);
    assert a == ka[2..|ka| - 2];
    assert b == kb[2..|kb| - 2];
  }

  /** Template text cut into literal runs without braces and `{{name}}` tokens. */
  datatype Piece = Lit(text: string) | Tok(name: string)

  function PieceText(p: Piece): string {
    match p
    case Lit(s) => s
    case Tok(n) => TokenOf(n)
  }

  /** The text the pieces spell. */
  function Flatten(ps: seq<Piece>): string
    decreases |ps|
  {
    if ps == [] then "" else PieceText(ps[0]) + Flatten(ps[1..])
  }

  predicate PieceOk(p: Piece) {
    match p
    case Lit(s) => BraceFree(s)
    case Tok(n) => BraceFree(n)
  }

  predicate WellFormed(ps: seq<Piece>) {
    forall i :: 0 <= i < |ps| ==> PieceOk(ps[i])
  }

  /** The names of the tokens among the pieces. */
  function TokensOf(ps: seq<Piece>): set<string> {
    set i | 0 <= i < |ps| && ps[i].Tok? :: ps[i].name
  }

  /** Simultaneous substitution: every token replaced by its map value, or kept when unmapped. */
  function Expand(ps: seq<Piece>, pairs: PlaceholderMap): string
    decreases |ps|
  {
    if ps == [] then ""
    else
      var head := match ps[0]
        case Lit(s) => s
        case Tok(n) => Lookup(pairs, TokenOf(n)).GetOr(TokenOf(n));
      head + Expand(ps[1..], pairs)
  }

  /** The pieces after one replacement pass for `{{name}}`. */
  function Fill(ps: seq<Piece>, name: string, value: string): (r: seq<Piece>)
    ensures |r| == |ps|
    decreases |ps|
  {
    if ps == [] then []
    else [if ps[0] == Tok(name) then Lit(value) else ps[0]] + Fill(ps[1..], name, value)
  }

  lemma {:induction false} FillWellFormed(ps: seq<Piece>, name: string, value: string)
    requires WellFormed(ps) && BraceFree(value)
    ensures WellFormed(Fill(ps, name, value))
    decreases |ps|
  {
    if ps != [] {
      FillWellFormed(ps[1..], name, value);
      var r := Fill(ps, name, value);
      forall i | 0 <= i < |r| ensures PieceOk(r[i]) {
        if i > 0 {
          assert r[i] == Fill(ps[1..], name, value)[i - 1];
        }
      }
    }
  }

  /** A replacement pass for `{{name}}` that meets the token `{{name}}`. */
  lemma TokenHit(name: string, rest: string, value: string)
    ensures ReplaceAll(TokenOf(name) + rest, TokenOf(name), value) == value + ReplaceAll(rest, TokenOf(name), value)
  {
    var s, needle := TokenOf(name) + rest, TokenOf(name);
    assert s[..|needle|] == needle;
    assert s[|needle|..] == rest;
  }

  /** A replacement pass for `{{key}}` skips over a different token `{{name}}` as a whole. */
  lemma TokenMiss(name: string, key: string, rest: string, value: string)
    requires BraceFree(name) && BraceFree(key) && name != key
    ensures ReplaceAll(TokenOf(name) + rest, TokenOf(key), value) == TokenOf(name) + ReplaceAll(rest, TokenOf(key), value)
  {
    var s, needle := TokenOf(name) + rest, TokenOf(key);
    var a := name + "}}";
    TokenMissAt0(name, key, rest);
    ReplaceAllStep(s, needle, value);
    TokenMissAt1(name, key, rest);
    ReplaceAllStep(s[1..], needle, value);
    assert s[1..][1..] == a + rest;
    assert needle[0] !in a;
    ReplaceAllSkipsPrefix(a, rest, needle, value);
    TokenReassemble(name, rest, ReplaceAll(rest, needle, value));
  }

  /** `{{key}}` does not start where a different token `{{name}}` starts. */
  lemma TokenMissAt0(name: string, key: string, rest: string)
    requires BraceFree(name) && BraceFree(key) && name != key
    ensures !StartsWith(TokenOf(name) + rest, TokenOf(key))
  {
    var s, needle := TokenOf(name) + rest, TokenOf(key);
    if |needle| <= |s| {
      if |key| < |name| {
        assert s[2 + |key|] == name[|key|];
        assert needle[2 + |key|] == '}';
      } else if |key| > |name| {
        assert s[2 + |name|] == '}';
        assert needle[2 + |name|] == key[|name|];
      } else {
        var i :| 0 <= i < |name| && name[i] != key[i];
        assert s[2 + i] == name[i];
        assert needle[2 + i] == key[i];
      }
    }
  }

  /** Nor one character later, where `{` is followed by the name or `}`. */
  lemma TokenMissAt1(name: string, key: string, rest: string)
    requires BraceFree(name)
    ensures !StartsWith((TokenOf(name) + rest)[1..], TokenOf(key))
  {
    var s1, needle := (TokenOf(name) + rest)[1..], TokenOf(key);
    if |needle| <= |s1| {
      assert needle[1] == '{';
      if |name| > 0 { assert s1[1] == name[0]; } else { assert s1[1] == '}'; }
    }
  }

  lemma TokenReassemble(name: string, rest: string, tail: string)
    ensures var s := TokenOf(name) + rest;
            [s[0]] + ([s[1..][0]] + ((name + "}}") + tail)) == TokenOf(name) + tail
  {
    var s := TokenOf(name) + rest;
    assert s[0] == '{' && s[1..][0] == '{';
  }

  /** One replacement pass for `{{name}}` over well-formed pieces turns exactly those tokens into the value. */
  lemma {:induction false} ReplaceOneToken(ps: seq<Piece>, name: string, value: string)
    requires WellFormed(ps) && BraceFree(name)
    ensures ReplaceAll(Flatten(ps), TokenOf(name), value) == Flatten(Fill(ps, name, value))
    decreases |ps|
  {
    if ps != [] {
      var rest := Flatten(ps[1..]);
      var needle := TokenOf(name);
      assert PieceOk(ps[0]);
      ReplaceOneToken(ps[1..], name, value);
      var f := Fill(ps, name, value);
      assert f[1..] == Fill(ps[1..], name, value);
      match ps[0]
      case Lit(s) =>
        assert needle[0] == '{';
        assert needle[0] !in s;
        ReplaceAllSkipsPrefix(s, rest, needle, value);
      case Tok(n) =>
        if n == name {
          TokenHit(name, rest, value);
        } else {
          TokenMiss(n, name, rest, value);
        }
    }
  }

  /** With no entries left, `Expand` keeps every token: it spells the pieces back. */
  lemma {:induction false} ExpandEmpty(ps: seq<Piece>)
    ensures Expand(ps, []) == Flatten(ps)
    decreases |ps|
  {
    if ps != [] {
      ExpandEmpty(ps[1..]);
    }
  }

  /** Filling the first entry's token, then expanding with the rest, is expanding with the whole map. */
  lemma {:induction false} ExpandFill(ps: seq<Piece>, pairs: PlaceholderMap, name: string)
    requires pairs != [] && pairs[0].0 == TokenOf(name)
    ensures Expand(Fill(ps, name, pairs[0].1), pairs[1..]) == Expand(ps, pairs)
    decreases |ps|
  {
    if ps != [] {
      ExpandFill(ps[1..], pairs, name);
      var f := Fill(ps, name, pairs[0].1);
      assert f[1..] == Fill(ps[1..], name, pairs[0].1);
      if ps[0].Tok? && ps[0].name != name {
        if TokenOf(ps[0].name) == TokenOf(name) {
          TokenOfInjective(ps[0].name, name);
        }
      }
    }
  }

  /**
   * Sequential replacement equals simultaneous substitution when the text is made of
   * brace-free literals and tokens, every key is a token and no value contains a brace.
   */
  lemma {:induction false} SequentialIsSimultaneous(ps: seq<Piece>, pairs: PlaceholderMap)
    requires WellFormed(ps) && KeysAreTokens(pairs) && ValuesBraceFree(pairs)
    ensures StrReplace(pairs, Flatten(ps)) == Expand(ps, pairs)
    decreases |pairs|
  {
    if pairs == [] {
      ExpandEmpty(ps);
    } else {
      var k := pairs[0].0;
      assert IsTokenKey(k);
      var name := k[2..|k| - 2];
      ReplaceOneToken(ps, name, pairs[0].1);
      FillWellFormed(ps, name, pairs[0].1);
      SequentialIsSimultaneous(Fill(ps, name, pairs[0].1), pairs[1..]);
      ExpandFill(ps, pairs, name);
    }
  }

  /** When every token is mapped and every value is brace-free, no brace survives `Expand`. */
  lemma {:induction false} ExpandBraceFree(ps: seq<Piece>, pairs: PlaceholderMap)
    requires WellFormed(ps) && ValuesBraceFree(pairs)
    requires forall n :: n in TokensOf(ps) ==> Lookup(pairs, TokenOf(n)).Some?
    ensures BraceFree(Expand(ps, pairs))
    decreases |ps|
  {
    if ps != [] {
      assert TokensOf(ps[1..]) <= TokensOf(ps) by {
        forall n | n in TokensOf(ps[1..]) ensures n in TokensOf(ps) {
          var i :| 0 <= i < |ps[1..]| && ps[1..][i].Tok? && ps[1..][i].name == n;
          assert ps[i + 1] == ps[1..][i];
        }
      }
      ExpandBraceFree(ps[1..], pairs);
      var head := match ps[0]
        case Lit(s) => s
        case Tok(n) => Lookup(pairs, TokenOf(n)).GetOr(TokenOf(n));
      assert PieceOk(ps[0]);
      if ps[0].Tok? {
        assert ps[0].name in TokensOf(ps);
        var r := Lookup(pairs, TokenOf(ps[0].name));
        var i :| 0 <= i < |pairs| && pairs[i] == (TokenOf(ps[0].name), r.value)
                 && forall j :: 0 <= j < i ==> pairs[j].0 != TokenOf(ps[0].name);
        assert BraceFree(pairs[i].1);
      }
      BraceFreeConcat(head, Expand(ps[1..], pairs));
    }
  }

  lemma BraceFreeConcat(a: string, b: string)
    requires BraceFree(a) && BraceFree(b)
    ensures BraceFree(a + b)
  {
    forall i | 0 <= i < |a + b| ensures (a + b)[i] != '{' && (a + b)[i] != '}' {
      if i >= |a| { assert (a + b)[i] == b[i - |a|]; }
    }
  }

  /**
   * The fold is not simultaneous: a value that itself spells a later token is expanded
   * again. A full name entered as `{{email}}` comes out as the e-mail address, where a
   * simultaneous substitution would print `{{email}}`.
   */
  lemma ValueTokenExpandsAgain(email: string)
    requires BraceFree(email)
    ensures var pairs := [(TokenOf("full_name"), TokenOf("email")), (TokenOf("email"), email)];
            StrReplace(pairs, TokenOf("full_name")) == email
            && Expand([Tok("full_name")], pairs) == TokenOf("email")
  {
    var pairs := [(TokenOf("full_name"), TokenOf("email")), (TokenOf("email"), email)];
    assert BraceFree("full_name") && BraceFree("email");
    assert Flatten([Tok("full_name")]) == TokenOf("full_name");
    ReplaceOneToken([Tok("full_name")], "full_name", TokenOf("email"));
    assert Fill([Tok("full_name")], "full_name", TokenOf("email")) == [Lit(TokenOf("email"))];
    assert Flatten([Lit(TokenOf("email"))]) == TokenOf("email");
    assert Flatten([Tok("email")]) == TokenOf("email");
    ReplaceOneToken([Tok("email")], "email", email);
    assert Fill([Tok("email")], "email", email) == [Lit(email)];
    assert Flatten([Lit(email)]) == email;
    var once := ReplaceAll(TokenOf("full_name"), TokenOf("full_name"), TokenOf("email"));
    assert StrReplace(pairs, TokenOf("full_name")) == StrReplace(pairs[1..], once);
    assert StrReplace(pairs[1..], once) == StrReplace([], ReplaceAll(once, TokenOf("email"), email));
    assert pairs[1..][1..] == [];
    assert Expand([Tok("full_name")], pairs)
        == Lookup(pairs, TokenOf("full_name")).GetOr(TokenOf("full_name")) + Expand([], pairs);
  }

  // ---- The map `set_placeholders` builds ----

  /** The request row as the renderer receives it; None is an unset (null) column. */
  datatype RequestData = RequestData(
    fullName: Option<string>,
    employeeId: Option<string>,
    email: Option<string>,
    referenceId: Option<string>,
    joiningDate: Option<string>,
    position: Option<string>,
    department: Option<string>,
    visitingCountry: Option<string>,
    purpose: Option<string>,
    leaveStart: Option<string>,
    leaveEnd: Option<string>,
    qrCode: Option<string>
  )

  /** `empty()` on an optional string: null, '' and '0' are empty. */
  predicate Unset(v: Option<string>) {
    v.None? || PhpEmpty(v.value)
  }

  /** Leave days counted inclusively: 0 unless both dates are set, else the absolute day difference plus one. */
  function NumberOfDays(start: Option<string>, end: Option<string>, env: Env): (r: nat)
    ensures r == 0 <==> Unset(start) || Unset(end)
  {
    if Unset(start) || Unset(end) then 0
    else
      var diff := DateTimeDay(end.value, env) - DateTimeDay(start.value, env);
      (if diff < 0 then -diff else diff) + 1
  }

  /** `format_date`: '' for empty input, the input itself when unparsable, else the site's date format. */
  function FormatDate(date: string, opts: Options, env: Env): (r: string)
    ensures PhpEmpty(date) ==> r == ""
    ensures !PhpEmpty(date) && StrToDay(date, env).None? ==> r == date
  {
    if PhpEmpty(date) then ""
    else
      match StrToDay(date, env)
      case None => date
      case Some(day) => env.dateI18n(GetOption(opts, "date_format"), day)
  }

  function Escaped(v: Option<string>, env: Env): string {
    match v
    case None => ""
    case Some(s) => env.escHtml(s)
  }

  function Dated(v: Option<string>, opts: Options, env: Env): string {
    match v
    case None => ""
    case Some(s) => FormatDate(s, opts, env)
  }

  /** The signature option: the stored file path when set, otherwise the stored URL. */
  function SignatureSource(opts: Options): string {
    var path := GetOption(opts, "onoc_signature_image_path");
    if !PhpEmpty(path) then path else GetOption(opts, "onoc_signature_image")
  }

  /** The value `set_placeholders` stores for the placeholder `name`. */
  function PlaceholderValue(name: string, data: RequestData, opts: Options, env: Env): string {
    if name == "full_name" then Escaped(data.fullName, env)
    else if name == "employee_id" then Escaped(data.employeeId, env)
    else if name == "email" then Escaped(data.email, env)
    else if name == "reference_id" then Escaped(data.referenceId, env)
    else if name == "joining_date" then Dated(data.joiningDate, opts, env)
    else if name == "position" then Escaped(data.position, env)
    else if name == "department" then Escaped(data.department, env)
    else if name == "visiting_country" then Escaped(data.visitingCountry, env)
    else if name == "purpose" then Escaped(data.purpose, env)
    else if name == "leave_start" then Dated(data.leaveStart, opts, env)
    else if name == "leave_end" then Dated(data.leaveEnd, opts, env)
    else if name == "number_of_days" then NatToString(NumberOfDays(data.leaveStart, data.leaveEnd, env))
    else if name == "issue_date" then env.dateI18n(GetOption(opts, "date_format"), env.today)
    else if name == "qr_code" then data.qrCode.GetOr("")
    else if name == "company_name" then GetOption(opts, "onoc_company_name")
    else if name == "company_logo" then ResolveImage(GetOption(opts, "onoc_company_logo"), env)
    else if name == "signature" then ResolveImage(SignatureSource(opts), env)
    else if name == "company_address" then GetOption(opts, "onoc_company_address")
    else if name == "company_phone" then GetOption(opts, "onoc_company_phone")
    else if name == "company_email" then GetOption(opts, "onoc_company_email")
    else if name == "hr_name" then GetOption(opts, "onoc_hr_name")
    else if name == "hr_title" then GetOption(opts, "onoc_hr_title")
    else ""
  }

  /** The map `set_placeholders` stores: `{{name}}` for each name of `TokenNames`, in that order. */
  function BuildPlaceholders(data: RequestData, opts: Options, env: Env): (r: PlaceholderMap)
    ensures |r| == |TokenNames|
    ensures forall i :: 0 <= i < |r| ==> r[i].0 == TokenOf(TokenNames[i])
  {
    seq(|TokenNames|, i requires 0 <= i < |TokenNames| =>
      (TokenOf(TokenNames[i]), PlaceholderValue(TokenNames[i], data, opts, env)))
  }

  /** Every name in `TokenNames` is brace-free, so every key of the built map is a token. */
  lemma BuiltKeysAreTokens(data: RequestData, opts: Options, env: Env)
    ensures KeysAreTokens(BuildPlaceholders(data, opts, env))
  {
    var r := BuildPlaceholders(data, opts, env);
    NamesBraceFree();
    forall i | 0 <= i < |r| ensures IsTokenKey(r[i].0) {
      TokenKeyOf(TokenNames[i]);
    }
  }

  lemma NamesBraceFree()
    ensures forall i :: 0 <= i < |TokenNames| ==> BraceFree(TokenNames[i])
  {
    forall i | 0 <= i < |TokenNames| ensures BraceFree(TokenNames[i]) {
      if i < 11 { FirstNamesBraceFree(i); } else { LastNamesBraceFree(i); }
    }
  }

  lemma FirstNamesBraceFree(i: nat)
    requires i < 11
    ensures BraceFree(TokenNames[i])
  {
    if i == 0 { assert BraceFree("full_name"); }
    else if i == 1 { assert BraceFree("employee_id"); }
    else if i == 2 { assert BraceFree("email"); }
    else if i == 3 { assert BraceFree("reference_id"); }
    else if i == 4 { assert BraceFree("joining_date"); }
    else if i == 5 { assert BraceFree("position"); }
    else if i == 6 { assert BraceFree("department"); }
    else if i == 7 { assert BraceFree("visiting_country"); }
    else if i == 8 { assert BraceFree("purpose"); }
    else if i == 9 { assert BraceFree("leave_start"); }
    else if i == 10 { assert BraceFree("leave_end"); }
  }

  lemma LastNamesBraceFree(i: nat)
    requires 11 <= i < |TokenNames|
    ensures BraceFree(TokenNames[i])
  {
    if i == 11 { assert BraceFree("number_of_days"); }
    else if i == 12 { assert BraceFree("issue_date"); }
    else if i == 13 { assert BraceFree("qr_code"); }
    else if i == 14 { assert BraceFree("company_name"); }
    else if i == 15 { assert BraceFree("company_logo"); }
    else if i == 16 { assert BraceFree("signature"); }
    else if i == 17 { assert BraceFree("company_address"); }
    else if i == 18 { assert BraceFree("company_phone"); }
    else if i == 19 { assert BraceFree("company_email"); }
    else if i == 20 { assert BraceFree("hr_name"); }
    else if i == 21 { assert BraceFree("hr_title"); }
  }

  /** The built map defines `{{name}}` exactly for the names of `TokenNames`. */
  lemma BuiltLookup(data: RequestData, opts: Options, env: Env, name: string)
    ensures Lookup(BuildPlaceholders(data, opts, env), TokenOf(name)).Some? <==> name in TokenNames
  {
    var r := BuildPlaceholders(data, opts, env);
    if name in TokenNames {
      var i :| 0 <= i < |TokenNames| && TokenNames[i] == name;
      assert r[i].0 == TokenOf(name);
    } else {
      forall i | 0 <= i < |r| ensures r[i].0 != TokenOf(name) {
        if r[i].0 == TokenOf(name) {
          TokenOfInjective(TokenNames[i], name);
        }
      }
    }
  }

  /** The day count is at least one whenever both leave dates are set. */
  lemma DaysAtLeastOne(start: string, end: string, env: Env)
    requires !PhpEmpty(start) && !PhpEmpty(end)
    ensures NumberOfDays(Some(start), Some(end), env) >= 1
  {
  }

  /** The count is symmetric in the two dates: `diff.days` is absolute. */
  lemma DaysSymmetric(start: Option<string>, end: Option<string>, env: Env)
    ensures NumberOfDays(start, end, env) == NumberOfDays(end, start, env)
  {
  }

  /** 2025-03-10 to 2025-03-12 is three days, both ends included. */
  lemma DaysExample(env: Env)
    ensures NumberOfDays(Some("2025-03-10"), Some("2025-03-12"), env) == 3
  {
    MarchDays(env);
    assert !PhpEmpty("2025-03-10") && !PhpEmpty("2025-03-12");
  }

  lemma MarchDays(env: Env)
    ensures DateTimeDay("2025-03-12", env) - DateTimeDay("2025-03-10", env) == 2
  {
    ParseMarch10();
    ParseMarch12();
    NextDay(2025, 3, 10);
    NextDay(2025, 3, 11);
  }

  lemma ParseMarch10()
    ensures ParseIsoDay("2025-03-10") == Some(DaysFromCivil(2025, 3, 10))
  {
    assert IsIsoShape("2025-03-10");
  }

  lemma ParseMarch12()
    ensures ParseIsoDay("2025-03-12") == Some(DaysFromCivil(2025, 3, 12))
  {
    assert IsIsoShape("2025-03-12");
  }
}
