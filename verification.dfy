/**
 * `ONOC_Verification::handle_verification` (includes/class-verification.php): the
 * public page a QR code points to. The `ref` query argument is url-decoded and cut down
 * to letters and digits, looked up exactly and then against stored ids with ten
 * punctuation characters removed, and the page reports one of four outcomes.
 */
module Verification {
  import opened Wrappers
  import opened Text
  import opened Db

  /** The value of one hexadecimal digit. */
  function HexValue(c: char): Option<nat> {
    if '0' <= c <= '9' then Some(c as nat - '0' as nat)
    else if 'a' <= c <= 'f' then Some(c as nat - 'a' as nat + 10)
    else if 'A' <= c <= 'F' then Some(c as nat - 'A' as nat + 10)
    else None
  }

  /**
   * PHP `urldecode()`: `+` becomes a space and `%` followed by two hexadecimal digits
   * becomes that byte; any other `%` is kept.
   */
  function UrlDecode(s: string): (r: string)
    ensures |r| <= |s|
    decreases |s|
  {
    if s == [] then []
    else if s[0] == '+' then [' '] + UrlDecode(s[1..])
    else if s[0] == '%' && |s| >= 3 && HexValue(s[1]).Some? && HexValue(s[2]).Some? then
      [(16 * HexValue(s[1]).value + HexValue(s[2]).value) as char] + UrlDecode(s[3..])
    else [s[0]] + UrlDecode(s[1..])
  }

  /** Without `+` and `%` there is nothing to decode. */
  lemma {:induction false} UrlDecodePlain(s: string)
    requires '+' !in s && '%' !in s
    ensures UrlDecode(s) == s
    decreases |s|
  {
    if s != [] {
      assert s[0] != '+' && s[0] != '%';
      UrlDecodePlain(s[1..]);
      assert [s[0]] + s[1..] == s;
    }
  }

  /** The reference id the page works with: url-decoded, then only ASCII letters and digits. */
  function NormalizeRef(raw: string): (r: string)
    ensures forall i :: 0 <= i < |r| ==> IsAlnum(r[i])
  {
    KeepAlnum(UrlDecode(raw))
  }

  /** Normalising twice is normalising once. */
  lemma NormalizeIdempotent(raw: string)
    ensures NormalizeRef(NormalizeRef(raw)) == NormalizeRef(raw)
  {
    var n := NormalizeRef(raw);
    assert '+' !in n && '%' !in n by {
      forall i | 0 <= i < |n| ensures n[i] != '+' && n[i] != '%' {
        assert IsAlnum(n[i]);
      }
    }
    UrlDecodePlain(n);
    KeepAlnumIdentity(n);
  }

  /** Only ASCII letters and digits. */
  predicate AllAlnum(s: string) {
    forall i :: 0 <= i < |s| ==> IsAlnum(s[i])
  }

  /** Decoding passes over a prefix without `+` or `%` untouched. */
  lemma {:induction false} UrlDecodeSkipsPlain(a: string, t: string)
    requires '+' !in a && '%' !in a
    ensures UrlDecode(a + t) == a + UrlDecode(t)
    decreases |a|
  {
    if a == [] {
      assert a + t == t;
    } else {
      assert a[0] in a && a[0] != '+' && a[0] != '%';
      assert (a + t)[0] == a[0] && (a + t)[1..] == a[1..] + t;
      assert forall c :: c in a[1..] ==> c in a;
      UrlDecodeSkipsPlain(a[1..], t);
      assert [a[0]] + a[1..] == a;
    }
  }

  /** An alphanumeric text holds no punctuation. */
  lemma AlnumLacks(s: string, c: char)
    requires AllAlnum(s) && !IsAlnum(c)
    ensures c !in s
  {
    forall i | 0 <= i < |s| ensures s[i] != c { assert IsAlnum(s[i]); }
  }

  lemma AlnumConcat(a: string, b: string)
    requires AllAlnum(a) && AllAlnum(b)
    ensures AllAlnum(a + b)
  {
    forall i | 0 <= i < |a + b| ensures IsAlnum((a + b)[i]) {
      if i < |a| { assert (a + b)[i] == a[i]; } else { assert (a + b)[i] == b[i - |a|]; }
    }
  }

  /** The alphanumeric filter works piece by piece. */
  lemma {:induction false} KeepAlnumConcat(a: string, b: string)
    ensures KeepAlnum(a + b) == KeepAlnum(a) + KeepAlnum(b)
    decreases |a|
  {
    if a != [] {
      assert (a + b)[0] == a[0] && (a + b)[1..] == a[1..] + b;
      KeepAlnumConcat(a[1..], b);
    } else {
      assert a + b == b;
    }
  }

  /** A dash typed between two alphanumeric parts of an id is dropped. */
  lemma NormalizeDropsDash(a: string, b: string)
    requires AllAlnum(a) && AllAlnum(b)
    ensures NormalizeRef(a + "-" + b) == a + b
  {
    AlnumLacks(a, '+');
    AlnumLacks(a, '%');
    AlnumLacks(b, '+');
    AlnumLacks(b, '%');
    DashDecodes(b);
    assert a + "-" + b == a + ("-" + b);
    UrlDecodeSkipsPlain(a, "-" + b);
    DashFiltered(a, b);
  }

  lemma DashDecodes(b: string)
    requires '+' !in b && '%' !in b
    ensures UrlDecode("-" + b) == "-" + b
  {
    assert ("-" + b)[1..] == b;
    UrlDecodePlain(b);
  }

  lemma DashFiltered(a: string, b: string)
    requires AllAlnum(a) && AllAlnum(b)
    ensures KeepAlnum(a + ("-" + b)) == a + b
  {
    KeepAlnumConcat(a, "-" + b);
    assert ("-" + b)[1..] == b;
    assert KeepAlnum("-" + b) == KeepAlnum(b);
    KeepAlnumIdentity(a);
    KeepAlnumIdentity(b);
  }

  /** An encoded dash (`%2D`) is decoded first and then dropped the same way. */
  lemma NormalizeDecodesFirst(a: string, b: string)
    requires AllAlnum(a) && AllAlnum(b)
    ensures NormalizeRef(a + "%2D" + b) == a + b
  {
    AlnumLacks(a, '+');
    AlnumLacks(a, '%');
    AlnumLacks(b, '+');
    AlnumLacks(b, '%');
    assert a + "%2D" + b == a + ("%2D" + b);
    UrlDecodeSkipsPlain(a, "%2D" + b);
    assert ("%2D" + b)[3..] == b;
    UrlDecodePlain(b);
    assert UrlDecode(a + "%2D" + b) == a + "-" + b;
    NormalizeDropsDash(a, b);
    UrlDecodePlain(a + "-" + b);
  }

  /** The characters the fallback query removes from stored ids, in the order its REPLACE calls nest. */
  const LegacyPunctuation := "-.<>()[]{}"

  /** Removes each character of `cs` in turn, innermost REPLACE first. */
  function StripAll(s: string, cs: string): string
    decreases |cs|
  {
    if cs == [] then s else StripAll(RemoveChar(s, cs[0]), cs[1..])
  }

  /** The stored id as the fallback query compares it. */
  function LegacyStrip(stored: string): string {
    StripAll(stored, LegacyPunctuation)
  }

  /** Stripping keeps exactly the characters not listed. */
  lemma {:induction false} StripAllMembership(s: string, cs: string, d: char)
    ensures d in StripAll(s, cs) <==> d in s && d !in cs
    decreases |cs|
  {
    if cs != [] {
      RemoveCharMembership(s, cs[0], d);
      StripAllMembership(RemoveChar(s, cs[0]), cs[1..], d);
      assert cs == [cs[0]] + cs[1..];
    }
  }

  /** Stripping characters that do not occur changes nothing. */
  lemma {:induction false} StripAllAbsent(s: string, cs: string)
    requires forall i :: 0 <= i < |cs| ==> cs[i] !in s
    ensures StripAll(s, cs) == s
    decreases |cs|
  {
    if cs != [] {
      RemoveCharAbsent(s, cs[0]);
      StripAllAbsent(s, cs[1..]);
    }
  }

  /** Removal works piece by piece. */
  lemma {:induction false} RemoveCharConcat(a: string, b: string, c: char)
    ensures RemoveChar(a + b, c) == RemoveChar(a, c) + RemoveChar(b, c)
    decreases |a|
  {
    if a != [] {
      assert (a + b)[0] == a[0] && (a + b)[1..] == a[1..] + b;
      RemoveCharConcat(a[1..], b, c);
    } else {
      assert a + b == b;
    }
  }

  /** A stored id of the dashed form is found by the fallback comparison with its dash-free form. */
  lemma LegacyDashedId(a: string, b: string)
    requires AllAlnum(a) && AllAlnum(b)
    ensures LegacyStrip(a + "-" + b) == a + b
  {
    DashRemoved(a, b);
    var ab := a + b;
    AlnumConcat(a, b);
    forall i | 0 <= i < |LegacyPunctuation[1..]| ensures LegacyPunctuation[1..][i] !in ab {
      AlnumLacks(ab, LegacyPunctuation[1..][i]);
    }
    StripAllAbsent(ab, LegacyPunctuation[1..]);
  }

  lemma DashRemoved(a: string, b: string)
    requires AllAlnum(a) && AllAlnum(b)
    ensures RemoveChar(a + "-" + b, '-') == a + b
  {
    AlnumLacks(a, '-');
    AlnumLacks(b, '-');
    RemoveCharAbsent(a, '-');
    RemoveCharAbsent(b, '-');
    var dash := "-";
    assert RemoveChar(dash, '-') == [] by { assert dash[0] == '-' && dash[1..] == []; }
    RemoveCharConcat(a, dash, '-');
    assert RemoveChar(a + dash, '-') == a;
    RemoveCharConcat(a + dash, b, '-');
  }

  /** The documented reference id's parts are alphanumeric. */
  lemma DocumentedParts(a: string, b: string)
    requires a == "NOC2025" && b == "AB12CD34"
    ensures AllAlnum(a) && AllAlnum(b)
  {
  }

  /**
   * The documented legacy case: `NOC2025-AB12CD34` typed on the page is normalised to
   * `NOC2025AB12CD34`, which finds the row stored under that id; and a row still stored
   * under the dashed form is found by the fallback comparison.
   */
  lemma DocumentedLegacyLookup(rows: seq<Request>, i: nat)
    requires i < |rows| && rows[i].referenceId in {"NOC2025AB12CD34", "NOC2025-AB12CD34"}
    ensures NormalizeRef("NOC2025-AB12CD34") == "NOC2025AB12CD34"
    ensures Lookup(rows, NormalizeRef("NOC2025-AB12CD34")).Some?
  {
    var a, b := "NOC2025", "AB12CD34";
    DocumentedParts(a, b);
    assert a + "-" + b == "NOC2025-AB12CD34";
    assert a + b == "NOC2025AB12CD34";
    NormalizeDropsDash(a, b);
    LegacyDashedId(a, b);
  }

  /**
   * The index of the first row whose id, stripped of the characters `cs`, equals `ref`
   * (`$results[0]`).
   */
  function FirstStrippedIndex(rows: seq<Request>, ref: string, cs: string): (k: Option<nat>)
    ensures k.Some? ==> k.value < |rows| && StripAll(rows[k.value].referenceId, cs) == ref
    ensures k.Some? ==> forall j :: 0 <= j < k.value ==> StripAll(rows[j].referenceId, cs) != ref
    ensures k.None? ==> forall i :: 0 <= i < |rows| ==> StripAll(rows[i].referenceId, cs) != ref
    decreases |rows|
  {
    if rows == [] then None
    else if StripAll(rows[0].referenceId, cs) == ref then Some(0)
    else
      var k := FirstStrippedIndex(rows[1..], ref, cs);
      assert forall i :: 1 <= i < |rows| ==> rows[i] == rows[1..][i - 1];
      if k.Some? then Some(k.value + 1) else None
  }

  /** The fallback query's answer: its first row, if any. */
  function FirstLegacyMatch(rows: seq<Request>, ref: string): (r: Option<Request>)
    ensures r.Some? ==> r.value in rows && LegacyStrip(r.value.referenceId) == ref
    ensures r.None? ==> forall i :: 0 <= i < |rows| ==> LegacyStrip(rows[i].referenceId) != ref
  {
    var k := FirstStrippedIndex(rows, ref, LegacyPunctuation);
    if k.Some? then Some(rows[k.value]) else None
  }

  /** The row the page reports on: the exact match, or else the first legacy match. */
  function Lookup(rows: seq<Request>, ref: string): (r: Option<Request>)
    ensures r.Some? ==> r.value in rows
    ensures r.Some? ==> r.value.referenceId == ref || LegacyStrip(r.value.referenceId) == ref
    ensures r.None? <==> (forall i :: 0 <= i < |rows| ==> rows[i].referenceId != ref && LegacyStrip(rows[i].referenceId) != ref)
  {
    var exact := FindByReference(rows, ref);
    if exact.Some? then exact else FirstLegacyMatch(rows, ref)
  }

  /** The exact match wins: when a row carries the id itself, the fallback is not consulted. */
  lemma ExactMatchFirst(rows: seq<Request>, ref: string)
    requires exists i :: 0 <= i < |rows| && rows[i].referenceId == ref
    ensures Lookup(rows, ref).Some? && Lookup(rows, ref).value.referenceId == ref
  {
  }

  /**
   * A stored id holding a character that is neither a letter, a digit nor one of the ten
   * stripped characters (an underscore, say) can never be found: the looked-up id has
   * only letters and digits, and the fallback keeps that character.
   */
  lemma UnreachableStoredId(rows: seq<Request>, raw: string, i: nat, c: char)
    requires i < |rows| && c in rows[i].referenceId && !IsAlnum(c) && c !in LegacyPunctuation
    ensures var ref := NormalizeRef(raw);
            rows[i].referenceId != ref && LegacyStrip(rows[i].referenceId) != ref
  {
    var ref := NormalizeRef(raw);
    StripAllMembership(rows[i].referenceId, LegacyPunctuation, c);
    assert forall k :: 0 <= k < |ref| ==> ref[k] != c;
  }

  /** What the page shows. */
  datatype Outcome =
    | NotProvided
    | Invalid
    | NotApproved
    | Verified(request: Request)

  /** The error text for each refusal (the verified page shows details instead). */
  function Message(o: Outcome): string {
    match o
    case NotProvided => "No reference ID provided."
    case Invalid => "Invalid reference ID."
    case NotApproved => "NOC not valid or not approved."
    case Verified(_) => ""
  }

  /**
   * `handle_verification`. `isPage` is the query-var/URI test (None is returned when it
   * fails and the request is left to WordPress); `ref` is `$_GET['ref']`.
   */
  method HandleVerification(db: Database, isPage: bool, ref: Option<string>) returns (r: Option<Outcome>)
    ensures r.Some? <==> isPage
    ensures var n := NormalizeRef(ref.GetOr(""));
            && (r == Some(NotProvided) <==> isPage && PhpEmpty(n))
            && (r == Some(Invalid) <==> isPage && !PhpEmpty(n) && Lookup(db.rows, n).None?)
            && (r == Some(NotApproved) <==>
                  isPage && !PhpEmpty(n) && Lookup(db.rows, n).Some? && Lookup(db.rows, n).value.status != "approved")
            && (r.Some? && r.value.Verified? ==>
                  !PhpEmpty(n) && Lookup(db.rows, n) == Some(r.value.request) && r.value.request.status == "approved")
            && (isPage && !PhpEmpty(n) && Lookup(db.rows, n).Some? && Lookup(db.rows, n).value.status == "approved" ==>
                  r == Some(Verified(Lookup(db.rows, n).value)))
  {
    if !isPage {
      return None;
    }
    var referenceId := ref.GetOr("");
    referenceId := UrlDecode(referenceId);
    referenceId := KeepAlnum(referenceId);
    if PhpEmpty(referenceId) {
      return Some(NotProvided);
    }
    var request := FindByReference(db.rows, referenceId);
    if request.None? {
      request := FirstLegacyMatch(db.rows, referenceId);
    }
    if request.None? {
      return Some(Invalid);
    }
    if request.value.status != "approved" {
      return Some(NotApproved);
    }
    return Some(Verified(request.value));
  }
}
