/**
 * The plugin's main file, office-noc-manager.php: the class autoloader, the default
 * options written on activation and the `Office_NOC_Manager` singleton.
 */
module Bootstrap {
  import opened Wrappers
  import opened Text
  import opened Host
  import opened Store
  import opened Templates

  // ---- The autoloader ----

  const ClassPrefix := "ONOC_"

  /**
   * The file `autoload_classes()` looks for, relative to the plugin directory: nothing
   * for a class outside the plugin; otherwise every `ONOC_` is removed, underscores become
   * hyphens, the name is lower-cased and wrapped as `includes/class-<name>.php`.
   */
  function AutoloadPath(className: string): (r: Option<string>)
    ensures r.Some? <==> StartsWith(className, ClassPrefix)
    ensures r.Some? ==> StartsWith(r.value, "includes/class-") && EndsWith(r.value, ".php")
  {
    if !StartsWith(className, ClassPrefix) then None
    else Some("includes/class-" + FileStem(className) + ".php")
  }

  /** The name part of the file: the three string transforms in the order the loader applies them. */
  function FileStem(className: string): string {
    ToLower(ReplaceAll(ReplaceAll(className, ClassPrefix, ""), "_", "-"))
  }

  /** Replacing a character by a different one leaves none of it behind. */
  lemma {:induction false} ReplaceCharGone(s: string, c: char, d: char)
    requires c != d
    ensures c !in ReplaceAll(s, [c], [d])
    decreases |s|
  {
    if |s| >= 1 {
      ReplaceCharGone(s[1..], c, d);
      if s[..1] == [c] {
        assert ReplaceAll(s, [c], [d]) == [d] + ReplaceAll(s[1..], [c], [d]);
      } else {
        assert ReplaceAll(s, [c], [d]) == [s[0]] + ReplaceAll(s[1..], [c], [d]);
      }
    }
  }

  /**
   * Every file the loader asks for lies under includes/ as a `class-*.php` file whose
   * name has neither upper-case letters nor underscores; classes outside the plugin are
   * never looked up.
   */
  lemma AutoloadPathShape(className: string)
    ensures AutoloadPath(className).Some? <==> StartsWith(className, ClassPrefix)
    ensures AutoloadPath(className).Some? ==>
              var p := AutoloadPath(className).value;
              && StartsWith(p, "includes/class-") && EndsWith(p, ".php")
              && forall i :: 0 <= i < |FileStem(className)| ==>
                   !IsUpper(FileStem(className)[i]) && FileStem(className)[i] != '_'
  {
    var dashed := ReplaceAll(ReplaceAll(className, ClassPrefix, ""), "_", "-");
    ReplaceCharGone(ReplaceAll(className, ClassPrefix, ""), '_', '-');
    if AutoloadPath(className).Some? {
      var p := AutoloadPath(className).value;
      ConcatStartsWith("includes/class-", FileStem(className) + ".php");
      assert p == "includes/class-" + (FileStem(className) + ".php");
      ConcatEndsWith("includes/class-" + FileStem(className), ".php");
      forall i | 0 <= i < |FileStem(className)|
        ensures !IsUpper(FileStem(className)[i]) && FileStem(className)[i] != '_'
      {
        assert dashed[i] in dashed;
      }
    }
  }

  /** The loader's example: the PDF generator class lives in includes/class-pdf-generator.php. */
  lemma PdfGeneratorPath(className: string)
    requires className == "ONOC_PDF_Generator"
    ensures AutoloadPath(className) == Some("includes/class-pdf-generator.php")
  {
    var bare, dashed, lower := "PDF_Generator", "PDF-Generator", "pdf-generator";
    PdfGeneratorPrefix(className, bare);
    PdfGeneratorDashes(bare, dashed);
    PdfGeneratorLower(dashed, lower);
    StemSteps(className, bare, dashed, lower);
    PdfGeneratorFile(lower);
  }

  lemma PdfGeneratorFile(lower: string)
    requires lower == "pdf-generator"
    ensures "includes/class-" + lower + ".php" == "includes/class-pdf-generator.php"
  {
  }

  /** The path is assembled from the three intermediate names. */
  lemma StemSteps(className: string, bare: string, dashed: string, lower: string)
    requires ReplaceAll(className, ClassPrefix, "") == bare
    requires ReplaceAll(bare, "_", "-") == dashed
    requires ToLower(dashed) == lower
    ensures FileStem(className) == lower
    ensures StartsWith(className, ClassPrefix) ==> AutoloadPath(className) == Some("includes/class-" + lower + ".php")
  {
  }

  lemma PdfGeneratorPrefix(className: string, bare: string)
    requires className == "ONOC_PDF_Generator" && bare == "PDF_Generator"
    ensures StartsWith(className, ClassPrefix)
    ensures ReplaceAll(className, ClassPrefix, "") == bare
  {
    assert className == ClassPrefix + bare;
    assert (ClassPrefix + bare)[..|ClassPrefix|] == ClassPrefix;
    assert (ClassPrefix + bare)[|ClassPrefix|..] == bare;
    assert 'O' !in bare;
    ReplaceAllAbsent(bare, ClassPrefix, "");
  }

  lemma PdfGeneratorDashes(bare: string, dashed: string)
    requires bare == "PDF_Generator" && dashed == "PDF-Generator"
    ensures ReplaceAll(bare, "_", "-") == dashed
  {
    var front, back := "PDF", "Generator";
    assert bare == front + "_" + back;
    assert dashed == front + "-" + back;
    ReplaceSingle(front, back, '_', '-');
  }

  /** A character that occurs once is replaced at that one place. */
  lemma ReplaceSingle(a: string, b: string, c: char, d: char)
    requires c !in a && c !in b
    ensures ReplaceAll(a + [c] + b, [c], [d]) == a + [d] + b
  {
    assert a + [c] + b == a + ([c] + b);
    ReplaceAllSkipsPrefix(a, [c] + b, [c], [d]);
    assert ([c] + b)[..1] == [c] && ([c] + b)[1..] == b;
    ReplaceAllAbsent(b, [c], [d]);
  }

  lemma PdfGeneratorLower(dashed: string, lower: string)
    requires dashed == "PDF-Generator" && lower == "pdf-generator"
    ensures ToLower(dashed) == lower
  {
  }

  /** The loaded files, as `require_once` keeps them: each at most once. */
  class Loader {
    var required: set<string>

    constructor()
      ensures required == {}
    {
      required := {};
    }

    /** `autoload_classes($class_name)`: the mapped file is required only when it exists. */
    method Autoload(className: string, pluginDir: string, existing: set<string>)
      modifies this
      ensures AutoloadPath(className).None? ==> required == old(required)
      ensures AutoloadPath(className).Some? ==>
                var file := pluginDir + AutoloadPath(className).value;
                required == old(required) + (if file in existing then {file} else {})
    {
      var path := AutoloadPath(className);
      if path.None? {
        return;
      }
      var file := pluginDir + path.value;
      if file in existing {
        required := required + {file};
      }
    }
  }

  // ---- Default options ----

  /**
   * The options `set_default_options()` fills in, with their defaults, in the order it
   * writes them: ten empty strings, then the sender name and address.
   */
  function DefaultOptions(blogName: string, adminEmail: string): (ds: seq<(string, string)>)
    ensures |ds| == 12
  {
    [ ("onoc_company_name", ""), ("onoc_company_logo", ""), ("onoc_signature_image", ""),
      ("onoc_pdf_header", ""), ("onoc_pdf_footer", ""), ("onoc_company_address", ""),
      ("onoc_company_phone", ""), ("onoc_company_email", ""), ("onoc_hr_name", ""),
      ("onoc_hr_title", ""), ("onoc_email_from_name", blogName),
      ("onoc_email_from_address", adminEmail) ]
  }

  /** One guarded write: `if (!get_option($key)) update_option($key, $value)`. */
  function FillOne(opts: Options, d: (string, string)): Options {
    if PhpEmpty(GetOption(opts, d.0)) then opts[d.0 := d.1] else opts
  }

  /** The guarded writes in order. */
  function Fill(opts: Options, ds: seq<(string, string)>): Options
    decreases |ds|
  {
    if ds == [] then opts else Fill(FillOne(opts, ds[0]), ds[1..])
  }

  predicate DistinctKeys(ds: seq<(string, string)>) {
    forall i, j :: 0 <= i < j < |ds| ==> ds[i].0 != ds[j].0
  }

  predicate HasKey(ds: seq<(string, string)>, k: string) {
    exists i :: 0 <= i < |ds| && ds[i].0 == k
  }

  /**
   * What the guarded writes do, key by key: an option outside the list is untouched; a
   * listed option keeps a truthy value and otherwise takes its default.
   */
  lemma {:induction false} FillSpec(opts: Options, ds: seq<(string, string)>)
    requires DistinctKeys(ds)
    ensures forall k :: !HasKey(ds, k) ==> (k in Fill(opts, ds) <==> k in opts)
    ensures forall k :: !HasKey(ds, k) && k in opts ==> Fill(opts, ds)[k] == opts[k]
    ensures forall i :: 0 <= i < |ds| ==>
              ds[i].0 in Fill(opts, ds) &&
              Fill(opts, ds)[ds[i].0] == (if PhpEmpty(GetOption(opts, ds[i].0)) then ds[i].1 else opts[ds[i].0])
    decreases |ds|
  {
    if ds != [] {
      var o1 := FillOne(opts, ds[0]);
      var rest := ds[1..];
      assert DistinctKeys(rest) by {
        forall i, j | 0 <= i < j < |rest| ensures rest[i].0 != rest[j].0 {
          assert rest[i] == ds[i + 1] && rest[j] == ds[j + 1];
        }
      }
      FillSpec(o1, rest);
      forall k | !HasKey(ds, k)
        ensures !HasKey(rest, k) && k != ds[0].0
      {
        forall i | 0 <= i < |rest| ensures rest[i].0 != k {
          assert rest[i] == ds[i + 1];
        }
        assert ds[0].0 != k;
      }
      forall i | 0 <= i < |ds|
        ensures ds[i].0 in Fill(opts, ds)
        ensures Fill(opts, ds)[ds[i].0] == (if PhpEmpty(GetOption(opts, ds[i].0)) then ds[i].1 else opts[ds[i].0])
      {
        if i == 0 {
          forall j | 0 <= j < |rest| ensures rest[j].0 != ds[0].0 {
            assert rest[j] == ds[j + 1];
          }
        } else {
          assert rest[i - 1] == ds[i];
          assert ds[i].0 != ds[0].0;
        }
      }
    }
  }

  /** Running the defaults a second time changes nothing. */
  lemma FillIdempotent(opts: Options, ds: seq<(string, string)>)
    requires DistinctKeys(ds)
    ensures Fill(Fill(opts, ds), ds) == Fill(opts, ds)
  {
    var once := Fill(opts, ds);
    FillSpec(opts, ds);
    FillSpec(once, ds);
    var twice := Fill(once, ds);
    forall k | k in once ensures k in twice && twice[k] == once[k] {
      if HasKey(ds, k) {
        var i :| 0 <= i < |ds| && ds[i].0 == k;
      }
    }
    forall k | k in twice ensures k in once {
      if HasKey(ds, k) {
        var i :| 0 <= i < |ds| && ds[i].0 == k;
      }
    }
  }

  /** The plugin's twelve option names are distinct, and none of them is `admin_email`. */
  lemma DefaultKeysDistinct(blogName: string, adminEmail: string)
    ensures DistinctKeys(DefaultOptions(blogName, adminEmail))
    ensures !HasKey(DefaultOptions(blogName, adminEmail), "admin_email")
  {
    var ds := DefaultOptions(blogName, adminEmail);
    forall i | 0 <= i < |ds| ensures ds[i].0 != "admin_email" {
      assert ds[i].0[0] == 'o';
    }
  }

  /** Applies the `k`-th guarded write; what remains to be applied still ends at `target`. */
  method FillDefault(store: OptionStore, ds: seq<(string, string)>, k: nat, ghost target: Options)
    requires k < |ds| && Fill(store.options, ds[k..]) == target
    modifies store
    ensures Fill(store.options, ds[k + 1..]) == target
  {
    assert ds[k..][0] == ds[k] && ds[k..][1..] == ds[k + 1..];
    if PhpEmpty(GetOption(store.options, ds[k].0)) {
      store.Update(ds[k].0, ds[k].1);
    }
  }

  /** Four guarded writes in a row, from the `k`-th on. */
  method FillFour(store: OptionStore, ds: seq<(string, string)>, k: nat, ghost target: Options)
    requires k + 4 <= |ds| && Fill(store.options, ds[k..]) == target
    modifies store
    ensures Fill(store.options, ds[k + 4..]) == target
  {
    FillDefault(store, ds, k, target);
    FillDefault(store, ds, k + 1, target);
    FillDefault(store, ds, k + 2, target);
    FillDefault(store, ds, k + 3, target);
  }

  /** The twelve guarded writes of `set_default_options()`, one after another. */
  method ApplyDefaults(store: OptionStore, ds: seq<(string, string)>)
    requires |ds| == 12
    modifies store
    ensures store.options == Fill(old(store.options), ds)
  {
    ghost var target := Fill(store.options, ds);
    assert ds[0..] == ds;
    FillFour(store, ds, 0, target);
    FillFour(store, ds, 4, target);
    FillFour(store, ds, 8, target);
    assert ds[12..] == [];
  }

  /**
   * `set_default_options()`: the guarded writes, the sender defaulting to the blog name
   * and the admin address, then the default PDF template.
   */
  method SetDefaultOptions(store: OptionStore, blogName: string, env: Env)
    modifies store
    ensures store.options == Installed(
              Fill(old(store.options), DefaultOptions(blogName, GetOption(old(store.options), "admin_email"))),
              env.jsonEncode(DefaultTemplate))
  {
    ApplyDefaults(store, DefaultOptions(blogName, GetOption(store.options, "admin_email")));
    InitDefaultTemplate(store, env);
  }

  // ---- The singleton ----

  /** `Office_NOC_Manager`; its hook registrations are not modelled. */
  class Plugin {
    constructor()
    {
    }
  }

  /** The class's static `$instance` slot. */
  class PluginSlot {
    var instance: Option<Plugin>

    constructor()
      ensures instance == None
    {
      instance := None;
    }

    /** `get_instance()`: creates the plugin on the first call and returns that same object ever after. */
    method GetInstance() returns (p: Plugin)
      modifies this
      ensures old(instance).Some? ==> p == old(instance).value && instance == old(instance)
      ensures old(instance).None? ==> fresh(p) && instance == Some(p)
    {
      if instance.None? {
        var created := new Plugin();
        instance := Some(created);
      }
      p := instance.value;
    }
  }

  /** Two calls give the same object. */
  method InstanceIsShared(slot: PluginSlot) returns (first: Plugin, second: Plugin)
    modifies slot
    ensures first == second && slot.instance == Some(first)
  {
    first := slot.GetInstance();
    second := slot.GetInstance();
  }
}
