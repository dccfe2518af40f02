/**
 * The mutable WordPress state the plugin reads and writes outside its own table: the
 * option store (`get_option`/`update_option`/`delete_option`), the upload directory's
 * files, the transient cache and the mail that leaves the site.
 */
module Store {
  import opened Wrappers
  import opened Host

  /** `wp_options`. */
  class OptionStore {
    var options: Options

    constructor(initial: Options)
      ensures options == initial
    {
      options := initial;
    }

    /** `update_option($key, $value)`. */
    method Update(key: string, value: string)
      modifies this
      ensures options == old(options)[key := value]
    {
      options := options[key := value];
    }

    /** `delete_option($key)`: afterwards `get_option($key, '')` reads ''. */
    method Delete(key: string)
      modifies this
      ensures options == old(options) - {key}
      ensures GetOption(options, key) == ""
    {
      options := options - {key};
    }
  }

  /** The upload tree: directories that exist and file contents by path. */
  class FileStore {
    var dirs: set<string>
    var files: map<string, string>

    constructor()
      ensures dirs == {} && files == map[]
    {
      dirs := {};
      files := map[];
    }
  }

  /** The transient cache, as the rate limiter uses it: key to counter. */
  class Transients {
    var counters: map<string, int>

    constructor()
      ensures counters == map[]
    {
      counters := map[];
    }
  }

  /** The three mails `ONOC_Email` sends (their bodies are not modelled). */
  datatype Mail = Confirmation(to: string, referenceId: string) | Approval(requestId: int) | Rejection(requestId: int)

  /** The mail handed to `wp_mail`, in order. */
  class Outbox {
    var sent: seq<Mail>

    constructor()
      ensures sent == []
    {
      sent := [];
    }

    method Send(m: Mail)
      modifies this
      ensures sent == old(sent) + [m]
    {
      sent := sent + [m];
    }
  }
}
