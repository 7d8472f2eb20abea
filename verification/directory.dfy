/** `process_directory` of gen-wiki.py, and the page `process_environment`
    assembles from the directories of one environment. The state fetch
    (`run_terragrunt` and `json.loads`) is an input: `None` stands for a
    fetch that failed or printed nothing. */
module Directory {
  import opened Options
  import opened Text
  import opened State
  import opened Extract
  import opened Table

  /** The table one configured resource type contributes (gen-wiki.py lines 86-89). */
  function TableFor(doc: Document, e: ConfigEntry): string {
    Render(HeaderOf(e), ExtractAttributes(doc, e.resourceType, NamesOf(e)))
  }

  function Tables(doc: Document, entries: seq<ConfigEntry>): seq<string> {
    seq(|entries|, i requires 0 <= i < |entries| => TableFor(doc, entries[i]))
  }

  /** A configured type has a table exactly when some resource of that type
      in the document has an instance. */
  lemma TableForEmpty(doc: Document, e: ConfigEntry)
    ensures TableFor(doc, e) == "" <==> MatchingInstances(ResourcesOf(doc), e.resourceType) == []
  {
  }

  lemma TablesStep(doc: Document, entries: seq<ConfigEntry>, i: nat)
    requires i < |entries|
    ensures Tables(doc, entries[..i + 1]) == Tables(doc, entries[..i]) + [TableFor(doc, entries[i])]
  {
    assert entries[..i + 1] == entries[..i] + [entries[i]];
    TablesAppendOne(doc, entries[..i], entries[i]);
  }

  lemma TablesAppendOne(doc: Document, prefix: seq<ConfigEntry>, e: ConfigEntry)
    ensures Tables(doc, prefix + [e]) == Tables(doc, prefix) + [TableFor(doc, e)]
  {
    var a := Tables(doc, prefix + [e]);
    var b := Tables(doc, prefix) + [TableFor(doc, e)];
    forall k | 0 <= k < |a| ensures a[k] == b[k] {
      if k < |prefix| {
        assert (prefix + [e])[k] == prefix[k];
      } else {
        assert (prefix + [e])[k] == e;
      }
    }
  }

  /** One turn of the loop of gen-wiki.py lines 85-91 keeps the text built so far equal
      to the concatenation of the tables of the entries seen. */
  lemma LoopStep(doc: Document, entries: seq<ConfigEntry>, i: nat)
    requires i < |entries|
    ensures var markdown, t := Concat(Tables(doc, entries[..i])), TableFor(doc, entries[i]);
      (if t != "" then markdown + t else markdown) == Concat(Tables(doc, entries[..i + 1]))
  {
    TablesStep(doc, entries, i);
    ConcatAppend(Tables(doc, entries[..i]), [TableFor(doc, entries[i])]);
  }

  /** `"## " + capitalize(basename(directory)) + "\n\n"` (gen-wiki.py lines 94-95). */
  function DirectoryHeading(directory: string): string {
    "## " + Capitalize(Basename(directory)) + "\n\n"
  }

  /** What `process_directory` returns: nothing when the fetch failed;
      otherwise the tables of the configured types in configuration order,
      under the directory heading when there is at least one table, and the
      empty text when no configured type has an instance. */
  function DirectoryContent(directory: string, fetched: Option<Document>, config: Config): (r: Option<string>)
    ensures r.None? <==> fetched.None?
    ensures fetched.Some? ==> (r.value == "" <==> !HasMatch(fetched.value, config))
  {
    match fetched
    case None => None
    case Some(doc) =>
      var body := Concat(Tables(doc, EntriesOf(config)));
      TablesEmptyIff(doc, EntriesOf(config));
      if body == "" then Some("")
      else
        var h := DirectoryHeading(directory);
        assert |h + body| == |h| + |body|;
        Some(h + body)
  }

  /** A non-empty directory text opens with the directory heading, and what
      follows the heading is the tables in configuration order. */
  lemma DirectoryHeadingFirst(directory: string, doc: Document, config: Config)
    ensures var r := DirectoryContent(directory, Some(doc), config).value;
      r != "" ==> StartsWith(r, DirectoryHeading(directory))
                  && r[|DirectoryHeading(directory)|..] == Concat(Tables(doc, EntriesOf(config)))
  {
    var h, body := DirectoryHeading(directory), Concat(Tables(doc, EntriesOf(config)));
    if body != "" {
      assert DirectoryContent(directory, Some(doc), config) == Some(h + body);
      StartsWithAppend(h, body);
    } else {
      assert DirectoryContent(directory, Some(doc), config) == Some("");
    }
  }

  /** `process_directory(directory, config)`, with the result of the state
      fetch as a parameter (gen-wiki.py lines 77-97). */
  method ProcessDirectory(directory: string, fetched: Option<Document>, config: Config)
    returns (content: Option<string>)
    ensures content == DirectoryContent(directory, fetched, config)
  {
    if fetched.None? {
      return None;
    }
    var doc := fetched.value;
    var entries := EntriesOf(config);
    var markdown := "";
    for i := 0 to |entries|
      invariant markdown == Concat(Tables(doc, entries[..i]))
    {
      var table := TableFor(doc, entries[i]);
      LoopStep(doc, entries, i);
      if table != "" {
        markdown := markdown + table;
      }
    }
    assert entries[..|entries|] == entries;
    content := Some(Finish(directory, markdown));
    FinishIsContent(directory, doc, config, markdown);
  }

  /** gen-wiki.py lines 93-97: the heading goes in front of a non-empty text only. */
  function Finish(directory: string, markdown: string): string {
    if markdown != "" then DirectoryHeading(directory) + markdown else markdown
  }

  lemma FinishIsContent(directory: string, doc: Document, config: Config, markdown: string)
    requires markdown == Concat(Tables(doc, EntriesOf(config)))
    ensures Some(Finish(directory, markdown)) == DirectoryContent(directory, Some(doc), config)
  {
  }

  /** Some configured type has a resource with an instance in the document. */
  predicate HasMatch(doc: Document, config: Config) {
    exists j :: 0 <= j < |EntriesOf(config)| && MatchingInstances(ResourcesOf(doc), EntriesOf(config)[j].resourceType) != []
  }

  /** The tables concatenate to nothing exactly when no entry's type has an
      instance in the document. */
  lemma TablesEmptyIff(doc: Document, entries: seq<ConfigEntry>)
    ensures Concat(Tables(doc, entries)) == ""
            <==> forall j :: 0 <= j < |entries| ==> MatchingInstances(ResourcesOf(doc), entries[j].resourceType) == []
  {
    var ts := Tables(doc, entries);
    ConcatEmpty(ts);
    forall j | 0 <= j < |entries|
      ensures ts[j] == "" <==> MatchingInstances(ResourcesOf(doc), entries[j].resourceType) == []
    {
      TableForEmpty(doc, entries[j]);
    }
  }

  /** `"# " + capitalize(environment) + " Environment\n\n"` (gen-wiki.py line 100). */
  function EnvironmentHeading(env: string): string {
    "# " + Capitalize(env) + " Environment\n\n"
  }

  /** A directory `os.walk` visits, with the outcome of its state fetch. */
  datatype Visit = Visit(root: string, fetched: Option<Document>)

  /** gen-wiki.py line 102: a directory is skipped when its path holds
      `.terragrunt-cache` anywhere, as a component or inside one. */
  predicate InCache(root: string)
    ensures InCache(root) <==> exists a, b :: root == a + ".terragrunt-cache" + b
  {
    CacheSplit(root);
    Contains(root, ".terragrunt-cache")
  }

  /** `sub in s` exactly when `s` splits around an occurrence of `sub`. */
  lemma CacheSplit(s: string)
    ensures Contains(s, ".terragrunt-cache") <==> exists a, b :: s == a + ".terragrunt-cache" + b
  {
    var sub := ".terragrunt-cache";
    if Contains(s, sub) {
      var i :| 0 <= i <= |s| - |sub| && OccursAt(s, sub, i);
      assert s == s[..i] + sub + s[i + |sub|..];
    }
    if exists a, b :: s == a + sub + b {
      var a, b :| s == a + sub + b;
      assert OccursAt(s, sub, |a|);
    }
  }

  /** What one visited directory adds to the page (gen-wiki.py lines
      102-107): nothing from the cache or after a failed fetch, otherwise
      the directory's text, which is empty exactly when no configured type
      matches. */
  function Contribution(v: Visit, config: Config): (r: string)
    ensures InCache(v.root) || v.fetched.None? ==> r == ""
    ensures !InCache(v.root) && v.fetched.Some? ==> Some(r) == DirectoryContent(v.root, v.fetched, config)
    ensures r == "" <==> !Produces(v, config)
  {
    if InCache(v.root) then ""
    else
      match DirectoryContent(v.root, v.fetched, config)
      case Some(c) => c
      case None => ""
  }

  function Contributions(walk: seq<Visit>, config: Config): seq<string> {
    seq(|walk|, i requires 0 <= i < |walk| => Contribution(walk[i], config))
  }

  /** The page of one environment (gen-wiki.py lines 100-107): its heading
      followed by what each visited directory contributes, in walk order.
      It is the bare heading exactly when no visited directory produces
      anything. */
  function EnvironmentPage(env: string, walk: seq<Visit>, config: Config): (r: string)
    ensures StartsWith(r, EnvironmentHeading(env))
    ensures r[|EnvironmentHeading(env)|..] == Concat(Contributions(walk, config))
    ensures r == EnvironmentHeading(env) <==> forall i :: 0 <= i < |walk| ==> !Produces(walk[i], config)
  {
    var h := EnvironmentHeading(env);
    StartsWithAppend(h, Concat(Contributions(walk, config)));
    HeadingOnlyIff(h, walk, config);
    h + Concat(Contributions(walk, config))
  }

  /** A visited directory that adds something to its environment's page. */
  predicate Produces(v: Visit, config: Config) {
    !InCache(v.root) && v.fetched.Some? && HasMatch(v.fetched.value, config)
  }

  /** A heading followed by the contributions is the bare heading exactly
      when no visited directory produces anything. */
  lemma HeadingOnlyIff(h: string, walk: seq<Visit>, config: Config)
    ensures h + Concat(Contributions(walk, config)) == h <==>
      forall i :: 0 <= i < |walk| ==> !Produces(walk[i], config)
  {
    var cs := Contributions(walk, config);
    ConcatEmpty(cs);
    assert forall i :: 0 <= i < |walk| ==> (cs[i] == "" <==> !Produces(walk[i], config));
    if Concat(cs) != "" {
      assert |h + Concat(cs)| > |h|;
    }
  }

  /** gen-wiki.py line 109 as written: the page is written unless its stripped text
      equals the heading, trailing blank line included. */
  predicate WritesPageAsWritten(env: string, page: string) {
    Strip(page) != EnvironmentHeading(env)
  }

  /** A stripped text never ends in a newline, while the heading does, so
      the comparison on gen-wiki.py line 109 never succeeds and every page is written. */
  lemma AsWrittenAlwaysWrites(env: string, page: string)
    ensures WritesPageAsWritten(env, page)
  {
    var h := EnvironmentHeading(env);
    assert h[|h| - 1] == '\n' && IsSpace('\n');
  }

  /** The counterexample: an environment none of whose directories
      produces a table (all cached, unfetched or without a configured type)
      has the bare heading as its page, and it is still written. */
  lemma EmptyEnvironmentIsWritten(env: string, walk: seq<Visit>, config: Config)
    requires forall i :: 0 <= i < |walk| ==> !Produces(walk[i], config)
    ensures EnvironmentPage(env, walk, config) == EnvironmentHeading(env)
    ensures WritesPageAsWritten(env, EnvironmentPage(env, walk, config))
  {
    AsWrittenAlwaysWrites(env, EnvironmentPage(env, walk, config));
  }

  /** The file gen-wiki.py lines 99-114 write, as written: always the page. */
  function EnvironmentFileAsWritten(env: string, walk: seq<Visit>, config: Config): (r: Option<string>)
    ensures r == Some(EnvironmentPage(env, walk, config))
  {
    var page := EnvironmentPage(env, walk, config);
    AsWrittenAlwaysWrites(env, page);
    if WritesPageAsWritten(env, page) then Some(page) else None
  }

  /** The evidently intended test: the page has more than its heading. */
  predicate WritesPage(env: string, page: string) {
    page != EnvironmentHeading(env)
  }

  /** The file of an environment with the intended test: the page is written
      exactly when some visited directory produced a table. */
  function EnvironmentFile(env: string, walk: seq<Visit>, config: Config): (r: Option<string>)
    ensures r.Some? <==> exists i :: 0 <= i < |walk| && Produces(walk[i], config)
    ensures r.Some? ==> r.value == EnvironmentPage(env, walk, config)
  {
    var page := EnvironmentPage(env, walk, config);
    if WritesPage(env, page) then Some(page) else None
  }
}
