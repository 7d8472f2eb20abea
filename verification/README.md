# gen-wiki.py — the Markdown data path, in Dafny

This project models the pure core of `gen-wiki.py`, the tool that turns
Terraform state into wiki pages. It covers five steps:

- **Attribute extraction** (`extract_attributes`). A parsed state document
  (`resources → instances → attributes`) is filtered by resource type. Each
  matching instance is projected onto the configured attribute names, or
  onto `id` alone when no names are configured.
- **Table rendering** (`generate_markdown_table`). A list of records becomes a
  Markdown table under an H3 heading. The columns are the keys of the first
  record, in insertion order.
- **Directory content** (`process_directory`). The tables of every configured
  resource type are concatenated in configuration order. They go under a
  `## <Capitalized basename>` heading only when at least one table was
  produced. The outcome of `terragrunt state pull` is a parameter: `None`
  when the fetch failed or printed nothing, otherwise the parsed document.
- **Environment pages** (`process_environment`). Each directory of the walk
  adds its content, except a directory whose path holds the text
  `.terragrunt-cache` anywhere: the cache directory itself, anything under
  it, and any other path that merely contains that text. The page
  is then written or not.
- **Wiki index** (`list_md_files`, `generate_sidebar_content`,
  `generate_homepage_content`). These cover the `.md` filter over a directory
  walk and the link list built from file names. The sidebar wraps the links
  under its title and home link. The homepage places them in the
  `HOMEPAGE_CONTENT` template.

Modules, in dependency order:

- `Options` (options.dfy): the `Option` type, whose `GetOr` models `.get(key, default)`.
- `Text` (text.dfy): the Python string operations the tool relies on.
  - `str.capitalize`, `str.strip` and `str.endswith` on ASCII text.
  - `os.path.basename`, `os.path.join` and the root part of `os.path.splitext`.
  - `str()` of an integer.
  - `"".join`, and lines joined and split at `\n`.
- `State` (state.dfy): the data the tool reads.
  - JSON values, and dictionaries as ordered association lists. Key order shows in the table columns, so it is kept.
  - The state document.
  - The configuration file.
- `Extract` (extract.dfy): `extract_attributes`.
- `Table` (table.dfy): `generate_markdown_table`, and a reader for the tables it writes.
- `Directory` (directory.dfy): `process_directory` and the page of one environment.
- `WikiIndex` (wiki.dfy): `list_md_files`, the sidebar and the homepage.

Two behaviours of the code are worth stating plainly. An attribute that an
instance lacks is stored as Python `None` by
`instance.get('attributes', {}).get(attr)`, and `str(None)` is the text
`None`, so such a cell reads `None`. A cell is empty only when the record
lacks the column, which happens for records after the first, or when the
value is the empty string (see `Extract.Project` and `Table.Cell`). A rendered table also has a blank line after its
heading as well as at its end, so it has `len(records) + 5` lines
(`Table.RenderLines`).

## Model

| member | source | states |
|---|---|---|
| State.Get | gen-wiki.py:46-49 | `dict.get` finds a value exactly when the key is among the dictionary's keys, and the value found is the one stored with the first entry of that key |
| State.PutSpec | gen-wiki.py:46-49 | `d[k] = v` makes `k` map to `v` and leaves every other key's value alone. An existing key keeps its place; a new key goes last. |
| State.PutKeepsUniqueKeys | gen-wiki.py:46-49 | `d[k] = v` keeps every key of the dictionary unique |
| State.ValueText | gen-wiki.py:63 | `str()` of a string is the string; of an integer, its canonical decimal text: a `-` exactly when negative, no leading zero except in `0`, and digits that read back as the integer (which fixes the text, by `Text.IntTextUnique`); `True`/`False` for booleans; the text is `None` exactly for Python `None` or the string `"None"` |
| Text.Capitalize | gen-wiki.py:95 | `capitalize()` keeps the length and the letters up to case. The first character is not lower-case; no later character is upper-case. |
| Text.CapitalizeUnique | gen-wiki.py:95 | those four facts determine the capitalized text, so they pin down `capitalize()` completely |
| Text.Basename | gen-wiki.py:94 | `os.path.basename` is the slash-free suffix of the path that starts right after its last `/` (the whole path when there is none) |
| Text.PathJoin | gen-wiki.py:134 | `os.path.join(root, file)` ends with `file`, and its basename is `file` when `file` has no `/` |
| Text.PathJoinRoot | gen-wiki.py:134 | an absolute `file` is the whole joined path; otherwise the path starts with `root`, and a `/` goes between them exactly when `root` is non-empty and does not already end in one |
| Text.StemOfExtension | gen-wiki.py:142 | for a file name `n + "." + ext` with no `/` in `n` and no dot in `ext`, the root `os.path.splitext` gives is `n` when `n` has a character other than a dot, and the whole name when `n` is all dots or empty |
| Text.StemWithoutDot | gen-wiki.py:142 | a file name without a dot is its own root |
| Text.Strip | gen-wiki.py:109 | `strip()` is the input without its leading and trailing white space: everything cut off is white space, and the result neither starts nor ends with white space |
| Text.NatTextRoundTrip | gen-wiki.py:63 | the decimal text `str()` gives for a natural number reads back as that number |
| Text.IntTextRoundTrip | gen-wiki.py:63 | `str()` of any integer is an optional `-` and digits that read back as the integer |
| Text.IntText | gen-wiki.py:63 | `str()` of an integer starts with `-` exactly when the integer is negative, has no zero right after the sign, and starts with `0` only when it is `0` itself |
| Text.NatTextUnique | gen-wiki.py:63 | a digit string with no leading zero (other than `0` itself) is the decimal text of the number it denotes |
| Text.IntTextUnique | gen-wiki.py:63 | the text `str()` gives an integer is the only text with a `-` exactly for a negative number, no leading zero, and that integer's value |
| Extract.Project | gen-wiki.py:44-49 | with no names a record is `{id: attributes.get('id')}`. Otherwise every key is a non-empty listed name, and every non-empty listed name is a key whose value is the instance's value or `None`. Keys keep the order of first mention, so a repeated name gives one key. |
| Extract.FillKeepsNames | gen-wiki.py:47-49 | the loop over the names keeps "exactly the non-empty names seen so far, in list order" as its invariant |
| Extract.ExtractFrom | gen-wiki.py:41-50 | one record per instance of every resource whose type matches, in document order, each the projection of that instance |
| Extract.ExtractAttributes | gen-wiki.py:39-51 | the same over `data.get('resources', [])`; a document without `resources` or a resource without `instances` gives no records |
| Extract.ExtractFromAppend | gen-wiki.py:41-50 | the records of two lists of resources are those of the first followed by those of the second |
| Extract.ExtractFromIgnoresOthers | gen-wiki.py:41-42 | resources of another type, wherever they stand, contribute nothing |
| Extract.NoMatchingInstances | gen-wiki.py:42 | a list without a resource of the type has no matching instances |
| Extract.NoRecordsIff | gen-wiki.py:41-50 | no records exactly when every resource of the type has no instances |
| Extract.ExtractExample | test_gen_wiki.py:46-65 | the example of the test suite gives the two expected records |
| Extract.ProjectExample | test_gen_wiki.py:52-62 | an instance with `id` and `name` projected on `["id", "name"]` is `{id, name}` in that order |
| Table.Render | gen-wiki.py:53-67 | the table text is empty exactly when there are no records |
| Table.Cell | gen-wiki.py:63 | `str(item.get(h, ''))`: the empty text when the record lacks the column, otherwise the `str()` of its value; a Python `None` prints as `None`, and the cell is empty exactly when the record lacks the column or holds the empty string |
| Table.Row | gen-wiki.py:59-63 | a row is framed by `| ` and ` |`; `Table.ParseRowOfRow` reads it back into its cells |
| Table.RenderAsLines | gen-wiki.py:57-67 | a table is its heading, a blank line, the header row, the separator row, one row per record and a blank line, each ending in a newline |
| Table.RenderLines | gen-wiki.py:57-67 | when the header, the column names and the cells hold no newline, splitting the table into lines gives exactly those lines: `len(records) + 5` of them |
| Table.ParseRowOfRow | gen-wiki.py:59-63 | a header or body row reads back as its cells when there is at least one cell and none holds a vertical bar or a newline |
| Table.RowWithoutColumns | gen-wiki.py:59 | a first record without keys renders the same header row as one with a single empty key, so no reader can tell the two apart |
| Table.ParseRender | gen-wiki.py:57-66 | reading a rendered table gives back its header, the first record's keys as columns, and per record the cells of those columns. A missing key gives an empty cell; a value gives its `str()`. |
| Table.RenderExample | test_gen_wiki.py:30-44 | the two-record example of the test suite renders as the expected text |
| Directory.TableForEmpty | gen-wiki.py:86-90 | a configured type yields a table exactly when some resource of that type has an instance |
| Directory.DirectoryContent | gen-wiki.py:77-97 | `None` exactly when the fetch gave nothing. A fetched directory gives the empty text exactly when no configured type has an instance in its document. |
| Directory.DirectoryHeadingFirst | gen-wiki.py:93-97 | a non-empty directory text starts with `## ` + the capitalized basename + a blank line, and the rest is the tables in configuration order |
| Directory.ProcessDirectory | gen-wiki.py:77-97 | the loop over the configured types, skipping empty tables, builds the tables in configuration order under the heading |
| Directory.TablesEmptyIff | gen-wiki.py:85-91 | the concatenated tables are empty exactly when no configured type has an instance in the document |
| Directory.InCache | gen-wiki.py:102 | a directory is skipped exactly when its path splits as `a + ".terragrunt-cache" + b`, i.e. holds that text anywhere |
| Directory.Contribution | gen-wiki.py:101-107 | a cached or unfetched directory adds nothing; otherwise it adds its `process_directory` text, and it adds nothing exactly when it does not produce a table |
| Directory.EnvironmentPage | gen-wiki.py:100-107 | the page starts with the environment heading, the rest is what the visited directories contribute in walk order, and the page is the bare heading exactly when no visited directory produces a table |
| Directory.AsWrittenAlwaysWrites | gen-wiki.py:109 | the stripped page is never equal to the heading, whatever the page |
| Directory.EmptyEnvironmentIsWritten | gen-wiki.py:99-113 | an environment none of whose directories produces a table (all in the cache, unfetched or without a configured type) has the bare heading as its page, and that page is still written |
| Directory.EnvironmentFileAsWritten | gen-wiki.py:99-113 | as written, every environment page is written, and it is the heading followed by the contributions in walk order |
| Directory.EnvironmentFile | gen-wiki.py:99-113 | with the intended test, the page is written exactly when some visited directory produced a table |
| WikiIndex.MarkdownNames | gen-wiki.py:132-133 | the filter keeps only names ending in `.md`, and keeps every such name |
| WikiIndex.MarkdownNamesAppend | gen-wiki.py:132-133 | the filter keeps order: filtering two lists is filtering each in turn |
| WikiIndex.PathsIn | gen-wiki.py:132-134 | the paths of one directory are its Markdown names, each joined to the directory's root, in order; each ends in `.md` |
| WikiIndex.PathsInComplete | gen-wiki.py:131-134 | a directory's paths are exactly its Markdown files joined to its root: every `.md` file is listed, and every listed path is one |
| WikiIndex.ListMdFiles | gen-wiki.py:128-135 | every listed path ends in `.md` |
| WikiIndex.ListMdFilesComplete | gen-wiki.py:128-135 | every Markdown file of the walk is listed, joined to the root of its directory, and every listed path is such a file |
| WikiIndex.ListMdFilesAppend | gen-wiki.py:131-135 | the walk is listed in order: two walks give the files of the first followed by those of the second |
| WikiIndex.PathsOfThree | gen-wiki.py:132-134 | of three files, the two Markdown ones are listed, joined to the root, in order |
| WikiIndex.ListMdFilesExample | test_gen_wiki.py:85-92 | the walk of the test suite lists `root/file1.md` and `root/file3.md` |
| WikiIndex.PageNameOfMarkdown | gen-wiki.py:141-142 | a listed file `dir/n.md` (a walked file name, so `n` has no `/`) is linked under the name `n`, except when `n` is empty or all dots (`.md`, `..md`), which is linked under its whole name |
| WikiIndex.Links | gen-wiki.py:140-143 | the link list is one `- [name](name)` line per page name, each ending in a newline, in order |
| WikiIndex.ParseLinksRoundTrip | gen-wiki.py:143 | reading the link list back line by line gives the page names in order, when no name holds a newline |
| WikiIndex.LinkList | gen-wiki.py:148-152 | the loop that appends one link per file builds the link list of all files, in order |
| WikiIndex.Sidebar | gen-wiki.py:137-144 | the sidebar starts with its fixed head of line 139 and the rest is the link list of the files; when no page name holds a newline, its lines are `# Sidebar`, a blank line, ` - [Home](home)`, then one link per file in order |
| WikiIndex.GenerateSidebar | gen-wiki.py:137-144 | the sidebar is its fixed head followed by the link list, and has the lines above when no page name holds a newline |
| WikiIndex.HomeFormat | gen-wiki.py:11-19 | formatting the template puts the repository name at both `{repo_name}` fields and the table of contents at `{toc}` |
| WikiIndex.Homepage | gen-wiki.py:146-153 | the homepage is the template text with the repository name at both `{repo_name}` fields and the link list of all files at `{toc}` |
| WikiIndex.GenerateHomepage | gen-wiki.py:146-153 | the loop and the `format` call produce that homepage |

## Left out

- Running `terragrunt state pull` is not modelled; its outcome is the `fetched` parameter. Also left out: parsing its JSON and the configuration's YAML, `os.walk`, `os.chdir`, creating directories and writing files. All of these are I/O or calls into libraries. The walk is a sequence parameter (`Visit`, `WalkEntry`).
- A fetch that prints text that is not JSON makes `json.loads` raise, and the tool stops. The model takes an already parsed document.
- A state value is a string, an integer, a boolean or `null`. Floats, lists and nested objects are not modelled: their `str()` is Python's repr.
- A JSON or YAML `null` stored under a key is not modelled, because `.get(key, default)` returns that `null` rather than the default. Each field can only be present with a value of its own type or absent, and an absent field takes the default. The source behaves differently in these cases:
  - state `"attributes": null` (gen-wiki.py:46, 49), `"resources": null` (line 41) and `"instances": null` (line 43) make it raise;
  - a configured type whose settings are `null` makes it raise at line 86, and `resources: null` in the configuration at line 85;
  - `attributes: null` in a configured type makes it raise at line 47;
  - `header:` left empty (YAML `null`) is no error: line 86 returns `None`, and line 58 writes the heading `### None`.
- The configuration's `resources` mapping is a sequence of entries. YAML keeps only the last of two entries with the same key; the model processes a repeated type twice. `State.PutKeepsUniqueKeys` states the uniqueness for the dictionaries the tool builds itself.
- `remove_aws_provider_profile` is not modelled: it is file I/O around a regular-expression substitution.
- Also not modelled:
  - `process_shared_ecr`, an I/O wrapper around `process_directory`;
  - `create_sidebar_and_homepage` beyond the content it writes;
  - `copy_wiki` and the clean-up step.
- `extract_repo_name`, `read_json_file` and `download_bucket` are exercised by the test suite but are not part of this model: they are not in the version of `gen-wiki.py` modelled here.
- Text.Capitalize: changes the case of ASCII letters only, because Python's Unicode case tables are not modelled.
- Text.Strip: removes only the ASCII whitespace Python recognises (space, `\t\n\v\f\r`, `\x1c`-`\x1f`), not the other Unicode spaces.
- Text.Stem: its contract states only that the root is a prefix of the name. The exact root is stated by Text.StemOfExtension (which also covers names that are all dots before the extension) and Text.StemWithoutDot.
- Text.Stem: models `os.path.splitext` only for a name without `/`. For a path, Python looks for the dot after the last `/` (`splitext("a/..md")` keeps the whole path), and the model does not. Line 142 passes only basenames, so this case never arises there.
- Text.StemOfExtension: says nothing about a name `n` that holds a `/`, for the reason above.
- WikiIndex.PageNameOfMarkdown: requires that `n` has no `/`, which holds for every file name `os.walk` yields.
- WikiIndex.Sidebar: gives the sidebar's lines only when no page name holds a newline. A name with a newline splits into several lines, which the contract does not describe. The text itself is stated for all inputs.
- Table.ParseRender: holds only for tables whose first record has a key, whose header holds no newline, and whose column names and cells hold no `|` or newline. Other tables cannot be read back unambiguously; Table.RowWithoutColumns shows one such case.
- WikiIndex.ParseLinksRoundTrip: holds only for page names without a newline, for the same reason.

## Findings

| source | as written | input that shows it | evidently intended | confidence | as-written member | corrected member |
|---|---|---|---|---|---|---|
| gen-wiki.py:109 | the page is written when `markdown_content.strip()` differs from the heading `"# X Environment\n\n"`; a stripped text never ends in a newline, so the test always passes | an environment whose walk yields no directory with tables: its page is just the heading, and a heading-only file is written | skip the file when no directory contributed, i.e. compare the unstripped page (or the stripped heading) | not executed | Directory.EnvironmentFileAsWritten, Directory.AsWrittenAlwaysWrites, Directory.EmptyEnvironmentIsWritten | Directory.EnvironmentFile |
