/** The wiki index pages of gen-wiki.py: the `.md` filter of
    `list_md_files`, the link lists of `generate_sidebar_content` and
    `generate_homepage_content`, and the homepage template. */
module WikiIndex {
  import opened Options
  import opened Text

  /** One directory `os.walk` yields: its path and its file names. */
  datatype WalkEntry = WalkEntry(root: string, files: seq<string>)

  /** gen-wiki.py line 133: `file.endswith('.md')`. */
  predicate IsMarkdown(name: string) {
    EndsWith(name, ".md")
  }

  /** The Markdown file names among `files`, in order. */
  function MarkdownNames(files: seq<string>): (r: seq<string>)
    ensures forall i :: 0 <= i < |r| ==> IsMarkdown(r[i])
    ensures forall x :: x in r <==> x in files && IsMarkdown(x)
  {
    if files == [] then []
    else (if IsMarkdown(files[0]) then [files[0]] else []) + MarkdownNames(files[1..])
  }

  /** The filter keeps order: the names kept from two lists of files are
      those kept from the first followed by those kept from the second. */
  lemma {:induction false} MarkdownNamesAppend(a: seq<string>, b: seq<string>)
    ensures MarkdownNames(a + b) == MarkdownNames(a) + MarkdownNames(b)
  {
    if a == [] {
      assert a + b == b;
    } else {
      assert (a + b)[1..] == a[1..] + b;
      MarkdownNamesAppend(a[1..], b);
    }
  }

  lemma EndsWithTrans(a: string, b: string, c: string)
    requires EndsWith(a, b) && EndsWith(b, c)
    ensures EndsWith(a, c)
  {
    assert a[|a| - |c|..] == b[|b| - |c|..];
  }

  /** The paths `list_md_files` gathers from one walked directory: each
      Markdown name of the directory joined to its root, in order. */
  function PathsIn(e: WalkEntry): (r: seq<string>)
    ensures |r| == |MarkdownNames(e.files)|
    ensures forall i :: 0 <= i < |r| ==> r[i] == PathJoin(e.root, MarkdownNames(e.files)[i])
    ensures forall i :: 0 <= i < |r| ==> IsMarkdown(r[i])
  {
    var names := MarkdownNames(e.files);
    var r := seq(|names|, i requires 0 <= i < |names| => PathJoin(e.root, names[i]));
    assert forall i :: 0 <= i < |r| ==> EndsWith(r[i], names[i]) && IsMarkdown(names[i]);
    forall i | 0 <= i < |r| ensures IsMarkdown(r[i]) {
      EndsWithTrans(r[i], names[i], ".md");
    }
    r
  }

  /** A directory's paths are exactly its Markdown files joined to its
      root. */
  lemma PathsInComplete(e: WalkEntry)
    ensures forall f :: f in e.files && IsMarkdown(f) ==> PathJoin(e.root, f) in PathsIn(e)
    ensures forall p :: p in PathsIn(e) ==> exists f :: f in e.files && IsMarkdown(f) && p == PathJoin(e.root, f)
  {
    var names, r := MarkdownNames(e.files), PathsIn(e);
    forall f | f in e.files && IsMarkdown(f) ensures PathJoin(e.root, f) in r {
      var i :| 0 <= i < |names| && names[i] == f;
      assert r[i] == PathJoin(e.root, f);
    }
    forall p | p in r ensures exists f :: f in e.files && IsMarkdown(f) && p == PathJoin(e.root, f) {
      var i :| 0 <= i < |r| && r[i] == p;
      assert names[i] in names;
    }
  }

  /** Every Markdown file of the walk is among `paths`, joined to the root
      of its directory. */
  predicate ListsAll(walk: seq<WalkEntry>, paths: seq<string>) {
    forall j, f :: 0 <= j < |walk| && f in walk[j].files && IsMarkdown(f) ==> PathJoin(walk[j].root, f) in paths
  }

  /** Every path of `paths` is a Markdown file of the walk joined to the
      root of its directory. */
  predicate ListsOnly(walk: seq<WalkEntry>, paths: seq<string>) {
    forall p :: p in paths ==>
      exists j, f :: 0 <= j < |walk| && f in walk[j].files && IsMarkdown(f) && p == PathJoin(walk[j].root, f)
  }

  /** `list_md_files` over the directories `os.walk` yields (gen-wiki.py
      lines 128-135): the joined path of every Markdown file, in walk order,
      and nothing else. */
  function ListMdFiles(walk: seq<WalkEntry>): (r: seq<string>)
    ensures forall i :: 0 <= i < |r| ==> IsMarkdown(r[i])
  {
    if walk == [] then [] else PathsIn(walk[0]) + ListMdFiles(walk[1..])
  }

  /** `list_md_files` lists every Markdown file of the walk, joined to its
      directory's root, and nothing else. */
  lemma {:induction false} ListMdFilesComplete(walk: seq<WalkEntry>)
    ensures ListsAll(walk, ListMdFiles(walk)) && ListsOnly(walk, ListMdFiles(walk))
  {
    if walk != [] {
      PathsInComplete(walk[0]);
      ListMdFilesComplete(walk[1..]);
      ListsCons(walk, PathsIn(walk[0]), ListMdFiles(walk[1..]));
    }
  }

  /** The paths of the first directory followed by those of the rest of
      the walk list the whole walk. */
  lemma ListsCons(walk: seq<WalkEntry>, head: seq<string>, rest: seq<string>)
    requires walk != []
    requires forall f :: f in walk[0].files && IsMarkdown(f) ==> PathJoin(walk[0].root, f) in head
    requires forall p :: p in head ==> exists f :: f in walk[0].files && IsMarkdown(f) && p == PathJoin(walk[0].root, f)
    requires ListsAll(walk[1..], rest) && ListsOnly(walk[1..], rest)
    ensures ListsAll(walk, head + rest) && ListsOnly(walk, head + rest)
  {
    ListsAllCons(walk, head, rest);
    ListsOnlyCons(walk, head, rest);
  }

  lemma ListsAllCons(walk: seq<WalkEntry>, head: seq<string>, rest: seq<string>)
    requires walk != []
    requires forall f :: f in walk[0].files && IsMarkdown(f) ==> PathJoin(walk[0].root, f) in head
    requires ListsAll(walk[1..], rest)
    ensures ListsAll(walk, head + rest)
  {
    forall j, f | 0 <= j < |walk| && f in walk[j].files && IsMarkdown(f)
      ensures PathJoin(walk[j].root, f) in head + rest
    {
      if j == 0 {
        assert PathJoin(walk[0].root, f) in head;
      } else {
        ListedInRest(walk, rest, j, f);
      }
    }
  }

  lemma ListedInRest(walk: seq<WalkEntry>, rest: seq<string>, j: int, f: string)
    requires 0 < j < |walk| && f in walk[j].files && IsMarkdown(f)
    requires ListsAll(walk[1..], rest)
    ensures PathJoin(walk[j].root, f) in rest
  {
    var k := j - 1;
    assert walk[1..][k] == walk[j];
  }

  lemma ListsOnlyCons(walk: seq<WalkEntry>, head: seq<string>, rest: seq<string>)
    requires walk != []
    requires forall p :: p in head ==> exists f :: f in walk[0].files && IsMarkdown(f) && p == PathJoin(walk[0].root, f)
    requires ListsOnly(walk[1..], rest)
    ensures ListsOnly(walk, head + rest)
  {
    forall p | p in head + rest
      ensures exists j, f :: 0 <= j < |walk| && f in walk[j].files && IsMarkdown(f) && p == PathJoin(walk[j].root, f)
    {
      if p in head {
        var f :| f in walk[0].files && IsMarkdown(f) && p == PathJoin(walk[0].root, f);
        assert 0 <= 0 < |walk| && f in walk[0].files;
      } else {
        assert p in rest;
        var j, f :| 0 <= j < |walk[1..]| && f in walk[1..][j].files && IsMarkdown(f) && p == PathJoin(walk[1..][j].root, f);
        assert walk[1..][j] == walk[j + 1];
      }
    }
  }

  /** The walk is listed in order: the files of two walks are those of the
      first followed by those of the second. */
  lemma {:induction false} ListMdFilesAppend(a: seq<WalkEntry>, b: seq<WalkEntry>)
    ensures ListMdFiles(a + b) == ListMdFiles(a) + ListMdFiles(b)
  {
    if a == [] {
      assert a + b == b;
    } else {
      assert (a + b)[1..] == a[1..] + b;
      ListMdFilesAppend(a[1..], b);
    }
  }

  /** A directory holding two Markdown files around another file. */
  lemma PathsOfThree(root: string, a: string, b: string, c: string)
    requires IsMarkdown(a) && !IsMarkdown(b) && IsMarkdown(c)
    requires a[0] != '/' && c[0] != '/'
    requires root != "" && root[|root| - 1] != '/'
    ensures PathsIn(WalkEntry(root, [a, b, c])) == [root + "/" + a, root + "/" + c]
  {
    MarkdownOfThree(a, b, c);
    var r := PathsIn(WalkEntry(root, [a, b, c]));
    assert |r| == 2 && r[0] == PathJoin(root, a) && r[1] == PathJoin(root, c);
    RelativeJoin(root, a);
    RelativeJoin(root, c);
  }

  /** A file name that does not start with a slash goes below a root that
      does not end in one, after a slash. */
  lemma RelativeJoin(root: string, f: string)
    requires f != "" && f[0] != '/'
    requires root != "" && root[|root| - 1] != '/'
    ensures PathJoin(root, f) == root + "/" + f
  {
    assert f[..1] != "/";
    assert !EndsWith(root, "/") by { assert root[|root| - 1..] != "/"; }
    PathJoinRoot(root, f);
  }

  lemma MarkdownOfThree(a: string, b: string, c: string)
    requires IsMarkdown(a) && !IsMarkdown(b) && IsMarkdown(c)
    ensures MarkdownNames([a, b, c]) == [a, c]
  {
    var files := [a, b, c];
    assert MarkdownNames(files[2..]) == [c] + MarkdownNames([]);
    assert MarkdownNames(files[1..]) == MarkdownNames(files[2..]);
  }

  lemma ExampleFiles()
    ensures IsMarkdown("file1.md") && !IsMarkdown("file2.txt") && IsMarkdown("file3.md")
    ensures "root" + "/" + "file1.md" == "root/file1.md"
    ensures "root" + "/" + "file3.md" == "root/file3.md"
  {
    assert "file2.txt"[6] != "."[0];
  }

  /** The example of the tool's test suite. */
  lemma ListMdFilesExample(walk: seq<WalkEntry>)
    requires walk == [WalkEntry("root", ["file1.md", "file2.txt", "file3.md"])]
    ensures ListMdFiles(walk) == ["root/file1.md", "root/file3.md"]
  {
    ExampleFiles();
    PathsOfThree("root", "file1.md", "file2.txt", "file3.md");
    assert ListMdFiles(walk) == PathsIn(walk[0]) + ListMdFiles([]);
  }

  /** `os.path.splitext(os.path.basename(path))[0]` (gen-wiki.py lines 141-142). */
  function PageName(path: string): string {
    Stem(Basename(path))
  }

  /** A Markdown file found by the walk is linked under its file name
      without the `.md` extension, except a name that is all dots before
      `.md` (`.md`, `..md`), which keeps its extension. */
  lemma PageNameOfMarkdown(dir: string, n: string)
    requires '/' !in n
    ensures HasNonDot(n) ==> PageName(PathJoin(dir, n + ".md")) == n
    ensures !HasNonDot(n) ==> PageName(PathJoin(dir, n + ".md")) == n + ".md"
  {
    assert '/' !in n + ".md";
    assert n + ".md" == n + "." + "md";
    StemOfExtension(n, "md");
  }

  function PageNames(paths: seq<string>): seq<string> {
    seq(|paths|, i requires 0 <= i < |paths| => PageName(paths[i]))
  }

  /** `f"- [{name}]({name})"` without its newline. */
  function Link(name: string): string {
    "- [" + name + "](" + name + ")"
  }

  function LinkLines(names: seq<string>): seq<string> {
    seq(|names|, i requires 0 <= i < |names| => Link(names[i]))
  }

  /** The link list both index pages build (gen-wiki.py lines 140-143 and 149-152): one
      line per page name, in the given order. */
  function Links(names: seq<string>): (r: string)
    ensures r == UnLines(LinkLines(names))
  {
    if names == [] then ""
    else
      assert LinkLines(names)[1..] == LinkLines(names[1..]);
      Link(names[0]) + "\n" + Links(names[1..])
  }

  /** Reads the page name back from a link line. */
  function ParseLink(line: string): Option<string> {
    if |line| < 6 || |line| % 2 != 0 then None
    else
      var name := line[3..3 + (|line| - 6) / 2];
      if line == Link(name) then Some(name) else None
  }

  function ParseLinks(lines: seq<string>): Option<seq<string>> {
    if lines == [] then Some([])
    else
      match (ParseLink(lines[0]), ParseLinks(lines[1..]))
      case (Some(n), Some(ns)) => Some([n] + ns)
      case _ => None
  }

  lemma ParseLinkOfLink(name: string)
    ensures ParseLink(Link(name)) == Some(name)
  {
    var line := Link(name);
    assert |line| == 2 * |name| + 6;
    assert line[3..3 + |name|] == name;
  }

  lemma {:induction false} ParseLinkLines(names: seq<string>)
    ensures ParseLinks(LinkLines(names)) == Some(names)
  {
    if names != [] {
      ParseLinkOfLink(names[0]);
      assert LinkLines(names)[1..] == LinkLines(names[1..]);
      ParseLinkLines(names[1..]);
      assert names == [names[0]] + names[1..];
    }
  }

  lemma LinkLinesOneLine(names: seq<string>)
    requires forall i :: 0 <= i < |names| ==> OneLine(names[i])
    ensures forall i :: 0 <= i < |names| ==> OneLine(LinkLines(names)[i])
  {
  }

  /** Reading back a link list gives the page names in order, when no page
      name holds a newline. */
  lemma ParseLinksRoundTrip(names: seq<string>)
    requires forall i :: 0 <= i < |names| ==> OneLine(names[i])
    ensures ParseLinks(Lines(Links(names))) == Some(names)
  {
    LinkLinesOneLine(names);
    LinesOfUnLines(LinkLines(names));
    ParseLinkLines(names);
  }

  /** gen-wiki.py line 139. */
  const SidebarHead := "# Sidebar\n\n - [Home](home)\n"

  /** `generate_sidebar_content(md_files)`: the fixed head, then the link
      list of the files. When no page name holds a newline, its lines are
      the title, a blank line, the home link, then one link per file in
      order. */
  function Sidebar(paths: seq<string>): (r: string)
    ensures StartsWith(r, SidebarHead)
    ensures r[|SidebarHead|..] == UnLines(LinkLines(PageNames(paths)))
    ensures (forall i :: 0 <= i < |paths| ==> OneLine(PageName(paths[i]))) ==>
      Lines(r) == ["# Sidebar", "", " - [Home](home)"] + LinkLines(PageNames(paths))
  {
    StartsWithAppend(SidebarHead, Links(PageNames(paths)));
    SidebarTextLines(paths);
    SidebarHead + Links(PageNames(paths))
  }

  lemma SidebarHeadLines(head: seq<string>)
    requires head == ["# Sidebar", "", " - [Home](home)"]
    ensures UnLines(head) == SidebarHead
  {
    UnLinesOfThree(head[0], head[1], head[2]);
    assert head == [head[0], head[1], head[2]];
    assert head[0] + "\n" + head[1] + "\n" + head[2] + "\n" == SidebarHead;
  }

  lemma UnLinesOfThree(a: string, b: string, c: string)
    ensures UnLines([a, b, c]) == a + "\n" + b + "\n" + c + "\n"
  {
    assert [a, b, c][1..] == [b, c];
    assert [b, c][1..] == [c];
    assert UnLines([c]) == c + "\n";
    assert UnLines([b, c]) == b + "\n" + (c + "\n");
  }

  lemma SidebarHeadOneLine(head: seq<string>)
    requires head == ["# Sidebar", "", " - [Home](home)"]
    ensures forall i :: 0 <= i < |head| ==> OneLine(head[i])
  {
    assert OneLine(head[0]);
    assert OneLine(head[2]);
  }

  /** The lines of the head followed by the link list, when no page name
      holds a newline. */
  lemma SidebarTextLines(paths: seq<string>)
    ensures (forall i :: 0 <= i < |paths| ==> OneLine(PageName(paths[i]))) ==>
      Lines(SidebarHead + Links(PageNames(paths))) == ["# Sidebar", "", " - [Home](home)"] + LinkLines(PageNames(paths))
  {
    if forall i :: 0 <= i < |paths| ==> OneLine(PageName(paths[i])) {
      var head := ["# Sidebar", "", " - [Home](home)"];
      var names := PageNames(paths);
      SidebarHeadLines(head);
      SidebarHeadOneLine(head);
      LinkLinesOneLine(names);
      LinesOfUnLinesAppend(head, LinkLines(names));
    }
  }


  /** A piece of a `str.format` template: literal text or a named field. */
  datatype Piece = Literal(text: string) | RepoName | Toc

  const WelcomeLine := "\n# Welcome to "
  const IntroLine := " terragrunt Wiki\n\n## Introduction\nWelcome to the official wiki for the **"
  const TocHeading := "** project. Here you will find all the necessary documentation to understand and contribute to the project.\n\n## Table of Contents\n"

  /** `HOMEPAGE_CONTENT` (gen-wiki.py lines 11-19) cut at its replacement fields. */
  const HomeTemplate: seq<Piece> :=
    [Literal(WelcomeLine), RepoName, Literal(IntroLine), RepoName, Literal(TocHeading), Toc, Literal("\n")]

  /** `template.format(repo_name=repo, toc=toc)` */
  function Format(template: seq<Piece>, repo: string, toc: string): string {
    if template == [] then ""
    else
      (match template[0]
       case Literal(t) => t
       case RepoName => repo
       case Toc => toc)
      + Format(template[1..], repo, toc)
  }

  lemma {:induction false} FormatAppend(a: seq<Piece>, b: seq<Piece>, repo: string, toc: string)
    ensures Format(a + b, repo, toc) == Format(a, repo, toc) + Format(b, repo, toc)
  {
    if a == [] {
      assert a + b == b;
    } else {
      assert (a + b)[1..] == a[1..] + b;
      FormatAppend(a[1..], b, repo, toc);
    }
  }

  /** Formatting a template with no fields gives its text, whatever the
      arguments. */
  lemma {:induction false} FormatLiteral(t: string, repo: string, toc: string)
    ensures Format([Literal(t)], repo, toc) == t
  {
    assert [Literal(t)][1..] == [];
  }

  lemma FormatField(f: Piece, repo: string, toc: string)
    requires !f.Literal?
    ensures Format([f], repo, toc) == if f.RepoName? then repo else toc
  {
    assert [f][1..] == [];
  }

  /** `generate_homepage_content(repo_name, md_files)` (gen-wiki.py lines
      146-153): the welcome text naming the repository twice, then one link
      per file at the `{toc}` field, then a final newline. */
  function Homepage(repo: string, paths: seq<string>): (r: string)
    ensures r == WelcomeLine + repo + IntroLine + repo + TocHeading + UnLines(LinkLines(PageNames(paths))) + "\n"
  {
    HomeFormat(repo, Links(PageNames(paths)));
    Format(HomeTemplate, repo, Links(PageNames(paths)))
  }

  /** Formatting the homepage template puts the repository name at both
      `{repo_name}` fields and the table of contents at the `{toc}` field. */
  lemma HomeFormat(repo: string, toc: string)
    ensures Format(HomeTemplate, repo, toc) == WelcomeLine + repo + IntroLine + repo + TocHeading + toc + "\n"
  {
    var t := HomeTemplate;
    var p0, p1, p2, p3 := [t[0]], [t[1]], [t[2]], [t[3]];
    var p4, p5, p6 := [t[4]], [t[5]], [t[6]];
    assert t == p0 + p1 + p2 + p3 + p4 + p5 + p6;
    FormatAppend(p0 + p1 + p2 + p3 + p4 + p5, p6, repo, toc);
    FormatAppend(p0 + p1 + p2 + p3 + p4, p5, repo, toc);
    FormatAppend(p0 + p1 + p2 + p3, p4, repo, toc);
    FormatAppend(p0 + p1 + p2, p3, repo, toc);
    FormatAppend(p0 + p1, p2, repo, toc);
    FormatAppend(p0, p1, repo, toc);
    FormatLiteral(WelcomeLine, repo, toc);
    FormatLiteral(IntroLine, repo, toc);
    FormatLiteral(TocHeading, repo, toc);
    FormatLiteral("\n", repo, toc);
    FormatField(RepoName, repo, toc);
    FormatField(Toc, repo, toc);
  }

  /** Appending a page name appends its link line. */
  lemma LinksSnoc(names: seq<string>, n: string)
    ensures Links(names + [n]) == Links(names) + Link(n) + "\n"
  {
    assert LinkLines(names + [n]) == LinkLines(names) + [Link(n)];
    UnLinesAppend(LinkLines(names), [Link(n)]);
  }

  /** One turn of the loops of gen-wiki.py lines 140-143 and 149-152. */
  lemma LinksStep(names: seq<string>, i: nat)
    requires i < |names|
    ensures Links(names[..i + 1]) == Links(names[..i]) + Link(names[i]) + "\n"
  {
    assert names[..i + 1] == names[..i] + [names[i]];
    LinksSnoc(names[..i], names[i]);
  }

  /** The loop both index pages run (gen-wiki.py lines 140-143 and 149-152): one link
      line per file, in the order given. */
  method LinkList(mdFiles: seq<string>) returns (toc: string)
    ensures toc == Links(PageNames(mdFiles))
  {
    var names := PageNames(mdFiles);
    toc := "";
    for i := 0 to |mdFiles|
      invariant toc == Links(names[..i])
    {
      LinksStep(names, i);
      toc := toc + Link(names[i]) + "\n";
    }
    assert names[..|names|] == names;
  }

  /** `generate_sidebar_content(md_files)` (gen-wiki.py lines 137-144). */
  method GenerateSidebar(mdFiles: seq<string>) returns (content: string)
    ensures content == SidebarHead + UnLines(LinkLines(PageNames(mdFiles)))
    ensures (forall i :: 0 <= i < |mdFiles| ==> OneLine(PageName(mdFiles[i]))) ==>
      Lines(content) == ["# Sidebar", "", " - [Home](home)"] + LinkLines(PageNames(mdFiles))
  {
    var toc := LinkList(mdFiles);
    content := SidebarHead + toc;
    assert content == Sidebar(mdFiles);
  }

  /** `generate_homepage_content(repo_name, md_files)` (gen-wiki.py lines 146-153). */
  method GenerateHomepage(repo: string, mdFiles: seq<string>) returns (content: string)
    ensures content == WelcomeLine + repo + IntroLine + repo + TocHeading + UnLines(LinkLines(PageNames(mdFiles))) + "\n"
  {
    var toc := LinkList(mdFiles);
    content := Format(HomeTemplate, repo, toc);
    HomeFormat(repo, toc);
  }
}
