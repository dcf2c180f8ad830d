/**
 The text, path and tree computations of `docgen/generate-markdown.js`, the script
 that post-processes the markdown produced by `api-documenter`: the table of
 contents built from the API report, the home page listing it, the "Referenced
 types" table appended to type-alias pages, and the template wrapping of every
 markdown page. Files are in-memory strings and the markdown directory is a map
 from file name to contents; reading, writing and running external tools are
 outside the model.
 */
module Docgen {
  import opened Wrappers
  import opened Text

  // ---------------------------------------------------------------- the API report

  /** An excerpt token of an API item; `canonicalReference` is read only for `Reference` tokens. */
  datatype ExcerptToken = ExcerptToken(kind: string, text: string, canonicalReference: string)

  /** An item of the API report: the entry point, a namespace, a class, a variable, a type alias… */
  datatype ApiItem = ApiItem(
    kind: string,
    name: string,
    canonicalReference: string,
    members: seq<ApiItem>,
    excerptTokens: seq<ExcerptToken>)

  /** An item of a `section` list of the table of contents. */
  datatype TocEntry = TocEntry(title: string, path: string)

  /** A group of the table of contents; `section` is `None` once it has been deleted. */
  datatype TocGroup = TocGroup(title: string, path: string, section: Option<seq<TocEntry>>)

  /** A link of a "Referenced types" table. */
  datatype Ref = Ref(name: string, path: string)

  predicate IsNamespace(m: ApiItem) { m.kind == "Namespace" }
  predicate IsNotNamespace(m: ApiItem) { m.kind != "Namespace" }
  predicate IsNotVariable(m: ApiItem) { m.kind != "Variable" }
  predicate IsTypeAlias(m: ApiItem) { m.kind == "TypeAlias" }
  predicate IsReference(t: ExcerptToken) { t.kind == "Reference" }

  // ---------------------------------------------------------------- stripPath

  /** `stripPath(path)`: the last `/`-separated piece of `path`. */
  function StripPath(path: string): (r: string)
    ensures '/' !in r
    ensures EndsWith(path, r)
    ensures |r| < |path| ==> path[|path| - |r| - 1] == '/'
  {
    SplitLast(path, '/');
    SplitPiecesFree(path, '/');
    var parts := Split(path, '/');
    parts[|parts| - 1]
  }

  /** The piece `stripPath` returns is the one after the last `/`: any split at a `/` with no `/` after it. */
  lemma StripPathAfterLastSlash(dir: string, file: string)
    requires '/' !in file
    ensures StripPath(dir + "/" + file) == file
  {
    var p := dir + "/" + file;
    var r := StripPath(p);
    assert p[|p| - |file| - 1] == '/';

  }

  /** A path without `/` is returned unchanged. */
  lemma StripPathNoSlash(path: string)
    requires '/' !in path
    ensures StripPath(path) == path
  {

  }

  /** A path that ends in `/` gives the empty string. */
  lemma StripPathTrailingSlash(path: string)
    requires |path| > 0 && path[|path| - 1] == '/'
    ensures StripPath(path) == ""
  {

  }

  // ---------------------------------------------------------------- canonicalReferenceToFileName

  /** `canonicalReferenceToFileName(ref)`: lower-case, first `!` to `.`, cut at the first `:`, add `.md`. */
  function CanonicalReferenceToFileName(reference: string): (r: string)
    ensures EndsWith(r, ".md")
    ensures ':' !in r[..|r| - 3]
    ensures forall c :: c in r[..|r| - 3] ==> !IsUpperAscii(c)
  {
    var lower := ToLowerAscii(reference);
    var replaced := ReplaceFirst(lower, '!', '.');
    assert forall k :: 0 <= k < |replaced| ==> !IsUpperAscii(replaced[k]);
    SplitPiecesFree(replaced, ':');
    SplitFirst(replaced, ':');
    var name := Split(replaced, ':')[0];
    name + ".md"
  }

  /**
   The file name character by character: as long as the reference up to its first
   `:`, with the reference's first `!` turned into `.` and every other character
   lower-cased, so any later `!` stays.
   */
  lemma CanonicalFileNameChars(reference: string)
    ensures var r := CanonicalReferenceToFileName(reference);
      var cut := if ':' in reference then IndexOf(reference, ':') else |reference|;
      && |r| == cut + 3
      && forall j :: 0 <= j < cut ==>
           r[j] == if '!' in reference && j == IndexOf(reference, '!') then '.' else LowerChar(reference[j])
  {
    var lower := ToLowerAscii(reference);
    var replaced := ReplaceFirst(lower, '!', '.');
    var cut := if ':' in reference then IndexOf(reference, ':') else |reference|;
    assert Split(replaced, ':')[0] == replaced[..cut] by {
      assert forall i :: 0 <= i < |reference| ==> (reference[i] == ':' <==> replaced[i] == ':');
      IndexOfSamePositions(reference, replaced, ':');
      SplitFirst(replaced, ':');
    }
    assert && ('!' in reference <==> '!' in lower)
           && ('!' in reference ==> IndexOf(reference, '!') == IndexOf(lower, '!')) by {
      assert forall i :: 0 <= i < |reference| ==> (reference[i] == '!' <==> lower[i] == '!');
      IndexOfSamePositions(reference, lower, '!');
    }
  }

  // ---------------------------------------------------------------- generateAliasTable

  const AliasTableTitle := "### Referenced types"
  const AliasTableHeading := "\n" + AliasTableTitle + "\n\n"

  /** One line of the table: a markdown list item linking to the referenced type's page. */
  function AliasLine(r: Ref): string
  {
    "* [" + r.name + "](./" + r.path + ")\n"
  }

  /** The list items for `refs`, in their order. */
  function AliasLines(refs: seq<Ref>): string
  {
    ConcatMap(refs, AliasLine)
  }

  function AliasTable(refs: seq<Ref>): string
  {
    AliasTableHeading + AliasLines(refs)
  }

  /** `generateAliasTable(refs)`, accumulating the table in a loop as the script does. */
  method GenerateAliasTable(refs: seq<Ref>) returns (table: string)
    ensures table == AliasTable(refs)
  {
    table := AliasTableHeading;
    assert AliasLines(refs[..0]) == [];
    for i := 0 to |refs|
      invariant table == AliasTableHeading + AliasLines(refs[..i])
    {
      ConcatMapPrefix(refs, i, AliasLine);
      table := table + AliasLine(refs[i]);
    }
    assert refs[..|refs|] == refs;
  }

  /** With names and paths free of line breaks, the table has its three heading line breaks and one line per link. */
  lemma AliasTableLineCount(refs: seq<Ref>)
    requires forall i :: 0 <= i < |refs| ==> '\n' !in refs[i].name && '\n' !in refs[i].path
    ensures Count(AliasTable(refs), '\n') == 3 + |refs|
  {
    CountAppend(AliasTableHeading, AliasLines(refs), '\n');
    HeadingLineCount();
    AliasLinesCount(refs);
  }

  /** The heading holds three line breaks. */
  lemma HeadingLineCount()
    ensures Count(AliasTableHeading, '\n') == 3
  {
    assert Count(AliasTableTitle, '\n') == 0 by {
      assert '\n' !in AliasTableTitle;
      CountAbsent(AliasTableTitle, '\n');
    }
    assert Count("\n\n", '\n') == 2 by {
      assert "\n\n"[1..] == "\n";
    }
    CountAppend("\n", AliasTableTitle, '\n');
    CountAppend("\n" + AliasTableTitle, "\n\n", '\n');
  }

  lemma {:induction false} AliasLinesCount(refs: seq<Ref>)
    requires forall i :: 0 <= i < |refs| ==> '\n' !in refs[i].name && '\n' !in refs[i].path
    ensures Count(AliasLines(refs), '\n') == |refs|
  {
    if |refs| > 0 {
      AliasLinesCount(refs[..|refs| - 1]);
      CountAppend(ConcatMap(refs[..|refs| - 1], AliasLine), AliasLine(refs[|refs| - 1]), '\n');
      AliasLineCount(refs[|refs| - 1]);
    }
  }

  lemma AliasLineCount(r: Ref)
    requires '\n' !in r.name && '\n' !in r.path
    ensures Count(AliasLine(r), '\n') == 1
  {
    var open := "* [" + r.name + "](./";
    assert Count(open, '\n') == 0 by {
      CountAbsent(open, '\n');
    }
    assert Count(open + r.path, '\n') == 0 by {
      CountAbsent(open + r.path, '\n');
    }
    assert Count(")\n", '\n') == 1 by {
      assert ")\n"[1..] == "\n";
    }
    assert AliasLine(r) == open + r.path + ")\n";
    CountAppend(open + r.path, ")\n", '\n');
  }

  // ---------------------------------------------------------------- enrichTypeAliases

  /** The link for a `Reference` token: its text and the file name of what it refers to. */
  function RefOf(t: ExcerptToken): Ref
  {
    Ref(t.text, CanonicalReferenceToFileName(t.canonicalReference))
  }

  /** The links of a type alias: one per `Reference` token, in token order. */
  function Refs(excerptTokens: seq<ExcerptToken>): seq<Ref>
  {
    MapSeq(Filter(excerptTokens, IsReference), RefOf)
  }

  /** The `refs` loop of `enrichTypeAliases`. */
  method CollectRefs(excerptTokens: seq<ExcerptToken>) returns (refs: seq<Ref>)
    ensures refs == Refs(excerptTokens)
  {
    refs := [];
    for i := 0 to |excerptTokens|
      invariant refs == MapSeq(Filter(excerptTokens[..i], IsReference), RefOf)
    {
      assert excerptTokens[..i + 1][..i] == excerptTokens[..i];
      var token := excerptTokens[i];
      ghost var before := Filter(excerptTokens[..i], IsReference);
      assert Filter(excerptTokens[..i + 1], IsReference) == before + if IsReference(token) then [token] else [];
      MapSeqAppend(before, [token], RefOf);
      assert MapSeq([token], RefOf) == [RefOf(token)];
      if token.kind == "Reference" {
        refs := refs + [Ref(token.text, CanonicalReferenceToFileName(token.canonicalReference))];
      }
    }
    assert excerptTokens[..|excerptTokens|] == excerptTokens;
  }

  /** There are links exactly when some token is a `Reference`, and every link points to a `.md` file. */
  lemma RefsCharacterized(excerptTokens: seq<ExcerptToken>)
    ensures |Refs(excerptTokens)| == 0 <==> forall t :: t in excerptTokens ==> t.kind != "Reference"
    ensures forall i :: 0 <= i < |Refs(excerptTokens)| ==>
      Refs(excerptTokens)[i] == RefOf(Filter(excerptTokens, IsReference)[i])
      && EndsWith(Refs(excerptTokens)[i].path, ".md")
  {
    var refTokens := Filter(excerptTokens, IsReference);
    FilterMembers(excerptTokens, IsReference);
    if |refTokens| > 0 {
      assert refTokens[0] in refTokens;
    }
  }

  /** A type alias page after enrichment: the table is appended only when there are links. */
  function EnrichedPage(content: string, refs: seq<Ref>): string
  {
    if |refs| > 0 then content + AliasTable(refs) else content
  }

  lemma EnrichedPageUnchangedIffNoRefs(content: string, refs: seq<Ref>)
    ensures StartsWith(EnrichedPage(content, refs), content)
    ensures EnrichedPage(content, refs) == content <==> |refs| == 0
  {
    if |refs| > 0 {
      assert |EnrichedPage(content, refs)| >= |content| + |AliasTableHeading|;
    }
  }

  /** The type aliases of the namespaces, namespace by namespace, in member order. */
  function TypeAliases(namespaces: seq<ApiItem>): seq<ApiItem>
  {
    if |namespaces| == 0 then []
    else Filter(namespaces[0].members, IsTypeAlias) + TypeAliases(namespaces[1..])
  }

  /** The markdown directory after a run, and the alias page it could not read, if any. */
  datatype EnrichOutcome = EnrichOutcome(files: map<string, string>, missing: Option<string>)

  /**
   What `enrichTypeAliases` does for one type alias: with links, its page gets the
   table appended, and a page that does not exist is reported (reading it throws).
   */
  function EnrichStep(files: map<string, string>, alias: ApiItem): EnrichOutcome
  {
    var refs := Refs(alias.excerptTokens);
    if |refs| == 0 then EnrichOutcome(files, None)
    else
      var aliasFile := CanonicalReferenceToFileName(alias.canonicalReference);
      if aliasFile !in files then EnrichOutcome(files, Some(aliasFile))
      else EnrichOutcome(files[aliasFile := EnrichedPage(files[aliasFile], refs)], None)
  }

  /** `enrichTypeAliases` as a fold of `EnrichStep` over the type aliases, stopping at the first missing page. */
  function EnrichFiles(files: map<string, string>, aliases: seq<ApiItem>): EnrichOutcome
    decreases |aliases|
  {
    if |aliases| == 0 then EnrichOutcome(files, None)
    else
      var step := EnrichStep(files, aliases[0]);
      if step.missing.Some? then step else EnrichFiles(step.files, aliases[1..])
  }

  lemma EnrichFilesCons(files: map<string, string>, alias: ApiItem, rest: seq<ApiItem>)
    ensures EnrichFiles(files, [alias] + rest) ==
      var step := EnrichStep(files, alias);
      if step.missing.Some? then step else EnrichFiles(step.files, rest)
  {
    assert ([alias] + rest)[1..] == rest;
  }

  /** Running over `a + b` is running over `a`, then, unless it stopped, over `b`. */
  lemma {:induction false} EnrichFilesAppend(files: map<string, string>, a: seq<ApiItem>, b: seq<ApiItem>)
    ensures EnrichFiles(files, a + b) ==
      var first := EnrichFiles(files, a);
      if first.missing.Some? then first else EnrichFiles(first.files, b)
    decreases |a|
  {
    if |a| == 0 {
      assert a + b == b;
    } else {
      assert (a + b)[0] == a[0];
      assert (a + b)[1..] == a[1..] + b;
      var step := EnrichStep(files, a[0]);
      if step.missing.None? {
        EnrichFilesAppend(step.files, a[1..], b);
      }
    }
  }

  /** The body of the `TypeAlias` branch of `enrichTypeAliases`. */
  method EnrichAlias(alias: ApiItem, files: map<string, string>)
    returns (enriched: map<string, string>, missing: Option<string>)
    ensures EnrichOutcome(enriched, missing) == EnrichStep(files, alias)
  {
    var aliasFile := CanonicalReferenceToFileName(alias.canonicalReference);
    var refs := CollectRefs(alias.excerptTokens);
    enriched, missing := files, None;
    if |refs| > 0 {
      if aliasFile !in files {
        missing := Some(aliasFile);
        return;
      }
      var table := GenerateAliasTable(refs);
      enriched := files[aliasFile := files[aliasFile] + table];
    }
  }

  /** The loop of `enrichTypeAliases` over the members of one namespace. */
  method EnrichNamespace(ns: ApiItem, files: map<string, string>)
    returns (enriched: map<string, string>, missing: Option<string>)
    ensures EnrichOutcome(enriched, missing) == EnrichFiles(files, Filter(ns.members, IsTypeAlias))
  {
    ghost var goal := EnrichFiles(files, Filter(ns.members, IsTypeAlias));
    enriched, missing := files, None;
    assert ns.members[0..] == ns.members;
    for m := 0 to |ns.members|
      invariant missing == None
      invariant EnrichFiles(enriched, Filter(ns.members[m..], IsTypeAlias)) == goal
    {
      var member := ns.members[m];
      ghost var later := Filter(ns.members[m + 1..], IsTypeAlias);
      assert ns.members[m..] == [member] + ns.members[m + 1..];
      FilterCons(member, ns.members[m + 1..], IsTypeAlias);
      if member.kind == "TypeAlias" {
        assert Filter(ns.members[m..], IsTypeAlias) == [member] + later;
        EnrichFilesCons(enriched, member, later);
        enriched, missing := EnrichAlias(member, enriched);
        if missing.Some? {
          return;
        }
      } else {
        assert Filter(ns.members[m..], IsTypeAlias) == later;
      }
    }
    assert ns.members[|ns.members|..] == [];
  }

  /** The namespaces among the members of the entry point, in their order. */
  method CollectNamespaces(members: seq<ApiItem>) returns (namespaces: seq<ApiItem>)
    ensures namespaces == Filter(members, IsNamespace)
  {
    namespaces := [];
    for i := 0 to |members|
      invariant namespaces == Filter(members[..i], IsNamespace)
    {
      FilterPrefix(members, i, IsNamespace);
      if members[i].kind == "Namespace" {
        namespaces := namespaces + [members[i]];
      }
    }
    assert members[..|members|] == members;
  }

  /** `enrichTypeAliases` over the entry point of the report and the markdown directory `files`. */
  method EnrichTypeAliases(entryPoint: ApiItem, files: map<string, string>)
    returns (enriched: map<string, string>, missing: Option<string>)
    ensures EnrichOutcome(enriched, missing) ==
      EnrichFiles(files, TypeAliases(Filter(entryPoint.members, IsNamespace)))
  {
    var namespaces := CollectNamespaces(entryPoint.members);
    ghost var goal := EnrichFiles(files, TypeAliases(namespaces));
    enriched, missing := files, None;
    assert namespaces[0..] == namespaces;
    for n := 0 to |namespaces|
      invariant missing == None
      invariant EnrichFiles(enriched, TypeAliases(namespaces[n..])) == goal
    {
      assert namespaces[n..][0] == namespaces[n];
      assert namespaces[n..][1..] == namespaces[n + 1..];
      EnrichFilesAppend(enriched, Filter(namespaces[n].members, IsTypeAlias), TypeAliases(namespaces[n + 1..]));
      enriched, missing := EnrichNamespace(namespaces[n], enriched);
      if missing.Some? {
        return;
      }
    }
    assert namespaces[|namespaces|..] == [];
  }

  /** Enrichment neither creates nor removes pages, and only ever appends to a page. */
  lemma {:induction false} EnrichOnlyAppends(files: map<string, string>, aliases: seq<ApiItem>)
    ensures EnrichFiles(files, aliases).files.Keys == files.Keys
    ensures forall name :: name in files ==> StartsWith(EnrichFiles(files, aliases).files[name], files[name])
    decreases |aliases|
  {
    if |aliases| > 0 {
      var step := EnrichStep(files, aliases[0]);
      var refs := Refs(aliases[0].excerptTokens);
      if step.missing.None? {
        EnrichOnlyAppends(step.files, aliases[1..]);
        var aliasFile := CanonicalReferenceToFileName(aliases[0].canonicalReference);
        if |refs| > 0 {
          EnrichedPageUnchangedIffNoRefs(files[aliasFile], refs);
        }
        forall name | name in files
          ensures StartsWith(EnrichFiles(files, aliases).files[name], files[name])
        {
          var final := EnrichFiles(files, aliases).files[name];
          assert StartsWith(final, step.files[name]);
          assert StartsWith(step.files[name], files[name]);
          assert final[..|files[name]|] == step.files[name][..|files[name]|];
        }
      }
    }
  }

  /** A page that no alias with links is written to keeps its contents. */
  lemma {:induction false} EnrichLeavesOtherPages(files: map<string, string>, aliases: seq<ApiItem>, name: string)
    requires name in files
    requires forall i :: 0 <= i < |aliases| && |Refs(aliases[i].excerptTokens)| > 0 ==>
      CanonicalReferenceToFileName(aliases[i].canonicalReference) != name
    ensures name in EnrichFiles(files, aliases).files
    ensures EnrichFiles(files, aliases).files[name] == files[name]
    decreases |aliases|
  {
    if |aliases| > 0 {
      var step := EnrichStep(files, aliases[0]);
      if step.missing.None? {
        EnrichLeavesOtherPages(step.files, aliases[1..], name);
      }
    }
  }

  /** A run stops only on a page that the directory lacks, and then names it. */
  lemma {:induction false} EnrichMissingIsAbsent(files: map<string, string>, aliases: seq<ApiItem>)
    ensures EnrichFiles(files, aliases).missing.Some? ==> EnrichFiles(files, aliases).missing.value !in files
    decreases |aliases|
  {
    if |aliases| > 0 {
      var step := EnrichStep(files, aliases[0]);
      if step.missing.None? {
        EnrichMissingIsAbsent(step.files, aliases[1..]);
        EnrichOnlyAppends(files, [aliases[0]]);
      }
    }
  }

  // ---------------------------------------------------------------- generateToc

  /** The page of the `firebase-admin` entry point; every generated path extends it. */
  const ReferenceDir := "/docs/reference/admin/node"
  const PackageName := "firebase-admin"
  const AdminPath := ReferenceDir + "/" + PackageName

  /** Extra entries appended to a namespace's section, by namespace name. */
  const Overrides: map<string, seq<TocEntry>> :=
    map["database" := [TocEntry("Database", "/docs/reference/admin/node/firebase-admin.database.database")]]

  /** The entry of a top-level member: its name, and the path with the name lower-cased. */
  function AdminEntry(member: ApiItem): TocEntry
  {
    TocEntry(member.name, AdminPath + "." + ToLowerAscii(member.name))
  }

  /** The entry of a member of namespace `nsName`: the namespace name is kept as it is. */
  function NamespaceEntry(nsName: string, member: ApiItem): TocEntry
  {
    TocEntry(member.name, AdminPath + "." + nsName + "." + ToLowerAscii(member.name))
  }

  /** The entries of the non-`Variable` members of namespace `nsName`, in member order. */
  function NamespaceEntries(nsName: string, members: seq<ApiItem>): seq<TocEntry>
  {
    if |members| == 0 then []
    else
      var last := members[|members| - 1];
      NamespaceEntries(nsName, members[..|members| - 1]) +
        if IsNotVariable(last) then [NamespaceEntry(nsName, last)] else []
  }

  function OverridesOf(nsName: string): seq<TocEntry>
  {
    if nsName in Overrides then Overrides[nsName] else []
  }

  /** The `admin` group: the members of the entry point that are not namespaces. */
  function AdminGroup(entryPoint: ApiItem): TocGroup
  {
    TocGroup("admin", AdminPath, Some(MapSeq(Filter(entryPoint.members, IsNotNamespace), AdminEntry)))
  }

  /** The section of a namespace's group before an empty one is deleted. */
  function NamespaceSection(ns: ApiItem): seq<TocEntry>
  {
    NamespaceEntries(ns.name, ns.members) + OverridesOf(ns.name)
  }

  function NamespaceGroup(ns: ApiItem): TocGroup
  {
    var section := NamespaceSection(ns);
    TocGroup("admin." + ns.name, AdminPath + "." + ns.name, if |section| == 0 then None else Some(section))
  }

  /** The `toc` list that `generateToc` writes out: the `admin` group, then one group per namespace. */
  function Toc(entryPoint: ApiItem): seq<TocGroup>
  {
    [AdminGroup(entryPoint)] + MapSeq(Filter(entryPoint.members, IsNamespace), NamespaceGroup)
  }

  /** The inner loop of `generateToc`: the entries of a namespace's non-`Variable` members. */
  method CollectNamespaceEntries(ns: ApiItem) returns (section: seq<TocEntry>)
    ensures section == NamespaceEntries(ns.name, ns.members)
  {
    section := [];
    for j := 0 to |ns.members|
      invariant section == NamespaceEntries(ns.name, ns.members[..j])
    {
      var member := ns.members[j];
      assert ns.members[..j + 1][..j] == ns.members[..j];
      if member.kind != "Variable" {
        section := section + [TocEntry(member.name, AdminPath + "." + ns.name + "." + ToLowerAscii(member.name))];
      }
    }
    assert ns.members[..|ns.members|] == ns.members;
  }

  /** The first pass of `generateToc`: namespaces aside, every other member becomes an `admin` entry. */
  method PartitionMembers(members: seq<ApiItem>) returns (namespaces: seq<ApiItem>, adminSection: seq<TocEntry>)
    ensures namespaces == Filter(members, IsNamespace)
    ensures adminSection == MapSeq(Filter(members, IsNotNamespace), AdminEntry)
  {
    namespaces, adminSection := [], [];
    for i := 0 to |members|
      invariant namespaces == Filter(members[..i], IsNamespace)
      invariant adminSection == MapSeq(Filter(members[..i], IsNotNamespace), AdminEntry)
    {
      var member := members[i];
      FilterPrefix(members, i, IsNamespace);
      FilterPrefix(members, i, IsNotNamespace);
      if member.kind == "Namespace" {
        namespaces := namespaces + [member];
      } else {
        MapSeqAppend(Filter(members[..i], IsNotNamespace), [member], AdminEntry);
        adminSection := adminSection + [TocEntry(member.name, AdminPath + "." + ToLowerAscii(member.name))];
      }
    }
    assert members[..|members|] == members;
  }

  /** The node `generateToc` builds for one namespace, its section deleted when empty. */
  method BuildNamespaceGroup(ns: ApiItem) returns (child: TocGroup)
    ensures child == NamespaceGroup(ns)
  {
    var section := CollectNamespaceEntries(ns);
    if ns.name in Overrides {
      section := section + Overrides[ns.name];
    } else {
      assert section + OverridesOf(ns.name) == section;
    }
    child := TocGroup("admin." + ns.name, AdminPath + "." + ns.name, Some(section));
    if |section| == 0 {
      child := child.(section := None);
    }
  }

  /** The tree building of `generateToc`. */
  method GenerateToc(entryPoint: ApiItem) returns (toc: seq<TocGroup>)
    ensures toc == Toc(entryPoint)
  {
    var namespaces, adminSection := PartitionMembers(entryPoint.members);
    toc := [TocGroup("admin", AdminPath, Some(adminSection))];
    for n := 0 to |namespaces|
      invariant toc == [AdminGroup(entryPoint)] + MapSeq(namespaces[..n], NamespaceGroup)
    {
      var child := BuildNamespaceGroup(namespaces[n]);
      assert namespaces[..n + 1] == namespaces[..n] + [namespaces[n]];
      MapSeqAppend(namespaces[..n], [namespaces[n]], NamespaceGroup);
      toc := toc + [child];
    }
    assert namespaces[..|namespaces|] == namespaces;
  }

  /** The namespace entries are the non-`Variable` members, one by one and in order. */
  lemma {:induction false} NamespaceEntriesAreNonVariables(nsName: string, members: seq<ApiItem>)
    ensures |NamespaceEntries(nsName, members)| == |Filter(members, IsNotVariable)|
    ensures forall k :: 0 <= k < |NamespaceEntries(nsName, members)| ==>
      NamespaceEntries(nsName, members)[k] == NamespaceEntry(nsName, Filter(members, IsNotVariable)[k])
  {
    if |members| > 0 {
      NamespaceEntriesAreNonVariables(nsName, members[..|members| - 1]);
    }
  }

  /** The `admin` section and the namespace groups account for every member of the entry point once. */
  lemma TocPartitionsMembers(entryPoint: ApiItem)
    ensures |Toc(entryPoint)| == 1 + |Filter(entryPoint.members, IsNamespace)|
    ensures |AdminGroup(entryPoint).section.value| + |Toc(entryPoint)| - 1 == |entryPoint.members|
    ensures forall i :: 0 <= i < |Filter(entryPoint.members, IsNamespace)| ==>
      Toc(entryPoint)[i + 1] == NamespaceGroup(Filter(entryPoint.members, IsNamespace)[i])
  {
    var namespaces := Filter(entryPoint.members, IsNamespace);
    var groups := MapSeq(namespaces, NamespaceGroup);
    assert Toc(entryPoint) == [AdminGroup(entryPoint)] + groups;
    assert |AdminGroup(entryPoint).section.value| == |Filter(entryPoint.members, IsNotNamespace)|;
    assert |Filter(entryPoint.members, IsNotNamespace)| + |namespaces| == |entryPoint.members| by {
      FilterPartition(entryPoint.members, IsNotNamespace, IsNamespace);
    }
  }

  /**
   A namespace's section is deleted exactly when all its members are variables
   and it has no override entries; otherwise it lists the non-variable members, then the overrides.
   */
  lemma NamespaceSectionDeletedIffEmpty(ns: ApiItem)
    ensures NamespaceGroup(ns).section.None? <==>
      (forall m :: m in ns.members ==> m.kind == "Variable") && ns.name != "database"
    ensures NamespaceGroup(ns).section.Some? ==>
      NamespaceGroup(ns).section.value == NamespaceEntries(ns.name, ns.members) + OverridesOf(ns.name)
  {
    NamespaceEntriesAreNonVariables(ns.name, ns.members);
    FilterMembers(ns.members, IsNotVariable);
    var kept := Filter(ns.members, IsNotVariable);
    if |kept| > 0 {
      assert kept[0] in kept;
    }
  }

  /** Every generated entry path is the fixed prefix followed by the lower-cased member name. */
  lemma TocPathsAreLowerCasedNames(entryPoint: ApiItem, ns: ApiItem)
    ensures forall e :: e in AdminGroup(entryPoint).section.value ==>
      e.path == AdminPath + "." + ToLowerAscii(e.title)
    ensures forall e :: e in NamespaceEntries(ns.name, ns.members) ==>
      e.path == AdminPath + "." + ns.name + "." + ToLowerAscii(e.title)
  {
    NamespaceEntriesAreNonVariables(ns.name, ns.members);
    var kept := Filter(entryPoint.members, IsNotNamespace);
    var section := AdminGroup(entryPoint).section.value;
    forall e | e in section
      ensures e.path == AdminPath + "." + ToLowerAscii(e.title)
    {
      var k :| 0 <= k < |section| && section[k] == e;
      assert e == AdminEntry(kept[k]);
    }
  }

  // ---------------------------------------------------------------- generateTempHomeMdFile

  /** The heading line of a group. */
  function GroupHeader(group: TocGroup): string
  {
    "\n## [" + group.title + "](" + StripPath(group.path) + ")"
  }

  /** The bullet line of a section item: a link to its `.md` page. */
  function ItemLine(item: TocEntry): string
  {
    "- [" + item.title + "](" + StripPath(item.path) + ".md)"
  }

  /** `group.section || []` */
  function SectionOf(group: TocGroup): seq<TocEntry>
  {
    if group.section.Some? then group.section.value else []
  }

  function GroupLines(group: TocGroup): seq<string>
  {
    [GroupHeader(group)] + MapSeq(SectionOf(group), ItemLine)
  }

  /** The lines listing the groups, in order. */
  function TocLines(toc: seq<TocGroup>): seq<string>
  {
    ConcatMap(toc, GroupLines)
  }

  /** `tocPageLines`: the home text, the title, then the groups. */
  function HomePageLines(home: string, toc: seq<TocGroup>): seq<string>
  {
    [home, "# API Reference"] + TocLines(toc)
  }

  /** The contents written to `index.md`. */
  function HomePage(home: string, toc: seq<TocGroup>): string
  {
    Join(HomePageLines(home, toc), "\n")
  }

  /** The inner loop of `generateTempHomeMdFile`: one bullet per item of a group's section, pushed onto `lines`. */
  method PushSectionLines(lines: seq<string>, section: seq<TocEntry>) returns (pushed: seq<string>)
    ensures pushed == lines + MapSeq(section, ItemLine)
  {
    pushed := lines;
    for k := 0 to |section|
      invariant pushed == lines + MapSeq(section[..k], ItemLine)
    {
      var item := section[k];
      assert section[..k + 1] == section[..k] + [item];
      MapSeqAppend(section[..k], [item], ItemLine);
      assert MapSeq([item], ItemLine) == [ItemLine(item)];
      pushed := pushed + ["- [" + item.title + "](" + StripPath(item.path) + ".md)"];
    }
    assert section[..|section|] == section;
  }

  /** The line assembly of `generateTempHomeMdFile`. */
  method BuildHomePageLines(home: string, toc: seq<TocGroup>) returns (tocPageLines: seq<string>)
    ensures tocPageLines == HomePageLines(home, toc)
  {
    tocPageLines := [home, "# API Reference"];
    for g := 0 to |toc|
      invariant tocPageLines == [home, "# API Reference"] + TocLines(toc[..g])
    {
      var group := toc[g];
      ghost var done := TocLines(toc[..g]);
      var header := "\n## [" + group.title + "](" + StripPath(group.path) + ")";
      tocPageLines := tocPageLines + [header];
      var section := if group.section.Some? then group.section.value else [];
      tocPageLines := PushSectionLines(tocPageLines, section);
      AppendAssoc([home, "# API Reference"], done, [header], MapSeq(section, ItemLine));
      ConcatMapPrefix(toc, g, GroupLines);
    }
    assert toc[..|toc|] == toc;
  }

  /** The number of section items over all groups. */
  function ItemCount(toc: seq<TocGroup>): nat
  {
    if |toc| == 0 then 0 else ItemCount(toc[..|toc| - 1]) + |SectionOf(toc[|toc| - 1])|
  }

  /** One heading per group and one bullet per section item; a group without a section gives its heading only. */
  lemma {:induction false} TocLinesCount(toc: seq<TocGroup>)
    ensures |TocLines(toc)| == |toc| + ItemCount(toc)
    ensures forall g :: g in toc && g.section.None? ==> GroupLines(g) == [GroupHeader(g)]
  {
    if |toc| > 0 {
      TocLinesCount(toc[..|toc| - 1]);
      assert TocLines(toc) == TocLines(toc[..|toc| - 1]) + GroupLines(toc[|toc| - 1]);
      assert forall g :: g in toc ==> g in toc[..|toc| - 1] || g == toc[|toc| - 1];
    }
  }

  /** The home page starts with the home text and the title line. */
  lemma HomePageStart(home: string, toc: seq<TocGroup>)
    ensures StartsWith(HomePage(home, toc), home + "\n# API Reference")
  {
    JoinStart(home, "# API Reference", TocLines(toc), "\n");
    assert home + "\n" + "# API Reference" == home + "\n# API Reference";
  }

  /**
   The bullet of a top-level member links to `firebase-admin.<lower-cased name>.md`
   (the `ItemLine` of its entry) when its name has no `/`.
   */
  lemma AdminItemLink(member: ApiItem)
    requires '/' !in member.name
    ensures StripPath(AdminEntry(member).path) == PackageName + "." + ToLowerAscii(member.name)
  {
    var lower := ToLowerAscii(member.name);
    var file := PackageName + "." + lower;
    assert '/' !in file by {
      assert '/' !in PackageName + ".";
      assert forall i :: 0 <= i < |lower| ==> lower[i] != '/';
    }
    assert AdminPath + "." + lower == ReferenceDir + "/" + file;
    StripPathAfterLastSlash(ReferenceDir, file);
  }

  // ---------------------------------------------------------------- addFormatting

  const Header :=
    "{% extends \"_internal/templates/reference.html\" %}\n{% block title %}firebase-admin{% endblock title %}\n\n{% block body %}"

  const Footer := "{% endblock body %}"

  /** `page` is `contents` between the template's header line and footer line. */
  predicate Wraps(page: string, contents: string)
  {
    && |page| == |Header| + |contents| + |Footer| + 3
    && StartsWith(page, Header + "\n")
    && EndsWith(page, "\n" + Footer + "\n")
    && page[|Header| + 1..|page| - |Footer| - 2] == contents
  }

  /** A page wrapped in the site template. */
  function Format(contents: string): (r: string)
    ensures Wraps(r, contents)
  {
    Header + "\n" + contents + "\n" + Footer + "\n"
  }

  predicate IsMarkdownFile(name: string)
  {
    EndsWith(name, ".md")
  }

  /** `children.filter((child) => child.endsWith('.md'))` */
  function MarkdownFiles(children: seq<string>): (r: seq<string>)
    ensures forall name :: name in r <==> name in children && EndsWith(name, ".md")
  {
    FilterMembers(children, IsMarkdownFile);
    Filter(children, IsMarkdownFile)
  }

  /** The markdown directory after `addFormatting`: every `.md` page wrapped, every other file as it was. */
  function AddFormatting(files: map<string, string>): (r: map<string, string>)
    ensures r.Keys == files.Keys
    ensures forall name :: name in files && !IsMarkdownFile(name) ==> r[name] == files[name]
    ensures forall name :: name in files && IsMarkdownFile(name) ==> Wraps(r[name], files[name])
  {
    map name | name in files :: if IsMarkdownFile(name) then Format(files[name]) else files[name]
  }
}
