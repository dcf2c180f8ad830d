# firebase-admin-node: credential caches and documentation post-processing

This project models two parts of firebase-admin-node and proves properties about them.

**Credential caches (`src/credentials.ts`).** `cert` and `refreshToken` each keep a process-wide table. Each table maps the `JSON.stringify` text of an input to the credential built for that input. A credential is built only for a key the table does not yet hold, and the stored entry is always what the call returns. `applicationDefault` keeps one slot, which it fills on its first call.

The three module variables become the fields of a `CredentialCache` object:
- `certCreds` and `refreshTokenCreds` are maps.
- `appDefaultCred` is an `Option`.

The operations are methods that change only their own field.

Serialisation is a function parameter of the cache, `stringify`. It is deterministic but not assumed to be injective. So the model promises only what the code gives: equal keys share one credential, and distinct keys never do. Two different inputs with the same text share one credential. The code does exactly that, and the model follows the code rather than a reading in which distinct inputs never share a credential.

On a cache hit, the agent passed by the later call is ignored. The model states this outright (`CertSameKey`).

**Documentation script (`docgen/generate-markdown.js`).** The script post-processes the markdown written by `api-documenter`. The model covers these parts of it:
- path and file-name helpers: `stripPath`, `canonicalReferenceToFileName`;
- the "Referenced types" table that `enrichTypeAliases` appends to type-alias pages;
- the table of contents that `generateToc` builds from the API report;
- the home page lines that `generateTempHomeMdFile` writes;
- the template wrapping in `addFormatting`.

Files are in-memory strings, and the markdown directory is a map from file name to contents. The script's loops are methods without side effects. Each method is proved equal to a specification function, and the lemmas are stated about those functions.

The JavaScript built-ins the script relies on are in module `Text`: `split` and `join` with a one-character separator, `indexOf`, `replace` with a one-character pattern, ASCII `toLowerCase`, `endsWith`, and array `filter` and `map`.

Files:
- `wrappers.dfy`: `Option`.
- `text.dfy`: module `Text`.
- `credentials.dfy`: module `Credentials`.
- `docgen.dfy`: module `Docgen`.

## Model

| member | source | states |
|---|---|---|
| Credentials.CredentialCache.constructor | src/credentials.ts:24-26 | A freshly loaded module has both tables empty and the default slot undefined. |
| Credentials.CredentialCache.Cert | src/credentials.ts:28-34 | Afterwards the input's key is in the cert table and the result is its entry. On a hit the table is unchanged. On a miss exactly one entry is added under the key: a new cert credential built from this input and this agent. Old entries are kept, the tables only grow, and the other two stores are untouched. |
| Credentials.CredentialCache.RefreshToken | src/credentials.ts:36-43 | The same insert-if-absent behaviour on the refresh-token table. It never reads or writes the cert table or the default slot. |
| Credentials.CredentialCache.ApplicationDefault | src/credentials.ts:45-50 | The first call builds a new application-default credential with the given agent and stores it. Every later call returns the stored object. The keyed tables are untouched. |
| Credentials.CertSameKey | src/credentials.ts:29-33 | Two `cert` calls whose inputs have the same key return the same object. The second call's agent is ignored, and the table ends as after the first call. |
| Credentials.CertIdempotent | src/credentials.ts:28-34 | `cert(x); cert(x)` returns one object twice and leaves the state a single `cert(x)` leaves. |
| Credentials.RefreshTokenIdempotent | src/credentials.ts:36-43 | The same idempotence for `refreshToken`. |
| Credentials.ApplicationDefaultSingleton | src/credentials.ts:45-50 | Two calls return the same object whatever the agents. A first call on an empty slot builds the object with the first agent. |
| Credentials.DistinctKeysDistinctCredentials | src/credentials.ts:30-31 | Entries of the cert table stored under different keys are different objects. |
| Credentials.StoresShareNothing | src/credentials.ts:24-26 | No credential is in more than one of the three stores. |
| Text.Split | docgen/generate-markdown.js:101 | `split` with a one-character separator gives one more piece than there are separators. |
| Text.SplitPiecesFree | docgen/generate-markdown.js:101 | No piece of a split contains the separator. |
| Text.JoinSplit | docgen/generate-markdown.js:101 | Joining the pieces of a split with the same separator gives the text back. |
| Text.SplitJoin | docgen/generate-markdown.js:101 | Splitting a join of separator-free pieces gives the pieces back. |
| Text.SplitFirst | docgen/generate-markdown.js:141 | The first piece is the text before the first separator, or the whole text if there is none. |
| Text.SplitLast | docgen/generate-markdown.js:102 | The last piece is a suffix of the text. When it is shorter than the text, a separator comes just before it. |
| Text.ToLowerAscii | docgen/generate-markdown.js:141 | Same length. Each character is lower-cased on its own. No ASCII capital remains. |
| Text.ReplaceFirst | docgen/generate-markdown.js:141 | Only the first occurrence of the pattern changes. Without an occurrence, the text is unchanged. |
| Text.JoinStart | docgen/generate-markdown.js:97 | A join starts with its first piece, the separator, and its second piece. |
| Docgen.StripPath | docgen/generate-markdown.js:100-103 | The result has no `/`, is a suffix of the path, and is preceded by a `/` whenever it is shorter than the path. |
| Docgen.StripPathAfterLastSlash | docgen/generate-markdown.js:100-103 | For `dir + "/" + file` where `file` has no `/`, the result is `file`. |
| Docgen.StripPathNoSlash | docgen/generate-markdown.js:100-103 | A path without `/` is returned unchanged. |
| Docgen.StripPathTrailingSlash | docgen/generate-markdown.js:100-103 | A path that ends in `/` gives the empty string. |
| Docgen.CanonicalReferenceToFileName | docgen/generate-markdown.js:140-143 | The name ends in `.md`. The part before `.md` has no `:` and no ASCII capital. |
| Docgen.CanonicalFileNameChars | docgen/generate-markdown.js:140-143 | The name before `.md` is as long as the reference up to its first `:`. Each character is the lower-cased reference character, except the first `!`, which becomes `.`. Any later `!` stays. |
| Docgen.GenerateAliasTable | docgen/generate-markdown.js:145-151 | The loop's result is the heading followed by one `* [name](./path)` line per ref, in input order. |
| Docgen.AliasTableLineCount | docgen/generate-markdown.js:145-151 | When names and paths have no line breaks, the table has 3 + (number of refs) line breaks. |
| Docgen.HeadingLineCount | docgen/generate-markdown.js:146 | The heading holds three line breaks. |
| Docgen.AliasLinesCount | docgen/generate-markdown.js:147-149 | The link lines hold one line break per ref. |
| Docgen.AliasLineCount | docgen/generate-markdown.js:148 | One link line holds exactly one line break. |
| Docgen.CollectRefs | docgen/generate-markdown.js:120-128 | The loop collects one link per `Reference` token, in token order. |
| Docgen.RefsCharacterized | docgen/generate-markdown.js:120-130 | There are no links exactly when no token is a `Reference`. Link i comes from the i-th `Reference` token, and every link points to a `.md` file. |
| Docgen.EnrichedPageUnchangedIffNoRefs | docgen/generate-markdown.js:130-134 | The page after enrichment starts with the old page. It equals the old page exactly when there are no links. |
| Docgen.EnrichAlias | docgen/generate-markdown.js:117-134 | For one type alias: with links, the table is appended to its page, or the missing page is reported. Without links, nothing changes. |
| Docgen.EnrichNamespace | docgen/generate-markdown.js:116-136 | The loop over a namespace's members handles its type aliases in order and stops at the first missing page. |
| Docgen.CollectNamespaces | docgen/generate-markdown.js:108-113 | The loop keeps exactly the `Namespace` members, in order. |
| Docgen.EnrichTypeAliases | docgen/generate-markdown.js:105-138 | The whole pass equals the fold of the one-alias step over every type alias of every namespace, in order, stopping at the first missing page. |
| Docgen.EnrichFilesAppend | docgen/generate-markdown.js:115-137 | Running over `a + b` is running over `a`, then over `b` unless the run stopped. |
| Docgen.EnrichOnlyAppends | docgen/generate-markdown.js:130-134 | No page is created or removed, and every page after the run starts with its old contents. |
| Docgen.EnrichLeavesOtherPages | docgen/generate-markdown.js:115-137 | A page that no alias with links maps to keeps its contents. |
| Docgen.EnrichMissingIsAbsent | docgen/generate-markdown.js:131-133 | A run stops only on a page the directory lacks, and it names that page. |
| Docgen.PartitionMembers | docgen/generate-markdown.js:45-54 | The first loop puts exactly the `Namespace` members, in order, into `namespaces`. Every other member becomes an `admin` entry, in order. |
| Docgen.CollectNamespaceEntries | docgen/generate-markdown.js:63-70 | The inner loop gives one entry per non-`Variable` member, in order. |
| Docgen.BuildNamespaceGroup | docgen/generate-markdown.js:58-77 | A namespace's node has its entries followed by its overrides. An empty section is deleted. |
| Docgen.GenerateToc | docgen/generate-markdown.js:24-79 | The tree is the `admin` group followed by one group per namespace, in order. |
| Docgen.NamespaceEntriesAreNonVariables | docgen/generate-markdown.js:63-70 | A namespace's entries correspond one to one, in order, to its non-`Variable` members. |
| Docgen.TocPartitionsMembers | docgen/generate-markdown.js:45-57 | The tree has 1 + (number of namespaces) groups, and group i + 1 is the i-th namespace's. The `admin` entries and the namespace groups together account for every member exactly once. |
| Docgen.NamespaceSectionDeletedIffEmpty | docgen/generate-markdown.js:63-77 | A section is deleted exactly when all the namespace's members are `Variable`s and the namespace is not `database`. Otherwise it holds the entries followed by the overrides. |
| Docgen.TocPathsAreLowerCasedNames | docgen/generate-markdown.js:49-68 | Every entry path is the fixed prefix, then the namespace name for a namespace entry, then the lower-cased title. |
| Docgen.PushSectionLines | docgen/generate-markdown.js:92-94 | The inner loop appends one bullet per section item, in order. |
| Docgen.BuildHomePageLines | docgen/generate-markdown.js:88-95 | The lines are the home text, `# API Reference`, then for each group its header line followed by its bullets. |
| Docgen.TocLinesCount | docgen/generate-markdown.js:89-95 | There is one header per group and one bullet per section item. A group without a section contributes only its header. |
| Docgen.HomePageStart | docgen/generate-markdown.js:88-97 | The written page starts with the home text, a line break, and `# API Reference`. |
| Docgen.AdminItemLink | docgen/generate-markdown.js:93 | The bullet of a top-level member whose name has no `/` links to `firebase-admin.` followed by its lower-cased name. That path is built on line 51. |
| Docgen.Format | docgen/generate-markdown.js:166-170 | The page is the header line, the contents, and the footer line. The contents can be read back from between them. |
| Docgen.MarkdownFiles | docgen/generate-markdown.js:162 | A name is kept exactly when it is in the listing and ends in `.md`. |
| Docgen.AddFormatting | docgen/generate-markdown.js:160-173 | The same file names as before. Every `.md` page is wrapped, and every other file is unchanged. |

## Left out

- Credentials.CredentialCache.Cert: the credential classes (`CertCredential`, `RefreshTokenCredential`, `ApplicationDefaultCredential`) are defined in `src/auth/credential`, which is not part of this model. A credential is an opaque new object recording its kind, input and agent.
- Credentials.CredentialCache.Cert: `JSON.stringify` is an abstract deterministic parameter. Its text, its non-injectivity on inputs such as `{a: undefined}` against `{}`, and its exceptions on cyclic input are not modelled. An exception happens before any table change, so the state after a thrown call is the state before it.
- An `http.Agent` is an opaque object.
- The service registry behind `src/auth/index.ts` (`app.getService`) lives in `firebase-app`, which is not part of this model.
- `src/database/index.ts` and `src/firebase-namespace.d.ts` hold only type declarations and re-exports.
- Docgen I/O is not modelled, because it is outside the computation:
  - reading the API report, `fs` reads, writes, `readdir` and `copyFile`;
  - the `api-documenter` command;
  - `console.log`, `process.exit`, and `main`'s sequencing and `catch`;
  - `copyOverrides`, which only copies files.
- Docgen.GenerateToc: `report.members[0]` is taken as the input entry point. A report without members, which makes the script throw, is not modelled.
- Docgen.BuildHomePageLines: the table of contents is used as built. The `yaml.dump`/`yaml.safeLoad` round trip between `generateToc` and `generateTempHomeMdFile` is taken to be the identity.
- Docgen.BuildNamespaceGroup: `overrides[ns.name]` is modelled as a lookup of the `database` key only. The inherited properties of a JavaScript object, such as a namespace named `constructor`, are not modelled.
- Text.ToLowerAscii: maps only the ASCII capitals `A`–`Z`. The full Unicode `toLowerCase` is not modelled.
- Docgen.AddFormatting: the per-file `Promise.all` concurrency is left out. Each file's transformation is independent of the others, and the result is the final directory.
- `Buffer` contents are modelled as strings.
