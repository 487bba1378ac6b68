# Tag-page generator, modelled in Dafny

This project models `_scripts/tag-generator.py`, the blog's tag-page generator. The script reads
every post and scans its front matter line by line. It is driven by two flags,
`in_front_matter` and `in_tags`. Each post adds the value of every `- <tag>` entry under its
`tags:` key to one set of tags. The script then deletes every `*.md` page in `tag-pages/` and
writes one page per distinct tag from a fixed template. Finally it prints the number of tags.

Modules:

- `Text` (`text.dfy`): Python 2 `str.strip()` and `str.split()`, plus their laws.
- `FrontMatter` (`front_matter.dfy`): the per-post scanner.
  - `Scan`/`ScanFrom`/`Step` are a reference definition by phase: before the front matter, in
    it, and in its tag list.
  - `ScanPost` is the script's flag-driven loop, proved to compute the same result.
  - Lemmas characterise exactly which tags a post yields, when the scan stops and where it can
    fail.
- `RenderedPosts` (`rendering.dfy`): posts laid out the usual way yield exactly the tags they
  list.
- `TagCollection` (`collect.dfy`): the loop over all posts, which builds the union of their
  tags or stops at the first malformed post.
- `TagPages` (`tag_pages.dfy`): page names, the page template, and the directory after
  regeneration.
  - `Regenerated` specifies that directory.
  - The `OutputDir` class holds the directory's state. Its methods model `os.remove`,
    `os.makedirs`, append-mode writes, and the delete-then-write loops.
- `TagGenerator` (`generator.dfy`): the whole run and the printed count.
- `Results` (`results.dfy`): the `Result` datatype.

Error behaviour follows the code. Indexing token 0 of a blank line raises `IndexError`, in the
front matter or in the tag list. So does indexing token 1 of a `-` line that has no value. The
model returns these as `BlankLine`/`MissingTagValue` errors, and the whole run then stops
before the tag directory is touched. A post whose front matter has no `tags:` key adds no
tags, but the script still raises on a blank line inside that front matter; the model follows
the code (`FrontMatter.NoTagsKey`).

## Model

| member | source | states |
|---|---|---|
| Text.Strip | _scripts/tag-generator.py:27 | the stripped line begins and ends with non-whitespace, and it is empty exactly when the line is all whitespace |
| Text.StripSlice | _scripts/tag-generator.py:27 | strip keeps one contiguous slice of the line and drops only whitespace around it |
| Text.Split | _scripts/tag-generator.py:20 | every token is non-empty and free of whitespace; there are no tokens exactly when the line is all whitespace |
| Text.SplitOfStrip | _scripts/tag-generator.py:20 | `line.strip().split()` gives the same tokens as `line.split()` |
| Text.SplitSkipsLeadingSpace | _scripts/tag-generator.py:20 | leading whitespace does not change the tokens |
| Text.SplitSkipsTrailingSpace | _scripts/tag-generator.py:20 | trailing whitespace does not change the tokens |
| Text.SplitJoin | _scripts/tag-generator.py:20 | joining tokens with single spaces and splitting again returns the tokens |
| Text.StripOfSingleToken | _scripts/tag-generator.py:27 | a line that splits into the single token w strips to w |
| FrontMatter.Tokens | _scripts/tag-generator.py:20 | the tokens the scanner reads are exactly the whitespace-separated pieces of the line |
| FrontMatter.IsDelimiter | _scripts/tag-generator.py:27 | definition without a contract: the line strips to `---`; `FrontMatter.DelimiterTokens` states its meaning on tokens |
| FrontMatter.DelimiterTokens | _scripts/tag-generator.py:27 | a line strips to `---` exactly when its tokens are just `---` |
| FrontMatter.Step | _scripts/tag-generator.py:19-37 | definition without a contract: what one line does in each of the three phases the two flags encode; `FrontMatter.ScanPost` is proved against it, and the lemmas below state its consequences |
| FrontMatter.ScanFrom | _scripts/tag-generator.py:18-37 | definition without a contract: the scan from a given line in a given phase; characterised by `FrontMatter.TagListFinds`, `FrontMatter.HeaderFinds` and `FrontMatter.PreambleFinds` |
| FrontMatter.Scan | _scripts/tag-generator.py:13-38 | definition without a contract: the tags one post adds, or the error it raises; characterised by `FrontMatter.ScanFindsListedTags`, `FrontMatter.ScanErrorAt`, `FrontMatter.BlankLineFails` and `FrontMatter.TagEntryFails` |
| FrontMatter.ReadLine | _scripts/tag-generator.py:20-27 | the `---` test on the stripped line and the tokens read are exactly what the reference scan sees of that line; a `---` line has the single token `---` |
| FrontMatter.ScanPost | _scripts/tag-generator.py:16-37 | the flag-driven loop adds to the shared set exactly the tags the reference scan finds in the post, or returns the reference scan's error at the same line |
| FrontMatter.ScanFromFound | _scripts/tag-generator.py:22 | the scan only adds to the shared set: the tags found before a line are carried through unchanged |
| FrontMatter.TagListFinds | _scripts/tag-generator.py:19-25 | in the tag list, the tags added are exactly the second tokens of the unbroken run of `-` lines |
| FrontMatter.HeaderFinds | _scripts/tag-generator.py:27-37 | inside the front matter, the tags added are exactly those listed under the first `tags:` line before the closing `---` |
| FrontMatter.PreambleFinds | _scripts/tag-generator.py:16-37 | before the front matter, the tags added are exactly those listed in the front matter opened by the next `---` |
| FrontMatter.ScanFindsListedTags | _scripts/tag-generator.py:13-37 | a well-formed post yields t exactly when t is the second token of a `-` line in the unbroken run after the first `tags:` line following the opening `---`; a `tags:` line before the first `---` never opens a list |
| FrontMatter.NoFrontMatter | _scripts/tag-generator.py:16-18 | a post without a `---` line yields no tags and no error |
| FrontMatter.NoTagsKey | _scripts/tag-generator.py:34-37 | a post without a `tags:` line yields no tags; its only possible error is a blank line |
| FrontMatter.ErrorFrom | _scripts/tag-generator.py:20-22 | a failing scan fails on a line without tokens or on a `-` line without a value, and never before the front matter opens |
| FrontMatter.ScanErrorAt | _scripts/tag-generator.py:20-22 | a malformed post is reported at a blank line, or at a line whose only token is `-`, and an opening `---` comes before that line |
| FrontMatter.ListFailsAt | _scripts/tag-generator.py:19-22 | in the tag list, a run of entries followed by a blank line raises at that line, and followed by a bare `-` line raises the missing-value error at that line |
| FrontMatter.HeaderBlankFails | _scripts/tag-generator.py:34-36 | front matter whose header lines run up to a blank line raises at that line |
| FrontMatter.ListEntryFails | _scripts/tag-generator.py:19-22 | a tag list whose entries run up to a blank or bare `-` line raises at that line, with the matching error |
| FrontMatter.BlankLineFails | _scripts/tag-generator.py:34-36 | a post whose front matter reaches a blank line before any `tags:` line or closing `---` raises at that line |
| FrontMatter.TagEntryFails | _scripts/tag-generator.py:19-22 | a post whose tag list reaches a blank line raises at that line, and one that reaches a `-` line without a value raises the missing-value error there |
| FrontMatter.ClosedFrom | _scripts/tag-generator.py:27-30 | once the front matter is open, a later `---` line ends the scan: the lines after it change nothing |
| FrontMatter.ClosingDelimiterEndsScan | _scripts/tag-generator.py:27-30 | appending any lines after the closing `---` changes neither the tags nor the error of a post |
| FrontMatter.ListEndFrom | _scripts/tag-generator.py:23-25 | in the tag list, a non-blank line not starting with `-` ends the scan: the lines after it change nothing |
| FrontMatter.ListEndEndsScanFrom | _scripts/tag-generator.py:19-25 | the first line of the tag list that does not start with `-` ends the post: no later line, a later `tags:` line included, is read |
| RenderedPosts.EntryTokens | _scripts/tag-generator.py:20-22 | an entry line `  - t` has exactly the tokens `-` and t, so its tag is t verbatim |
| RenderedPosts.ReadEntries | _scripts/tag-generator.py:19-22 | a run of entry lines adds exactly the tags it lists |
| RenderedPosts.LaidOutViews | _scripts/tag-generator.py:13-37 | a post laid out as preamble, `---`, header lines, `tags:`, entries and a closing line yields exactly the listed tags |
| TagCollection.Gather | _scripts/tag-generator.py:12-38 | definition without a contract: the union of the scanned tags, or the first failing scan's error; characterised by `TagCollection.GatherOk`, `TagCollection.GatherMembers` and `TagCollection.GatherFirstError` |
| TagCollection.Collect | _scripts/tag-generator.py:12-38 | definition without a contract: the outcome of the run over the posts; characterised by `TagCollection.CollectOk`, `TagCollection.CollectMembers` and `TagCollection.CollectFirstError` |
| TagCollection.CollectTags | _scripts/tag-generator.py:12-38 | the loop over the posts returns the union of their tags, or the first malformed post and its error |
| TagCollection.GatherErrorSticks | _scripts/tag-generator.py:13-38 | once one post has failed, later posts do not change the outcome |
| TagCollection.GatherStep | _scripts/tag-generator.py:13-38 | one more scanned post either extends the gathered tags or ends the run with its error |
| TagCollection.GatherOk | _scripts/tag-generator.py:13-38 | the gathering succeeds exactly when every scan succeeds |
| TagCollection.GatherMembers | _scripts/tag-generator.py:12-22 | a tag is gathered exactly when some scan found it |
| TagCollection.GatherFirstError | _scripts/tag-generator.py:13-38 | the reported error belongs to the first failing scan, and every scan before it succeeded |
| TagCollection.CollectOk | _scripts/tag-generator.py:13-38 | the run over the posts succeeds exactly when every post is well formed |
| TagCollection.CollectMembers | _scripts/tag-generator.py:12-22 | the collected set is exactly the union of the posts' tags: a tag listed by several posts is one element |
| TagCollection.CollectFirstError | _scripts/tag-generator.py:13-38 | a failed run names the first malformed post with that post's own error |
| TagCollection.GatherSameScans | _scripts/tag-generator.py:12-22 | two sequences of successful scans with the same results, in any order and number, gather the same set of tags |
| TagCollection.CollectOrderIrrelevant | _scripts/tag-generator.py:10-13 | when all posts are well formed, reading the same posts in any other order gives the same set of tags |
| TagPages.PageName | _scripts/tag-generator.py:51 | a page name ends in `.md`, and the tag can be read back from it |
| TagPages.TagOfPageName | _scripts/tag-generator.py:51 | the tag can be read back from its page name |
| TagPages.PageNameInjective | _scripts/tag-generator.py:51 | distinct tags get distinct page names |
| TagPages.MatchesPagePattern | _scripts/tag-generator.py:43 | definition without a contract: the names `*.md` finds, ending in `.md` and not hidden; `TagPages.MatchingNameIsPage` and `TagPages.PageNameMatches` state its meaning |
| TagPages.PageNameMatches | _scripts/tag-generator.py:43 | a page name is found by the `*.md` pattern unless it is hidden |
| TagPages.PlainTagPageMatches | _scripts/tag-generator.py:51 | the page of a plain tag is found again by the `*.md` pattern |
| TagPages.MatchingNameIsPage | _scripts/tag-generator.py:43 | every name the `*.md` pattern finds is the page of the tag it names |
| TagPages.Template | _scripts/tag-generator.py:53 | definition without a contract: the page content with the tag in its three places; `TagPages.TemplateNamesTag` and `TagPages.TemplateInjective` state its properties |
| TagPages.TemplateNamesTag | _scripts/tag-generator.py:53 | a page's content is the fixed head followed by the tag, with the tag substituted in three places |
| TagPages.TemplateInjective | _scripts/tag-generator.py:53 | distinct tags get distinct page contents |
| TagPages.PagesAreNamed | _scripts/tag-generator.py:50-51 | every name the pattern finds whose tag is in the set is the page name of one of the tags |
| TagPages.Regenerated | _scripts/tag-generator.py:43-55 | after regeneration a name is present exactly when it is the page of a tag or an entry the `*.md` pattern does not find; entries of the second kind keep their content |
| TagPages.RegeneratedAt | _scripts/tag-generator.py:43-55 | after regeneration, a name the pattern finds is present exactly when its tag is in the set, and then it holds that tag's template; any other name is present exactly when it was, with its content unchanged |
| TagPages.RegeneratedMirrorsTags | _scripts/tag-generator.py:43-55 | every tag has its page, holding exactly one copy of its template, and every page the pattern finds belongs to a tag, so no old page survives |
| TagPages.RegeneratedKeepsOthers | _scripts/tag-generator.py:43-45 | entries the `*.md` pattern does not find are kept as they were |
| TagPages.PagesRemoved | _scripts/tag-generator.py:43-45 | a directory holding exactly the old entries that the pattern does not find, with their contents, is the old directory with every page removed |
| TagPages.RegenerateIdempotent | _scripts/tag-generator.py:43-55 | running the regeneration again with the same tags leaves the directory as it is |
| TagPages.RegeneratedIgnoresOldPages | _scripts/tag-generator.py:43-45 | the directory after regeneration does not depend on the pages it held before |
| TagPages.AddPage | _scripts/tag-generator.py:50-55 | appending the template of a tag without a page yet creates exactly the page of that tag |
| TagPages.AddPageAt | _scripts/tag-generator.py:52-54 | writing the template of a plain tag changes only the entry of that tag's page |
| TagPages.PageNamesCount | _scripts/tag-generator.py:50-51 | there are as many page names as tags |
| TagPages.PageCount | _scripts/tag-generator.py:50-57 | the regenerated directory holds exactly as many pages as there are tags |
| TagPages.PageAt | _scripts/tag-generator.py:50-51 | with plain tags, a name is a page of the regenerated directory exactly when it is the page name of a tag |
| TagPages.OutputDir.constructor | _scripts/tag-generator.py:8 | the tag directory with the given existence flag and entries |
| TagPages.OutputDir.Glob | _scripts/tag-generator.py:43 | every name found is an entry that is not hidden and is the page of the tag it names, and every entry the pattern matches is found |
| TagPages.OutputDir.Remove | _scripts/tag-generator.py:45 | the removed entry is gone and nothing else changes |
| TagPages.OutputDir.EnsurePresent | _scripts/tag-generator.py:47-48 | afterwards the directory exists, and its entries are unchanged |
| TagPages.OutputDir.Append | _scripts/tag-generator.py:52-55 | the text is appended to the file, which is created empty first when it is missing; nothing else changes |
| TagPages.OutputDir.RemovePages | _scripts/tag-generator.py:43-45 | every page the pattern finds is removed and every other entry is kept |
| TagPages.OutputDir.WritePages | _scripts/tag-generator.py:50-55 | from a directory without pages, appending each tag's template gives the regenerated directory |
| TagPages.OutputDir.Regenerate | _scripts/tag-generator.py:43-55 | the delete, create and write sequence leaves the directory existing and equal to the regenerated directory of the tags |
| TagGenerator.GenerateTagPages | _scripts/tag-generator.py:10-57 | the run succeeds exactly when every post is well formed; the printed count is the number of distinct tags and the number of pages; on success the directory is regenerated from the collected tags, and on failure it is unchanged |
| TagGenerator.OutputMirrorsPosts | _scripts/tag-generator.py:12-55 | after a successful run a plain tag has a page exactly when some post lists it, and that page holds the tag's template |

## Left out

- File-system I/O (`glob.glob`, `open`, `close`, `os.remove`, `os.path.exists`, `os.makedirs`): the posts are given as a sequence of posts, each a sequence of lines, in the order `glob` returns them. The tag directory is a map from entry name to content, plus a flag saying whether it exists. I/O errors and their propagation are not modelled.
- The post pattern `_posts/*md`: which files are posts is not modelled.
- Splitting a file into lines: each line is taken as the script receives it, and a line break is whitespace to strip.
- `glob` pattern semantics beyond the final path component: regeneration requires every tag to be plain, meaning non-empty, with no `/` and not starting with `.`. A tag with `/` would write into a subdirectory, and a hidden page would escape the `*.md` pattern; neither is modelled.
- Entries of the tag directory that are directories, which `glob` would also find.
- Only the count reaches the output: `GenerateTagPages` returns the number `print` shows at line 57, not the printed text.
- `sets.Set` and its conversion to `set` at line 41 are both the mathematical set.
- Whitespace is the six ASCII characters that Python 2 byte strings strip and split on. Unicode whitespace is not modelled.
- The interrupted run: a crash between deletion and rewriting, which would leave the directory partly regenerated, is not modelled.
- The appearance of a whole post as text is stated on what the scanner sees of each line, its view: `RenderedPosts.LaidOutViews`. The lines of such a post map to those views by `RenderedPosts.EntryTokens`, `RenderedPosts.TokenLineView` and `RenderedPosts.KeyViews`.
- FrontMatter.ListEndEndsScanFrom: stated on line views rather than on the raw lines of a post.
