/**
 * Regeneration of the tag pages: every page the pattern `*.md` finds in the tag
 * directory is removed, the directory is created if it is missing, and one page per
 * tag is appended to. The directory is a map from file name to file content.
 */
module TagPages {
  const PageSuffix: string := ".md"

  /** The tag a page name belongs to: the name without its `.md`. */
  function TagOfPage(name: string): string
    requires |name| >= |PageSuffix|
  {
    name[..|name| - |PageSuffix|]
  }

  /** `tag + '.md'`: the file name of a tag's page inside the tag directory; the tag can be read back from it. */
  function PageName(t: string): (name: string)
    ensures |name| >= |PageSuffix| && TagOfPage(name) == t
    ensures name[|name| - |PageSuffix|..] == PageSuffix
  {
    t + PageSuffix
  }

  lemma TagOfPageName(t: string)
    ensures TagOfPage(PageName(t)) == t
  {
  }

  /** Distinct tags get distinct pages. */
  lemma PageNameInjective(a: string, b: string)
    requires PageName(a) == PageName(b)
    ensures a == b
  {
    TagOfPageName(a);
    TagOfPageName(b);
  }

  /** A name the pattern `*.md` finds: it ends in `.md` and, as `*` skips hidden names, does not start with `.`. */
  predicate MatchesPagePattern(name: string)
  {
    |name| >= |PageSuffix| && name[|name| - |PageSuffix|..] == PageSuffix && name[0] != '.'
  }

  /** A tag whose page lands directly in the tag directory, where the pattern finds it again. */
  predicate PlainTag(t: string)
  {
    t != [] && t[0] != '.' && '/' !in t
  }

  lemma PlainTagPageMatches(t: string)
    requires PlainTag(t)
    ensures MatchesPagePattern(PageName(t))
  {
    var name := PageName(t);
    assert name[0] == t[0];
    assert name[|name| - |PageSuffix|..] == name[|t|..];
  }

  /** A page name is found by the pattern unless it is hidden. */
  lemma PageNameMatches(t: string)
    requires PageName(t)[0] != '.'
    ensures MatchesPagePattern(PageName(t))
  {
  }

  /** Every name the pattern finds is the page of the tag it names. */
  lemma MatchingNameIsPage(name: string)
    requires MatchesPagePattern(name)
    ensures PageName(TagOfPage(name)) == name
  {
  }

  /** The content written to a tag's page. */
  function Template(t: string): string
  {
    "---\nlayout: tag-page\ntitle: \"Tag: " + t + "\"\ntag: " + t + "\npermalink: /tag/" + t + "\nrobots: noindex\n---\n"
  }

  const TemplateHead: string := "---\nlayout: tag-page\ntitle: \"Tag: "

  /** A page's content starts with the fixed head and then the tag, so distinct tags get distinct contents. */
  lemma TemplateNamesTag(t: string)
    ensures |Template(t)| == |Template([])| + 3 * |t|
    ensures Template(t)[..|TemplateHead| + |t|] == TemplateHead + t
  {
    assert Template(t) == TemplateHead + t + ("\"\ntag: " + t + "\npermalink: /tag/" + t + "\nrobots: noindex\n---\n");
  }

  lemma TemplateInjective(a: string, b: string)
    requires Template(a) == Template(b)
    ensures a == b
  {
    TemplateNamesTag(a);
    TemplateNamesTag(b);
    assert |a| == |b|;
    assert a == (TemplateHead + a)[|TemplateHead|..];
    assert b == (TemplateHead + b)[|TemplateHead|..];
  }

  /** The page names of a set of tags. */
  function PageNames(tags: set<string>): set<string>
  {
    set t | t in tags :: PageName(t)
  }

  lemma PagesAreNamed(tags: set<string>)
    ensures forall n :: MatchesPagePattern(n) && TagOfPage(n) in tags ==> n in PageNames(tags)
  {
    forall n | MatchesPagePattern(n) && TagOfPage(n) in tags
      ensures n in PageNames(tags)
    {
      MatchingNameIsPage(n);
    }
  }

  /**
   * Whether name n is an entry of the directory after regeneration: a name the
   * pattern finds only as the page of a tag, any other name only if it was there.
   */
  predicate Wanted(files: map<string, string>, tags: set<string>, n: string)
  {
    if MatchesPagePattern(n) then TagOfPage(n) in tags else n in files
  }

  /** The directory after regeneration: the entries the pattern does not find, and the pages of the tags. */
  function Regenerated(files: map<string, string>, tags: set<string>): (r: map<string, string>)
    ensures forall n :: n in r <==> Wanted(files, tags, n)
    ensures forall n :: n in r && !MatchesPagePattern(n) ==> n in files && r[n] == files[n]
  {
    PagesAreNamed(tags);
    map n | n in files.Keys + PageNames(tags) && Wanted(files, tags, n) ::
      if MatchesPagePattern(n) then Template(TagOfPage(n)) else files[n]
  }

  /** One entry of the regenerated directory: a page of a tag holds its template, any other entry is kept. */
  lemma RegeneratedAt(files: map<string, string>, tags: set<string>, n: string)
    ensures MatchesPagePattern(n) ==> (n in Regenerated(files, tags) <==> TagOfPage(n) in tags)
    ensures MatchesPagePattern(n) && n in Regenerated(files, tags) ==> Regenerated(files, tags)[n] == Template(TagOfPage(n))
    ensures !MatchesPagePattern(n) ==> (n in Regenerated(files, tags) <==> n in files)
    ensures !MatchesPagePattern(n) && n in Regenerated(files, tags) ==> Regenerated(files, tags)[n] == files[n]
  {
  }

  /** A directory holding exactly the old entries the pattern does not find is the old one regenerated without tags. */
  lemma PagesRemoved(before: map<string, string>, after: map<string, string>)
    requires forall n :: n in after <==> n in before && !MatchesPagePattern(n)
    requires forall n :: n in after ==> after[n] == before[n]
    ensures after == Regenerated(before, {})
  {
    forall n
      ensures n in after <==> n in Regenerated(before, {})
      ensures n in after ==> after[n] == Regenerated(before, {})[n]
    {
      RegeneratedAt(before, {}, n);
    }
  }

  /**
   * With plain tags, the pages after regeneration mirror the tags exactly: every tag
   * has its page, holding one copy of that tag's template, and every page the
   * pattern finds belongs to a tag, so no old page survives.
   */
  lemma RegeneratedMirrorsTags(files: map<string, string>, tags: set<string>)
    requires forall t :: t in tags ==> PlainTag(t)
    ensures forall t :: t in tags ==> PageName(t) in Regenerated(files, tags) && Regenerated(files, tags)[PageName(t)] == Template(t)
    ensures forall n :: n in Regenerated(files, tags) && MatchesPagePattern(n) ==> TagOfPage(n) in tags && n == PageName(TagOfPage(n))
  {
    forall t | t in tags
      ensures PageName(t) in Regenerated(files, tags) && Regenerated(files, tags)[PageName(t)] == Template(t)
    {
      PlainTagPageMatches(t);
      TagOfPageName(t);
    }
  }

  /** Entries the pattern does not find are kept as they were, and no other entry appears beside them. */
  lemma RegeneratedKeepsOthers(files: map<string, string>, tags: set<string>, n: string)
    requires !MatchesPagePattern(n)
    ensures n in Regenerated(files, tags) <==> n in files
    ensures n in files ==> Regenerated(files, tags)[n] == files[n]
  {
  }

  /** Regenerating twice from the same tags gives the same directory as once. */
  lemma RegenerateIdempotent(files: map<string, string>, tags: set<string>)
    ensures Regenerated(Regenerated(files, tags), tags) == Regenerated(files, tags)
  {
    var once := Regenerated(files, tags);
    var twice := Regenerated(once, tags);
    forall n
      ensures n in twice <==> n in once
      ensures n in once ==> twice[n] == once[n]
    {
      RegeneratedAt(files, tags, n);
      RegeneratedAt(once, tags, n);
    }
  }

  /** What regeneration produces does not depend on the pages the directory held before. */
  lemma RegeneratedIgnoresOldPages(a: map<string, string>, b: map<string, string>, tags: set<string>)
    requires forall n :: !MatchesPagePattern(n) ==> (n in a <==> n in b)
    requires forall n :: !MatchesPagePattern(n) && n in a ==> a[n] == b[n]
    ensures Regenerated(a, tags) == Regenerated(b, tags)
  {
    var ra, rb := Regenerated(a, tags), Regenerated(b, tags);
    forall n
      ensures n in ra <==> n in rb
      ensures n in ra ==> ra[n] == rb[n]
    {
      RegeneratedAt(a, tags, n);
      RegeneratedAt(b, tags, n);
    }
  }

  /** Writing the page of a further plain tag creates a new file holding exactly its template. */
  lemma AddPage(files: map<string, string>, done: set<string>, t: string)
    requires PlainTag(t) && t !in done
    ensures PageName(t) !in Regenerated(files, done)
    ensures Regenerated(files, done)[PageName(t) := "" + Template(t)] == Regenerated(files, done + {t})
  {
    PlainTagPageMatches(t);
    TagOfPageName(t);
    RegeneratedAt(files, done, PageName(t));
    assert "" + Template(t) == Template(t);
    var lhs := Regenerated(files, done)[PageName(t) := Template(t)];
    var rhs := Regenerated(files, done + {t});
    forall n
      ensures n in lhs <==> n in rhs
      ensures n in lhs ==> lhs[n] == rhs[n]
    {
      AddPageAt(files, done, t, n);
    }
  }

  /** AddPage at one name: the page of t is the only entry that changes. */
  lemma AddPageAt(files: map<string, string>, done: set<string>, t: string, n: string)
    requires PlainTag(t)
    ensures var lhs := Regenerated(files, done)[PageName(t) := Template(t)];
      var rhs := Regenerated(files, done + {t});
      (n in lhs <==> n in rhs) && (n in lhs ==> lhs[n] == rhs[n])
  {
    PlainTagPageMatches(t);
    TagOfPageName(t);
    RegeneratedAt(files, done, n);
    RegeneratedAt(files, done + {t}, n);
    if n != PageName(t) && MatchesPagePattern(n) {
      MatchingNameIsPage(n);
    }
  }

  /** As many page names as tags: distinct tags have distinct pages. */
  lemma {:induction false} PageNamesCount(tags: set<string>)
    ensures |PageNames(tags)| == |tags|
    decreases |tags|
  {
    if tags != {} {
      var t :| t in tags;
      var rest := tags - {t};
      PageNamesCount(rest);
      assert PageNames(tags) == PageNames(rest) + {PageName(t)};
    } else {
      assert PageNames(tags) == {};
    }
  }

  /** With plain tags, the regenerated directory holds exactly as many pages as there are tags. */
  lemma PageCount(files: map<string, string>, tags: set<string>)
    requires forall t :: t in tags ==> PlainTag(t)
    ensures |set n | n in Regenerated(files, tags) && MatchesPagePattern(n)| == |tags|
  {
    var pages := set n | n in Regenerated(files, tags) && MatchesPagePattern(n);
    forall n
      ensures n in pages <==> n in PageNames(tags)
    {
      PageAt(files, tags, n);
    }
    assert pages == PageNames(tags);
    PageNamesCount(tags);
  }

  /** With plain tags, a name is a page of the regenerated directory exactly when it is the page name of a tag. */
  lemma PageAt(files: map<string, string>, tags: set<string>, n: string)
    requires forall t :: t in tags ==> PlainTag(t)
    ensures n in Regenerated(files, tags) && MatchesPagePattern(n) <==> n in PageNames(tags)
  {
    RegeneratedAt(files, tags, n);
    if n in PageNames(tags) {
      var t :| t in tags && n == PageName(t);
      PlainTagPageMatches(t);
      TagOfPageName(t);
    }
    if MatchesPagePattern(n) && TagOfPage(n) in tags {
      MatchingNameIsPage(n);
    }
  }

  /** The tag directory as the script sees it: whether it exists, and its entries. */
  class OutputDir {
    var present: bool
    var files: map<string, string>

    /** A directory that does not exist has no entries. */
    ghost predicate Valid()
      reads this
    {
      !present ==> files == map[]
    }

    constructor (present: bool, files: map<string, string>)
      requires !present ==> files == map[]
      ensures Valid()
      ensures this.present == present && this.files == files
    {
      this.present := present;
      this.files := files;
    }

    /** `glob(tag_dir + '*.md')`: the names the pattern finds. */
    function Glob(): (names: set<string>)
      reads this
      ensures forall n :: n in names ==> n in files && |n| >= |PageSuffix| && PageName(TagOfPage(n)) == n && n[0] != '.'
      ensures forall n :: n in files && MatchesPagePattern(n) ==> n in names
    {
      set n | n in files && MatchesPagePattern(n)
    }

    /** `os.remove(name)`. */
    method Remove(name: string)
      requires name in files
      modifies this
      ensures present == old(present)
      ensures files == old(files) - {name}
    {
      files := files - {name};
    }

    /** `os.makedirs(tag_dir)` when the directory is missing. */
    method EnsurePresent()
      requires Valid()
      modifies this
      ensures Valid() && present
      ensures files == old(files)
    {
      if !present {
        present := true;
      }
    }

    /** `open(name, 'a').write(text)`: a missing file is created empty first. */
    method Append(name: string, text: string)
      requires present
      modifies this
      ensures present
      ensures files == old(files)[name := (if name in old(files) then old(files)[name] else "") + text]
    {
      var prior := if name in files then files[name] else "";
      files := files[name := prior + text];
    }

    /** Lines 43-45: remove every page the pattern finds. */
    method RemovePages()
      requires Valid()
      modifies this
      ensures Valid() && present == old(present)
      ensures files == Regenerated(old(files), {})
    {
      var stale := Glob();
      forall n | n in stale
        ensures MatchesPagePattern(n)
      {
        PageNameMatches(TagOfPage(n));
      }
      while stale != {}
        invariant Valid()
        invariant present == old(present)
        invariant forall n :: n in stale ==> n in files && MatchesPagePattern(n)
        invariant forall n :: n in files <==> n in old(files) && (!MatchesPagePattern(n) || n in stale)
        invariant forall n :: n in files ==> files[n] == old(files)[n]
        decreases |stale|
      {
        var name :| name in stale;
        Remove(name);
        stale := stale - {name};
      }
      PagesRemoved(old(files), files);
    }

    /**
     * Lines 50-55: append the template to the page of each tag. After the removals
     * no page exists, so each page ends up holding exactly one copy of its template.
     */
    method WritePages(tags: set<string>, ghost base: map<string, string>)
      requires present && files == Regenerated(base, {})
      requires forall t :: t in tags ==> PlainTag(t)
      modifies this
      ensures present && files == Regenerated(base, tags)
    {
      var todo := tags;
      while todo != {}
        invariant present
        invariant todo <= tags
        invariant files == Regenerated(base, tags - todo)
        decreases |todo|
      {
        var t :| t in todo;
        AddPage(base, tags - todo, t);
        Append(PageName(t), Template(t));
        assert tags - (todo - {t}) == (tags - todo) + {t};
        todo := todo - {t};
      }
      assert tags - todo == tags;
    }

    /**
     * Lines 43-55: remove every page the pattern finds, make sure the directory
     * exists, and write one page per tag.
     */
    method Regenerate(tags: set<string>)
      requires Valid()
      requires forall t :: t in tags ==> PlainTag(t)
      modifies this
      ensures Valid() && present
      ensures files == Regenerated(old(files), tags)
    {
      RemovePages();
      EnsurePresent();
      WritePages(tags, old(files));
    }
  }
}
