/**
 * The per-post scanner of _scripts/tag-generator.py: one pass over the lines of a
 * post, driven by the two flags `in_front_matter` and `in_tags`, that collects the
 * value of every `- <tag>` entry listed under a `tags:` key of the front matter.
 *
 * The reference definition below follows the three phases the flags encode
 * (before the front matter, in it, in its tag list); ScanPost is the flag-driven
 * loop itself and is proved to compute the same thing.
 */
module FrontMatter {
  import opened Text
  import opened Results

  /** The two ways a post makes the scanner index past the end of a line's tokens. */
  datatype ScanError =
    | BlankLine(line: nat)        // token 0 of a line without tokens
    | MissingTagValue(line: nat)  // token 1 of a `-` line without a value

  const Delimiter: string := "---"
  const TagsKey: string := "tags:"
  const EntryMarker: string := "-"

  /** `line.strip().split()`: the stripping is redundant, the tokens are those of the line. */
  function Tokens(line: string): (ts: seq<string>)
    ensures ts == Split(line)
  {
    SplitOfStrip(line);
    Split(Strip(line))
  }

  /** `line.strip() == '---'`. */
  predicate IsDelimiter(line: string) {
    Strip(line) == Delimiter
  }

  /** The script tests a line for `---` on its stripped text; this is the same as its tokens being just `---`. */
  lemma DelimiterTokens(line: string)
    ensures IsDelimiter(line) <==> Tokens(line) == [Delimiter]
  {
    assert IsToken(Delimiter);
    if IsDelimiter(line) {
      SplitToken(Delimiter);
    }
    if Tokens(line) == [Delimiter] {
      StripOfSingleToken(line, Delimiter);
    }
  }

  /** Adds the tags found so far to the tags of an outcome; an error stays an error. */
  function Extend(found: set<string>, r: Result<set<string>, ScanError>): Result<set<string>, ScanError>
  {
    match r
    case Ok(ts) => Ok(found + ts)
    case Err(e) => Err(e)
  }

  /** What the scanner looks at in a line: whether it strips to `---`, and its tokens. */
  datatype LineView = LineView(delimiter: bool, tokens: seq<string>)

  function View(line: string): LineView
  {
    LineView(IsDelimiter(line), Tokens(line))
  }

  /** The views of the lines of a post. */
  function Views(lines: seq<string>): (vs: seq<LineView>)
    ensures |vs| == |lines|
  {
    if lines == [] then [] else [View(lines[0])] + Views(lines[1..])
  }

  lemma {:induction false} ViewAt(lines: seq<string>, k: nat)
    requires k < |lines|
    ensures Views(lines)[k] == View(lines[k])
  {
    if k > 0 {
      ViewAt(lines[1..], k - 1);
    }
  }

  /** Where the scan of a post stands: which of the two flags are set. */
  datatype Phase =
    | Preamble  // neither flag: before the first `---`
    | Header    // in_front_matter only
    | TagList   // in_front_matter and in_tags

  /** What one line does to the scan. */
  datatype Action =
    | Continue(next: Phase)  // read on, in the given phase
    | Add(tag: string)       // a tag entry: record it and stay in the tag list
    | Stop                   // done with this post
    | Blank                  // a line without the token 0 the script reads
    | NoValue                // a `-` line without the token 1 the script reads

  /**
   * The effect of one line in each phase. Before the front matter only `---` matters;
   * in it a second `---` ends the post and a `tags:` line opens the tag list; in the
   * tag list every `-` line gives its second token and any other line ends the post.
   */
  function Step(v: LineView, phase: Phase): Action
  {
    match phase
    case Preamble =>
      if v.delimiter then Continue(Header) else Continue(Preamble)
    case Header =>
      if v.delimiter then Stop
      else if v.tokens == [] then Blank
      else if v.tokens[0] == TagsKey then Continue(TagList)
      else Continue(Header)
    case TagList =>
      if v.tokens == [] then Blank
      else if v.tokens[0] != EntryMarker then Stop
      else if |v.tokens| < 2 then NoValue
      else Add(v.tokens[1])
  }

  /**
   * The scan from line i on, in the given phase, having found the tags in found:
   * every tag found by the end of the post, or the first error.
   */
  function ScanFrom(vs: seq<LineView>, i: nat, phase: Phase, found: set<string>): Result<set<string>, ScanError>
    decreases |vs| - i
  {
    if i >= |vs| then Ok(found)
    else
      match Step(vs[i], phase)
      case Continue(next) => ScanFrom(vs, i + 1, next, found)
      case Add(t) => ScanFrom(vs, i + 1, TagList, found + {t})
      case Stop => Ok(found)
      case Blank => Err(BlankLine(i))
      case NoValue => Err(MissingTagValue(i))
  }

  /** The tags one post contributes, or the error the script would raise on it. */
  function Scan(lines: seq<string>): Result<set<string>, ScanError>
  {
    ScanFrom(Views(lines), 0, Preamble, {})
  }

  lemma ExtendTwice(a: set<string>, b: set<string>, r: Result<set<string>, ScanError>)
    ensures Extend(a, Extend(b, r)) == Extend(a + b, r)
  {
    if r.Ok? {
      assert a + (b + r.value) == (a + b) + r.value;
    }
  }

  /** The tags found before line i are carried through unchanged: the scan only adds to them. */
  lemma {:induction false} ScanFromFound(vs: seq<LineView>, i: nat, phase: Phase, found: set<string>)
    ensures ScanFrom(vs, i, phase, found) == Extend(found, ScanFrom(vs, i, phase, {}))
    decreases |vs| - i
  {
    if i < |vs| {
      match Step(vs[i], phase)
      case Continue(next) =>
        ScanFromFound(vs, i + 1, next, found);
      case Add(t) =>
        ScanFromFound(vs, i + 1, TagList, found + {t});
        ScanFromFound(vs, i + 1, TagList, {} + {t});
        ExtendTwice(found, {t}, ScanFrom(vs, i + 1, TagList, {}));
        assert {} + {t} == {t};
      case Stop =>
        assert found + {} == found;
      case Blank =>
      case NoValue =>
    } else {
      assert found + {} == found;
    }
  }

  /** The phase the script's two flags encode. */
  function PhaseOf(inFrontMatter: bool, inTags: bool): Phase
  {
    if inTags then TagList else if inFrontMatter then Header else Preamble
  }

  /** `line.strip() == '---'` and `line.strip().split()` for line i of a post: what the scanner sees of it. */
  method ReadLine(lines: seq<string>, i: nat) returns (delimiter: bool, tokens: seq<string>)
    requires i < |lines|
    ensures LineView(delimiter, tokens) == Views(lines)[i]
    ensures delimiter ==> tokens == [Delimiter]
  {
    ViewAt(lines, i);
    DelimiterTokens(lines[i]);
    delimiter := Strip(lines[i]) == Delimiter;
    tokens := Tokens(lines[i]);
  }

  /**
   * The body of the script's loop over the lines of one post: the tags the post
   * lists are added to allTags, or the post's malformed line is reported.
   */
  method ScanPost(lines: seq<string>, allTags: set<string>) returns (r: Result<set<string>, ScanError>)
    ensures r == Extend(allTags, Scan(lines))
  {
    ghost var vs := Views(lines);
    ghost var goal := ScanFrom(vs, 0, Preamble, allTags);
    ScanFromFound(vs, 0, Preamble, allTags);
    var tags := allTags;
    var inFrontMatter, inTags := false, false;
    var i := 0;
    while i < |lines|
      invariant i <= |lines|
      invariant inTags ==> inFrontMatter
      invariant goal == ScanFrom(vs, i, PhaseOf(inFrontMatter, inTags), tags)
    {
      var delimiter, strippedLine := ReadLine(lines, i);
      if inTags {
        if strippedLine == [] {
          return Err(BlankLine(i));
        }
        if strippedLine[0] == EntryMarker {
          if |strippedLine| < 2 {
            return Err(MissingTagValue(i));
          }
          tags := tags + {strippedLine[1]};
        } else {
          // the last entry has been read
          break;
        }
      }
      if delimiter {
        if inFrontMatter {
          // the end of the front matter
          break;
        }
        inFrontMatter := true;
      }
      if inFrontMatter {
        if strippedLine == [] {
          return Err(BlankLine(i));
        }
        if strippedLine[0] == TagsKey {
          inTags := true;
        }
      }
      i := i + 1;
    }
    return Ok(tags);
  }

  /** A line of the front matter before the tag list: not `---`, not blank, not `tags:`. */
  predicate HeaderLine(v: LineView) {
    !v.delimiter && v.tokens != [] && v.tokens[0] != TagsKey
  }

  /** The line that opens the tag list. */
  predicate KeyLine(v: LineView) {
    !v.delimiter && v.tokens != [] && v.tokens[0] == TagsKey
  }

  /** A `- <tag>` entry of the tag list. */
  predicate Entry(v: LineView) {
    |v.tokens| >= 2 && v.tokens[0] == EntryMarker
  }

  /** Line o is the first `---` at or after line i. */
  predicate OpensAt(vs: seq<LineView>, i: nat, o: nat) {
    i <= o < |vs| && vs[o].delimiter && forall j :: i <= j < o ==> !vs[j].delimiter
  }

  /** Line k is the `tags:` line of the front matter opened at line o. */
  predicate KeyAt(vs: seq<LineView>, o: nat, k: nat) {
    o < k < |vs| && KeyLine(vs[k]) && forall j :: o < j < k ==> HeaderLine(vs[j])
  }

  /** Line m is an entry of the tag list opened at line k, listing t, with only entries in between. */
  predicate ListedAt(vs: seq<LineView>, k: nat, m: nat, t: string) {
    k < m < |vs| && Entry(vs[m]) && vs[m].tokens[1] == t && forall j :: k < j <= m ==> Entry(vs[j])
  }

  /** The tag list that starts after line k lists t. */
  ghost predicate InList(vs: seq<LineView>, k: nat, t: string) {
    exists m :: ListedAt(vs, k, m, t)
  }

  /** The front matter opened at line o has a tag list that lists t. */
  ghost predicate InHeader(vs: seq<LineView>, o: nat, t: string) {
    exists k, m :: KeyAt(vs, o, k) && ListedAt(vs, k, m, t)
  }

  /** Read from line i on, the post's front matter lists t under its `tags:` key. */
  ghost predicate Lists(vs: seq<LineView>, i: nat, t: string) {
    exists o, k, m :: OpensAt(vs, i, o) && KeyAt(vs, o, k) && ListedAt(vs, k, m, t)
  }

  /** In the tag list, the scan adds exactly the values of the unbroken run of entries. */
  lemma {:induction false} TagListFinds(vs: seq<LineView>, k: nat, found: set<string>, t: string)
    requires ScanFrom(vs, k + 1, TagList, found).Ok?
    ensures t in ScanFrom(vs, k + 1, TagList, found).value <==> t in found || InList(vs, k, t)
    decreases |vs| - k
  {
    var i := k + 1;
    if i < |vs| {
      match Step(vs[i], TagList)
      case Add(u) =>
        TagListFinds(vs, i, found + {u}, t);
        if InList(vs, i, t) {
          var m :| ListedAt(vs, i, m, t);
          assert ListedAt(vs, k, m, t);
        }
        if t == u {
          assert ListedAt(vs, k, i, t);
        }
        if InList(vs, k, t) && t != u {
          var m :| ListedAt(vs, k, m, t);
          assert ListedAt(vs, i, m, t);
        }
      case Stop =>
        assert !Entry(vs[i]);
      case Continue(_) =>
      case Blank =>
      case NoValue =>
    }
  }

  /** In the front matter, the scan adds exactly the tags listed under its `tags:` key. */
  lemma {:induction false} HeaderFinds(vs: seq<LineView>, o: nat, found: set<string>, t: string)
    requires ScanFrom(vs, o + 1, Header, found).Ok?
    ensures t in ScanFrom(vs, o + 1, Header, found).value <==> t in found || InHeader(vs, o, t)
    decreases |vs| - o
  {
    var i := o + 1;
    if i < |vs| {
      match Step(vs[i], Header)
      case Continue(next) =>
        if next == TagList {
          TagListFinds(vs, i, found, t);
          if InList(vs, i, t) {
            var m :| ListedAt(vs, i, m, t);
            assert KeyAt(vs, o, i);
          }
          assert !HeaderLine(vs[i]);
        } else {
          HeaderFinds(vs, i, found, t);
          if InHeader(vs, i, t) {
            var k, m :| KeyAt(vs, i, k) && ListedAt(vs, k, m, t);
            assert KeyAt(vs, o, k);
          }
          if InHeader(vs, o, t) {
            var k, m :| KeyAt(vs, o, k) && ListedAt(vs, k, m, t);
            assert KeyAt(vs, i, k);
          }
        }
      case Stop =>
        assert !HeaderLine(vs[i]) && !KeyLine(vs[i]);
      case Add(_) =>
      case Blank =>
      case NoValue =>
    }
  }

  /** Before the front matter, the scan adds exactly the tags the front matter lists. */
  lemma {:induction false} PreambleFinds(vs: seq<LineView>, i: nat, found: set<string>, t: string)
    requires ScanFrom(vs, i, Preamble, found).Ok?
    ensures t in ScanFrom(vs, i, Preamble, found).value <==> t in found || Lists(vs, i, t)
    decreases |vs| - i
  {
    if i < |vs| {
      if vs[i].delimiter {
        HeaderFinds(vs, i, found, t);
        if InHeader(vs, i, t) {
          var k, m :| KeyAt(vs, i, k) && ListedAt(vs, k, m, t);
          assert OpensAt(vs, i, i);
        }
        if Lists(vs, i, t) {
          var o, k, m :| OpensAt(vs, i, o) && KeyAt(vs, o, k) && ListedAt(vs, k, m, t);
          assert o == i;
        }
      } else {
        PreambleFinds(vs, i + 1, found, t);
        if Lists(vs, i + 1, t) {
          var o, k, m :| OpensAt(vs, i + 1, o) && KeyAt(vs, o, k) && ListedAt(vs, k, m, t);
          assert OpensAt(vs, i, o);
        }
        if Lists(vs, i, t) {
          var o, k, m :| OpensAt(vs, i, o) && KeyAt(vs, o, k) && ListedAt(vs, k, m, t);
          assert OpensAt(vs, i + 1, o);
        }
      }
    }
  }

  /**
   * The tags of a post that scans without error are exactly those listed under the
   * `tags:` key of its front matter: each is the second token of a `-` line of the
   * unbroken run of `-` lines that follows the first `tags:` line after the opening
   * `---`, itself met before any other `---`.
   */
  lemma ScanFindsListedTags(lines: seq<string>, t: string)
    requires Scan(lines).Ok?
    ensures t in Scan(lines).value <==> Lists(Views(lines), 0, t)
  {
    PreambleFinds(Views(lines), 0, {}, t);
  }

  /** Without a `---` line the scan never leaves the preamble. */
  lemma {:induction false} NoFrontMatterFrom(vs: seq<LineView>, i: nat, found: set<string>)
    requires forall j :: i <= j < |vs| ==> !vs[j].delimiter
    ensures ScanFrom(vs, i, Preamble, found) == Ok(found)
    decreases |vs| - i
  {
    if i < |vs| {
      NoFrontMatterFrom(vs, i + 1, found);
    }
  }

  /** A post without front matter contributes no tags and is never malformed. */
  lemma NoFrontMatter(lines: seq<string>)
    requires forall j :: 0 <= j < |lines| ==> !IsDelimiter(lines[j])
    ensures Scan(lines) == Ok({})
  {
    forall j | 0 <= j < |lines|
      ensures !Views(lines)[j].delimiter
    {
      ViewAt(lines, j);
    }
    NoFrontMatterFrom(Views(lines), 0, {});
  }

  /** Without a `tags:` line the scan adds nothing; it can still meet a blank line. */
  lemma {:induction false} NoTagsKeyFrom(vs: seq<LineView>, i: nat, phase: Phase, found: set<string>)
    requires phase != TagList
    requires forall j :: i <= j < |vs| ==> vs[j].tokens == [] || vs[j].tokens[0] != TagsKey
    ensures var r := ScanFrom(vs, i, phase, found); r == Ok(found) || (r.Err? && r.error.BlankLine?)
    decreases |vs| - i
  {
    if i < |vs| {
      match Step(vs[i], phase)
      case Continue(next) =>
        NoTagsKeyFrom(vs, i + 1, next, found);
      case Add(_) =>
      case Stop =>
      case Blank =>
      case NoValue =>
    }
  }

  /**
   * A post none of whose lines starts with `tags:` contributes no tags; the only way
   * it can be malformed is a blank line in its front matter.
   */
  lemma NoTagsKey(lines: seq<string>)
    requires forall j :: 0 <= j < |lines| ==> Tokens(lines[j]) == [] || Tokens(lines[j])[0] != TagsKey
    ensures Scan(lines) == Ok({}) || (Scan(lines).Err? && Scan(lines).error.BlankLine?)
  {
    forall j | 0 <= j < |lines|
      ensures Views(lines)[j].tokens == [] || Views(lines)[j].tokens[0] != TagsKey
    {
      ViewAt(lines, j);
    }
    NoTagsKeyFrom(Views(lines), 0, Preamble, {});
  }

  /**
   * Where a scan fails: on a line without tokens, or on a `-` line without a value,
   * and never before the front matter has been opened.
   */
  lemma {:induction false} ErrorFrom(vs: seq<LineView>, i: nat, phase: Phase, found: set<string>)
    requires ScanFrom(vs, i, phase, found).Err?
    ensures var e := ScanFrom(vs, i, phase, found).error;
      i <= e.line < |vs| && (e.BlankLine? ==> vs[e.line].tokens == []) && (e.MissingTagValue? ==> vs[e.line].tokens == [EntryMarker])
    ensures phase == Preamble ==> exists o: nat :: OpensAt(vs, i, o) && o < ScanFrom(vs, i, phase, found).error.line
    decreases |vs| - i
  {
    match Step(vs[i], phase)
    case Continue(next) =>
      ErrorFrom(vs, i + 1, next, found);
      if phase == Preamble {
        if next == Header {
          assert OpensAt(vs, i, i);
        } else {
          var o: nat :| OpensAt(vs, i + 1, o) && o < ScanFrom(vs, i + 1, next, found).error.line;
          assert OpensAt(vs, i, o);
        }
      }
    case Add(t) =>
      ErrorFrom(vs, i + 1, TagList, found + {t});
    case Stop =>
    case Blank =>
    case NoValue =>
  }

  /**
   * A malformed post is reported at a blank line or at a `-` line without a value,
   * and that line comes after an opening `---`.
   */
  lemma ScanErrorAt(lines: seq<string>)
    requires Scan(lines).Err?
    ensures var e := Scan(lines).error;
      e.line < |lines| && (e.BlankLine? ==> Tokens(lines[e.line]) == []) && (e.MissingTagValue? ==> Tokens(lines[e.line]) == [EntryMarker])
    ensures exists o :: 0 <= o < Scan(lines).error.line && IsDelimiter(lines[o])
  {
    var vs := Views(lines);
    ErrorFrom(vs, 0, Preamble, {});
    var n := Scan(lines).error.line;
    ViewAt(lines, n);
    var o: nat :| OpensAt(vs, 0, o) && o < n;
    ViewAt(lines, o);
  }

  lemma ViewsAppend(a: seq<string>, b: seq<string>)
    ensures Views(a + b) == Views(a) + Views(b)
  {
    forall k | 0 <= k < |a + b|
      ensures Views(a + b)[k] == (Views(a) + Views(b))[k]
    {
      ViewAt(a + b, k);
      if k < |a| {
        ViewAt(a, k);
      } else {
        ViewAt(b, k - |a|);
      }
    }
  }

  /**
   * Once the scan is in the front matter, a later `---` at line c ends it there:
   * whatever follows line c is never read.
   */
  lemma {:induction false} ClosedFrom(vs: seq<LineView>, rest: seq<LineView>, i: nat, phase: Phase, found: set<string>, c: nat)
    requires i <= c < |vs| && vs[c].delimiter && vs[c].tokens == [Delimiter]
    requires phase == Preamble ==> exists o: nat :: i <= o < c && vs[o].delimiter
    ensures ScanFrom(vs + rest, i, phase, found) == ScanFrom(vs, i, phase, found)
    decreases c - i
  {
    assert (vs + rest)[i] == vs[i];
    if i < c {
      match Step(vs[i], phase)
      case Continue(next) =>
        if next == Preamble {
          var o: nat :| i <= o < c && vs[o].delimiter;
          assert i + 1 <= o;
        }
        ClosedFrom(vs, rest, i + 1, next, found, c);
      case Add(t) =>
        ClosedFrom(vs, rest, i + 1, TagList, found + {t}, c);
      case Stop =>
      case Blank =>
      case NoValue =>
    }
  }

  /** Lines after the `---` that closes the front matter never contribute tags, nor errors. */
  lemma ClosingDelimiterEndsScan(head: seq<string>, body: seq<string>, o: nat, c: nat)
    requires o < c < |head| && IsDelimiter(head[o]) && IsDelimiter(head[c])
    ensures Scan(head + body) == Scan(head)
  {
    var vs := Views(head);
    ViewsAppend(head, body);
    ViewAt(head, o);
    ViewAt(head, c);
    DelimiterTokens(head[c]);
    ClosedFrom(vs, Views(body), 0, Preamble, {}, c);
  }

  /** In the tag list, a line c that is neither blank nor a `-` line ends the scan there. */
  lemma {:induction false} ListEndFrom(vs: seq<LineView>, rest: seq<LineView>, k: nat, found: set<string>, c: nat)
    requires k < c < |vs| && vs[c].tokens != [] && vs[c].tokens[0] != EntryMarker
    ensures ScanFrom(vs + rest, k + 1, TagList, found) == ScanFrom(vs, k + 1, TagList, found)
    decreases c - k
  {
    var i := k + 1;
    assert (vs + rest)[i] == vs[i];
    if i < c {
      match Step(vs[i], TagList)
      case Add(t) =>
        ListEndFrom(vs, rest, i, found + {t}, c);
      case Continue(_) =>
      case Stop =>
      case Blank =>
      case NoValue =>
    }
  }

  /** From the front matter opened at line o, with `tags:` at line k, the end of the tag list at c ends the scan. */
  lemma {:induction false} HeaderListEndFrom(vs: seq<LineView>, rest: seq<LineView>, o: nat, found: set<string>, k: nat, c: nat)
    requires KeyAt(vs, o, k) && k < c < |vs| && vs[c].tokens != [] && vs[c].tokens[0] != EntryMarker
    ensures ScanFrom(vs + rest, o + 1, Header, found) == ScanFrom(vs, o + 1, Header, found)
    decreases k - o
  {
    var i := o + 1;
    assert (vs + rest)[i] == vs[i];
    if i == k {
      ListEndFrom(vs, rest, k, found, c);
    } else {
      assert HeaderLine(vs[i]);
      assert KeyAt(vs, i, k);
      HeaderListEndFrom(vs, rest, i, found, k, c);
    }
  }

  /**
   * The first line of the tag list that does not start with `-` ends the scan of the
   * post: no later line, a second `tags:` line or body text included, is read.
   */
  lemma {:induction false} ListEndEndsScanFrom(vs: seq<LineView>, rest: seq<LineView>, i: nat, o: nat, k: nat, c: nat)
    requires OpensAt(vs, i, o) && KeyAt(vs, o, k) && k < c < |vs| && vs[c].tokens != [] && vs[c].tokens[0] != EntryMarker
    ensures ScanFrom(vs + rest, i, Preamble, {}) == ScanFrom(vs, i, Preamble, {})
    decreases o - i
  {
    assert (vs + rest)[i] == vs[i];
    if i == o {
      HeaderListEndFrom(vs, rest, o, {}, k, c);
    } else {
      assert OpensAt(vs, i + 1, o);
      ListEndEndsScanFrom(vs, rest, i + 1, o, k, c);
    }
  }
  /** Before the front matter, lines without `---` are passed over. */
  lemma {:induction false} SkipPreamble(vs: seq<LineView>, i: nat, j: nat, found: set<string>)
    requires i <= j <= |vs|
    requires forall l :: i <= l < j ==> !vs[l].delimiter
    ensures ScanFrom(vs, i, Preamble, found) == ScanFrom(vs, j, Preamble, found)
    decreases j - i
  {
    if i < j {
      SkipPreamble(vs, i + 1, j, found);
    }
  }

  /** In the front matter, lines other than `---`, blank lines and `tags:` are passed over. */
  lemma {:induction false} SkipHeader(vs: seq<LineView>, i: nat, j: nat, found: set<string>)
    requires i <= j <= |vs|
    requires forall l :: i <= l < j ==> HeaderLine(vs[l])
    ensures ScanFrom(vs, i, Header, found) == ScanFrom(vs, j, Header, found)
    decreases j - i
  {
    if i < j {
      SkipHeader(vs, i + 1, j, found);
    }
  }

  /** In the tag list, entries are read on up to the first blank or bare `-` line, where the scan raises. */
  lemma {:induction false} ListFailsAt(vs: seq<LineView>, i: nat, b: nat, found: set<string>)
    requires i <= b < |vs|
    requires forall j :: i <= j < b ==> Entry(vs[j])
    requires vs[b].tokens == [] || vs[b].tokens == [EntryMarker]
    ensures ScanFrom(vs, i, TagList, found) == Err(if vs[b].tokens == [] then BlankLine(b) else MissingTagValue(b))
    decreases b - i
  {
    if i < b {
      ListFailsAt(vs, i + 1, b, found + {vs[i].tokens[1]});
    }
  }

  /** Front matter opened at o whose header lines run up to a blank line b raises at b. */
  lemma HeaderBlankFails(vs: seq<LineView>, o: nat, b: nat)
    requires OpensAt(vs, 0, o) && o < b < |vs|
    requires forall j :: o < j < b ==> HeaderLine(vs[j])
    requires !vs[b].delimiter && vs[b].tokens == []
    ensures ScanFrom(vs, 0, Preamble, {}) == Err(BlankLine(b))
  {
    SkipPreamble(vs, 0, o, {});
    SkipHeader(vs, o + 1, b, {});
  }

  /** A tag list opened at k whose entries run up to a blank or bare `-` line b raises at b. */
  lemma ListEntryFails(vs: seq<LineView>, o: nat, k: nat, b: nat)
    requires OpensAt(vs, 0, o) && KeyAt(vs, o, k) && k < b < |vs|
    requires forall j :: k < j < b ==> Entry(vs[j])
    requires vs[b].tokens == [] || vs[b].tokens == [EntryMarker]
    ensures ScanFrom(vs, 0, Preamble, {}) == Err(if vs[b].tokens == [] then BlankLine(b) else MissingTagValue(b))
  {
    SkipPreamble(vs, 0, o, {});
    SkipHeader(vs, o + 1, k, {});
    ListFailsAt(vs, k + 1, b, {});
  }

  /**
   * A blank line in the front matter, met before any `tags:` line or closing `---`,
   * makes the script raise at that line.
   */
  lemma BlankLineFails(lines: seq<string>, o: nat, b: nat)
    requires o < b < |lines|
    requires forall j :: 0 <= j < o ==> !IsDelimiter(lines[j])
    requires IsDelimiter(lines[o])
    requires forall j :: o < j < b ==> !IsDelimiter(lines[j]) && Tokens(lines[j]) != [] && Tokens(lines[j])[0] != TagsKey
    requires Tokens(lines[b]) == []
    ensures Scan(lines) == Err(BlankLine(b))
  {
    OpensInViews(lines, o);
    HeaderInViews(lines, o, b);
    ViewAt(lines, b);
    DelimiterTokens(lines[b]);
    HeaderBlankFails(Views(lines), o, b);
  }

  /**
   * In the tag list, a blank line makes the script raise at that line, and so does a
   * `-` line without a value.
   */
  lemma TagEntryFails(lines: seq<string>, o: nat, k: nat, b: nat)
    requires o < k < b < |lines|
    requires forall j :: 0 <= j < o ==> !IsDelimiter(lines[j])
    requires IsDelimiter(lines[o])
    requires forall j :: o < j < k ==> !IsDelimiter(lines[j]) && Tokens(lines[j]) != [] && Tokens(lines[j])[0] != TagsKey
    requires Tokens(lines[k]) != [] && Tokens(lines[k])[0] == TagsKey
    requires forall j :: k < j < b ==> |Tokens(lines[j])| >= 2 && Tokens(lines[j])[0] == EntryMarker
    requires Tokens(lines[b]) == [] || Tokens(lines[b]) == [EntryMarker]
    ensures Scan(lines) == Err(if Tokens(lines[b]) == [] then BlankLine(b) else MissingTagValue(b))
  {
    OpensInViews(lines, o);
    HeaderInViews(lines, o, k);
    ViewAt(lines, k);
    DelimiterTokens(lines[k]);
    EntriesInViews(lines, k, b);
    ViewAt(lines, b);
    ListEntryFails(Views(lines), o, k, b);
  }

  /** The first `---` line of a post, as its views show it. */
  lemma OpensInViews(lines: seq<string>, o: nat)
    requires o < |lines|
    requires forall j :: 0 <= j < o ==> !IsDelimiter(lines[j])
    requires IsDelimiter(lines[o])
    ensures OpensAt(Views(lines), 0, o)
  {
    ViewAt(lines, o);
    forall j | 0 <= j < o
      ensures !Views(lines)[j].delimiter
    {
      ViewAt(lines, j);
    }
  }

  /** Header lines of a post, as its views show them. */
  lemma HeaderInViews(lines: seq<string>, o: nat, b: nat)
    requires b <= |lines|
    requires forall j :: o < j < b ==> !IsDelimiter(lines[j]) && Tokens(lines[j]) != [] && Tokens(lines[j])[0] != TagsKey
    ensures forall j :: o < j < b ==> HeaderLine(Views(lines)[j])
  {
    forall j | o < j < b
      ensures HeaderLine(Views(lines)[j])
    {
      ViewAt(lines, j);
    }
  }

  /** Tag entries of a post, as its views show them. */
  lemma EntriesInViews(lines: seq<string>, k: nat, b: nat)
    requires b <= |lines|
    requires forall j :: k < j < b ==> |Tokens(lines[j])| >= 2 && Tokens(lines[j])[0] == EntryMarker
    ensures forall j :: k < j < b ==> Entry(Views(lines)[j])
  {
    forall j | k < j < b
      ensures Entry(Views(lines)[j])
    {
      ViewAt(lines, j);
    }
  }

}
