/**
 * Posts written the way the blog writes them: some lines, the opening `---`, front
 * matter lines, a `tags:` key with one `  - <tag>` line per tag, the closing `---`,
 * and the body. The scanner recovers exactly the listed tags from such a post; the
 * layout is stated on what the scanner sees of each line (its view).
 */
module RenderedPosts {
  import opened Text
  import opened Results
  import opened FrontMatter

  /** A tag entry as front matter writes it. */
  function EntryLine(t: string): string
  {
    "  - " + t
  }

  /** An entry line yields the two tokens `-` and the tag itself. */
  lemma EntryTokens(t: string)
    requires IsToken(t)
    ensures Tokens(EntryLine(t)) == [EntryMarker, t]
  {
    var tail := " " + t;
    assert Split(tail) == [t] by {
      SplitSkipsLeadingSpace(" ", t);
      SplitToken(t);
    }
    var entry := EntryMarker + tail;
    assert Split(entry) == [EntryMarker, t] by {
      assert IsToken(EntryMarker);
      SplitLeadingToken(EntryMarker, tail);
    }
    assert EntryLine(t) == "  " + entry;
    SplitSkipsLeadingSpace("  ", entry);
  }

  lemma EntryLineView(t: string)
    requires IsToken(t)
    ensures View(EntryLine(t)) == LineView(false, [EntryMarker, t])
  {
    EntryTokens(t);
    DelimiterTokens(EntryLine(t));
  }

  lemma TokenLineView(w: string)
    requires IsToken(w)
    ensures View(w) == LineView(w == Delimiter, [w])
  {
    SplitToken(w);
    StripToken(w);
  }

  /** The opening and closing `---` and the `tags:` key, as the scanner sees them. */
  lemma KeyViews()
    ensures View(Delimiter) == LineView(true, [Delimiter])
    ensures View(TagsKey) == LineView(false, [TagsKey])
  {
    assert IsToken(Delimiter) && IsToken(TagsKey);
    TokenLineView(Delimiter);
    TokenLineView(TagsKey);
  }

  /** A run of entries adds the tags it lists. */
  lemma {:induction false} ReadEntries(vs: seq<LineView>, i: nat, tags: seq<string>, found: set<string>)
    requires i + |tags| <= |vs|
    requires forall l :: i <= l < i + |tags| ==> vs[l].tokens == [EntryMarker, tags[l - i]]
    ensures ScanFrom(vs, i, TagList, found) == ScanFrom(vs, i + |tags|, TagList, found + (set t | t in tags))
    decreases |tags|
  {
    if tags == [] {
      assert found + (set t | t in tags) == found;
    } else {
      assert vs[i].tokens == [EntryMarker, tags[0]];
      ReadEntries(vs, i + 1, tags[1..], found + {tags[0]});
      assert (found + {tags[0]}) + (set t | t in tags[1..]) == found + (set t | t in tags) by {
        assert forall t :: t in tags <==> t == tags[0] || t in tags[1..];
      }
    }
  }

  /** Views laid out as a post: the opening `---` at o, `tags:` at k, the entries listing tags, then `---`. */
  ghost predicate LaidOut(vs: seq<LineView>, o: nat, k: nat, tags: seq<string>)
  {
    && o < k && k + 1 + |tags| < |vs|
    && (forall l :: 0 <= l < o ==> !vs[l].delimiter)
    && vs[o].delimiter
    && (forall l :: o < l < k ==> HeaderLine(vs[l]))
    && KeyLine(vs[k])
    && (forall l :: k + 1 <= l < k + 1 + |tags| ==> vs[l].tokens == [EntryMarker, tags[l - (k + 1)]])
    && vs[k + 1 + |tags|].tokens == [Delimiter]
  }

  /** A post laid out this way yields exactly its listed tags. */
  lemma LaidOutViews(vs: seq<LineView>, o: nat, k: nat, tags: seq<string>)
    requires LaidOut(vs, o, k, tags)
    ensures ScanFrom(vs, 0, Preamble, {}) == Ok(set t | t in tags)
  {
    SkipPreamble(vs, 0, o, {});
    SkipHeader(vs, o + 1, k, {});
    ReadEntries(vs, k + 1, tags, {});
    assert {} + (set t | t in tags) == set t | t in tags;
  }
}
