/**
 * The whole run of the script: collect the tags of all posts, then regenerate the
 * tag directory from them and report how many tags there are. A malformed post
 * stops the run before the directory is touched.
 */
module TagGenerator {
  import opened Results
  import opened FrontMatter
  import opened TagCollection
  import opened TagPages

  /**
   * Lines 12-57: the posts are the lines of each file the script reads, in the
   * order it reads them; the result is the count the script prints, or the error
   * it stops with.
   */
  method GenerateTagPages(posts: seq<seq<string>>, out: OutputDir) returns (r: Result<nat, RunError>)
    requires out.Valid()
    requires Collect(posts).Ok? ==> forall t :: t in Collect(posts).value ==> PlainTag(t)
    modifies out
    ensures out.Valid()
    ensures r.Ok? <==> Collect(posts).Ok?
    ensures r.Err? ==> r.error == Collect(posts).error && out.present == old(out.present) && out.files == old(out.files)
    ensures r.Ok? ==> out.present && out.files == Regenerated(old(out.files), Collect(posts).value)
    ensures r.Ok? ==> r.value == |Collect(posts).value| == |set n | n in out.files && MatchesPagePattern(n)|
  {
    var collected := CollectTags(posts);
    if collected.Err? {
      return Err(collected.error);
    }
    var allTags := collected.value;
    out.Regenerate(allTags);
    PageCount(old(out.files), allTags);
    return Ok(|allTags|);
  }

  /**
   * After a successful run, a plain tag has a page exactly when some post lists it,
   * and that page holds the tag's template.
   */
  lemma OutputMirrorsPosts(posts: seq<seq<string>>, files: map<string, string>, t: string)
    requires Collect(posts).Ok?
    requires forall u :: u in Collect(posts).value ==> PlainTag(u)
    requires PlainTag(t)
    ensures PageName(t) in Regenerated(files, Collect(posts).value)
      <==> exists p :: 0 <= p < |posts| && Scan(posts[p]).Ok? && t in Scan(posts[p]).value
    ensures PageName(t) in Regenerated(files, Collect(posts).value)
      ==> Regenerated(files, Collect(posts).value)[PageName(t)] == Template(t)
  {
    var tags := Collect(posts).value;
    CollectMembers(posts, t);
    RegeneratedMirrorsTags(files, tags);
    PlainTagPageMatches(t);
    TagOfPageName(t);
  }
}
