/**
 * The script's outer loop: every post is scanned in turn and its tags are added
 * to one shared set, so a tag listed by several posts is kept once. A malformed
 * post raises, which ends the whole run.
 */
module TagCollection {
  import opened Results
  import opened FrontMatter

  /** What scanning one post gives: its tags, or why it is malformed. */
  type ScanResult = Result<set<string>, ScanError>

  /** The run stopped on a post: its position among the posts, and what was wrong with it. */
  datatype RunError = Malformed(post: nat, error: ScanError)

  /** The scan result of every post, in order. */
  function ScanEach(posts: seq<seq<string>>): (rs: seq<ScanResult>)
    ensures |rs| == |posts|
  {
    seq(|posts|, p requires 0 <= p < |posts| => Scan(posts[p]))
  }

  /** The union of the scanned tags, or the error of the first failing scan. */
  function Gather(rs: seq<ScanResult>): Result<set<string>, RunError>
  {
    if rs == [] then Ok({})
    else
      var last := |rs| - 1;
      match Gather(rs[..last])
      case Err(e) => Err(e)
      case Ok(found) =>
        match rs[last]
        case Err(e) => Err(Malformed(last, e))
        case Ok(ts) => Ok(found + ts)
  }

  /** The outcome of the whole run over the posts, in the order they are read. */
  function Collect(posts: seq<seq<string>>): Result<set<string>, RunError>
  {
    Gather(ScanEach(posts))
  }

  /** Once a prefix of the scans fails, the run fails with the same error. */
  lemma {:induction false} GatherErrorSticks(rs: seq<ScanResult>, q: nat)
    requires q <= |rs|
    requires Gather(rs[..q]).Err?
    ensures Gather(rs) == Gather(rs[..q])
    decreases |rs| - q
  {
    if q < |rs| {
      var init := rs[..|rs| - 1];
      assert init[..q] == rs[..q];
      GatherErrorSticks(init, q);
    } else {
      assert rs[..q] == rs;
    }
  }

  /**
   * Lines 12-38: scan the posts in order into one set of tags; the first
   * malformed post ends the run with its error.
   */
  method CollectTags(posts: seq<seq<string>>) returns (r: Result<set<string>, RunError>)
    ensures r == Collect(posts)
  {
    ghost var rs := ScanEach(posts);
    var allTags: set<string> := {};
    for p := 0 to |posts|
      invariant Gather(rs[..p]) == Ok(allTags)
    {
      var scanned := ScanPost(posts[p], allTags);
      GatherStep(rs, p, allTags, scanned);
      if scanned.Err? {
        return Err(Malformed(p, scanned.error));
      }
      allTags := scanned.value;
    }
    assert rs[..|posts|] == rs;
    return Ok(allTags);
  }

  /** One more scan, added to the tags gathered so far, either extends the run or ends it. */
  lemma GatherStep(rs: seq<ScanResult>, p: nat, found: set<string>, scanned: ScanResult)
    requires p < |rs|
    requires Gather(rs[..p]) == Ok(found)
    requires scanned == Extend(found, rs[p])
    ensures scanned.Ok? ==> Gather(rs[..p + 1]) == Ok(scanned.value)
    ensures scanned.Err? ==> Gather(rs) == Err(Malformed(p, scanned.error))
  {
    assert rs[..p + 1][..p] == rs[..p];
    if scanned.Err? {
      GatherErrorSticks(rs, p + 1);
    }
  }

  /** The run succeeds exactly when every scan succeeds. */
  lemma {:induction false} GatherOk(rs: seq<ScanResult>)
    ensures Gather(rs).Ok? <==> forall p :: 0 <= p < |rs| ==> rs[p].Ok?
  {
    if rs != [] {
      var init := rs[..|rs| - 1];
      GatherOk(init);
      assert forall p :: 0 <= p < |init| ==> init[p] == rs[p];
    }
  }

  /** A tag is gathered exactly when some scan found it. */
  lemma {:induction false} GatherMembers(rs: seq<ScanResult>, t: string)
    requires Gather(rs).Ok?
    ensures t in Gather(rs).value <==> exists p :: 0 <= p < |rs| && rs[p].Ok? && t in rs[p].value
  {
    if rs != [] {
      var init := rs[..|rs| - 1];
      GatherMembers(init, t);
      assert forall p :: 0 <= p < |init| ==> init[p] == rs[p];
    }
  }

  /** The error reported is that of the first failing scan. */
  lemma {:induction false} GatherFirstError(rs: seq<ScanResult>)
    requires Gather(rs).Err?
    ensures Gather(rs).error.post < |rs|
    ensures rs[Gather(rs).error.post] == Err(Gather(rs).error.error)
    ensures forall q :: 0 <= q < Gather(rs).error.post ==> rs[q].Ok?
  {
    var init := rs[..|rs| - 1];
    assert forall p :: 0 <= p < |init| ==> init[p] == rs[p];
    if Gather(init).Err? {
      GatherFirstError(init);
    } else {
      GatherOk(init);
    }
  }

  /** The run over the posts succeeds exactly when every post is well formed. */
  lemma CollectOk(posts: seq<seq<string>>)
    ensures Collect(posts).Ok? <==> forall p :: 0 <= p < |posts| ==> Scan(posts[p]).Ok?
  {
    var rs := ScanEach(posts);
    GatherOk(rs);
    assert forall p :: 0 <= p < |posts| ==> rs[p] == Scan(posts[p]);
  }

  /** A tag is collected exactly when some post lists it: the result is the union over all posts. */
  lemma CollectMembers(posts: seq<seq<string>>, t: string)
    requires Collect(posts).Ok?
    ensures t in Collect(posts).value <==> exists p :: 0 <= p < |posts| && Scan(posts[p]).Ok? && t in Scan(posts[p]).value
  {
    var rs := ScanEach(posts);
    GatherMembers(rs, t);
    assert forall p :: 0 <= p < |posts| ==> rs[p] == Scan(posts[p]);
  }

  /** A failed run names the first malformed post and that post's own error. */
  lemma CollectFirstError(posts: seq<seq<string>>)
    requires Collect(posts).Err?
    ensures Collect(posts).error.post < |posts|
    ensures Scan(posts[Collect(posts).error.post]) == Err(Collect(posts).error.error)
    ensures forall q :: 0 <= q < Collect(posts).error.post ==> Scan(posts[q]).Ok?
  {
    var rs := ScanEach(posts);
    GatherFirstError(rs);
    assert forall p :: 0 <= p < |posts| ==> rs[p] == Scan(posts[p]);
  }

  /** Two sequences of scans with the same results, in any order and number, gather the same tags. */
  lemma GatherSameScans(x: seq<ScanResult>, y: seq<ScanResult>)
    requires Gather(x).Ok?
    requires forall p :: 0 <= p < |x| ==> x[p] in y
    requires forall p :: 0 <= p < |y| ==> y[p] in x
    ensures Gather(y).Ok?
    ensures Gather(y).value == Gather(x).value
  {
    GatherOk(x);
    GatherOk(y);
    forall t
      ensures t in Gather(y).value <==> t in Gather(x).value
    {
      GatherMembers(x, t);
      GatherMembers(y, t);
      if t in Gather(x).value {
        var p :| 0 <= p < |x| && x[p].Ok? && t in x[p].value;
        var q :| 0 <= q < |y| && y[q] == x[p];
      }
      if t in Gather(y).value {
        var p :| 0 <= p < |y| && y[p].Ok? && t in y[p].value;
        var q :| 0 <= q < |x| && x[q] == y[p];
      }
    }
  }

  /** When every post is well formed, the order in which the posts are read does not change the tags. */
  lemma CollectOrderIrrelevant(a: seq<seq<string>>, b: seq<seq<string>>)
    requires multiset(a) == multiset(b)
    requires Collect(a).Ok?
    ensures Collect(b).Ok?
    ensures Collect(b).value == Collect(a).value
  {
    var x, y := ScanEach(a), ScanEach(b);
    forall p | 0 <= p < |y|
      ensures y[p] in x
    {
      assert b[p] in multiset(a);
      var q :| 0 <= q < |a| && a[q] == b[p];
      assert x[q] == y[p];
    }
    forall p | 0 <= p < |x|
      ensures x[p] in y
    {
      assert a[p] in multiset(b);
      var q :| 0 <= q < |b| && b[q] == a[p];
      assert y[q] == x[p];
    }
    GatherSameScans(x, y);
  }

}
