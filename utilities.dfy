/**
 * The notebook helpers of the workshop: the bucket name of an S3-style URL,
 * the text between `<name>` and `</name>` in a model reply, and the
 * selection of CloudFormation stack outputs by key.
 */
module Utilities {
  import opened Wrappers
  import opened Strings

  // ------------------------------------------------------------ S3 bucket

  const S3Scheme: string := "s3://"

  /** The URL with one leading "s3://" removed, if it has one. */
  function S3Path(url: string): (rest: string)
    ensures StartsWith(url, S3Scheme) ==> url == S3Scheme + rest
    ensures !StartsWith(url, S3Scheme) ==> rest == url
  {
    if StartsWith(url, S3Scheme) then
      OccursAtIff(url, S3Scheme, 0);
      url[5..]
    else url
  }

  /**
   * `extract_s3_bucket`: everything before the first "/" of the URL once its
   * scheme is gone, or all of it when it has no "/". The bucket holds no "/".
   * (The `except` branch of the source is dead: `split("/")` never raises
   * and always has a first piece.)
   */
  function ExtractS3Bucket(url: string): (bucket: string)
    ensures var rest := S3Path(url);
      |bucket| <= |rest| && bucket == rest[..|bucket|] &&
      (if '/' in rest then |bucket| < |rest| && rest[|bucket|] == '/' else bucket == rest)
    ensures '/' !in bucket
  {
    var rest := S3Path(url);
    FirstPieceBeforeSlash(rest);
    Split(rest, "/")[0]
  }

  /** The first "/"-piece of `rest` stops at its first "/". */
  lemma FirstPieceBeforeSlash(rest: string)
    ensures var bucket := Split(rest, "/")[0];
      |bucket| <= |rest| && bucket == rest[..|bucket|] && '/' !in bucket &&
      (if '/' in rest then |bucket| < |rest| && rest[|bucket|] == '/' else bucket == rest)
  {
    FirstPiece(rest, "/");
    var bucket := Split(rest, "/")[0];
    NoCharOccurrence(bucket, '/');
    if '/' in rest {
      if !Contains(rest, "/") {
        NoCharOccurrence(rest, '/');
      }
      OccursAtIff(rest, "/", |bucket|);
      assert rest[|bucket|..|bucket| + 1] == "/";
    }
  }

  /** A bucket name cannot start with the scheme, which holds a "/". */
  lemma BucketHasNoScheme(url: string)
    ensures !StartsWith(ExtractS3Bucket(url), S3Scheme)
  {
    var bucket := ExtractS3Bucket(url);
    OccursAtIff(bucket, S3Scheme, 0);
    if |bucket| >= |S3Scheme| {
      assert bucket[3] == '/' ==> '/' in bucket;
    }
  }

  /** Extracting the bucket of a bucket changes nothing. */
  lemma ExtractS3BucketIdempotent(url: string)
    ensures ExtractS3Bucket(ExtractS3Bucket(url)) == ExtractS3Bucket(url)
  {
    var bucket := ExtractS3Bucket(url);
    BucketHasNoScheme(url);
    HeadNotContained(bucket, "/");
    SplitAbsent(bucket, "/");
  }

  // ------------------------------------------------------------- tags

  function OpenTag(name: string): string { "<" + name + ">" }

  function CloseTag(name: string): string { "</" + name + ">" }

  /**
   * The pattern `<name>(.*)</name>` (or its lazy form) can match with the
   * opening tag at `p` and the capture ending where a closing tag starts, at
   * `e`. With `re.DOTALL` the capture may hold any character.
   */
  ghost predicate Candidate(s: string, open: string, close: string, p: int, e: int) {
    OccursAt(s, open, p) && p + |open| <= e && OccursAt(s, close, e)
  }

  /**
   * The match `re.search` reports: the leftmost start that matches at all,
   * and there the longest capture (greedy `.*`) or the shortest (lazy `.*?`).
   */
  ghost predicate SearchMatch(s: string, open: string, close: string, greedy: bool, p: int, e: int) {
    Candidate(s, open, close, p, e) &&
    (forall p', e' :: p' < p ==> !Candidate(s, open, close, p', e')) &&
    (if greedy then forall e' :: e < e' ==> !Candidate(s, open, close, p, e')
     else forall e' :: e' < e ==> !Candidate(s, open, close, p, e'))
  }

  /** The search's answer is determined: two reported matches coincide. */
  lemma SearchMatchUnique(s: string, open: string, close: string, greedy: bool, p: int, e: int, p2: int, e2: int)
    requires SearchMatch(s, open, close, greedy, p, e) && SearchMatch(s, open, close, greedy, p2, e2)
    ensures p == p2 && e == e2
  {
  }

  /**
   * Where the match starts and where its capture ends: the first opening tag
   * and then the last (greedy) or the first (lazy) closing tag after it.
   */
  function TagSearch(s: string, open: string, close: string, greedy: bool): (m: Option<(nat, nat)>)
    ensures m.Some? ==> SearchMatch(s, open, close, greedy, m.value.0, m.value.1)
    ensures m.None? ==> forall p, e :: !Candidate(s, open, close, p, e)
  {
    match IndexOfFrom(s, open, 0)
    case None => None
    case Some(p) =>
      var c := if greedy then LastIndexOfFrom(s, close, p + |open|) else IndexOfFrom(s, close, p + |open|);
      match c
      case None => None
      case Some(e) => Some((p, e))
  }

  /**
   * `r` is what `extract_tag` returns for a match whose opening tag starts
   * at `p`: the stripped capture and the offset where the capture ends.
   */
  ghost predicate TagResult(response: string, name: string, greedy: bool, p: int, r: (string, int)) {
    0 <= p && p + |OpenTag(name)| <= r.1 <= |response| &&
    SearchMatch(response, OpenTag(name), CloseTag(name), greedy, p, r.1) &&
    r.0 == Strip(response[p + |OpenTag(name)|..r.1])
  }

  /**
   * `extract_tag` with the regular-expression module in scope: the stripped
   * capture and the offset where it ends, or `("", -1)` when the pattern
   * does not match. The offset is where the closing tag begins.
   */
  function ExtractTag(response: string, name: string, greedy: bool): (r: (string, int))
    ensures r.1 == -1 <==> forall p, e :: !Candidate(response, OpenTag(name), CloseTag(name), p, e)
    ensures r.1 == -1 ==> r.0 == ""
    ensures r.1 != -1 ==> exists p :: TagResult(response, name, greedy, p, r)
  {
    var open := OpenTag(name);
    match TagSearch(response, open, CloseTag(name), greedy)
    case None => ("", -1)
    case Some((p, e)) =>
      var r := (Strip(response[p + |open|..e]), e as int);
      assert TagResult(response, name, greedy, p, r);
      r
  }

  /** The example of the docstring. */
  lemma ExtractTagExample()
    ensures ExtractTag("foo <a>baz</a> bar", "a", true) == ("baz", 10)
  {
    var s := "foo <a>baz</a> bar";
    ExampleMatch();
    var r := ExtractTag(s, "a", true);
    var p :| TagResult(s, "a", true, p, r);
    SearchMatchUnique(s, "<a>", "</a>", true, p, r.1, 4, 10);
    assert s[7..10] == "baz";
    ExampleStrip();
  }

  lemma ExampleMatch()
    ensures OpenTag("a") == "<a>" && CloseTag("a") == "</a>"
    ensures SearchMatch("foo <a>baz</a> bar", "<a>", "</a>", true, 4, 10)
  {
    var s := "foo <a>baz</a> bar";
    forall p', e' | p' < 4 ensures !Candidate(s, "<a>", "</a>", p', e') {
      if 0 <= p' {
        assert s[p'] != '<';
      }
    }
    forall e' | 10 < e' ensures !Candidate(s, "<a>", "</a>", 4, e') {
      if e' + 4 <= |s| {
        assert s[e'] != '<';
      }
    }
  }

  lemma ExampleStrip()
    ensures Strip("baz") == "baz"
  {
    assert SkipSpace("baz", 0) == 0;
    assert SkipSpaceBack("baz", 0, 3) == 3;
  }

  /**
   * `extract_tag` as the module is written: it calls `re.search`, but the
   * module never imports `re`, so every call raises `NameError`.
   */
  function ExtractTagAsWritten(response: string, name: string, greedy: bool): (r: Result<(string, int), Exception>)
    ensures r.Failure? && r.error.NameError?
  {
    Failure(NameError("re"))
  }

  /** As written, even the docstring's example fails instead of giving `("baz", 10)`. */
  lemma ExtractTagAsWrittenMissesExample()
    ensures ExtractTagAsWritten("foo <a>baz</a> bar", "a", true) != Success(ExtractTag("foo <a>baz</a> bar", "a", true))
  {
  }

  // ------------------------------------------------- CloudFormation outputs

  /** One entry of a stack's `Outputs`: its `OutputKey` and `OutputValue`. */
  datatype StackOutput = StackOutput(key: string, value: string)

  /** `outputs[j]` is the first output whose key is `name`. */
  predicate FirstWithKey(outputs: seq<StackOutput>, name: string, j: int) {
    0 <= j < |outputs| && outputs[j].key == name &&
    forall j' :: 0 <= j' < j ==> outputs[j'].key != name
  }

  /** `next(filter(lambda x: x["OutputKey"] == name, outputs), None)`. */
  function FirstOutput(outputs: seq<StackOutput>, name: string): (r: Option<StackOutput>)
    ensures r.None? <==> forall j :: 0 <= j < |outputs| ==> outputs[j].key != name
    ensures r.Some? ==> exists j :: FirstWithKey(outputs, name, j) && outputs[j] == r.value
  {
    if |outputs| == 0 then None
    else if outputs[0].key == name then
      assert FirstWithKey(outputs, name, 0);
      Some(outputs[0])
    else
      var r := FirstOutput(outputs[1..], name);
      if r.Some? then
        var j :| FirstWithKey(outputs[1..], name, j) && outputs[1..][j] == r.value;
        assert FirstWithKey(outputs, name, j + 1);
        r
      else r
  }

  /**
   * `extract_CF_outputs` once the stack's outputs are known: one entry per
   * requested name, in order, holding the value of the first output with
   * that key, or `None` when there is none.
   */
  function ExtractCfOutputs(outputs: seq<StackOutput>, names: seq<string>): (r: seq<Option<string>>)
    ensures |r| == |names|
    ensures forall i :: 0 <= i < |names| ==>
      (r[i].None? <==> forall j :: 0 <= j < |outputs| ==> outputs[j].key != names[i])
    ensures forall i :: 0 <= i < |names| && r[i].Some? ==>
      exists j :: FirstWithKey(outputs, names[i], j) && outputs[j].value == r[i].value
  {
    seq(|names|, i requires 0 <= i < |names| =>
      match FirstOutput(outputs, names[i])
      case Some(o) => Some(o.value)
      case None => None)
  }
}
