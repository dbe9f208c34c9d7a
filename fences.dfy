/**
 * Pulling SQL out of the model's replies. Every extraction in the DIN-SQL
 * class is a chain of `str.split` calls on the fence markers "```sql" and
 * "```"; these functions are those chains, with the exceptions that Python
 * raises made explicit as `Failure` values.
 */
module Fences {
  import opened Wrappers
  import opened Strings

  const SqlOpen: string := "```sql"
  const SqlClose: string := "```"

  /**
   * `body` is the first fenced block of `text`: the text after the first
   * `start` is cut before its next `start` (piece `q`), and `q` is cut
   * before its first `end`.
   */
  ghost predicate FencedAfterFirst(text: string, start: string, end: string, body: string)
    requires start != "" && Contains(text, start)
  {
    var rest := text[IndexOfFrom(text, start, 0).value + |start|..];
    exists q :: CutAtFirst(rest, start, q) && CutAtFirst(q, end, body)
  }

  /** The first fenced block is determined by the text and the two markers. */
  lemma FencedAfterFirstUnique(text: string, start: string, end: string, body: string, body': string)
    requires start != "" && Contains(text, start)
    requires FencedAfterFirst(text, start, end, body) && FencedAfterFirst(text, start, end, body')
    ensures body == body'
  {
    var rest := text[IndexOfFrom(text, start, 0).value + |start|..];
    var q :| CutAtFirst(rest, start, q) && CutAtFirst(q, end, body);
    var q' :| CutAtFirst(rest, start, q') && CutAtFirst(q', end, body');
    CutAtFirstUnique(rest, start, q, q');
    CutAtFirstUnique(q, end, body, body');
  }

  /**
   * `text.split(start)[1].split(end)[0]`: the first fenced block. An empty
   * marker is a `ValueError`; a text without `start` has no second piece,
   * an `IndexError`.
   */
  function FirstFence(text: string, start: string, end: string): (r: Result<string, Exception>)
    ensures start == "" ==> r == Failure(ValueError)
    ensures start != "" && !Contains(text, start) ==> r == Failure(IndexError)
    ensures start != "" && Contains(text, start) && end == "" ==> r == Failure(ValueError)
    ensures r.Success? ==>
      start != "" && end != "" && Contains(text, start) && FencedAfterFirst(text, start, end, r.value) &&
      !Contains(r.value, end)
  {
    if start == "" then Failure(ValueError)
    else
      var parts := Split(text, start);
      if |parts| < 2 then
        (if Contains(text, start) then SecondPiece(text, start); Failure(IndexError) else Failure(IndexError))
      else if end == "" then Failure(ValueError)
      else
        var body := Split(parts[1], end)[0];
        FirstFenceLocated(text, start, end);
        FirstPiece(parts[1], end);
        Success(body)
  }

  lemma FirstFenceLocated(text: string, start: string, end: string)
    requires start != "" && end != "" && Contains(text, start)
    ensures |Split(text, start)| >= 2
    ensures FencedAfterFirst(text, start, end, Split(Split(text, start)[1], end)[0])
  {
    var i := IndexOfFrom(text, start, 0).value;
    var rest := text[i + |start|..];
    SecondPiece(text, start);
    var q := Split(text, start)[1];
    FirstPiece(rest, start);
    FirstPiece(q, end);
    assert CutAtFirst(rest, start, q) && CutAtFirst(q, end, Split(q, end)[0]);
  }

  /** The first fenced block is a piece of the text, so it holds only characters of the text. */
  lemma FencedChars(text: string, start: string, end: string, body: string)
    requires start != "" && Contains(text, start) && FencedAfterFirst(text, start, end, body)
    ensures forall c :: c in body ==> c in text
  {
    var i := IndexOfFrom(text, start, 0).value + |start|;
    var rest := text[i..];
    var q :| CutAtFirst(rest, start, q) && CutAtFirst(q, end, body);
    forall c | c in body ensures c in text {
      var j :| 0 <= j < |body| && body[j] == c;
      assert q[j] == c;
      assert text[i + j] == rest[j];
    }
  }

  /**
   * Backticks that run together: in "```sqlx````" the block is "x", cut at
   * the first of the overlapping "```", and "x`" is not the block.
   */
  lemma FirstFenceOverlapExample()
    ensures Contains("```sqlx````", SqlOpen)
    ensures FencedAfterFirst("```sqlx````", SqlOpen, SqlClose, "x")
    ensures !FencedAfterFirst("```sqlx````", SqlOpen, SqlClose, "x`")
  {
    var text := "```sqlx````";
    OccursAtIff(text, SqlOpen, 0);
    assert text[0..6] == SqlOpen;
    assert IndexOfFrom(text, SqlOpen, 0) == Some(0);
    var rest := text[6..];
    assert rest == "x````";
    assert CutAtFirst(rest, SqlOpen, rest);
    OccursAtIff(rest, SqlClose, 0);
    OccursAtIff(rest, SqlClose, 1);
    assert rest[1..4] == SqlClose;
    assert CutAtFirst(rest, SqlClose, "x");
    if FencedAfterFirst(text, SqlOpen, SqlClose, "x`") {
      FencedAfterFirstUnique(text, SqlOpen, SqlClose, "x", "x`");
    }
  }

  /**
   * `text.split("```sql")[-1].split("```")[0]`: the block after the last
   * "```sql" marker, cut at the next "```".
   */
  function LastSqlFence(text: string): (r: string)
    ensures !Contains(r, SqlClose)
  {
    var parts := Split(text, SqlOpen);
    var body := Split(parts[|parts| - 1], SqlClose)[0];
    FirstPiece(parts[|parts| - 1], SqlClose);
    body
  }

  /**
   * With no "```sql" marker the extraction keeps the text before the first
   * "```" (all of it when there is none).
   */
  lemma LastSqlFenceNoMarker(text: string)
    requires !Contains(text, SqlOpen)
    ensures CutAtFirst(text, SqlClose, LastSqlFence(text))
  {
    SplitAbsent(text, SqlOpen);
    FirstPiece(text, SqlClose);
  }

  /**
   * `r` starts at `k`, right after an occurrence of "```sql" with no other
   * "```sql" after it, and is what precedes the first "```" from there on
   * (all the rest when there is none).
   */
  predicate FollowsLastMarker(text: string, k: int, r: string) {
    |SqlOpen| <= k <= |text| &&
    OccursAt(text, SqlOpen, k - |SqlOpen|) && !Contains(text[k..], SqlOpen) &&
    CutAtFirst(text[k..], SqlClose, r)
  }

  /**
   * With a "```sql" marker the extraction keeps what follows the last
   * marker, up to the first "```" after it or the end of the text.
   */
  lemma LastSqlFenceAfterMarker(text: string)
    requires Contains(text, SqlOpen)
    ensures exists k :: FollowsLastMarker(text, k, LastSqlFence(text))
  {
    var parts := Split(text, SqlOpen);
    var l := parts[|parts| - 1];
    FirstPiece(l, SqlClose);
    LastPiece(text, SqlOpen);
    AfterLastIsSuffix(text, SqlOpen);
    AfterLastClean(text, SqlOpen);
    AfterLastFollowsSep(text, SqlOpen);
    AfterLastMarker(text, l, LastSqlFence(text));
  }

  /** The piece before the first "```" of the suffix after the last marker, located in the whole text. */
  lemma AfterLastMarker(text: string, l: string, r: string)
    requires EndsWith(text, l) && |l| + |SqlOpen| <= |text|
    requires OccursAt(text, SqlOpen, |text| - |l| - |SqlOpen|) && !Contains(l, SqlOpen)
    requires CutAtFirst(l, SqlClose, r)
    ensures FollowsLastMarker(text, |text| - |l|, r)
  {
    var k := |text| - |l|;
    OccursAtIff(text, l, k);
    assert text[k..] == l;
  }

  /**
   * Only one place fits: "```sql" cannot overlap itself, so the last marker
   * and hence the block after it are determined by the text.
   */
  lemma FollowsLastMarkerUnique(text: string, k: int, r: string, k': int, r': string)
    requires FollowsLastMarker(text, k, r) && FollowsLastMarker(text, k', r')
    ensures k == k' && r == r'
  {
    if k < k' {
      MarkersApart(text, k, k');
    } else if k' < k {
      MarkersApart(text, k', k);
    }
    CutAtFirstUnique(text[k..], SqlClose, r, r');
  }

  /** A marker ending at `k` with none after `k` leaves no room for a marker ending later. */
  lemma MarkersApart(text: string, k: int, k': int)
    requires |SqlOpen| <= k < k' <= |text|
    requires OccursAt(text, SqlOpen, k - |SqlOpen|) && !Contains(text[k..], SqlOpen)
    ensures !OccursAt(text, SqlOpen, k' - |SqlOpen|)
  {
    var a := k - |SqlOpen|;
    var b := k' - |SqlOpen|;
    if OccursAt(text, SqlOpen, b) {
      OccursAtIff(text, SqlOpen, a);
      OccursAtIff(text, SqlOpen, b);
      assert text[a..a + 6] == SqlOpen && text[b..b + 6] == SqlOpen;
      if b >= k {
        OccursAtSuffix(text, SqlOpen, k, b - k);
      }
    }
  }

  /** The "SELECT" fallback passes through the extraction unchanged. */
  lemma LastSqlFenceOfSelect()
    ensures LastSqlFence("SELECT") == "SELECT"
  {
    HeadNotContained("SELECT", SqlOpen);
    SplitAbsent("SELECT", SqlOpen);
    HeadNotContained("SELECT", SqlClose);
    SplitAbsent("SELECT", SqlClose);
  }

  /** `s.replace("\n", " ")`. */
  function ReplaceNewlines(s: string): (r: string)
    ensures |r| == |s| && '\n' !in r
    ensures forall i :: 0 <= i < |s| && s[i] != '\n' ==> r[i] == s[i]
    ensures forall i :: 0 <= i < |s| && s[i] == '\n' ==> r[i] == ' '
  {
    seq(|s|, i requires 0 <= i < |s| => if s[i] == '\n' then ' ' else s[i])
  }

  /** Replacing newlines cannot create or destroy a marker free of spaces and newlines. */
  lemma ReplaceNewlinesKeepsMarker(s: string, t: string)
    requires '\n' !in t && ' ' !in t
    ensures Contains(ReplaceNewlines(s), t) <==> Contains(s, t)
  {
    var r := ReplaceNewlines(s);
    forall k ensures OccursAt(r, t, k) <==> OccursAt(s, t, k) {
      OccursAtIff(r, t, k);
      OccursAtIff(s, t, k);
      if 0 <= k && k + |t| <= |s| {
        if OccursAt(s, t, k) {
          forall m | 0 <= m < |t| ensures r[k..k + |t|][m] == t[m] {
            assert s[k..k + |t|][m] == t[m];
          }
          assert r[k..k + |t|] == t;
        }
        if OccursAt(r, t, k) {
          forall m | 0 <= m < |t| ensures s[k..k + |t|][m] == t[m] {
            assert r[k..k + |t|][m] == t[m];
            assert t[m] in t;
          }
          assert s[k..k + |t|] == t;
        }
      }
    }
    if Contains(s, t) {
      assert OccursAt(r, t, IndexOfFrom(s, t, 0).value);
    }
    if Contains(r, t) {
      assert OccursAt(s, t, IndexOfFrom(r, t, 0).value);
    }
  }

  /**
   * `text.replace("\n", " ").split("```sql")[1].split("```")[0].strip()`:
   * the debugger's SQL: the first "```sql" block of the reply
   * once its newlines are spaces, stripped. It fails exactly when the reply
   * has no "```sql" marker.
   */
  function DebuggedSql(text: string): (r: Result<string, Exception>)
    ensures r.Failure? <==> !Contains(text, SqlOpen)
    ensures r.Failure? ==> r.error == IndexError
    ensures r.Success? ==>
      Contains(ReplaceNewlines(text), SqlOpen) &&
      exists body :: FencedAfterFirst(ReplaceNewlines(text), SqlOpen, SqlClose, body) && r.value == Strip(body)
    ensures r.Success? ==>
      '\n' !in r.value && !Contains(r.value, SqlClose) &&
      (|r.value| == 0 || (!IsSpace(r.value[0]) && !IsSpace(r.value[|r.value| - 1])))
  {
    var flat := ReplaceNewlines(text);
    ReplaceNewlinesKeepsMarker(text, SqlOpen);
    match FirstFence(flat, SqlOpen, SqlClose)
    case Failure(e) => Failure(e)
    case Success(body) =>
      assert FencedAfterFirst(flat, SqlOpen, SqlClose, body);
      FencedChars(flat, SqlOpen, SqlClose, body);
      StripNotContains(body, SqlClose);
      StripChars(body);
      Success(Strip(body))
  }
}
