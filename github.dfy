/**
 * The selection step of `getImportantPRs` (src/github.js): of the closed pull requests the
 * listing returned, keep those merged inside the reporting window that mention one of the
 * important keywords, and project each to a small record. Timestamps are integers (for
 * instance milliseconds since the epoch); the window bounds are given.
 */
module GitHub {
  import opened Wrappers
  import opened Text

  datatype User = User(login: string)

  /**
   * A pull request as the listing returns it. `merged` and `merged_at` may be absent
   * (`undefined`/`null`); a missing body is `None`.
   */
  datatype PullRequest = PullRequest(
    number: nat,
    title: string,
    body: Option<string>,
    htmlUrl: string,
    user: User,
    merged: Option<bool>,
    mergedAt: Option<int>)

  /** The record `getImportantPRs` returns for each selected pull request. */
  datatype ImportantPR = ImportantPR(number: nat, title: string, url: string, author: string, mergedAt: int)

  /** `xs` is `ys` with some elements left out, the rest in their original order. */
  ghost predicate SubsequenceOf<T>(xs: seq<T>, ys: seq<T>)
    decreases |ys|
  {
    if xs == [] then true
    else if ys == [] then false
    else (xs[0] == ys[0] && SubsequenceOf(xs[1..], ys[1..])) || SubsequenceOf(xs, ys[1..])
  }

  // ---------------------------------------------------------------------------
  // The two tests
  // ---------------------------------------------------------------------------

  /** Merged, with a merge time, and merged between `start` and `end`, both included. */
  predicate MergedInWindow(pr: PullRequest, start: int, end: int) {
    pr.merged == Some(true) && pr.mergedAt.Some? && start <= pr.mergedAt.value <= end
  }

  /** The body, or `''` when there is none. */
  function BodyText(pr: PullRequest): string {
    if pr.body.Some? then pr.body.value else ""
  }

  /** Some keyword, lower-cased, occurs in the lower-cased title or the lower-cased body. */
  predicate MentionsKeyword(pr: PullRequest, keywords: seq<string>) {
    exists k :: k in keywords
      && (Contains(Lower(pr.title), Lower(k)) || Contains(Lower(BodyText(pr)), Lower(k)))
  }

  /** Both tests at once: what the selection keeps. */
  predicate Important(pr: PullRequest, start: int, end: int, keywords: seq<string>) {
    MergedInWindow(pr, start, end) && MentionsKeyword(pr, keywords)
  }

  // ---------------------------------------------------------------------------
  // The two filters and the projection, in source order
  // ---------------------------------------------------------------------------

  /** `prs.filter(...)` with the merged-in-window test (`mergedYesterday`). */
  function MergedInWindowOf(prs: seq<PullRequest>, start: int, end: int): (r: seq<PullRequest>)
    ensures SubsequenceOf(r, prs)
    ensures forall p :: multiset(r)[p] == if MergedInWindow(p, start, end) then multiset(prs)[p] else 0
    decreases |prs|
  {
    if prs == [] then []
    else
      var rest := MergedInWindowOf(prs[1..], start, end);
      assert prs == [prs[0]] + prs[1..];
      if MergedInWindow(prs[0], start, end) then [prs[0]] + rest else rest
  }

  /** `mergedYesterday.filter(...)` with the keyword test (`importantPRs`). */
  function MentioningOf(prs: seq<PullRequest>, keywords: seq<string>): (r: seq<PullRequest>)
    ensures SubsequenceOf(r, prs)
    ensures forall p :: multiset(r)[p] == if MentionsKeyword(p, keywords) then multiset(prs)[p] else 0
    decreases |prs|
  {
    if prs == [] then []
    else
      var rest := MentioningOf(prs[1..], keywords);
      assert prs == [prs[0]] + prs[1..];
      if MentionsKeyword(prs[0], keywords) then [prs[0]] + rest else rest
  }

  /** The record of one pull request: number, title, link, author's login and merge time. */
  function Project(pr: PullRequest): ImportantPR
    requires pr.mergedAt.Some?
  {
    ImportantPR(pr.number, pr.title, pr.htmlUrl, pr.user.login, pr.mergedAt.value)
  }

  /** The pull requests the selection keeps, before projection. */
  function KeptPRs(fetched: seq<PullRequest>, start: int, end: int, keywords: seq<string>): seq<PullRequest> {
    MentioningOf(MergedInWindowOf(fetched, start, end), keywords)
  }

  /** The selection of `getImportantPRs`, after the listing: filter, filter, map. */
  function GetImportantPRs(fetched: seq<PullRequest>, start: int, end: int, keywords: seq<string>): (r: seq<ImportantPR>)
    ensures |r| == |KeptPRs(fetched, start, end, keywords)|
    ensures forall i :: 0 <= i < |r| ==>
      (KeptPRs(fetched, start, end, keywords)[i].mergedAt.Some?
       && r[i] == Project(KeptPRs(fetched, start, end, keywords)[i]))
  {
    var kept := KeptPRs(fetched, start, end, keywords);
    KeptAreMergedInWindow(fetched, start, end, keywords);
    seq(|kept|, i requires 0 <= i < |kept| => Project(kept[i]))
  }

  /** Every pull request the selection keeps passed the merged-in-window test. */
  lemma KeptAreMergedInWindow(fetched: seq<PullRequest>, start: int, end: int, keywords: seq<string>)
    ensures forall i :: 0 <= i < |KeptPRs(fetched, start, end, keywords)| ==>
      MergedInWindow(KeptPRs(fetched, start, end, keywords)[i], start, end)
  {
    var m := MergedInWindowOf(fetched, start, end);
    var kept := MentioningOf(m, keywords);
    forall i | 0 <= i < |kept| ensures MergedInWindow(kept[i], start, end) {
      var p := kept[i];
      assert multiset(kept)[p] > 0;
      assert multiset(m)[p] > 0;
    }
  }

  // ---------------------------------------------------------------------------
  // Properties of the selection
  // ---------------------------------------------------------------------------

  /** A reference selection in one pass: keep exactly what passes both tests. */
  function ImportantOf(prs: seq<PullRequest>, start: int, end: int, keywords: seq<string>): seq<PullRequest>
    decreases |prs|
  {
    if prs == [] then []
    else
      var rest := ImportantOf(prs[1..], start, end, keywords);
      if Important(prs[0], start, end, keywords) then [prs[0]] + rest else rest
  }

  /** The two filters in sequence keep the same pull requests, in the same order, as the one-pass reference. */
  lemma {:induction false} TwoFiltersAreOne(prs: seq<PullRequest>, start: int, end: int, keywords: seq<string>)
    ensures KeptPRs(prs, start, end, keywords) == ImportantOf(prs, start, end, keywords)
    decreases |prs|
  {
    if prs != [] {
      TwoFiltersAreOne(prs[1..], start, end, keywords);
      if MergedInWindow(prs[0], start, end) {
        assert MergedInWindowOf(prs, start, end) == [prs[0]] + MergedInWindowOf(prs[1..], start, end);
        var m := MergedInWindowOf(prs, start, end);
        assert m[1..] == MergedInWindowOf(prs[1..], start, end);
      }
    }
  }

  /** Ordering and multiplicity of the reference: an order-preserving subsequence holding every important pull request as often as the input does. */
  lemma {:induction false} ImportantOfSpec(prs: seq<PullRequest>, start: int, end: int, keywords: seq<string>)
    ensures SubsequenceOf(ImportantOf(prs, start, end, keywords), prs)
    ensures forall p :: (multiset(ImportantOf(prs, start, end, keywords))[p] ==
      if Important(p, start, end, keywords) then multiset(prs)[p] else 0)
    decreases |prs|
  {
    if prs != [] {
      ImportantOfSpec(prs[1..], start, end, keywords);
      assert prs == [prs[0]] + prs[1..];
      var rest := ImportantOf(prs[1..], start, end, keywords);
      if Important(prs[0], start, end, keywords) {
        assert ([prs[0]] + rest)[1..] == rest;
      }
    }
  }

  /** A subsequence is never longer than the sequence it is taken from. */
  lemma {:induction false} SubsequenceNotLonger<T>(xs: seq<T>, ys: seq<T>)
    requires SubsequenceOf(xs, ys)
    ensures |xs| <= |ys|
    decreases |ys|
  {
    if xs != [] {
      if xs[0] == ys[0] && SubsequenceOf(xs[1..], ys[1..]) {
        SubsequenceNotLonger(xs[1..], ys[1..]);
      } else {
        SubsequenceNotLonger(xs, ys[1..]);
      }
    }
  }

  /**
   * The selection in full: the records are, in order, the projections of an order-preserving
   * subsequence of the fetched pull requests that holds exactly the merged-in-window ones
   * that mention a keyword (each as often as it was fetched); so there are never more records
   * than fetched pull requests.
   */
  lemma GetImportantPRsSpec(fetched: seq<PullRequest>, start: int, end: int, keywords: seq<string>)
    ensures var kept := KeptPRs(fetched, start, end, keywords);
      var r := GetImportantPRs(fetched, start, end, keywords);
      && SubsequenceOf(kept, fetched)
      && (forall p :: multiset(kept)[p] == if Important(p, start, end, keywords) then multiset(fetched)[p] else 0)
      && |r| == |kept| <= |fetched|
      && (forall i :: 0 <= i < |r| ==> r[i] == Project(kept[i]))
  {
    TwoFiltersAreOne(fetched, start, end, keywords);
    ImportantOfSpec(fetched, start, end, keywords);
    SubsequenceNotLonger(KeptPRs(fetched, start, end, keywords), fetched);
  }

  /** Each record carries the number, title, link, author login and merge time of its pull request. */
  lemma ProjectFields(pr: PullRequest)
    requires pr.mergedAt.Some?
    ensures var r := Project(pr);
      r.number == pr.number && r.title == pr.title && r.url == pr.htmlUrl
      && r.author == pr.user.login && r.mergedAt == pr.mergedAt.value
  {
  }

  /** With no keywords nothing is important. */
  lemma NoKeywordsNoResult(fetched: seq<PullRequest>, start: int, end: int)
    ensures GetImportantPRs(fetched, start, end, []) == []
  {
  }

  /** An empty keyword occurs in every text, so it makes every merged-in-window pull request important. */
  lemma EmptyKeywordKeepsAllMerged(prs: seq<PullRequest>, start: int, end: int, keywords: seq<string>)
    requires "" in keywords
    ensures KeptPRs(prs, start, end, keywords) == MergedInWindowOf(prs, start, end)
  {
    var m := MergedInWindowOf(prs, start, end);
    MentionAllWhenEmptyKeyword(m, keywords);
  }

  lemma {:induction false} MentionAllWhenEmptyKeyword(prs: seq<PullRequest>, keywords: seq<string>)
    requires "" in keywords
    ensures MentioningOf(prs, keywords) == prs
    decreases |prs|
  {
    if prs != [] {
      assert Lower("") == "";
      assert Contains(Lower(prs[0].title), Lower(""));
      MentionAllWhenEmptyKeyword(prs[1..], keywords);
      assert [prs[0]] + prs[1..] == prs;
    }
  }

  /**
   * A pull request whose `merged` field is missing or false is never selected, whatever its
   * merge time; if no fetched pull request has `merged` set, the result is empty.
   */
  lemma UnmergedNeverSelected(fetched: seq<PullRequest>, start: int, end: int, keywords: seq<string>)
    requires forall p :: p in fetched ==> p.merged != Some(true)
    ensures GetImportantPRs(fetched, start, end, keywords) == []
  {
  }
}
