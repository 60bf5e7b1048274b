/** app.py's `run_universal_engine`: the plan is a JSON object with fixed keys; every listed
    target, duplicates included, is searched with one shared query made of all keywords. */
module Engine {
  import opened Wrappers
  import opened Text
  import opened Posts

  const PostLimit: nat := 15
  const MinComments := 2
  const BodyCap: nat := 800
  const CorpusCap: nat := 25

  const ConnectError := "Error connecting to Reddit: "

  /** The keys of the plan app.py reads. */
  datatype Plan = Plan(projectName: string, targets: seq<string>, keywords: seq<string>, instruction: string)

  /** `" OR ".join(recipe['search_keywords'])`, the same for every target. */
  function Query(plan: Plan): (q: string)
    ensures |plan.keywords| == 1 ==> q == plan.keywords[0]
    ensures plan.keywords == [] ==> q == ""
  {
    Join(" OR ", plan.keywords)
  }

  function SearchRequest(sub: string, query: string): Request
  {
    Request(sub, query, "relevance", "month", PostLimit)
  }

  /** The text collected for one post; unlike appv1.py it does not name the subreddit. */
  function Block(p: Post): string
  {
    "Title: " + p.title + "\nBody: " + Take(p.selftext, BodyCap) + "\nUrl: " + p.url
  }

  /** What the inner loop appends for the posts of one listing: those with more than two
      comments. */
  function Blocks(posts: seq<Post>): (bs: seq<string>)
    ensures |bs| <= |posts|
  {
    if |posts| == 0 then []
    else
      var front, last := posts[..|posts| - 1], posts[|posts| - 1];
      Blocks(front) + (if last.numComments > MinComments then [Block(last)] else [])
  }

  /** The blocks are those of the posts with more than two comments, in listing order. */
  lemma {:induction false} BlocksOfCommented(posts: seq<Post>)
    ensures |Blocks(posts)| == |Commented(posts, MinComments)|
    ensures forall k :: 0 <= k < |Commented(posts, MinComments)| ==> Blocks(posts)[k] == Block(Commented(posts, MinComments)[k])
  {
    if |posts| > 0 {
      BlocksOfCommented(posts[..|posts| - 1]);
    }
  }

  /** Going one post further adds that post's block exactly when it has more than two comments. */
  lemma BlocksStep(posts: seq<Post>, j: nat)
    requires j < |posts|
    ensures Blocks(posts[..j + 1]) == Blocks(posts[..j]) + (if posts[j].numComments > MinComments then [Block(posts[j])] else [])
  {
    assert posts[..j + 1][..j] == posts[..j];
  }

  /** The platform as this script sees it: `calls(j, r)` is what the search for the `j`-th
      entry of the target list returned. Each entry's search is a call of its own, so two
      entries naming the same subreddit can fare differently. */
  type Calls = (nat, Request) -> Outcome

  /** How scanning one target went: the blocks it appended and the warning it showed, if its
      search raised. */
  datatype TargetScan = TargetScan(blocks: seq<string>, skipped: Option<string>)

  /** Scanning entry `j`, the target `sub`, with `query`: the blocks of its listed posts with
      enough comments, kept even when the listing then raised. */
  function Step(query: string, calls: Calls, j: nat, sub: string): (t: TargetScan)
  {
    var listing := Fetch(calls(j, SearchRequest(sub, query)), PostLimit);
    TargetScan(Blocks(listing.posts), listing.error)
  }

  /** The blocks collected from targets `lo` up to `hi`, in list order. */
  function ScanRange(targets: seq<string>, query: string, calls: Calls, lo: nat, hi: nat): seq<string>
    requires lo <= hi <= |targets|
    decreases hi - lo
  {
    if lo == hi then []
    else ScanRange(targets, query, calls, lo, hi - 1) + Step(query, calls, hi - 1, targets[hi - 1]).blocks
  }

  /** One warning per target whose search raised, naming the target and the error. */
  function Skipped(targets: seq<string>, query: string, calls: Calls, n: nat): seq<(string, string)>
    requires n <= |targets|
  {
    if n == 0 then []
    else
      var t := Step(query, calls, n - 1, targets[n - 1]);
      Skipped(targets, query, calls, n - 1) + (if t.skipped.Some? then [(targets[n - 1], t.skipped.value)] else [])
  }

  /** The searches of the first `n` targets, in list order. */
  function Requests(targets: seq<string>, query: string, n: nat): (rs: seq<Request>)
    requires n <= |targets|
    ensures |rs| == n
  {
    if n == 0 then [] else Requests(targets, query, n - 1) + [SearchRequest(targets[n - 1], query)]
  }

  /** One search per entry, duplicates included, each with the shared query. */
  lemma {:induction false} RequestsAt(targets: seq<string>, query: string, n: nat, j: nat)
    requires j < n <= |targets|
    ensures Requests(targets, query, n)[j] == SearchRequest(targets[j], query)
  {
    if j < n - 1 {
      RequestsAt(targets, query, n - 1, j);
    }
  }

  /** The blocks of a scan split at any target into those before and those from it on. */
  lemma {:induction false} ScanSplit(targets: seq<string>, query: string, calls: Calls, lo: nat, mid: nat, hi: nat)
    requires lo <= mid <= hi <= |targets|
    ensures ScanRange(targets, query, calls, lo, hi)
         == ScanRange(targets, query, calls, lo, mid) + ScanRange(targets, query, calls, mid, hi)
    decreases hi - mid
  {
    if mid < hi {
      ScanSplit(targets, query, calls, lo, mid, hi - 1);
    }
  }

  /** Listing a target twice scans it twice, with two searches that need not agree: whatever
      the two calls return, the blocks of the first come first, then those of the second. */
  lemma DuplicateScannedTwice(query: string, sub: string, first: Outcome, second: Outcome)
    ensures var calls: Calls := (j, r) => if j == 0 then first else second;
            && ScanRange([sub, sub], query, calls, 0, 2)
               == Blocks(Fetch(first, PostLimit).posts) + Blocks(Fetch(second, PostLimit).posts)
            && Requests([sub, sub], query, 2) == [SearchRequest(sub, query), SearchRequest(sub, query)]
  {
  }

  /** Two platforms that agree on the calls of every entry in a range yield the same blocks
      for that range. */
  lemma {:induction false} ScanAgrees(targets: seq<string>, query: string, s1: Calls, s2: Calls, lo: nat, hi: nat)
    requires lo <= hi <= |targets|
    requires forall j, r :: lo <= j < hi ==> s1(j, r) == s2(j, r)
    ensures ScanRange(targets, query, s1, lo, hi) == ScanRange(targets, query, s2, lo, hi)
    decreases hi - lo
  {
    if lo < hi {
      ScanAgrees(targets, query, s1, s2, lo, hi - 1);
      assert s1(hi - 1, SearchRequest(targets[hi - 1], query)) == s2(hi - 1, SearchRequest(targets[hi - 1], query));
    }
  }

  /** The blocks of a scan are those before target `k`, then target `k`'s, then those after. */
  lemma ScanAround(targets: seq<string>, query: string, calls: Calls, k: nat)
    requires k < |targets|
    ensures ScanRange(targets, query, calls, 0, |targets|)
         == ScanRange(targets, query, calls, 0, k) + Step(query, calls, k, targets[k]).blocks
            + ScanRange(targets, query, calls, k + 1, |targets|)
  {
    ScanSplit(targets, query, calls, 0, k, |targets|);
    ScanSplit(targets, query, calls, k, k + 1, |targets|);
    assert ScanRange(targets, query, calls, k, k + 1) == Step(query, calls, k, targets[k]).blocks;
  }

  /** A failing target costs only its own blocks: whatever the search of entry `k` does, every
      other entry, duplicates of `targets[k]` included, contributes what it would have
      contributed under any platform that agrees with this one on the other calls. */
  lemma FailureIsIsolated(targets: seq<string>, query: string, s1: Calls, s2: Calls, k: nat)
    requires k < |targets|
    requires forall j, r :: j != k ==> s1(j, r) == s2(j, r)
    ensures ScanRange(targets, query, s1, 0, |targets|)
         == ScanRange(targets, query, s2, 0, k) + Step(query, s1, k, targets[k]).blocks + ScanRange(targets, query, s2, k + 1, |targets|)
  {
    ScanAround(targets, query, s1, k);
    ScanAgrees(targets, query, s1, s2, 0, k);
    ScanAgrees(targets, query, s1, s2, k + 1, |targets|);
  }

  /** One pass of the scanning loop: search `sub` with the shared query and append the block of
      every listed post with enough comments; a raised error is reported and skipped. */
  method ScanTarget(query: string, calls: Calls, j: nat, sub: string, collected: seq<string>)
    returns (extended: seq<string>, skipped: Option<string>, request: Request)
    ensures extended == collected + Step(query, calls, j, sub).blocks
    ensures skipped == Step(query, calls, j, sub).skipped
    ensures request == SearchRequest(sub, query)
  {
    extended := collected;
    request := SearchRequest(sub, query);
    var listing := Fetch(calls(j, request), PostLimit);
    var posts := listing.posts;
    var n := 0;
    while n < |posts|
      invariant 0 <= n <= |posts|
      invariant extended == collected + Blocks(posts[..n])
    {
      var post := posts[n];
      BlocksStep(posts, n);
      if post.numComments > MinComments {
        extended := extended + [Block(post)];
      }
      n := n + 1;
    }
    assert posts[..n] == posts;
    skipped := listing.error;
  }

  /** The scanning loop over the targets, in list order. */
  method ScanAll(targets: seq<string>, query: string, calls: Calls)
    returns (collected: seq<string>, skipped: seq<(string, string)>, requests: seq<Request>)
    ensures collected == ScanRange(targets, query, calls, 0, |targets|)
    ensures skipped == Skipped(targets, query, calls, |targets|)
    ensures requests == Requests(targets, query, |targets|)
  {
    collected, skipped, requests := [], [], [];
    var i := 0;
    while i < |targets|
      invariant 0 <= i <= |targets|
      invariant collected == ScanRange(targets, query, calls, 0, i)
      invariant skipped == Skipped(targets, query, calls, i)
      invariant requests == Requests(targets, query, i)
    {
      var sub := targets[i];
      var error, request;
      collected, error, request := ScanTarget(query, calls, i, sub, collected);
      if error.Some? {
        skipped := skipped + [(sub, error.value)];
      }
      requests := requests + [request];
      i := i + 1;
    }
  }

  /** The whole run. `connectError` is the exception creating the client raised, if any;
      `calls` and `model` are the platform and the language model. Besides the text shown,
      the run yields the warnings for skipped targets, the searches it issued and the message
      it sent to the model. An empty target list is not an error here: nothing is searched and
      the run ends with the "no relevant data" message. */
  method RunUniversalEngine(plan: Plan, connectError: Option<string>, calls: Calls, model: Model)
    returns (report: string, skipped: seq<(string, string)>, requests: seq<Request>, sent: Option<string>)
    ensures connectError.Some? ==>
              report == ConnectError + connectError.value && skipped == [] && requests == [] && sent == None
    ensures connectError.None? ==>
              && skipped == Skipped(plan.targets, Query(plan), calls, |plan.targets|)
              && requests == Requests(plan.targets, Query(plan), |plan.targets|)
              && Analysis(report, sent) == Synthesize(ScanRange(plan.targets, Query(plan), calls, 0, |plan.targets|), CorpusCap, model)
  {
    skipped, requests, sent := [], [], None;
    if connectError.Some? {
      report := ConnectError + connectError.value;
      return;
    }
    var collected;
    collected, skipped, requests := ScanAll(plan.targets, Query(plan), calls);
    var analysis := Synthesize(collected, CorpusCap, model);
    report, sent := analysis.report, analysis.sent;
  }
}
