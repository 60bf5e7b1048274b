/** appv1.py's `run_universal_engine`: read the targets and keywords out of the edited plan,
    clean them, scan every target with its own keyword, and hand the first blocks found to
    the language model. */
module Universal {
  import opened Wrappers
  import opened Text
  import opened Posts
  import Extractor

  const PostLimit: nat := 15
  const BodyCap: nat := 500
  const CorpusCap: nat := 40

  const NoSubreddits := "❌ Error: No subreddits found. Please click 'Generate Strategy' again."

  const ConnectError := "Error connecting to Reddit: "

  /** The message of the `IndexError` that `keywords[0]` raises on an empty keyword list. */
  const IndexError := "list index out of range"

  /** The targets: the column `target_subreddit`, or `target_subreddits` when that is empty. */
  function Targets(recipe: Extractor.Data): (ts: seq<string>)
    ensures Extractor.GetListFromData(recipe, "target_subreddit") != [] ==>
              ts == Extractor.GetListFromData(recipe, "target_subreddit")
    ensures Extractor.GetListFromData(recipe, "target_subreddit") == [] ==>
              ts == Extractor.GetListFromData(recipe, "target_subreddits")
  {
    var singular := Extractor.GetListFromData(recipe, "target_subreddit");
    if singular != [] then singular else Extractor.GetListFromData(recipe, "target_subreddits")
  }

  /** One target cleaned: every `r/` removed, then the surrounding whitespace. */
  function CleanTarget(t: string): (c: string)
    ensures !Contains(t, "r/") ==> c == Strip(t)
  {
    Strip(Erase(t, "r/"))
  }

  /** A target written with its `r/` prefix loses it: `"r/" + x` cleans to `x` stripped. */
  lemma CleanPrefixed(x: string)
    requires !Contains(x, "r/")
    ensures CleanTarget("r/" + x) == Strip(x)
  {
    assert !Contains("" + "r", "r/") by {
      assert !OccursAt("" + "r", "r/", 0);
    }
    Text.EraseAtFirst("", "r/", x);
    assert "" + "r/" + x == "r/" + x;
  }

  /** The match is case-sensitive: a target written `R/...` keeps the `R/`. */
  lemma UpperPrefixIsKept()
    ensures CleanTarget("R/x") == "R/x"
  {
    var t := "R/x";
    assert !Contains(t, "r/") by {
      assert 'r' !in t;
      forall i | 0 <= i <= |t| - 2 ensures !OccursAt(t, "r/", i) {
        assert t[i..i + 2][0] == t[i];
      }
    }
    assert LeadingSpaces(t) == 0;
    assert TrailingSpaces(t) == 0;
  }

  /** The empty entries dropped, every other entry cleaned, in order. */
  function CleanTargets(ts: seq<string>): (r: seq<string>)
    ensures |r| <= |ts|
    ensures forall x :: x in r <==> exists t :: t in ts && t != "" && x == CleanTarget(t)
  {
    if |ts| == 0 then []
    else
      var rest := CleanTargets(ts[1..]);
      assert forall t :: t in ts <==> t == ts[0] || t in ts[1..];
      if ts[0] == "" then rest else [CleanTarget(ts[0])] + rest
  }

  /** `list(set(xs))`: every distinct entry once, in the set's iteration order, which the
      program does not fix; each step takes any element not yet listed. */
  method ListOfSet(xs: seq<string>) returns (r: seq<string>)
    ensures Extractor.Distinct(r)
    ensures forall x :: x in r <==> x in xs
  {
    var left := set x | x in xs;
    r := [];
    while left != {}
      invariant Extractor.Distinct(r)
      invariant forall x :: x in r ==> x in xs && x !in left
      invariant forall x :: x in xs ==> x in r || x in left
      invariant forall x :: x in left ==> x in xs
      decreases left
    {
      var x :| x in left;
      r := r + [x];
      left := left - {x};
    }
  }

  /** `keywords[i] if i < len(keywords) else keywords[0]`; `None` stands for the `IndexError`. */
  function QueryFor(keywords: seq<string>, i: nat): (q: Option<string>)
    ensures q.None? <==> keywords == []
    ensures i < |keywords| ==> q == Some(keywords[i])
    ensures |keywords| > 0 && i >= |keywords| ==> q == Some(keywords[0])
  {
    if i < |keywords| then Some(keywords[i])
    else if |keywords| > 0 then Some(keywords[0])
    else None
  }

  function SearchRequest(sub: string, query: string): Request
  {
    Request(sub, query, "relevance", "month", PostLimit)
  }

  /** The text collected for one post. */
  function Block(sub: string, p: Post): string
  {
    "Source: r/" + sub + "\nTitle: " + p.title + "\nBody: " + Take(p.selftext, BodyCap) + "\nUrl: " + p.url
  }

  /** What the inner loop appends for the posts of one listing. */
  function Blocks(sub: string, posts: seq<Post>): (bs: seq<string>)
    ensures |bs| <= |posts|
  {
    if |posts| == 0 then []
    else
      var front, last := posts[..|posts| - 1], posts[|posts| - 1];
      Blocks(sub, front) + (if last.numComments > 0 then [Block(sub, last)] else [])
  }

  /** The blocks are those of the posts that have at least one comment, in listing order. */
  lemma {:induction false} BlocksOfCommented(sub: string, posts: seq<Post>)
    ensures |Blocks(sub, posts)| == |Commented(posts, 0)|
    ensures forall k :: 0 <= k < |Commented(posts, 0)| ==> Blocks(sub, posts)[k] == Block(sub, Commented(posts, 0)[k])
  {
    if |posts| > 0 {
      BlocksOfCommented(sub, posts[..|posts| - 1]);
    }
  }

  /** Going one post further adds that post's block exactly when it has a comment. */
  lemma BlocksStep(sub: string, posts: seq<Post>, j: nat)
    requires j < |posts|
    ensures Blocks(sub, posts[..j + 1])
         == Blocks(sub, posts[..j]) + (if posts[j].numComments > 0 then [Block(sub, posts[j])] else [])
  {
    assert posts[..j + 1][..j] == posts[..j];
  }

  /** The status line shown for one target. */
  datatype Note = Found(count: nat) | NoResults | FailedAccess(error: string)

  /** How scanning one target went: the blocks it appended, its status line and the search
      it issued. */
  datatype TargetScan = TargetScan(blocks: seq<string>, note: Note, issued: seq<Request>)

  /** Scanning target `j`: with no keyword at all, the `IndexError` and no search; otherwise one
      search, the blocks of its listed posts that have comments (kept even when the listing
      then raised), and a status line saying how many were found or what failed. */
  function Step(targets: seq<string>, keywords: seq<string>, search: Search, j: nat): (t: TargetScan)
    requires j < |targets|
    ensures t.note.Found? ==> t.note.count == |t.blocks| > 0
    ensures t.note.NoResults? ==> t.blocks == []
  {
    if keywords == [] then TargetScan([], FailedAccess(IndexError), [])
    else
      var request := SearchRequest(targets[j], QueryFor(keywords, j).value);
      var listing := Fetch(search(request), PostLimit);
      var blocks := Blocks(targets[j], listing.posts);
      var note :=
        if listing.error.Some? then FailedAccess(listing.error.value)
        else if |blocks| > 0 then Found(|blocks|)
        else NoResults;
      TargetScan(blocks, note, [request])
  }

  /** The status lines of the first `n` targets, in scanning order. */
  function Notes(targets: seq<string>, keywords: seq<string>, search: Search, n: nat): (ns: seq<Note>)
    requires n <= |targets|
    ensures |ns| == n
  {
    if n == 0 then [] else Notes(targets, keywords, search, n - 1) + [Step(targets, keywords, search, n - 1).note]
  }

  /** Each status line is the one its own target produced. */
  lemma {:induction false} NotesAt(targets: seq<string>, keywords: seq<string>, search: Search, n: nat, j: nat)
    requires j < n <= |targets|
    ensures Notes(targets, keywords, search, n)[j] == Step(targets, keywords, search, j).note
  {
    if j < n - 1 {
      NotesAt(targets, keywords, search, n - 1, j);
    }
  }

  /** The requests issued for the first `n` targets, in scanning order. */
  function Requests(targets: seq<string>, keywords: seq<string>, search: Search, n: nat): (rs: seq<Request>)
    requires n <= |targets|
    ensures |rs| == if keywords == [] then 0 else n
  {
    if n == 0 then [] else Requests(targets, keywords, search, n - 1) + Step(targets, keywords, search, n - 1).issued
  }

  /** With keywords, the `j`-th search is the one for the `j`-th target in scanning order, with
      the `j`-th keyword of the plan (the first when there are fewer keywords than targets). */
  lemma {:induction false} RequestsAt(targets: seq<string>, keywords: seq<string>, search: Search, n: nat, j: nat)
    requires j < n <= |targets| && keywords != []
    ensures Requests(targets, keywords, search, n)[j] == SearchRequest(targets[j], QueryFor(keywords, j).value)
  {
    if j < n - 1 {
      RequestsAt(targets, keywords, search, n - 1, j);
    }
  }

  /** All blocks collected from targets `lo` up to `hi`, in scanning order. */
  function ScanRange(targets: seq<string>, keywords: seq<string>, search: Search, lo: nat, hi: nat): seq<string>
    requires lo <= hi <= |targets|
    decreases hi - lo
  {
    if lo == hi then []
    else ScanRange(targets, keywords, search, lo, hi - 1) + Step(targets, keywords, search, hi - 1).blocks
  }

  /** The blocks of a scan split at any target into those before and those from it on. */
  lemma {:induction false} ScanSplit(targets: seq<string>, keywords: seq<string>, search: Search, lo: nat, mid: nat, hi: nat)
    requires lo <= mid <= hi <= |targets|
    ensures ScanRange(targets, keywords, search, lo, hi)
         == ScanRange(targets, keywords, search, lo, mid) + ScanRange(targets, keywords, search, mid, hi)
    decreases hi - mid
  {
    if mid < hi {
      ScanSplit(targets, keywords, search, lo, mid, hi - 1);
    }
  }

  /** A target other than `sub` is unaffected by what the service does for `sub`. */
  lemma TargetAgrees(targets: seq<string>, keywords: seq<string>, s1: Search, s2: Search, sub: string, j: nat)
    requires j < |targets| && targets[j] != sub
    requires forall r: Request :: r.subreddit != sub ==> s1(r) == s2(r)
    ensures Step(targets, keywords, s1, j) == Step(targets, keywords, s2, j)
  {
    if keywords != [] {
      var r := SearchRequest(targets[j], QueryFor(keywords, j).value);
      assert s1(r) == s2(r);
    }
  }

  /** Two search services that agree except on one subreddit yield the same blocks for every
      range of targets that does not name it. */
  lemma {:induction false} ScanAgrees(targets: seq<string>, keywords: seq<string>, s1: Search, s2: Search, sub: string, lo: nat, hi: nat)
    requires lo <= hi <= |targets|
    requires forall j :: lo <= j < hi ==> targets[j] != sub
    requires forall r: Request :: r.subreddit != sub ==> s1(r) == s2(r)
    ensures ScanRange(targets, keywords, s1, lo, hi) == ScanRange(targets, keywords, s2, lo, hi)
    decreases hi - lo
  {
    if lo < hi {
      ScanAgrees(targets, keywords, s1, s2, sub, lo, hi - 1);
      TargetAgrees(targets, keywords, s1, s2, sub, hi - 1);
    }
  }

  /** The blocks of a scan are those before target `k`, then target `k`'s, then those after. */
  lemma ScanAround(targets: seq<string>, keywords: seq<string>, search: Search, k: nat)
    requires k < |targets|
    ensures ScanRange(targets, keywords, search, 0, |targets|)
         == ScanRange(targets, keywords, search, 0, k) + Step(targets, keywords, search, k).blocks
            + ScanRange(targets, keywords, search, k + 1, |targets|)
  {
    ScanSplit(targets, keywords, search, 0, k, |targets|);
    ScanSplit(targets, keywords, search, k, k + 1, |targets|);
    assert ScanRange(targets, keywords, search, k, k + 1) == Step(targets, keywords, search, k).blocks;
  }

  /** A failing target costs only its own blocks: whatever the search does for subreddit
      `targets[k]`, raising at once or part way, every other target contributes what it would
      have contributed under any service that agrees with this one elsewhere. */
  lemma FailureIsIsolated(targets: seq<string>, keywords: seq<string>, s1: Search, s2: Search, k: nat)
    requires k < |targets| && Extractor.Distinct(targets)
    requires forall r: Request :: r.subreddit != targets[k] ==> s1(r) == s2(r)
    ensures ScanRange(targets, keywords, s1, 0, |targets|)
         == ScanRange(targets, keywords, s2, 0, k)
            + Step(targets, keywords, s1, k).blocks
            + ScanRange(targets, keywords, s2, k + 1, |targets|)
  {
    ScanAround(targets, keywords, s1, k);
    ScanAgrees(targets, keywords, s1, s2, targets[k], 0, k);
    ScanAgrees(targets, keywords, s1, s2, targets[k], k + 1, |targets|);
  }

  /** A target whose search fails part way keeps the blocks of the posts listed before the
      failure, and its status line carries the error. */
  lemma PartialListingIsKept(targets: seq<string>, keywords: seq<string>, search: Search, j: nat, before: seq<Post>, e: string)
    requires j < |targets| && keywords != []
    requires search(SearchRequest(targets[j], QueryFor(keywords, j).value)) == Failed(before, e)
    requires |before| < PostLimit
    ensures Step(targets, keywords, search, j)
         == TargetScan(Blocks(targets[j], before), FailedAccess(e), [SearchRequest(targets[j], QueryFor(keywords, j).value)])
  {
    assert Fetch(Failed(before, e), PostLimit) == Listing(before, Some(e));
  }

  /** With no keywords every target fails with the `IndexError`, no search is issued and no
      block is collected. */
  lemma {:induction false} NoKeywordsNoData(targets: seq<string>, search: Search, n: nat)
    requires n <= |targets|
    ensures ScanRange(targets, [], search, 0, n) == []
    ensures Requests(targets, [], search, n) == []
    ensures Notes(targets, [], search, n) == seq(n, j => FailedAccess(IndexError))
  {
    if n > 0 {
      NoKeywordsNoData(targets, search, n - 1);
      assert seq(n, j => FailedAccess(IndexError)) == seq(n - 1, j => FailedAccess(IndexError)) + [FailedAccess(IndexError)];
    }
  }

  /** One pass of the scanning loop: search target `i` with its query and append the block
      of every listed post that has a comment, then report how the target went. */
  method ScanTarget(targets: seq<string>, keywords: seq<string>, search: Search, i: nat, collected: seq<string>)
    returns (extended: seq<string>, note: Note, issued: seq<Request>)
    requires i < |targets|
    ensures extended == collected + Step(targets, keywords, search, i).blocks
    ensures note == Step(targets, keywords, search, i).note
    ensures issued == Step(targets, keywords, search, i).issued
  {
    extended, issued := collected, [];
    var sub := targets[i];
    var query := QueryFor(keywords, i);
    if query.None? {
      note := FailedAccess(IndexError);
      return;
    }
    var request := SearchRequest(sub, query.value);
    issued := [request];
    var listing := Fetch(search(request), PostLimit);
    var posts := listing.posts;
    var postsFound: nat := 0;
    var j := 0;
    while j < |posts|
      invariant 0 <= j <= |posts|
      invariant extended == collected + Blocks(sub, posts[..j])
      invariant postsFound == |Blocks(sub, posts[..j])|
    {
      var post := posts[j];
      BlocksStep(sub, posts, j);
      if post.numComments > 0 {
        extended := extended + [Block(sub, post)];
        postsFound := postsFound + 1;
      }
      j := j + 1;
    }
    assert posts[..j] == posts;
    if listing.error.Some? {
      note := FailedAccess(listing.error.value);
    } else if postsFound > 0 {
      note := Found(postsFound);
    } else {
      note := NoResults;
    }
  }

  /** The scanning loop: every target in turn, each contributing its blocks, its status line
      and its search. */
  method ScanAll(targets: seq<string>, keywords: seq<string>, search: Search)
    returns (collected: seq<string>, notes: seq<Note>, requests: seq<Request>)
    ensures collected == ScanRange(targets, keywords, search, 0, |targets|)
    ensures notes == Notes(targets, keywords, search, |targets|)
    ensures requests == Requests(targets, keywords, search, |targets|)
  {
    collected, notes, requests := [], [], [];
    var i := 0;
    while i < |targets|
      invariant 0 <= i <= |targets|
      invariant collected == ScanRange(targets, keywords, search, 0, i)
      invariant notes == Notes(targets, keywords, search, i)
      invariant requests == Requests(targets, keywords, search, i)
    {
      var note, issued;
      collected, note, issued := ScanTarget(targets, keywords, search, i, collected);
      notes, requests := notes + [note], requests + issued;
      assert requests == Requests(targets, keywords, search, i + 1);
      i := i + 1;
    }
  }

  /** The whole run. `connectError` is the exception creating the client raised, if any;
      `search` and `model` are the platform and the language model. Besides the text shown,
      the run yields the targets in scanning order, the status line of each, the searches it
      issued and the message it sent to the model. `list(set(targets))` has no fixed order,
      so the scanning order is any order of the distinct cleaned targets. */
  method RunUniversalEngine(recipe: Extractor.Data, connectError: Option<string>, search: Search, model: Model)
    returns (report: string, scanned: seq<string>, notes: seq<Note>, requests: seq<Request>, sent: Option<string>)
    ensures connectError.Some? ==>
              report == ConnectError + connectError.value && scanned == [] && requests == [] && sent == None
    ensures connectError.None? ==>
              Extractor.Distinct(scanned)
              && (forall t :: t in scanned <==> t in CleanTargets(Targets(recipe)))
    ensures connectError.None? && scanned == [] ==>
              report == NoSubreddits && notes == [] && requests == [] && sent == None
    ensures connectError.None? && scanned != [] ==>
              var keywords := Extractor.GetListFromData(recipe, "search_keywords");
              && notes == Notes(scanned, keywords, search, |scanned|)
              && requests == Requests(scanned, keywords, search, |scanned|)
              && Analysis(report, sent) == Synthesize(ScanRange(scanned, keywords, search, 0, |scanned|), CorpusCap, model)
  {
    scanned, notes, requests, sent := [], [], [], None;
    if connectError.Some? {
      report := ConnectError + connectError.value;
      return;
    }
    var targets := Targets(recipe);
    var keywords := Extractor.GetListFromData(recipe, "search_keywords");
    var cleaned := CleanTargets(targets);
    scanned := ListOfSet(cleaned);
    if scanned == [] {
      report := NoSubreddits;
      return;
    }

    var collected;
    collected, notes, requests := ScanAll(scanned, keywords, search);
    var analysis := Synthesize(collected, CorpusCap, model);
    report, sent := analysis.report, analysis.sent;
  }
}
