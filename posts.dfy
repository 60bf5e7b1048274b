/** What the scanning loops of appv1.py, app.py and production_bot.py have in common: the
    posts a search returns, the search service and the language model as given functions,
    and the final synthesis step both Streamlit scripts share. */
module Posts {
  import opened Wrappers
  import opened Text

  /** The fields of a listed post the scripts read. */
  datatype Post = Post(id: string, title: string, selftext: string, url: string, score: int, numComments: int)

  /** One call `reddit.subreddit(subreddit).search(query, sort=…, time_filter=…, limit=…)`. */
  datatype Request = Request(subreddit: string, query: string, sort: string, timeFilter: string, limit: nat)

  /** What the platform does with a request: list its posts, or raise `error` after having
      listed the posts in `before` (the listing is consumed lazily, post by post). */
  datatype Outcome = Ok(posts: seq<Post>) | Failed(before: seq<Post>, error: string)

  /** The search service: the outcome of every request. */
  type Search = Request -> Outcome

  /** One chat completion: the report text, or the exception's message. */
  datatype Reply = Answer(text: string) | Error(message: string)

  /** The language model: the reply to one user message. */
  type Model = string -> Reply

  /** What a `for post in listing` loop sees: the posts it goes through, then the exception
      that ends it, if any. */
  datatype Listing = Listing(posts: seq<Post>, error: Option<string>)

  /** The listing a request with `limit` yields. */
  function Fetch(o: Outcome, limit: nat): Listing
  {
    match o
    case Ok(posts) => Listing(Take(posts, limit), None)
    case Failed(before, error) =>
      if |before| < limit then Listing(before, Some(error)) else Listing(before[..limit], None)
  }

  /** The loop sees the first `limit` posts the service lists, and the error only when the
      service raises before the limit is reached. */
  lemma FetchListing(o: Outcome, limit: nat)
    ensures |Fetch(o, limit).posts| <= limit
    ensures o.Ok? ==> Fetch(o, limit) == Listing(Take(o.posts, limit), None)
    ensures o.Failed? ==> Fetch(o, limit).posts == Take(o.before, limit)
    ensures Fetch(o, limit).error.Some? <==> o.Failed? && |o.before| < limit
    ensures Fetch(o, limit).error.Some? ==> Fetch(o, limit).error.value == o.error
  {
  }

  /** The posts with more than `threshold` comments, in listing order. */
  function Commented(posts: seq<Post>, threshold: int): (r: seq<Post>)
    ensures |r| <= |posts|
  {
    if |posts| == 0 then []
    else
      var front, last := posts[..|posts| - 1], posts[|posts| - 1];
      assert posts == front + [last];
      Commented(front, threshold) + (if last.numComments > threshold then [last] else [])
  }

  /** A post is kept exactly when it was listed and has more than `threshold` comments. */
  lemma {:induction false} CommentedMembers(posts: seq<Post>, threshold: int, p: Post)
    ensures p in Commented(posts, threshold) <==> p in posts && p.numComments > threshold
  {
    if |posts| > 0 {
      var front := posts[..|posts| - 1];
      assert posts == front + [posts[|posts| - 1]];
      CommentedMembers(front, threshold, p);
    }
  }

  /** Filtering distributes over concatenation, so the kept posts stay in listing order. */
  lemma {:induction false} CommentedAppend(a: seq<Post>, b: seq<Post>, threshold: int)
    ensures Commented(a + b, threshold) == Commented(a, threshold) + Commented(b, threshold)
    decreases |b|
  {
    if |b| > 0 {
      var b', last := b[..|b| - 1], b[|b| - 1];
      assert (a + b)[..|a + b| - 1] == a + b';
      CommentedAppend(a, b', threshold);
    } else {
      assert a + b == a;
    }
  }

  /** The user message both Streamlit scripts send to the model. */
  function RawData(corpus: string): string
  {
    "RAW DATA:\n" + corpus
  }

  /** The separator the Streamlit scripts put between collected blocks. */
  const BlockDelimiter := "\n---\n"

  const NoRelevantData := "⚠️ No relevant data found. Try broader keywords."

  const AnalysisFailed := "❌ Analysis Failed: "

  /** `BlockDelimiter.join(collected[:cap])`. */
  function Corpus(collected: seq<string>, cap: nat): (c: string)
  {
    Join(BlockDelimiter, Take(collected, cap))
  }

  /** The corpus is the joined text of all collected blocks, cut after the `cap`-th block. */
  lemma CorpusIsPrefix(collected: seq<string>, cap: nat)
    ensures Corpus(collected, cap) <= Join(BlockDelimiter, collected)
    ensures |Take(collected, cap)| == if |collected| < cap then |collected| else cap
  {
    JoinPrefix(BlockDelimiter, collected, |Take(collected, cap)|);
    assert Take(collected, cap) == collected[..|Take(collected, cap)|];
  }

  /** The end of a Streamlit run: what the user sees, and the message sent to the model, if any. */
  datatype Analysis = Analysis(report: string, sent: Option<string>)

  /** Nothing collected: the "no relevant data" message and no model call. Otherwise the first
      `cap` blocks go to the model; its answer is the report, a failure is reported as text. */
  function Synthesize(collected: seq<string>, cap: nat, model: Model): (a: Analysis)
    ensures a.sent.None? <==> collected == []
    ensures collected == [] ==> a.report == NoRelevantData
    ensures collected != [] ==> a.sent == Some(RawData(Corpus(collected, cap)))
    ensures collected != [] && model(RawData(Corpus(collected, cap))).Answer? ==>
              a.report == model(RawData(Corpus(collected, cap))).text
    ensures collected != [] && model(RawData(Corpus(collected, cap))).Error? ==>
              a.report == AnalysisFailed + model(RawData(Corpus(collected, cap))).message
  {
    if collected == [] then Analysis(NoRelevantData, None)
    else
      var message := RawData(Corpus(collected, cap));
      match model(message)
      case Answer(text) => Analysis(text, Some(message))
      case Error(e) => Analysis(AnalysisFailed + e, Some(message))
  }
}
