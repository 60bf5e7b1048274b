/** production_bot.py: a fixed strategy, an insert-or-ignore table of captured posts, the
    hourly scan that fills it, and the daily report built from the last 24 hours of rows.
    Timestamps are integer seconds supplied by the caller. */
module Watchdog {
  import opened Wrappers
  import opened Text
  import opened Posts

  // The strategy.
  const ProjectName := "Recruiter Tool Watch"
  const TargetSubreddits: seq<string> := ["recruiting", "humanresources", "technicalrecruiting", "sales"]
  const SearchKeywords: seq<string> := ["ATS", "CRM", "AI sourcing", "automation", "pricing", "scam"]
  const ReportHour := 18
  const MinHeatScore := 2

  const ScanLimit: nat := 50
  const BodyCap: nat := 1000
  const ContextCap: nat := 300
  const LowHeatCap: nat := 20

  /** Twenty-four hours, in seconds. */
  const Day := 86400

  /** The dictionary `run_hourly_scan` hands to `save_post`. */
  datatype PostData = PostData(id: string, subreddit: string, title: string, body: string, url: string, heat: int)

  /** One row of the `posts` table. */
  datatype Row = Row(id: string, subreddit: string, title: string, body: string, url: string,
                     heat: int, capturedAt: int, isReported: bool)

  /** What one listed post of subreddit `sub` is stored as: its engagement (score plus
      comments) as heat, and at most the first 1000 characters of its text as body. */
  function Capture(sub: string, p: Post): (d: PostData)
    ensures d.id == p.id && d.subreddit == sub && d.title == p.title && d.url == p.url
    ensures d.heat == p.score + p.numComments
    ensures |d.body| <= BodyCap && d.body <= p.selftext
    ensures |p.selftext| <= BodyCap ==> d.body == p.selftext
  {
    PostData(p.id, sub, p.title, Take(p.selftext, BodyCap), p.url, p.score + p.numComments)
  }

  // ---------------------------------------------------------------------------------
  // The table

  /** The table: its rows by primary key, and the keys in insertion order. */
  datatype Table = Table(rows: map<string, Row>, order: seq<string>)

  /** Every row is listed once in `order`, under its own id. */
  predicate WellFormed(t: Table)
  {
    && (forall i :: 0 <= i < |t.order| ==> t.order[i] in t.rows)
    && (forall id :: id in t.rows ==> id in t.order)
    && (forall i, j :: 0 <= i < j < |t.order| ==> t.order[i] != t.order[j])
    && (forall id :: id in t.rows ==> t.rows[id].id == id)
  }

  /** The row an insert creates: captured `now`, not yet reported. */
  function NewRow(d: PostData, now: int): Row
  {
    Row(d.id, d.subreddit, d.title, d.body, d.url, d.heat, now, false)
  }

  /** `INSERT OR IGNORE`: a post whose id is already stored leaves the table as it is. */
  function InsertOrIgnore(t: Table, d: PostData, now: int): (u: Table)
  {
    if d.id in t.rows then t else Table(t.rows[d.id := NewRow(d, now)], t.order + [d.id])
  }

  /** An insert keeps the table well formed, never changes a stored row, and leaves the post's
      id stored; a new id gets the row built from the post. */
  lemma InsertOrIgnoreKeeps(t: Table, d: PostData, now: int)
    requires WellFormed(t)
    ensures WellFormed(InsertOrIgnore(t, d, now))
    ensures forall id :: id in t.rows ==> id in InsertOrIgnore(t, d, now).rows && InsertOrIgnore(t, d, now).rows[id] == t.rows[id]
    ensures forall id :: id in InsertOrIgnore(t, d, now).rows <==> id in t.rows || id == d.id
    ensures d.id !in t.rows ==> InsertOrIgnore(t, d, now).rows[d.id] == NewRow(d, now)
  {
    var u := InsertOrIgnore(t, d, now);
    if d.id !in t.rows {
      forall i, j | 0 <= i < j < |u.order| ensures u.order[i] != u.order[j] {
        if j == |t.order| {
          assert u.order[i] == t.order[i];
        }
      }
    }
  }

  /** Saving two posts with the same id leaves exactly one row, holding the first one's fields. */
  lemma FirstSaveWins(t: Table, p: PostData, q: PostData, now1: int, now2: int)
    requires WellFormed(t) && p.id == q.id && p.id !in t.rows
    ensures InsertOrIgnore(InsertOrIgnore(t, p, now1), q, now2) == InsertOrIgnore(t, p, now1)
    ensures InsertOrIgnore(t, p, now1).rows[p.id] == NewRow(p, now1)
    ensures |InsertOrIgnore(t, p, now1).order| == |t.order| + 1
  {
  }

  /** What one call of `save_post` does: a write that raises changes nothing. */
  function Save(t: Table, d: PostData, now: int, writeError: PostData -> Option<string>): Table
  {
    if writeError(d).Some? then t else InsertOrIgnore(t, d, now)
  }

  /** The table after saving `ds` one after the other. */
  function SaveAll(t: Table, ds: seq<PostData>, now: int, writeError: PostData -> Option<string>): Table
  {
    if |ds| == 0 then t else Save(SaveAll(t, ds[..|ds| - 1], now, writeError), ds[|ds| - 1], now, writeError)
  }

  /** A run of saves keeps the table well formed and never changes or drops a stored row, so
      a row keeps the fields of the first post saved under its id. */
  lemma {:induction false} SaveAllKeeps(t: Table, ds: seq<PostData>, now: int, writeError: PostData -> Option<string>)
    requires WellFormed(t)
    ensures WellFormed(SaveAll(t, ds, now, writeError))
    ensures forall id :: id in t.rows ==> id in SaveAll(t, ds, now, writeError).rows && SaveAll(t, ds, now, writeError).rows[id] == t.rows[id]
  {
    if |ds| > 0 {
      SaveAllKeeps(t, ds[..|ds| - 1], now, writeError);
      InsertOrIgnoreKeeps(SaveAll(t, ds[..|ds| - 1], now, writeError), ds[|ds| - 1], now);
    }
  }

  /** The ids of the posts in `ds` whose write did not raise. */
  function WrittenIds(ds: seq<PostData>, writeError: PostData -> Option<string>): set<string>
  {
    if |ds| == 0 then {}
    else WrittenIds(ds[..|ds| - 1], writeError) + (if writeError(ds[|ds| - 1]).None? then {ds[|ds| - 1].id} else {})
  }

  /** After a run of saves an id is stored exactly when it was stored before or some post
      with that id was written without error. */
  lemma {:induction false} SaveAllIds(t: Table, ds: seq<PostData>, now: int, writeError: PostData -> Option<string>)
    requires WellFormed(t)
    ensures forall id :: id in SaveAll(t, ds, now, writeError).rows <==> id in t.rows || id in WrittenIds(ds, writeError)
  {
    if |ds| > 0 {
      var front := ds[..|ds| - 1];
      SaveAllIds(t, front, now, writeError);
      SaveAllKeeps(t, front, now, writeError);
      InsertOrIgnoreKeeps(SaveAll(t, front, now, writeError), ds[|ds| - 1], now);
    }
  }

  /** No row is ever marked as reported: saves only add rows with the flag unset, so a table
      that starts with none reported never has one, and reading without the flag loses nothing. */
  lemma {:induction false} NothingIsReported(t: Table, ds: seq<PostData>, now: int, writeError: PostData -> Option<string>)
    requires forall id :: id in t.rows ==> !t.rows[id].isReported
    ensures forall id :: id in SaveAll(t, ds, now, writeError).rows ==> !SaveAll(t, ds, now, writeError).rows[id].isReported
  {
    if |ds| > 0 {
      NothingIsReported(t, ds[..|ds| - 1], now, writeError);
    }
  }

  /** Saving a run of posts after another is saving the two runs joined. */
  lemma {:induction false} SaveAllAppend(t: Table, a: seq<PostData>, b: seq<PostData>, now: int, writeError: PostData -> Option<string>)
    ensures SaveAll(t, a + b, now, writeError) == SaveAll(SaveAll(t, a, now, writeError), b, now, writeError)
    decreases |b|
  {
    if |b| == 0 {
      assert a + b == a;
    } else {
      assert (a + b)[..|a + b| - 1] == a + b[..|b| - 1];
      SaveAllAppend(t, a, b[..|b| - 1], now, writeError);
    }
  }

  // ---------------------------------------------------------------------------------
  // The 24-hour window, highest heat first

  /** The rows of `ids` captured after `since`, in the order of `ids`. */
  function Recent(rows: map<string, Row>, ids: seq<string>, since: int): (r: seq<Row>)
    requires forall k :: 0 <= k < |ids| ==> ids[k] in rows
    ensures |r| <= |ids|
  {
    if |ids| == 0 then []
    else
      var row := rows[ids[0]];
      (if row.capturedAt > since then [row] else []) + Recent(rows, ids[1..], since)
  }

  /** A row is recent exactly when it is stored under one of `ids` and was captured after `since`. */
  lemma {:induction false} RecentMembers(rows: map<string, Row>, ids: seq<string>, since: int, r: Row)
    requires forall k :: 0 <= k < |ids| ==> ids[k] in rows
    ensures r in Recent(rows, ids, since) <==> (exists k :: 0 <= k < |ids| && rows[ids[k]] == r) && r.capturedAt > since
  {
    if |ids| > 0 {
      RecentMembers(rows, ids[1..], since, r);
      if exists k :: 0 <= k < |ids| && rows[ids[k]] == r {
        var k :| 0 <= k < |ids| && rows[ids[k]] == r;
        if k > 0 {
          assert rows[ids[1..][k - 1]] == r;
        }
      }
      if exists k :: 0 <= k < |ids| - 1 && rows[ids[1..][k]] == r {
        var k :| 0 <= k < |ids| - 1 && rows[ids[1..][k]] == r;
        assert rows[ids[k + 1]] == r;
      }
    }
  }

  /** Highest heat first: no row is hotter than the one before it. */
  predicate ByHeat(s: seq<Row>)
  {
    forall i :: 0 <= i < |s| - 1 ==> s[i].heat >= s[i + 1].heat
  }

  /** In a heat-ordered sequence every row is at least as hot as every later one. */
  lemma {:induction false} ByHeatOrdered(s: seq<Row>, i: nat, j: nat)
    requires ByHeat(s) && i <= j < |s|
    ensures s[i].heat >= s[j].heat
    decreases j - i
  {
    if i < j {
      ByHeatOrdered(s, i + 1, j);
    }
  }

  /** `r` placed before the first row whose heat is not above its own. */
  function InsertByHeat(r: Row, s: seq<Row>): (u: seq<Row>)
    ensures multiset(u) == multiset(s) + multiset{r}
    ensures |s| > 0 ==> u[0] == r || u[0] == s[0]
  {
    if |s| == 0 then [r]
    else if s[0].heat <= r.heat then [r] + s
    else
      assert s == [s[0]] + s[1..];
      [s[0]] + InsertByHeat(r, s[1..])
  }

  /** Inserting into a heat-ordered sequence keeps it heat-ordered. */
  lemma {:induction false} InsertByHeatOrdered(r: Row, s: seq<Row>)
    requires ByHeat(s)
    ensures ByHeat(InsertByHeat(r, s))
  {
    if |s| > 0 && s[0].heat > r.heat {
      var rest := InsertByHeat(r, s[1..]);
      assert ByHeat(s[1..]) by {
        forall i | 0 <= i < |s[1..]| - 1 ensures s[1..][i].heat >= s[1..][i + 1].heat {
          assert s[1..][i] == s[i + 1] && s[1..][i + 1] == s[i + 2];
        }
      }
      InsertByHeatOrdered(r, s[1..]);
      var u := [s[0]] + rest;
      forall i | 0 <= i < |u| - 1 ensures u[i].heat >= u[i + 1].heat {
        if i > 0 {
          assert u[i] == rest[i - 1] && u[i + 1] == rest[i];
        }
      }
    }
  }

  /** `ORDER BY heat_score DESC`: the same rows, highest heat first; rows of equal heat keep
      their storage order. */
  function SortByHeat(s: seq<Row>): (u: seq<Row>)
    ensures multiset(u) == multiset(s)
    ensures ByHeat(u)
  {
    if |s| == 0 then [] else
      assert s == [s[0]] + s[1..];
      var rest := SortByHeat(s[1..]);
      InsertByHeatOrdered(s[0], rest);
      InsertByHeat(s[0], rest)
  }

  /** `SELECT * FROM posts WHERE captured_at > since ORDER BY heat_score DESC`. */
  function Window(t: Table, since: int): seq<Row>
    requires WellFormed(t)
  {
    SortByHeat(Recent(t.rows, t.order, since))
  }

  /** The window holds exactly the stored rows captured after `since`, each once per row,
      highest heat first. */
  lemma WindowIsRecentRows(t: Table, since: int, r: Row)
    requires WellFormed(t)
    ensures ByHeat(Window(t, since))
    ensures multiset(Window(t, since)) == multiset(Recent(t.rows, t.order, since))
    ensures r in Window(t, since) <==> r.id in t.rows && t.rows[r.id] == r && r.capturedAt > since
  {
    var w := Window(t, since);
    assert r in w <==> r in multiset(w);
    RecentMembers(t.rows, t.order, since, r);
    if r.id in t.rows && t.rows[r.id] == r {
      var k :| 0 <= k < |t.order| && t.order[k] == r.id;
      assert t.rows[t.order[k]] == r;
    }
  }

  // ---------------------------------------------------------------------------------
  // The hourly scan

  /** The one query the scan sends to every subreddit. */
  function ScanQuery(): string
  {
    Join(" OR ", SearchKeywords)
  }

  function ScanRequest(sub: string): Request
  {
    Request(sub, ScanQuery(), "new", "day", ScanLimit)
  }

  /** The listing the scan sees for `sub`. */
  function ListingFor(search: Search, sub: string): Listing
  {
    Fetch(search(ScanRequest(sub)), ScanLimit)
  }

  /** The captured form of each post of a listing, in listing order. */
  function Captures(sub: string, posts: seq<Post>): (ds: seq<PostData>)
    ensures |ds| == |posts|
    ensures forall k :: 0 <= k < |posts| ==> ds[k] == Capture(sub, posts[k])
  {
    seq(|posts|, k requires 0 <= k < |posts| => Capture(sub, posts[k]))
  }

  /** Going one post further saves that post's capture on top of what was saved so far. */
  lemma SaveStep(t: Table, sub: string, posts: seq<Post>, j: nat, now: int, writeError: PostData -> Option<string>)
    requires j < |posts|
    ensures SaveAll(t, Captures(sub, posts[..j + 1]), now, writeError)
         == Save(SaveAll(t, Captures(sub, posts[..j]), now, writeError), Capture(sub, posts[j]), now, writeError)
  {
    var ds := Captures(sub, posts[..j + 1]);
    assert ds[..j] == Captures(sub, posts[..j]);
  }

  /** What the scan hands to `save_post` for subreddit `sub`: every post of its listing. */
  function SubCaptures(search: Search, sub: string): seq<PostData>
  {
    Captures(sub, ListingFor(search, sub).posts)
  }

  /** Everything handed to `save_post` for subreddits `lo` up to `hi`, in scanning order. */
  function Handed(subs: seq<string>, search: Search, lo: nat, hi: nat): seq<PostData>
    requires lo <= hi <= |subs|
    decreases hi - lo
  {
    if lo == hi then [] else Handed(subs, search, lo, hi - 1) + SubCaptures(search, subs[hi - 1])
  }

  /** The subreddits among the first `n` whose listing raised, with the error. */
  function ScanFailures(subs: seq<string>, search: Search, n: nat): seq<(string, string)>
    requires n <= |subs|
  {
    if n == 0 then []
    else
      var l := ListingFor(search, subs[n - 1]);
      ScanFailures(subs, search, n - 1) + (if l.error.Some? then [(subs[n - 1], l.error.value)] else [])
  }

  /** The number of posts listed for the first `n` subreddits. */
  function Listed(subs: seq<string>, search: Search, n: nat): nat
    requires n <= |subs|
  {
    if n == 0 then 0 else Listed(subs, search, n - 1) + |ListingFor(search, subs[n - 1]).posts|
  }

  /** The count covers every post handed over, whether it was new, a duplicate or failed to
      be written: it is the number of posts listed, not of rows added. */
  lemma {:induction false} HandedCount(subs: seq<string>, search: Search, n: nat)
    requires n <= |subs|
    ensures |Handed(subs, search, 0, n)| == Listed(subs, search, n)
  {
    if n > 0 {
      HandedCount(subs, search, n - 1);
    }
  }

  /** What is handed over splits at any subreddit into what comes before and from it on. */
  lemma {:induction false} HandedSplit(subs: seq<string>, search: Search, lo: nat, mid: nat, hi: nat)
    requires lo <= mid <= hi <= |subs|
    ensures Handed(subs, search, lo, hi) == Handed(subs, search, lo, mid) + Handed(subs, search, mid, hi)
    decreases hi - mid
  {
    if mid < hi {
      HandedSplit(subs, search, lo, mid, hi - 1);
    }
  }

  /** Two search services that agree except on one subreddit hand over the same posts for every
      range of subreddits that does not name it. */
  lemma {:induction false} HandedAgrees(subs: seq<string>, s1: Search, s2: Search, sub: string, lo: nat, hi: nat)
    requires lo <= hi <= |subs|
    requires forall j :: lo <= j < hi ==> subs[j] != sub
    requires forall r: Request :: r.subreddit != sub ==> s1(r) == s2(r)
    ensures Handed(subs, s1, lo, hi) == Handed(subs, s2, lo, hi)
    decreases hi - lo
  {
    if lo < hi {
      HandedAgrees(subs, s1, s2, sub, lo, hi - 1);
      assert s1(ScanRequest(subs[hi - 1])) == s2(ScanRequest(subs[hi - 1]));
    }
  }

  /** What is handed over is what comes before subreddit `k`, then its own posts, then
      what comes after. */
  lemma HandedAround(subs: seq<string>, search: Search, k: nat)
    requires k < |subs|
    ensures Handed(subs, search, 0, |subs|)
         == Handed(subs, search, 0, k) + SubCaptures(search, subs[k]) + Handed(subs, search, k + 1, |subs|)
  {
    HandedSplit(subs, search, 0, k, |subs|);
    HandedSplit(subs, search, k, k + 1, |subs|);
    assert Handed(subs, search, k, k + 1) == SubCaptures(search, subs[k]);
  }

  /** A subreddit whose search raises costs only its own posts: whatever the service does for
      `subs[k]`, every other subreddit hands over what it would under any service that agrees
      with this one elsewhere, the later subreddits included. */
  lemma FailureIsIsolated(subs: seq<string>, s1: Search, s2: Search, k: nat)
    requires k < |subs|
    requires forall j :: 0 <= j < |subs| && j != k ==> subs[j] != subs[k]
    requires forall r: Request :: r.subreddit != subs[k] ==> s1(r) == s2(r)
    ensures Handed(subs, s1, 0, |subs|)
         == Handed(subs, s2, 0, k) + SubCaptures(s1, subs[k]) + Handed(subs, s2, k + 1, |subs|)
  {
    HandedAround(subs, s1, k);
    HandedAgrees(subs, s1, s2, subs[k], 0, k);
    HandedAgrees(subs, s1, s2, subs[k], k + 1, |subs|);
  }

  // ---------------------------------------------------------------------------------
  // The daily report

  /** `high_heat`: the rows with at least the minimum heat, in window order. */
  function High(rows: seq<Row>): (r: seq<Row>)
    ensures |r| <= |rows|
  {
    if |rows| == 0 then []
    else (if rows[0].heat >= MinHeatScore then [rows[0]] else []) + High(rows[1..])
  }

  /** The rows below the minimum heat, in window order, before the cut to twenty. */
  function Low(rows: seq<Row>): (r: seq<Row>)
    ensures |r| <= |rows|
  {
    if |rows| == 0 then []
    else (if rows[0].heat < MinHeatScore then [rows[0]] else []) + Low(rows[1..])
  }

  /** A row is high exactly when it was read and has at least the minimum heat, and low
      exactly when it was read and has less. */
  lemma {:induction false} HighLowMembers(rows: seq<Row>, x: Row)
    ensures x in High(rows) <==> x in rows && x.heat >= MinHeatScore
    ensures x in Low(rows) <==> x in rows && x.heat < MinHeatScore
  {
    if |rows| > 0 {
      HighLowMembers(rows[1..], x);
      assert x in rows <==> x == rows[0] || x in rows[1..];
    }
  }

  /** High and low rows split the rows read. */
  lemma {:induction false} HighLowSplit(rows: seq<Row>)
    ensures |High(rows)| + |Low(rows)| == |rows|
    ensures multiset(High(rows)) + multiset(Low(rows)) == multiset(rows)
  {
    if |rows| > 0 {
      HighLowSplit(rows[1..]);
      assert rows == [rows[0]] + rows[1..];
    }
  }

  /** `combined_data`: every high-heat row, then at most twenty low-heat rows. */
  function Combined(rows: seq<Row>): seq<Row>
  {
    High(rows) + Take(Low(rows), LowHeatCap)
  }

  /** The selection keeps every high-heat row first, adds at most twenty others, invents
      nothing, and drops nothing when there are at most twenty low-heat rows. */
  lemma CombinedBounds(rows: seq<Row>)
    ensures High(rows) <= Combined(rows)
    ensures |Combined(rows)| <= |High(rows)| + LowHeatCap
    ensures forall x :: x in Combined(rows) ==> x in rows
    ensures |Low(rows)| <= LowHeatCap ==> multiset(Combined(rows)) == multiset(rows)
  {
    forall x | x in Combined(rows) ensures x in rows {
      HighLowMembers(rows, x);
    }
    HighLowSplit(rows);
  }

  /** Rows below the minimum heat, in heat order, have no high-heat part and are all low. */
  lemma {:induction false} AllLow(rows: seq<Row>)
    requires ByHeat(rows) && (rows == [] || rows[0].heat < MinHeatScore)
    ensures High(rows) == [] && Low(rows) == rows
  {
    if |rows| > 0 {
      ByHeatTail(rows);
      AllLow(rows[1..]);
    }
  }

  /** Dropping the first row keeps a sequence heat-ordered. */
  lemma ByHeatTail(rows: seq<Row>)
    requires ByHeat(rows) && |rows| > 0
    ensures ByHeat(rows[1..])
    ensures |rows| > 1 ==> rows[1].heat <= rows[0].heat
  {
    forall i | 0 <= i < |rows[1..]| - 1 ensures rows[1..][i].heat >= rows[1..][i + 1].heat {
      assert rows[1..][i] == rows[i + 1];
    }
  }

  /** On rows sorted by heat the high-heat rows come first: high, then low, is the rows. */
  lemma {:induction false} SortedHighIsPrefix(rows: seq<Row>)
    requires ByHeat(rows)
    ensures High(rows) + Low(rows) == rows
  {
    if |rows| > 0 {
      ByHeatTail(rows);
      if rows[0].heat >= MinHeatScore {
        SortedHighIsPrefix(rows[1..]);
        assert rows == [rows[0]] + rows[1..];
      } else {
        AllLow(rows);
      }
    }
  }

  /** So on the window, which is sorted by heat, the selection is its first rows: all the
      high-heat ones and at most twenty more. */
  lemma SortedSelectionIsPrefix(rows: seq<Row>)
    requires ByHeat(rows)
    ensures Combined(rows) <= rows
  {
    SortedHighIsPrefix(rows);
    var h, l := High(rows), Low(rows);
    assert Combined(rows) == (h + l)[..|h| + |Take(l, LowHeatCap)|];
  }

  /** The context of an entry: at most the first 300 characters of the stored body. */
  function Context(r: Row): (c: string)
    ensures |c| <= ContextCap && c <= r.body
    ensures |r.body| <= ContextCap ==> c == r.body
  {
    Take(r.body, ContextCap)
  }

  /** One entry of the text blob: heat, subreddit and title, then the context. */
  function Entry(r: Row): string
  {
    "[" + IntToString(r.heat) + " pts] r/" + r.subreddit + ": " + r.title + "\nContext: " + Context(r) + "..."
  }

  /** The entries of the selected rows, one per row, in order. */
  function Entries(rows: seq<Row>): (es: seq<string>)
    ensures |es| == |rows|
    ensures forall k :: 0 <= k < |rows| ==> es[k] == Entry(rows[k])
  {
    seq(|rows|, k requires 0 <= k < |rows| => Entry(rows[k]))
  }

  /** Entries are joined in selection order: one more row adds a newline and its entry at
      the end of the text. */
  lemma EntriesInOrder(rows: seq<Row>, x: Row)
    requires rows != []
    ensures Join("\n", Entries(rows + [x])) == Join("\n", Entries(rows)) + "\n" + Entry(x)
  {
    assert Entries(rows + [x]) == Entries(rows) + [Entry(x)];
    JoinSnoc("\n", Entries(rows), Entry(x));
  }

  /** `text_blob`: the entries of the combined rows joined by newlines. */
  function Blob(rows: seq<Row>): string
  {
    Join("\n", Entries(Combined(rows)))
  }

  /** The blob begins with the entry of the first selected row; with one row selected it is
      that row's entry. */
  lemma BlobStartsWithFirstEntry(rows: seq<Row>)
    requires Combined(rows) != []
    ensures Entry(Combined(rows)[0]) <= Blob(rows)
    ensures |Combined(rows)| == 1 ==> Blob(rows) == Entry(Combined(rows)[0])
  {
  }

  /** How a daily report run ended. */
  datatype ReportOutcome = NoData | Saved(text: string) | AnalysisFailed(error: string)

  /** The report for the rows read: no rows, no model call; otherwise the model's answer is
      saved, or its failure logged. */
  function Report(rows: seq<Row>, model: Model): (o: ReportOutcome)
    ensures o.NoData? <==> rows == []
    ensures rows != [] && model(Blob(rows)).Answer? ==> o == Saved(model(Blob(rows)).text)
    ensures rows != [] && model(Blob(rows)).Error? ==> o == AnalysisFailed(model(Blob(rows)).message)
  {
    if rows == [] then NoData
    else
      match model(Blob(rows))
      case Answer(text) => Saved(text)
      case Error(e) => AnalysisFailed(e)
  }

  /** The model is given the blob only when there is at least one row. */
  function Sent(rows: seq<Row>): (m: Option<string>)
    ensures m.None? <==> rows == []
    ensures rows != [] ==> m == Some(Blob(rows))
  {
    if rows == [] then None else Some(Blob(rows))
  }

  // ---------------------------------------------------------------------------------
  // The store

  /** The SQLite file, held in memory. */
  class Store {
    var rows: map<string, Row>
    var order: seq<string>

    ghost predicate Valid()
      reads this
    {
      WellFormed(Table(rows, order))
    }

    function Contents(): Table
      reads this
    {
      Table(rows, order)
    }

    /** `init_db`: an empty table. */
    constructor ()
      ensures Valid() && rows == map[] && order == []
    {
      rows, order := map[], [];
    }

    /** `save_post`: insert-or-ignore, reporting success whenever the write did not raise,
        also when the post was a duplicate and nothing was inserted. */
    method SavePost(d: PostData, now: int, writeError: Option<string>) returns (ok: bool)
      requires Valid()
      modifies this
      ensures Valid()
      ensures ok <==> writeError.None?
      ensures Contents() == if ok then InsertOrIgnore(old(Contents()), d, now) else old(Contents())
    {
      ok := writeError.None?;
      if ok {
        InsertOrIgnoreKeeps(Contents(), d, now);
        if d.id !in rows {
          rows, order := rows[d.id := NewRow(d, now)], order + [d.id];
        }
      }
    }

    /** `get_unreported_data`: the rows of the last 24 hours, highest heat first. It reads
        the table and changes nothing, `isReported` included. */
    method GetUnreportedData(now: int) returns (result: seq<Row>)
      requires Valid()
      ensures result == Window(Contents(), now - Day)
      ensures forall i, j :: 0 <= i <= j < |result| ==> result[i].heat >= result[j].heat
      ensures forall r :: r in result <==> r.id in rows && rows[r.id] == r && r.capturedAt > now - Day
    {
      result := Window(Contents(), now - Day);
      forall i, j | 0 <= i <= j < |result| ensures result[i].heat >= result[j].heat {
        ByHeatOrdered(result, i, j);
      }
      forall r ensures r in result <==> r.id in rows && rows[r.id] == r && r.capturedAt > now - Day {
        WindowIsRecentRows(Contents(), now - Day, r);
      }
    }

    /** One pass of the scanning loop: every post listed for `sub` is captured, saved and
        counted, whatever the save did; the error that ended the listing, if any, is returned. */
    method ScanSubreddit(search: Search, sub: string, now: int, writeError: PostData -> Option<string>)
      returns (handed: nat, error: Option<string>)
      requires Valid()
      modifies this
      ensures Valid()
      ensures handed == |SubCaptures(search, sub)| && error == ListingFor(search, sub).error
      ensures Contents() == SaveAll(old(Contents()), SubCaptures(search, sub), now, writeError)
    {
      var listing := ListingFor(search, sub);
      var posts := listing.posts;
      handed := 0;
      var j := 0;
      while j < |posts|
        invariant 0 <= j <= |posts| && handed == j
        invariant Valid()
        invariant Contents() == SaveAll(old(Contents()), Captures(sub, posts[..j]), now, writeError)
      {
        var postData := Capture(sub, posts[j]);
        SaveStep(old(Contents()), sub, posts, j, now, writeError);
        var saved := SavePost(postData, now, writeError(postData));
        handed := handed + 1;
        j := j + 1;
      }
      assert posts[..j] == posts;
      error := listing.error;
    }

    /** The scanning loop over `subs`, in list order. */
    method ScanSubreddits(subs: seq<string>, search: Search, now: int, writeError: PostData -> Option<string>)
      returns (totalNew: nat, failures: seq<(string, string)>)
      requires Valid()
      modifies this
      ensures Valid()
      ensures totalNew == |Handed(subs, search, 0, |subs|)|
      ensures failures == ScanFailures(subs, search, |subs|)
      ensures Contents() == SaveAll(old(Contents()), Handed(subs, search, 0, |subs|), now, writeError)
    {
      totalNew, failures := 0, [];
      var i := 0;
      while i < |subs|
        invariant 0 <= i <= |subs|
        invariant Valid()
        invariant totalNew == |Handed(subs, search, 0, i)|
        invariant failures == ScanFailures(subs, search, i)
        invariant Contents() == SaveAll(old(Contents()), Handed(subs, search, 0, i), now, writeError)
      {
        var sub := subs[i];
        var handed, error := ScanSubreddit(search, sub, now, writeError);
        SaveAllAppend(old(Contents()), Handed(subs, search, 0, i), SubCaptures(search, sub), now, writeError);
        totalNew := totalNew + handed;
        if error.Some? {
          failures := failures + [(sub, error.value)];
        }
        i := i + 1;
      }
    }

    /** `run_hourly_scan`: every strategy subreddit is scanned in turn and all it hands over is
        counted; a subreddit whose search raises is logged and the scan goes on. If creating
        the client raises, nothing is scanned. */
    method RunHourlyScan(search: Search, now: int, connectError: Option<string>, writeError: PostData -> Option<string>)
      returns (totalNew: nat, failures: seq<(string, string)>)
      requires Valid()
      modifies this
      ensures Valid()
      ensures connectError.Some? ==> totalNew == 0 && failures == [] && Contents() == old(Contents())
      ensures connectError.None? ==>
                && totalNew == |Handed(TargetSubreddits, search, 0, |TargetSubreddits|)|
                && failures == ScanFailures(TargetSubreddits, search, |TargetSubreddits|)
                && Contents() == SaveAll(old(Contents()), Handed(TargetSubreddits, search, 0, |TargetSubreddits|), now, writeError)
    {
      if connectError.Some? {
        return 0, [];
      }
      totalNew, failures := ScanSubreddits(TargetSubreddits, search, now, writeError);
    }

    /** `generate_daily_report`: read the window, and unless it is empty, hand the blob of the
        selected rows to the model. Returns how the run ended and the message sent, if any. */
    method GenerateDailyReport(now: int, model: Model) returns (outcome: ReportOutcome, sent: Option<string>)
      requires Valid()
      ensures outcome == Report(Window(Contents(), now - Day), model)
      ensures sent == Sent(Window(Contents(), now - Day))
      ensures Window(Contents(), now - Day) == [] ==> outcome == NoData && sent == None
    {
      var rawData := GetUnreportedData(now);
      if rawData == [] {
        return NoData, None;
      }
      var blob := Blob(rawData);
      sent := Some(blob);
      match model(blob)
      case Answer(text) => outcome := Saved(text);
      case Error(e) => outcome := AnalysisFailed(e);
    }
  }
}
