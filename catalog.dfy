/**
 * The story catalog: normalising the feed's stories, deriving the list of shows,
 * the followed/unfollowed set of shows and the filters that give the visible playlist.
 */
module Catalog {
  import opened Options

  const ApiBase := "https://api.musedrops.com"
  const UntitledStory := "Untitled"
  const UnknownShow := "Unknown Show"

  /** One element of the feed's decoded `stories` array; a field the JSON lacks (or holds null) is None. */
  datatype FeedStory = FeedStory(
    slug: string,
    title: Option<string>,
    showSlug: Option<string>,
    showName: Option<string>,
    published: Option<string>)

  /** A story in the player's own shape. */
  datatype Story = Story(
    id: string,
    title: string,
    image: string,
    audioUrl: string,
    published: string,
    showId: Option<string>,
    showTitle: string)

  datatype Show = Show(id: string, title: string, image: string)

  /** JavaScript truthiness of an optional string: present and not empty. */
  predicate Truthy(o: Option<string>) { o.Some? && o.value != "" }

  /** `o || fallback` on an optional string. */
  function OrElse(o: Option<string>, fallback: string): string
  {
    if Truthy(o) then o.value else fallback
  }

  /** The story object built inside the loop of loadPlaylist (app.js:78-86). */
  function NormalizeStory(f: FeedStory): (s: Story)
    ensures s.id == f.slug && s.showId == f.showSlug
    ensures s.title != "" && (Truthy(f.title) ==> s.title == f.title.value)
    ensures !Truthy(f.title) ==> s.title == UntitledStory
    ensures s.showTitle != "" && (Truthy(f.showName) ==> s.showTitle == f.showName.value)
    ensures !Truthy(f.showName) ==> s.showTitle == UnknownShow
  {
    Story(
      f.slug,
      OrElse(f.title, UntitledStory),
      ApiBase + "/stories/" + f.slug + "/image",
      ApiBase + "/stories/" + f.slug + "/audio",
      OrElse(f.published, ""),
      f.showSlug,
      OrElse(f.showName, UnknownShow))
  }

  /** The show record registered for the first story of a show (app.js:65-69). */
  function ShowOf(f: FeedStory): (sh: Show)
    requires Truthy(f.showSlug)
    ensures sh.id == f.showSlug.value && sh.title != ""
  {
    Show(f.showSlug.value, OrElse(f.showName, UnknownShow), ApiBase + "/shows/" + f.showSlug.value + "/image?size=70")
  }

  function Ids(shows: seq<Show>): (ids: seq<string>)
    ensures |ids| == |shows| && forall i :: 0 <= i < |shows| ==> ids[i] == shows[i].id
  {
    seq(|shows|, i requires 0 <= i < |shows| => shows[i].id)
  }

  /**
   * The values of loadPlaylist's `showsMap` in insertion order after the stories of `feed`
   * have been processed: one show per distinct truthy show slug.
   */
  function DistinctShows(feed: seq<FeedStory>): (r: seq<Show>)
    ensures forall i, j :: 0 <= i < j < |r| ==> r[i].id != r[j].id
    ensures forall i :: 0 <= i < |r| ==> r[i].id != ""
    decreases |feed|
  {
    if feed == [] then []
    else
      var prev := DistinctShows(feed[..|feed| - 1]);
      var last := feed[|feed| - 1];
      if Truthy(last.showSlug) && last.showSlug.value !in Ids(prev) then
        assert forall i :: 0 <= i < |prev| ==> prev[i].id in Ids(prev);
        prev + [ShowOf(last)]
      else prev
  }

  /** The index of the first story of show `id` in `feed`, or |feed| when there is none. */
  function FirstIndex(feed: seq<FeedStory>, id: string): (k: nat)
    ensures k <= |feed|
    ensures k < |feed| ==> feed[k].showSlug == Some(id)
    ensures forall m :: 0 <= m < k ==> feed[m].showSlug != Some(id)
    decreases |feed|
  {
    if feed == [] then 0
    else
      var prev := feed[..|feed| - 1];
      var k := FirstIndex(prev, id);
      if k < |prev| then k else if feed[|feed| - 1].showSlug == Some(id) then |prev| else |feed|
  }

  /** Appending a story does not move the first story of a show that already appeared. */
  lemma FirstIndexOfPrefix(feed: seq<FeedStory>, id: string)
    requires feed != []
    ensures var prev := feed[..|feed| - 1];
      FirstIndex(prev, id) < |prev| ==> FirstIndex(feed, id) == FirstIndex(prev, id)
  {
  }

  /** The derived show list holds exactly the truthy show slugs of the feed. */
  lemma {:induction false} DistinctShowsComplete(feed: seq<FeedStory>, id: string)
    ensures id in Ids(DistinctShows(feed)) <==> id != "" && FirstIndex(feed, id) < |feed|
    decreases |feed|
  {
    if feed != [] {
      var prev := feed[..|feed| - 1];
      var last := feed[|feed| - 1];
      var rp := DistinctShows(prev);
      var r := DistinctShows(feed);
      DistinctShowsComplete(prev, id);
      FirstIndexOfPrefix(feed, id);
      if Truthy(last.showSlug) && last.showSlug.value !in Ids(rp) {
        assert r == rp + [ShowOf(last)];
        assert Ids(r) == Ids(rp) + [last.showSlug.value];
      } else {
        assert r == rp;
      }
    }
  }

  /**
   * Each derived show is built from the first story of that show, and the shows come in the
   * order in which they first appear in the feed.
   */
  lemma {:induction false} DistinctShowsFirstAppearance(feed: seq<FeedStory>)
    ensures forall i :: 0 <= i < |DistinctShows(feed)| ==>
      FirstIndex(feed, DistinctShows(feed)[i].id) < |feed|
      && DistinctShows(feed)[i] == ShowOf(feed[FirstIndex(feed, DistinctShows(feed)[i].id)])
    ensures forall i, j :: 0 <= i < j < |DistinctShows(feed)| ==>
      FirstIndex(feed, DistinctShows(feed)[i].id) < FirstIndex(feed, DistinctShows(feed)[j].id)
    decreases |feed|
  {
    if feed != [] {
      var prev := feed[..|feed| - 1];
      var last := feed[|feed| - 1];
      var rp := DistinctShows(prev);
      var r := DistinctShows(feed);
      DistinctShowsFirstAppearance(prev);
      forall i | 0 <= i < |rp|
        ensures FirstIndex(prev, rp[i].id) < |prev|
        ensures FirstIndex(feed, rp[i].id) == FirstIndex(prev, rp[i].id)
        ensures feed[FirstIndex(prev, rp[i].id)] == prev[FirstIndex(prev, rp[i].id)]
      {
        FirstIndexOfPrefix(feed, rp[i].id);
      }
      if Truthy(last.showSlug) && last.showSlug.value !in Ids(rp) {
        var slug := last.showSlug.value;
        assert r == rp + [ShowOf(last)];
        DistinctShowsComplete(prev, slug);
        assert FirstIndex(feed, slug) == |prev|;
      } else {
        assert r == rp;
      }
    }
  }

  /**
   * The loop of loadPlaylist (app.js:52-98) over the decoded `stories` array: each story is mapped to
   * the player's shape in order, and each show is registered in `showsMap` (an insertion-ordered map,
   * kept here as its key order plus its entries) the first time its truthy slug is met.
   */
  method LoadPlaylist(feed: seq<FeedStory>) returns (stories: seq<Story>, shows: seq<Show>)
    ensures |stories| == |feed|
    ensures forall i :: 0 <= i < |feed| ==> stories[i] == NormalizeStory(feed[i])
    ensures shows == DistinctShows(feed)
  {
    if |feed| == 0 {
      return [], [];
    }
    var keys: seq<string> := [];
    var showsMap: map<string, Show> := map[];
    stories := [];
    var i := 0;
    while i < |feed|
      invariant 0 <= i <= |feed|
      invariant |stories| == i
      invariant forall k :: 0 <= k < i ==> stories[k] == NormalizeStory(feed[k])
      invariant keys == Ids(DistinctShows(feed[..i]))
      invariant forall id :: id in showsMap <==> id in keys
      invariant forall k :: 0 <= k < |keys| ==> showsMap[keys[k]] == DistinctShows(feed[..i])[k]
    {
      var story := feed[i];
      assert feed[..i + 1][..i] == feed[..i];
      assert feed[..i + 1][i] == story;
      if Truthy(story.showSlug) && story.showSlug.value !in showsMap {
        showsMap := showsMap[story.showSlug.value := ShowOf(story)];
        keys := keys + [story.showSlug.value];
      }
      stories := stories + [NormalizeStory(story)];
      i := i + 1;
    }
    assert feed[..i] == feed;
    shows := seq(|keys|, k requires 0 <= k < |keys| => showsMap[keys[k]]);
  }

  /** isShowFollowed (app.js:635-637): a story's show is followed unless its id was unfollowed. */
  predicate IsShowFollowed(unfollowed: set<string>, showId: Option<string>)
    ensures showId.None? ==> IsShowFollowed(unfollowed, showId)
    ensures unfollowed == {} ==> IsShowFollowed(unfollowed, showId)
    ensures showId.Some? && IsShowFollowed(unfollowed, showId) ==> showId.value !in unfollowed
  {
    !(showId.Some? && showId.value in unfollowed)
  }

  /** The set change made by toggleFollowShow (app.js:625-630). */
  function ToggleFollow(unfollowed: set<string>, id: string): (r: set<string>)
    ensures IsShowFollowed(r, Some(id)) == !IsShowFollowed(unfollowed, Some(id))
    ensures forall other :: other != id ==> (other in r <==> other in unfollowed)
  {
    if id in unfollowed then unfollowed - {id} else unfollowed + {id}
  }

  lemma ToggleFollowTwice(unfollowed: set<string>, id: string)
    ensures ToggleFollow(ToggleFollow(unfollowed, id), id) == unfollowed
  {
  }

  /** Array.prototype.filter. */
  function Filter<T>(keep: T -> bool, s: seq<T>): seq<T>
    decreases |s|
  {
    if s == [] then [] else (if keep(s[0]) then [s[0]] else []) + Filter(keep, s[1..])
  }

  /** `a` is `b` with some elements left out and the rest in their original order. */
  predicate IsSubsequence<T(==)>(a: seq<T>, b: seq<T>)
    decreases |b|
  {
    if a == [] then true
    else if b == [] then false
    else if a[0] == b[0] then IsSubsequence(a[1..], b[1..])
    else IsSubsequence(a, b[1..])
  }

  lemma {:induction false} SubsequenceOfItself<T>(s: seq<T>)
    ensures IsSubsequence(s, s)
    decreases |s|
  {
    if s != [] { SubsequenceOfItself(s[1..]); }
  }

  lemma {:induction false} FilterCount<T>(keep: T -> bool, s: seq<T>)
    ensures forall x :: multiset(Filter(keep, s))[x] == if keep(x) then multiset(s)[x] else 0
    decreases |s|
  {
    if s != [] {
      FilterCount(keep, s[1..]);
      assert s == [s[0]] + s[1..];
      assert multiset(s) == multiset([s[0]]) + multiset(s[1..]);
      var head := if keep(s[0]) then [s[0]] else [];
      assert Filter(keep, s) == head + Filter(keep, s[1..]);
      assert multiset(Filter(keep, s)) == multiset(head) + multiset(Filter(keep, s[1..]));
    }
  }

  lemma {:induction false} FilterKeeps<T>(keep: T -> bool, s: seq<T>)
    ensures forall x :: x in Filter(keep, s) ==> keep(x)
    decreases |s|
  {
    if s != [] {
      FilterKeeps(keep, s[1..]);
    }
  }

  lemma {:induction false} FilterOrder<T>(keep: T -> bool, s: seq<T>)
    ensures IsSubsequence(Filter(keep, s), s)
    decreases |s|
  {
    if s != [] {
      var rest := Filter(keep, s[1..]);
      FilterOrder(keep, s[1..]);
      if keep(s[0]) {
        assert Filter(keep, s) == [s[0]] + rest;
        assert Filter(keep, s)[1..] == rest;
      } else {
        assert Filter(keep, s) == rest;
        FilterKeeps(keep, s[1..]);
        if rest != [] {
          assert rest[0] in rest;
        }
        SubsequenceDropHead(rest, s[1..], s[0]);
        assert [s[0]] + s[1..] == s;
      }
    }
  }

  lemma {:induction false} SubsequenceDropHead<T>(a: seq<T>, b: seq<T>, x: T)
    requires IsSubsequence(a, b)
    requires a == [] || a[0] != x
    ensures IsSubsequence(a, [x] + b)
  {
    assert ([x] + b)[1..] == b;
  }

  /** Filtering keeps every element that passes, with its multiplicity, drops the others and keeps the order. */
  lemma FilterExact<T>(keep: T -> bool, s: seq<T>)
    ensures IsSubsequence(Filter(keep, s), s)
    ensures forall x :: multiset(Filter(keep, s))[x] == if keep(x) then multiset(s)[x] else 0
    ensures forall x :: x in Filter(keep, s) <==> x in s && keep(x)
  {
    FilterOrder(keep, s);
    FilterCount(keep, s);
    forall x ensures x in Filter(keep, s) <==> x in s && keep(x) {
      assert x in Filter(keep, s) <==> multiset(Filter(keep, s))[x] > 0;
      assert x in s <==> multiset(s)[x] > 0;
    }
  }

  /** Whether filterPlaylist(showId) keeps a story (app.js:128-130, app.js:137-139). */
  predicate Listed(unfollowed: set<string>, showId: Option<string>, x: Story)
  {
    if showId.None? then IsShowFollowed(unfollowed, x.showId) else x.showId == showId
  }

  /** The playlist fields filterPlaylist assigns. */
  datatype Filtered = Filtered(stories: seq<Story>, currentShow: Option<string>)

  /**
   * filterPlaylist (app.js:125-144): with no show, the stories of followed shows; with a show,
   * the stories of that show; in both cases in catalog order, and the show becomes currentShow.
   */
  function FilterPlaylist(all: seq<Story>, unfollowed: set<string>, showId: Option<string>): (r: Filtered)
    ensures r.currentShow == showId
    ensures IsSubsequence(r.stories, all)
    ensures forall x :: multiset(r.stories)[x] == if Listed(unfollowed, showId, x) then multiset(all)[x] else 0
    ensures forall x :: x in r.stories <==> x in all && Listed(unfollowed, showId, x)
  {
    FilterExact(Keep(unfollowed, showId), all);
    Filtered(Playlist(all, unfollowed, showId), showId)
  }

  /** The test filterPlaylist hands to Array.prototype.filter. */
  function Keep(unfollowed: set<string>, showId: Option<string>): Story -> bool
  {
    x => Listed(unfollowed, showId, x)
  }

  /** The stories filterPlaylist(showId) leaves in `playlist.stories`. */
  function Playlist(all: seq<Story>, unfollowed: set<string>, showId: Option<string>): seq<Story>
  {
    Filter(Keep(unfollowed, showId), all)
  }

  /** `s.replace('?', '')`: a string pattern replaces only its first occurrence. */
  function RemoveFirstQuestionMark(s: string): (r: string)
    ensures |r| == if '?' in s then |s| - 1 else |s|
    ensures '?' !in s ==> r == s
    decreases |s|
  {
    if s == [] then []
    else if s[0] == '?' then s[1..]
    else
      assert '?' in s <==> '?' in s[1..];
      [s[0]] + RemoveFirstQuestionMark(s[1..])
  }

  /** r is s with the '?' at index k cut out, and no '?' comes before k. */
  predicate CutsFirstQuestionMarkAt(s: string, k: int, r: string)
  {
    0 <= k < |s| && s[k] == '?' && '?' !in s[..k] && r == s[..k] + s[k + 1..]
  }

  /** Exactly the first '?' is cut out: the text before it and the text after it are kept. */
  lemma {:induction false} RemoveFirstQuestionMarkCutsFirst(s: string)
    requires '?' in s
    ensures exists k :: CutsFirstQuestionMarkAt(s, k, RemoveFirstQuestionMark(s))
    decreases |s|
  {
    if s[0] == '?' {
      assert s[..0] + s[1..] == s[1..];
      assert CutsFirstQuestionMarkAt(s, 0, RemoveFirstQuestionMark(s));
    } else {
      var t := s[1..];
      assert '?' in t;
      RemoveFirstQuestionMarkCutsFirst(t);
      var j :| CutsFirstQuestionMarkAt(t, j, RemoveFirstQuestionMark(t));
      CutsFirstAfterHead(s, j, RemoveFirstQuestionMark(t));
    }
  }

  /** A cut in the tail of `s`, behind a first character that is not '?', is a cut in `s`. */
  lemma CutsFirstAfterHead(s: string, j: int, rest: string)
    requires s != [] && s[0] != '?' && CutsFirstQuestionMarkAt(s[1..], j, rest)
    ensures CutsFirstQuestionMarkAt(s, j + 1, [s[0]] + rest)
  {
    assert s[..j + 1] == [s[0]] + s[1..][..j];
    assert s[j + 2..] == s[1..][j + 1..];
  }

  /**
   * applyUrlFilter's decision (app.js:147-171): the show to filter by, when the query string
   * (without its first '?') is exactly the id of a known show.
   */
  function UrlFilter(shows: seq<Show>, search: string): (r: Option<string>)
    ensures r.Some? ==> r.value in Ids(shows) && r.value == RemoveFirstQuestionMark(search) && r.value != ""
    ensures r.None? ==> RemoveFirstQuestionMark(search) == "" || RemoveFirstQuestionMark(search) !in Ids(shows)
  {
    var param := RemoveFirstQuestionMark(search);
    if param == "" then None else if param in Ids(shows) then Some(param) else None
  }

  /**
   * The stories selectShow leaves in the playlist AS WRITTEN (app.js:700-706): filterPlaylist(showId)
   * runs first, then closeShowsMenu re-filters to the followed stories when the menu recorded a
   * follow change (app.js:770-776), discarding the show filter.
   */
  function SelectShowStoriesAsWritten(all: seq<Story>, unfollowed: set<string>, menuChangesMade: bool, showId: Option<string>): (r: seq<Story>)
    ensures !menuChangesMade ==> r == FilterPlaylist(all, unfollowed, showId).stories
    ensures menuChangesMade ==> r == FilterPlaylist(all, unfollowed, None).stories
  {
    var filtered := FilterPlaylist(all, unfollowed, showId).stories;
    if menuChangesMade then FilterPlaylist(all, unfollowed, None).stories else filtered
  }

  /**
   * Two stories of shows "a" and "b", a follow toggle made twice in the menu (so nothing is
   * unfollowed but a change was recorded), then show "a" is selected: the playlist keeps the
   * story of show "b".
   */
  lemma SelectShowAsWrittenKeepsOtherShows()
    ensures var x := NormalizeStory(FeedStory("x", None, Some("a"), None, None));
      var y := NormalizeStory(FeedStory("y", None, Some("b"), None, None));
      var all := [x, y];
      SelectShowStoriesAsWritten(all, {}, true, Some("a")) == all
      && FilterPlaylist(all, {}, Some("a")).stories == [x]
  {
    var x := NormalizeStory(FeedStory("x", None, Some("a"), None, None));
    var y := NormalizeStory(FeedStory("y", None, Some("b"), None, None));
    var keepAll := (s: Story) => Listed({}, None, s);
    var keepA := (s: Story) => Listed({}, Some("a"), s);
    assert [x, y][1..] == [y];
    assert Filter(keepAll, [y]) == [y];
    assert Filter(keepAll, [x, y]) == [x, y];
    assert Filter(keepA, [y]) == [];
    assert Filter(keepA, [x, y]) == [x];
  }
}
