/**
 * The running player: the module-level variables of app.js (the playlist, the follow set,
 * currentIndex, currentAudio, isPlaying, the touch-tracking variables) together with the slides in
 * the player container, the <audio> elements and the pending timers, as the fields of one object.
 * Each handler is a method that updates those fields step by step, and is proved to leave the
 * state that the corresponding function of Navigation or Catalog describes.
 */
module Player {
  import opened Options
  import Catalog
  import Navigation
  import NavigationProofs

  /** A set with no member is the empty set. */
  lemma Empty(t: set<int>)
    requires forall x :: x !in t
    ensures t == {}
  {
    assert forall x :: x in t <==> x in {};
  }

  /** A set other than the empty one has a member to pick. */
  lemma NonEmpty(t: set<int>)
    requires t != {}
    ensures exists x :: x in t
  {
    if forall x :: x !in t {
      Empty(t);
      assert false;
    }
  }

  /** The reset replaces the playlist length, so the length it starts from does not matter. */
  lemma ResetForgetsLength(s: Navigation.State, m: nat, n: nat)
    ensures Navigation.Reset(s.(len := m), n) == Navigation.Reset(s, n)
  {
  }

  class Player {
    var allStories: seq<Catalog.Story>
    var stories: seq<Catalog.Story>
    var shows: seq<Catalog.Show>
    var currentShow: Option<string>
    var unfollowed: set<string>
    var menuChangesMade: bool

    var currentIndex: int
    var currentAudio: Option<nat>
    var isPlaying: bool
    var slides: map<int, Navigation.Slide>
    var audios: map<nat, Navigation.Audio>
    var nextAudio: nat
    var pendingCleanups: nat
    var pendingAdvances: nat
    var sessionHandlers: bool
    var touchStartX: int
    var touchCurrentX: int
    var isSwiping: bool

    /** The navigation state, the playlist length being that of `stories`. */
    function State(): Navigation.State
      reads this
    {
      Navigation.State(|stories|, currentIndex, currentAudio, isPlaying, slides, audios, nextAudio,
                       pendingCleanups, pendingAdvances, sessionHandlers,
                       Navigation.Swipe(isSwiping, touchStartX, touchCurrentX))
    }

    /**
     * currentIndex lies in [-1, len], and the playlist is drawn, in order, from allStories. What
     * else the navigation state keeps is proved of the Navigation functions that the methods below
     * are proved to follow.
     */
    predicate Valid()
      reads this
    {
      Navigation.InBounds(State()) && Catalog.IsSubsequence(stories, allStories)
    }

    /**
     * init (app.js:886-901): the follow set read back from storage, the feed normalised, the
     * followed stories listed, the URL's show filter applied, the intro slide rendered and, when
     * a show filter applied and it has stories, the move to the first episode scheduled.
     */
    constructor Init(feed: seq<Catalog.FeedStory>, stored: set<string>, search: string)
      ensures Valid()
      ensures |allStories| == |feed| && forall i :: 0 <= i < |feed| ==> allStories[i] == Catalog.NormalizeStory(feed[i])
      ensures shows == Catalog.DistinctShows(feed) && unfollowed == stored && !menuChangesMade
      ensures currentShow == Catalog.UrlFilter(shows, search)
      ensures stories == Catalog.FilterPlaylist(allStories, stored, currentShow).stories
      ensures State() == Navigation.Initial(|stories|).(pendingAdvances := if currentShow.Some? && |stories| > 0 then 1 else 0)
    {
      var loaded, found := Catalog.LoadPlaylist(feed);
      var listed := Catalog.FilterPlaylist(loaded, stored, None);
      var show := Catalog.UrlFilter(found, search);
      if show.Some? {
        listed := Catalog.FilterPlaylist(loaded, stored, show);
      }
      allStories := loaded;
      shows := found;
      unfollowed := stored;
      menuChangesMade := false;
      stories := listed.stories;
      currentShow := listed.currentShow;
      currentIndex := -1;
      currentAudio := None;
      isPlaying := false;
      slides := map[-1 := Navigation.Intro];
      audios := map[];
      nextAudio := 0;
      pendingCleanups := 0;
      pendingAdvances := if show.Some? && |listed.stories| > 0 then 1 else 0;
      sessionHandlers := false;
      touchStartX := 0;
      touchCurrentX := 0;
      isSwiping := false;
    }

    // -------------------------------------------------------------------------------------------
    // goToSlide and its clean-up timer

    /** The first step of goToSlide: the current element, if any, is paused (app.js:538-541). */
    method PauseCurrentAudio()
      modifies this`audios
      ensures State() == Navigation.PauseCurrent(old(State()))
    {
      if currentAudio.Some? {
        audios := Navigation.SetPaused(audios, currentAudio.value, true);
      }
    }

    /** The slide for index `i`: reused if present, otherwise created with a new element (app.js:545-562). */
    method MaterializeSlide(i: int)
      modifies this`slides, this`audios, this`nextAudio
      ensures State() == Navigation.Materialize(old(State()), i)
    {
      if i !in slides {
        if i == -1 {
          slides := slides[i := Navigation.Intro];
        } else if i == |stories| {
          slides := slides[i := Navigation.End];
        } else {
          slides := slides[i := Navigation.Episode(nextAudio)];
          audios := audios[nextAudio := Navigation.Audio(true, 0, None)];
          nextAudio := nextAudio + 1;
        }
      }
    }

    /** goToSlide up to its autoplay step (app.js:535-575): the slide for `i` present and current. */
    method ArriveAt(i: int)
      requires -1 <= i <= |stories|
      modifies this`audios, this`slides, this`nextAudio, this`currentIndex, this`sessionHandlers
      ensures currentIndex == i && i in slides
      ensures State() == Navigation.Arrive(old(State()), i)
    {
      PauseCurrentAudio();
      MaterializeSlide(i);
      currentIndex := i;
      sessionHandlers := sessionHandlers || 0 <= i < |stories|;
    }

    /** `audio.play(); currentAudio = audio; isPlaying = true` (app.js:577-581). */
    method StartAudio(a: nat)
      modifies this`audios, this`currentAudio, this`isPlaying
      ensures State() == Navigation.Start(old(State()), a)
    {
      audios := Navigation.SetPaused(audios, a, false);
      currentAudio := Some(a);
      isPlaying := true;
    }

    /**
     * goToSlide(i, autoPlay) (app.js:531-597) up to scheduling its clean-up; `ok` is false when
     * `audio.play()` throws on the end slide, after currentIndex has moved.
     */
    method GoToSlide(i: int, autoPlay: bool) returns (ok: bool)
      requires Valid() && -1 <= i <= |stories|
      modifies this`audios, this`slides, this`nextAudio, this`currentIndex, this`sessionHandlers
      modifies this`currentAudio, this`isPlaying, this`pendingCleanups
      ensures Valid()
      ensures State() == Navigation.GoToSlide(old(State()), i, autoPlay).next
      ensures ok == Navigation.GoToSlide(old(State()), i, autoPlay).ok
    {
      ArriveAt(i);
      if autoPlay && i >= 0 {
        var slide := slides[i];
        if !slide.Episode? {
          return false;
        }
        StartAudio(slide.audio);
      }
      pendingCleanups := pendingCleanups + 1;
      ok := true;
    }

    /**
     * The clean-up timer of goToSlide (app.js:587-596): every slide but the current one and the
     * intro slide is removed, which pauses its element.
     */
    method Cleanup()
      requires Valid() && pendingCleanups > 0
      modifies this`slides, this`audios, this`pendingCleanups
      ensures Valid()
      ensures State() == Navigation.Settle(old(State()))
    {
      ghost var s := State();
      slides, audios := RemoveSlides(slides, audios, currentIndex);
      assert slides == s.slides - Navigation.Evicted(s);
      pendingCleanups := pendingCleanups - 1;
    }

    /**
     * The loop of the clean-up timer over the container's children, visited in any order: each
     * slide that is neither the one at `current` nor the intro slide is removed, and its element
     * paused.
     */
    static method RemoveSlides(slides0: map<int, Navigation.Slide>, audios0: map<nat, Navigation.Audio>, current: int)
      returns (remaining: map<int, Navigation.Slide>, paused: map<nat, Navigation.Audio>)
      ensures var gone := set i | i in slides0 && i != current && !slides0[i].Intro?;
        remaining == slides0 - gone && paused == Navigation.PauseAll(audios0, Navigation.AudiosOf(slides0, gone))
    {
      ghost var evicted := set i | i in slides0 && i != current && !slides0[i].Intro?;
      ghost var gone: set<int> := {};
      remaining, paused := slides0, audios0;
      var todo := slides0.Keys;
      while todo != {}
        invariant todo <= slides0.Keys && gone == evicted - todo
        invariant remaining == slides0 - gone
        invariant paused == Navigation.PauseAll(audios0, Navigation.AudiosOf(slides0, gone))
        decreases |todo|
      {
        NonEmpty(todo);
        var i :| i in todo;
        RemoveStep(slides0, current, todo, i);
        if i != current && !remaining[i].Intro? {
          NavigationProofs.PauseAllStep(audios0, slides0, gone, i);
          if remaining[i].Episode? {
            paused := Navigation.SetPaused(paused, remaining[i].audio, true);
          }
          remaining := remaining - {i};
          gone := gone + {i};
        }
        todo := todo - {i};
      }
    }

    /** One child visited: it joins the removed slides exactly when it is evicted. */
    static lemma RemoveStep(slides0: map<int, Navigation.Slide>, current: int, todo: set<int>, i: int)
      requires i in todo && todo <= slides0.Keys
      ensures var evicted := set k | k in slides0 && k != current && !slides0[k].Intro?;
        var gone := evicted - todo;
        i !in gone && (slides0 - gone)[i] == slides0[i]
        && (i != current && !slides0[i].Intro? ==>
              evicted - (todo - {i}) == gone + {i} && slides0 - (gone + {i}) == (slides0 - gone) - {i})
        && (!(i != current && !slides0[i].Intro?) ==> evicted - (todo - {i}) == gone)
    {
    }

    // -------------------------------------------------------------------------------------------
    // The per-slide controls

    /** togglePlayback of the slide at `idx` (app.js:315-331). */
    method TogglePlayback(idx: int)
      requires Valid() && idx in slides && slides[idx].Episode?
      modifies this`audios, this`isPlaying, this`currentAudio
      ensures Valid()
      ensures State() == Navigation.TogglePlayback(old(State()), idx)
    {
      var a := slides[idx].audio;
      if currentAudio.Some? && currentAudio.value != a {
        audios := Navigation.SetPaused(audios, currentAudio.value, true);
      }
      if Navigation.IsPaused(audios, a) {
        audios := Navigation.SetPaused(audios, a, false);
        isPlaying := true;
        currentAudio := Some(a);
      } else {
        audios := Navigation.SetPaused(audios, a, true);
        isPlaying := false;
      }
    }

    /** The rewind button (app.js:340-342). */
    method Rewind(idx: int)
      requires Valid() && idx in slides && slides[idx].Episode?
      modifies this`audios
      ensures Valid()
      ensures State() == Navigation.Rewind(old(State()), idx)
    {
      var a := slides[idx].audio;
      if a in audios {
        var t := if audios[a].time - Navigation.SkipSeconds < 0 then 0 else audios[a].time - Navigation.SkipSeconds;
        audios := audios[a := Navigation.SeekTo(audios[a], t)];
      }
    }

    /** The forward button (app.js:345-347); `ok` is false when the duration is not yet known. */
    method Forward(idx: int) returns (ok: bool)
      requires Valid() && idx in slides && slides[idx].Episode?
      modifies this`audios
      ensures Valid()
      ensures State() == Navigation.Forward(old(State()), idx).next
      ensures ok == Navigation.Forward(old(State()), idx).ok
    {
      var a := slides[idx].audio;
      ok := true;
      if a in audios {
        match audios[a].duration
        case None =>
          ok := false;
        case Some(d) =>
          var t := if d < audios[a].time + Navigation.SkipSeconds then d else audios[a].time + Navigation.SkipSeconds;
          audios := audios[a := Navigation.SeekTo(audios[a], t)];
      }
    }

    /** The element `a` has loaded its metadata. */
    method MetadataLoaded(a: nat, d: nat)
      requires Valid() && a in audios && audios[a].duration.None?
      modifies this`audios
      ensures Valid()
      ensures State() == Navigation.LoadMetadata(old(State()), a, d)
    {
      audios := audios[a := audios[a].(duration := Some(d))];
    }

    /** The `ended` handler of the element `a` (app.js:401-410). */
    method AudioEnded(a: nat) returns (ok: bool)
      requires Valid() && a in audios && !audios[a].paused
      modifies this`audios, this`slides, this`nextAudio, this`currentIndex, this`sessionHandlers
      modifies this`currentAudio, this`isPlaying, this`pendingCleanups
      ensures Valid()
      ensures State() == Navigation.Ended(old(State()), a).next
      ensures ok == Navigation.Ended(old(State()), a).ok
    {
      ghost var s := State();
      var au := audios[a];
      audios := audios[a := au.(paused := true, time := if au.duration.Some? then au.duration.value else au.time)];
      assert State() == Navigation.AtEnd(s, a);
      if currentIndex < |stories| - 1 {
        NavigationProofs.EndedGoesNext(s, a);
        ok := GoToSlide(currentIndex + 1, true);
      } else {
        NavigationProofs.EndedGoesToEnd(s, a);
        ok := GoToSlide(|stories|, false);
      }
    }

    // -------------------------------------------------------------------------------------------
    // Touch, click and keyboard

    /** touchstart (app.js:460-476). */
    method TouchStart(x: int, onProgressSection: bool)
      requires Valid()
      modifies this`touchStartX, this`touchCurrentX, this`isSwiping
      ensures Valid()
      ensures State() == Navigation.TouchStart(old(State()), x, onProgressSection)
    {
      if !onProgressSection {
        touchStartX := x;
        touchCurrentX := touchStartX;
        isSwiping := true;
      }
    }

    /** touchmove (app.js:478-494). */
    method TouchMove(x: int)
      requires Valid()
      modifies this`touchCurrentX
      ensures Valid()
      ensures State() == Navigation.TouchMove(old(State()), x)
    {
      if isSwiping {
        touchCurrentX := x;
      }
    }

    /** touchend (app.js:496-519) in a window `width` wide. */
    method TouchEnd(width: nat) returns (ok: bool)
      requires Valid()
      modifies this`isSwiping, this`audios, this`slides, this`nextAudio, this`currentIndex, this`sessionHandlers
      modifies this`currentAudio, this`isPlaying, this`pendingCleanups
      ensures Valid()
      ensures State() == Navigation.TouchEnd(old(State()), width).next
      ensures ok == Navigation.TouchEnd(old(State()), width).ok
    {
      ok := true;
      if !isSwiping {
        return;
      }
      isSwiping := false;
      var diff := touchCurrentX - touchStartX;
      if Navigation.SwipedLeft(diff, width) && currentIndex < |stories| {
        ok := GoToSlide(currentIndex + 1, isPlaying);
      } else if Navigation.SwipedRight(diff, width) && currentIndex > -1 {
        ok := GoToSlide(currentIndex - 1, isPlaying && currentIndex > 0);
      }
    }

    /** A click in the container (app.js:522-528). */
    method ContainerClick(onIntroStyled: bool) returns (ok: bool)
      requires Valid()
      modifies this`audios, this`slides, this`nextAudio, this`currentIndex, this`sessionHandlers
      modifies this`currentAudio, this`isPlaying, this`pendingCleanups
      ensures Valid()
      ensures State() == Navigation.IntroClick(old(State()), onIntroStyled).next
      ensures ok == Navigation.IntroClick(old(State()), onIntroStyled).ok
    {
      ok := true;
      if onIntroStyled && currentIndex == -1 && |stories| > 0 {
        ok := GoToSlide(0, true);
      }
    }

    /** keydown (app.js:797-843), Space acting as the current slide's play button. */
    method KeyDown(key: Navigation.Key, inTextField: bool) returns (ok: bool)
      requires Valid()
      modifies this`audios, this`slides, this`nextAudio, this`currentIndex, this`sessionHandlers
      modifies this`currentAudio, this`isPlaying, this`pendingCleanups
      ensures Valid()
      ensures State() == Navigation.KeyDown(old(State()), key, inTextField).next
      ensures ok == Navigation.KeyDown(old(State()), key, inTextField).ok
    {
      ok := true;
      if inTextField {
        return;
      }
      match key
      case SpaceBar =>
        if 0 <= currentIndex < |stories| && currentIndex in slides && slides[currentIndex].Episode? {
          TogglePlayback(currentIndex);
        }
      case LeftArrow =>
        if currentIndex > -1 {
          ok := GoToSlide(currentIndex - 1, isPlaying && currentIndex > 0);
        }
      case RightArrow =>
        if currentIndex < |stories| {
          ok := GoToSlide(currentIndex + 1, isPlaying);
        }
      case OtherKey =>
    }

    // -------------------------------------------------------------------------------------------
    // Media-session actions (app.js:265-300)

    method MediaPlay()
      requires Valid()
      modifies this`audios, this`isPlaying
      ensures Valid()
      ensures State() == Navigation.MediaPlay(old(State()))
    {
      if sessionHandlers && currentAudio.Some? {
        audios := Navigation.SetPaused(audios, currentAudio.value, false);
        isPlaying := true;
      }
    }

    method MediaPause()
      requires Valid()
      modifies this`audios, this`isPlaying
      ensures Valid()
      ensures State() == Navigation.MediaPause(old(State()))
    {
      if sessionHandlers && currentAudio.Some? {
        audios := Navigation.SetPaused(audios, currentAudio.value, true);
        isPlaying := false;
      }
    }

    method MediaPrevious() returns (ok: bool)
      requires Valid()
      modifies this`audios, this`slides, this`nextAudio, this`currentIndex, this`sessionHandlers
      modifies this`currentAudio, this`isPlaying, this`pendingCleanups
      ensures Valid()
      ensures State() == Navigation.MediaPrevious(old(State())).next
      ensures ok == Navigation.MediaPrevious(old(State())).ok
    {
      ok := true;
      if sessionHandlers && currentIndex > 0 {
        ok := GoToSlide(currentIndex - 1, isPlaying);
      }
    }

    method MediaNext() returns (ok: bool)
      requires Valid()
      modifies this`audios, this`slides, this`nextAudio, this`currentIndex, this`sessionHandlers
      modifies this`currentAudio, this`isPlaying, this`pendingCleanups
      ensures Valid()
      ensures State() == Navigation.MediaNext(old(State())).next
      ensures ok == Navigation.MediaNext(old(State())).ok
    {
      ok := true;
      if sessionHandlers && currentIndex < |stories| - 1 {
        ok := GoToSlide(currentIndex + 1, isPlaying);
      }
    }

    method MediaSeekTo(time: Option<int>)
      requires Valid()
      modifies this`audios
      ensures Valid()
      ensures State() == Navigation.MediaSeekTo(old(State()), time)
    {
      if sessionHandlers && currentAudio.Some? && time.Some? && currentAudio.value in audios {
        var a := currentAudio.value;
        audios := audios[a := Navigation.SeekTo(audios[a], time.value)];
      }
    }

    // -------------------------------------------------------------------------------------------
    // Follow set, show selection and the menu

    /** toggleFollowShow (app.js:625-633); the playlist is not re-filtered until the menu closes. */
    method ToggleFollowShow(id: string)
      requires Valid()
      modifies this`unfollowed, this`menuChangesMade
      ensures Valid()
      ensures unfollowed == Catalog.ToggleFollow(old(unfollowed), id)
      ensures Catalog.IsShowFollowed(unfollowed, Some(id)) == !Catalog.IsShowFollowed(old(unfollowed), Some(id))
      ensures menuChangesMade
    {
      if id in unfollowed {
        unfollowed := unfollowed - {id};
      } else {
        unfollowed := unfollowed + {id};
      }
      menuChangesMade := true;
    }

    /** The reset block of selectShow and closeShowsMenu: the container emptied, a fresh intro slide. */
    method ResetToIntro()
      requires Catalog.IsSubsequence(stories, allStories)
      modifies this`currentIndex, this`currentAudio, this`isPlaying, this`audios, this`slides
      ensures Valid()
      ensures currentIndex == -1
      ensures State() == Navigation.Reset(old(State()), |stories|)
    {
      currentIndex := -1;
      if currentAudio.Some? {
        audios := Navigation.SetPaused(audios, currentAudio.value, true);
        currentAudio := None;
      }
      isPlaying := false;
      audios := Navigation.PauseAll(audios, Navigation.AudiosOf(slides, slides.Keys));
      slides := map[-1 := Navigation.Intro];
    }

    /** selectShow's reset block followed by the timer that moves to the first episode (app.js:735-757). */
    method RestartAtIntro()
      requires Catalog.IsSubsequence(stories, allStories)
      modifies this`currentIndex, this`currentAudio, this`isPlaying, this`audios, this`slides, this`pendingAdvances
      ensures Valid()
      ensures currentIndex == -1
      ensures State() == Navigation.SelectShowReset(old(State()), |stories|)
    {
      ResetToIntro();
      pendingAdvances := pendingAdvances + 1;
    }

    /**
     * `playlist.stories` set to the stories of `allStories` that the show filter `showId` and the
     * follow set let through (filterPlaylist, app.js:125-144; closeShowsMenu, app.js:775-777).
     */
    method ListStories(showId: Option<string>)
      modifies this`stories
      ensures Catalog.IsSubsequence(stories, allStories)
      ensures stories == Catalog.Playlist(allStories, unfollowed, showId)
      ensures State() == old(State()).(len := |stories|)
    {
      stories := Catalog.FilterPlaylist(allStories, unfollowed, showId).stories;
    }

    /**
     * selectShow (app.js:700-758), corrected: the playlist keeps the show filter even when follow
     * changes were made in the menu; then back to the intro, with the move to the first episode
     * scheduled.
     */
    method SelectShow(showId: Option<string>)
      requires Valid()
      modifies this`stories, this`currentShow, this`menuChangesMade, this`pendingAdvances
      modifies this`currentIndex, this`currentAudio, this`isPlaying, this`audios, this`slides
      ensures Valid()
      ensures stories == Catalog.Playlist(allStories, unfollowed, showId) && currentShow == showId
      ensures !menuChangesMade
      ensures State() == Navigation.SelectShowReset(old(State()), |stories|)
    {
      ghost var s := State();
      ListStories(showId);
      currentShow := showId;
      menuChangesMade := false;
      ResetForgetsLength(s, |stories|, |stories|);
      RestartAtIntro();
    }

    /** closeShowsMenu (app.js:766-791): after a follow change, the followed stories and a reset. */
    method CloseShowsMenu()
      requires Valid()
      modifies this`stories, this`menuChangesMade
      modifies this`currentIndex, this`currentAudio, this`isPlaying, this`audios, this`slides
      ensures Valid() && !menuChangesMade
      ensures old(menuChangesMade) ==>
        stories == Catalog.Playlist(allStories, unfollowed, None)
        && State() == Navigation.Reset(old(State()), |stories|)
      ensures !old(menuChangesMade) ==> stories == old(stories) && State() == old(State())
    {
      if menuChangesMade {
        menuChangesMade := false;
        ghost var s := State();
        ListStories(None);
        ResetForgetsLength(s, |stories|, |stories|);
        ResetToIntro();
      }
    }

    /** The scheduled move to the first episode (app.js:750-757, app.js:895-897) firing. */
    method AdvanceDue() returns (ok: bool)
      requires Valid() && pendingAdvances > 0
      modifies this`pendingAdvances
      modifies this`audios, this`slides, this`nextAudio, this`currentIndex, this`sessionHandlers
      modifies this`currentAudio, this`isPlaying, this`pendingCleanups
      ensures Valid()
      ensures State() == Navigation.AutoAdvance(old(State())).next
      ensures ok == Navigation.AutoAdvance(old(State())).ok
    {
      pendingAdvances := pendingAdvances - 1;
      ok := true;
      if |stories| > 0 {
        ok := GoToSlide(0, true);
      }
    }
  }
}
