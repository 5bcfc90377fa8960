/** What the navigation state machine keeps and guarantees. */
module NavigationProofs {
  import opened Options
  import opened Navigation

  // ---------------------------------------------------------------------------------------------
  // Elements

  /** Replacing one created element keeps the element invariant; it runs or not as its new `paused` says. */
  lemma UpdateAudio(audios: map<nat, Audio>, n: nat, a: nat, au: Audio)
    requires AudiosFit(audios, n) && a in audios && ClockFits(au)
    ensures var r := audios[a := au];
      r.Keys == audios.Keys && AudiosFit(r, n)
      && Running(r) == if au.paused then Running(audios) - {a} else Running(audios) + {a}
  {
    var r := audios[a := au];
    forall b | b in r ensures b < n && ClockFits(r[b]) {
      assert b in audios;
    }
    forall b ensures b in Running(r) <==> b in (if au.paused then Running(audios) - {a} else Running(audios) + {a}) {
    }
  }

  /** play() or pause() on one element keeps the element invariant and changes only whether that element runs. */
  lemma SetPausedEffect(audios: map<nat, Audio>, n: nat, a: nat, p: bool)
    requires AudiosFit(audios, n)
    ensures AudiosFit(SetPaused(audios, a, p), n)
    ensures Running(SetPaused(audios, a, p)) ==
      if a !in audios then Running(audios) else if p then Running(audios) - {a} else Running(audios) + {a}
  {
    if a in audios {
      UpdateAudio(audios, n, a, audios[a].(paused := p));
    }
  }

  // ---------------------------------------------------------------------------------------------
  // goToSlide

  lemma InitialValid(len: nat)
    ensures Valid(Initial(len)) && SoleAudio(Initial(len))
  {
  }

  /** Under SoleAudio at most one element plays at any time. */
  lemma AtMostOnePlaying(s: State)
    requires SoleAudio(s)
    ensures |Playing(s)| <= 1
  {
    if s.currentAudio.Some? {
      var c := s.currentAudio.value;
      assert Playing(s) <= {c};
      if c in Playing(s) { assert Playing(s) == {c}; } else { assert Playing(s) == {}; }
    } else {
      assert Playing(s) == {};
    }
  }

  lemma PauseCurrentValid(s: State)
    requires Valid(s)
    ensures var p := PauseCurrent(s);
      Valid(p) && p.slides == s.slides && p.currentAudio == s.currentAudio && p.audios.Keys == s.audios.Keys
      && Playing(p) == Playing(s) - CurrentSet(s)
    ensures SoleAudio(s) ==> Playing(PauseCurrent(s)) == {}
  {
    if s.currentAudio.Some? {
      SetPausedEffect(s.audios, s.nextAudio, s.currentAudio.value, true);
    }
  }

  lemma MaterializeValid(s: State, i: int)
    requires Valid(s) && -1 <= i <= s.len
    ensures var m := Materialize(s, i);
      Valid(m) && m.currentIndex == s.currentIndex && m.currentAudio == s.currentAudio
      && m.isPlaying == s.isPlaying && m.len == s.len
      && Playing(m) == Playing(s)
      && (i in s.slides ==> m == s)
      && (i !in s.slides ==> m.slides == s.slides[i := m.slides[i]])
      && SlideFits(m.slides, m.len, m.audios.Keys, i)
    ensures var m := Materialize(s, i);
      i !in s.slides && m.slides[i].Episode? ==>
        m.slides[i].audio !in s.audios && m.audios.Keys == s.audios.Keys + {m.slides[i].audio}
        && m.audios[m.slides[i].audio] == Audio(true, 0, None)
  {
    var m := Materialize(s, i);
    if i !in s.slides {
      if i != -1 && i != s.len {
        var n := s.nextAudio;
        assert n !in s.audios;
        forall a | a in m.audios ensures a < m.nextAudio && ClockFits(m.audios[a]) {
          if a != n { assert a in s.audios; }
        }
        assert m.audios.Keys == s.audios.Keys + {n};
        assert Playing(m) == Playing(s) by {
          forall b ensures b in Playing(m) <==> b in Playing(s) { }
        }
      }
      forall k | k in m.slides ensures SlideFits(m.slides, m.len, m.audios.Keys, k) {
        if k != i { assert SlideFits(s.slides, s.len, s.audios.Keys, k); }
      }
    }
  }

  /** Starting a created element; if nothing was playing, it is then the only one playing. */
  lemma StartValid(s: State, a: nat)
    requires Valid(s) && a in s.audios
    ensures Valid(Start(s, a))
    ensures Playing(s) == {} ==> Playing(Start(s, a)) == {a} && SoleAudio(Start(s, a))
  {
    SetPausedEffect(s.audios, s.nextAudio, a, false);
  }

  lemma ArriveValid(s: State, i: int)
    requires Valid(s) && -1 <= i <= s.len
    ensures var r := Arrive(s, i);
      Valid(r) && SlideFits(r.slides, r.len, r.audios.Keys, i) && r.currentIndex == i && r.len == s.len
      && r.currentAudio == s.currentAudio && r.isPlaying == s.isPlaying
      && r.pendingCleanups == s.pendingCleanups
      && (SoleAudio(s) ==> Playing(r) == {})
      && (i in s.slides ==> r.slides == s.slides && r.nextAudio == s.nextAudio)
      && (i !in s.slides ==> r.slides == s.slides[i := r.slides[i]])
  {
    PauseCurrentValid(s);
    MaterializeValid(PauseCurrent(s), i);
  }

  lemma GoToSlideValid(s: State, i: int, autoPlay: bool)
    requires Valid(s) && -1 <= i <= s.len
    ensures Valid(GoToSlide(s, i, autoPlay).next)
    ensures SoleAudio(s) ==> SoleAudio(GoToSlide(s, i, autoPlay).next)
  {
    var arrived := Arrive(s, i);
    ArriveValid(s, i);
    var r := GoToSlide(s, i, autoPlay);
    if autoPlay && i >= 0 && arrived.slides[i].Episode? {
      var a := arrived.slides[i].audio;
      assert r.next == Start(arrived, a).(pendingCleanups := arrived.pendingCleanups + 1);
      StartValid(arrived, a);
    } else if autoPlay && i >= 0 {
      assert r.next == arrived;
    } else {
      assert r.next == arrived.(pendingCleanups := arrived.pendingCleanups + 1);
    }
  }

  /**
   * What goToSlide does: the index moves to `i`; the call throws exactly when it is asked to
   * autoplay the end slide; without autoplay currentAudio and isPlaying are left as they were;
   * with autoplay the new slide's element becomes currentAudio and, the old one having been paused
   * first, is the only element playing; a slide already in the container is reused.
   */
  lemma GoToSlideEffect(s: State, i: int, autoPlay: bool)
    requires Valid(s) && -1 <= i <= s.len
    ensures var r := GoToSlide(s, i, autoPlay);
      r.next.currentIndex == i && r.next.len == s.len && i in r.next.slides
      && (r.ok <==> !(autoPlay && i == s.len))
      && r.next.pendingCleanups == (if r.ok then s.pendingCleanups + 1 else s.pendingCleanups)
      && (i in s.slides ==> r.next.slides == s.slides && r.next.nextAudio == s.nextAudio)
      && (!(autoPlay && 0 <= i < s.len) ==> r.next.currentAudio == s.currentAudio && r.next.isPlaying == s.isPlaying)
      && (autoPlay && 0 <= i < s.len ==>
            r.next.slides[i].Episode? && r.next.currentAudio == Some(r.next.slides[i].audio) && r.next.isPlaying)
  {
    var arrived := Arrive(s, i);
    ArriveValid(s, i);
    var r := GoToSlide(s, i, autoPlay);
    if autoPlay && i >= 0 && arrived.slides[i].Episode? {
      assert r.next == Start(arrived, arrived.slides[i].audio).(pendingCleanups := arrived.pendingCleanups + 1);
    } else if autoPlay && i >= 0 {
      assert r.next == arrived;
    } else {
      assert r.next == arrived.(pendingCleanups := arrived.pendingCleanups + 1);
    }
  }

  /** Under SoleAudio, after goToSlide nothing plays but the autoplayed element, if any. */
  lemma GoToSlidePlaying(s: State, i: int, autoPlay: bool)
    requires Valid(s) && SoleAudio(s) && -1 <= i <= s.len
    ensures var r := GoToSlide(s, i, autoPlay);
      Playing(r.next) == (if autoPlay && 0 <= i < s.len then CurrentSet(r.next) else {})
  {
    var arrived := Arrive(s, i);
    ArriveValid(s, i);
    var r := GoToSlide(s, i, autoPlay);
    if autoPlay && i >= 0 && arrived.slides[i].Episode? {
      var a := arrived.slides[i].audio;
      assert r.next == Start(arrived, a).(pendingCleanups := arrived.pendingCleanups + 1);
      StartValid(arrived, a);
    } else if autoPlay && i >= 0 {
      assert r.next == arrived;
    } else {
      assert r.next == arrived.(pendingCleanups := arrived.pendingCleanups + 1);
    }
  }

  /**
   * A clean-up leaves only the intro slide and the current one, pauses the elements of the slides
   * it removes, keeps the invariant and never starts anything.
   */
  lemma SettleEvicts(s: State)
    requires Valid(s) && s.pendingCleanups > 0
    ensures var t := Settle(s);
      Valid(t) && t.slides.Keys == {-1, s.currentIndex}
      && (forall i | i in t.slides :: t.slides[i] == s.slides[i])
      && t.currentIndex == s.currentIndex && t.currentAudio == s.currentAudio && t.isPlaying == s.isPlaying
      && t.pendingCleanups == s.pendingCleanups - 1
      && Playing(t) <= Playing(s)
      && (SoleAudio(s) ==> SoleAudio(t))
    ensures var t := Settle(s); var gone := AudiosOf(s.slides, Evicted(s));
      t.audios.Keys == s.audios.Keys
      && (forall a | a in gone :: t.audios[a].paused)
      && (forall a | a in s.audios && a !in gone :: t.audios[a] == s.audios[a])
  {
    var t := Settle(s);
    forall i ensures i in t.slides <==> i == -1 || i == s.currentIndex {
      if i in s.slides { assert SlideFits(s.slides, s.len, s.audios.Keys, i); }
    }
    forall k | k in t.slides ensures SlideFits(t.slides, t.len, t.audios.Keys, k) {
      assert SlideFits(s.slides, s.len, s.audios.Keys, k);
    }
    forall a | a in t.audios ensures a < t.nextAudio && ClockFits(t.audios[a]) { assert a in s.audios; }
    forall b | b in Playing(t) ensures b in Playing(s) { }
  }

  /**
   * togglePlayback keeps the invariant and the single-player property: a paused element starts and
   * becomes currentAudio (any other currentAudio having been paused first); a playing one stops.
   */
  lemma TogglePlaybackEffect(s: State, idx: int)
    requires Valid(s) && SoleAudio(s)
    requires idx in s.slides && s.slides[idx].Episode?
    ensures var t := TogglePlayback(s, idx); var a := s.slides[idx].audio;
      Valid(t) && SoleAudio(t)
      && t.slides == s.slides && t.currentIndex == s.currentIndex
      && (s.audios[a].paused ==> t.currentAudio == Some(a) && t.isPlaying && Playing(t) == {a})
      && (!s.audios[a].paused ==> t.currentAudio == s.currentAudio && !t.isPlaying && Playing(t) == {})
  {
    assert SlideFits(s.slides, s.len, s.audios.Keys, idx);
    if s.audios[s.slides[idx].audio].paused {
      TogglePlaybackStarts(s, idx);
    } else {
      TogglePlaybackStops(s, idx);
    }
  }

  lemma TogglePlaybackStarts(s: State, idx: int)
    requires Valid(s) && SoleAudio(s)
    requires idx in s.slides && s.slides[idx].Episode? && IsPaused(s.audios, s.slides[idx].audio)
    ensures var t := TogglePlayback(s, idx); var a := s.slides[idx].audio;
      Valid(t) && SoleAudio(t) && t.slides == s.slides && t.currentIndex == s.currentIndex
      && t.currentAudio == Some(a) && t.isPlaying && Playing(t) == {a}
  {
    var a := s.slides[idx].audio;
    assert SlideFits(s.slides, s.len, s.audios.Keys, idx);
    var s1 := if s.currentAudio.Some? && s.currentAudio.value != a
              then s.(audios := SetPaused(s.audios, s.currentAudio.value, true)) else s;
    assert TogglePlayback(s, idx) == Start(s1, a);
    if s.currentAudio.Some? && s.currentAudio.value != a {
      SetPausedEffect(s.audios, s.nextAudio, s.currentAudio.value, true);
    }
    assert Playing(s1) == {} by {
      forall b | b in Playing(s1) ensures b in Playing(s) && b !in CurrentSet(s) { }
    }
    StartValid(s1, a);
  }

  lemma TogglePlaybackStops(s: State, idx: int)
    requires Valid(s) && SoleAudio(s)
    requires idx in s.slides && s.slides[idx].Episode? && !IsPaused(s.audios, s.slides[idx].audio)
    ensures var t := TogglePlayback(s, idx); var a := s.slides[idx].audio;
      Valid(t) && SoleAudio(t) && t.slides == s.slides && t.currentIndex == s.currentIndex
      && t.currentAudio == s.currentAudio && !t.isPlaying && Playing(t) == {}
  {
    var a := s.slides[idx].audio;
    assert s.currentAudio == Some(a) by { assert a in Playing(s); }
    var t := s.(audios := SetPaused(s.audios, a, true), isPlaying := false);
    assert TogglePlayback(s, idx) == t;
    SetPausedEffect(s.audios, s.nextAudio, a, true);
    forall b | b in Playing(t) ensures b in Playing(s) && b != a { }
  }

  /** Pressing play twice on the same slide leaves its element as paused or playing as it was. */
  lemma TogglePlaybackTwice(s: State, idx: int)
    requires Valid(s) && SoleAudio(s)
    requires idx in s.slides && s.slides[idx].Episode?
    ensures var a := s.slides[idx].audio; var t := TogglePlayback(TogglePlayback(s, idx), idx);
      t.audios[a] == s.audios[a] && t.slides == s.slides
  {
    TogglePlaybackEffect(s, idx);
    var t1 := TogglePlayback(s, idx);
    TogglePlaybackEffect(t1, idx);
  }

  /** Rewind keeps the position within [0, duration] and moves back ten seconds, or to 0. */
  lemma RewindEffect(s: State, idx: int)
    requires Valid(s) && idx in s.slides && s.slides[idx].Episode?
    ensures var t := Rewind(s, idx); var a := s.slides[idx].audio;
      Valid(t) && Playing(t) == Playing(s) && t.slides == s.slides && a in t.audios
      && t.audios[a].duration == s.audios[a].duration && t.audios[a].paused == s.audios[a].paused
      && (s.audios[a].duration.Some? ==>
            t.audios[a].time == if s.audios[a].time < SkipSeconds then 0 else s.audios[a].time - SkipSeconds)
      && (s.audios[a].duration.None? ==> t.audios[a].time == 0)
  {
    var a := s.slides[idx].audio;
    assert SlideFits(s.slides, s.len, s.audios.Keys, idx);
    var t := Rewind(s, idx);
    UpdateAudio(s.audios, s.nextAudio, a, t.audios[a]);
  }

  /**
   * Forward throws exactly when the duration is not yet known; otherwise it moves ahead ten
   * seconds, or to the end.
   */
  lemma ForwardEffect(s: State, idx: int)
    requires Valid(s) && idx in s.slides && s.slides[idx].Episode?
    ensures var r := Forward(s, idx); var a := s.slides[idx].audio;
      Valid(r.next) && Playing(r.next) == Playing(s) && r.next.slides == s.slides && a in r.next.audios
      && (r.ok <==> s.audios[a].duration.Some?)
      && r.next.audios[a].duration == s.audios[a].duration && r.next.audios[a].paused == s.audios[a].paused
      && (s.audios[a].duration.Some? ==>
            var d := s.audios[a].duration.value;
            r.next.audios[a].time == if d < s.audios[a].time + SkipSeconds then d else s.audios[a].time + SkipSeconds)
      && (s.audios[a].duration.None? ==> r.next == s)
  {
    var a := s.slides[idx].audio;
    assert SlideFits(s.slides, s.len, s.audios.Keys, idx);
    var t := Forward(s, idx).next;
    if s.audios[a].duration.Some? {
      UpdateAudio(s.audios, s.nextAudio, a, t.audios[a]);
    }
  }

  /** Ten seconds forward then ten back returns to the same position when the end is not reached. */
  lemma ForwardThenRewind(s: State, idx: int)
    requires Valid(s) && idx in s.slides && s.slides[idx].Episode?
    requires var au := s.audios[s.slides[idx].audio]; au.duration.Some? && au.time + SkipSeconds <= au.duration.value
    ensures var t := Rewind(Forward(s, idx).next, idx); t.audios == s.audios
  {
    ForwardEffect(s, idx);
    var f := Forward(s, idx).next;
    RewindEffect(f, idx);
    var a := s.slides[idx].audio;
    var t := Rewind(f, idx);
    assert t.audios[a] == s.audios[a];
  }

  /** Ten seconds back then ten forward returns to the same position once ten seconds have played. */
  lemma RewindThenForward(s: State, idx: int)
    requires Valid(s) && idx in s.slides && s.slides[idx].Episode?
    requires var au := s.audios[s.slides[idx].audio]; au.duration.Some? && au.time >= SkipSeconds
    ensures var r := Forward(Rewind(s, idx), idx); r.ok && r.next.audios == s.audios
  {
    RewindEffect(s, idx);
    var w := Rewind(s, idx);
    ForwardEffect(w, idx);
    var a := s.slides[idx].audio;
    var t := Forward(w, idx).next;
    assert t.audios[a] == s.audios[a];
  }

  /** The element that has ended is paused at its end; nothing else changes. */
  lemma AtEndValid(s: State, a: nat)
    requires Valid(s) && a in s.audios
    ensures var s1 := AtEnd(s, a);
      Valid(s1) && s1.slides == s.slides && s1.currentIndex == s.currentIndex && s1.len == s.len
      && s1.currentAudio == s.currentAudio && s1.isPlaying == s.isPlaying
      && Playing(s1) == Playing(s) - {a} && (SoleAudio(s) ==> SoleAudio(s1))
  {
    var s1 := AtEnd(s, a);
    UpdateAudio(s.audios, s.nextAudio, a, s1.audios[a]);
  }

  /** When `ended` fires the element is paused, at its end once the duration is known; no other element changes. */
  lemma AtEndStops(s: State, a: nat)
    requires a in s.audios
    ensures var r := AtEnd(s, a);
      r.audios.Keys == s.audios.Keys && r.audios[a].paused
      && (s.audios[a].duration.Some? ==> r.audios[a].time == s.audios[a].duration.value)
      && forall b :: b in s.audios && b != a ==> r.audios[b] == s.audios[b]
  {
  }

  /** Before the last episode, ended is goToSlide(currentIndex + 1, true) once the element has stopped. */
  lemma EndedGoesNext(s: State, a: nat)
    requires InBounds(s) && a in s.audios && !s.audios[a].paused && s.currentIndex < s.len - 1
    ensures Ended(s, a) == GoToSlide(AtEnd(s, a), s.currentIndex + 1, true)
  {
  }

  /** From the last episode on, ended is goToSlide(len, false) once the element has stopped. */
  lemma EndedGoesToEnd(s: State, a: nat)
    requires InBounds(s) && a in s.audios && !s.audios[a].paused && s.currentIndex >= s.len - 1
    ensures Ended(s, a) == GoToSlide(AtEnd(s, a), s.len, false)
  {
  }

  /** The `ended` handler never throws and keeps the invariant and the single-player property. */
  lemma EndedValid(s: State, a: nat)
    requires Valid(s) && SoleAudio(s) && a in s.audios && !s.audios[a].paused
    ensures var r := Ended(s, a); r.ok && Valid(r.next) && SoleAudio(r.next)
  {
    AtEndValid(s, a);
    var target := if s.currentIndex < s.len - 1 then s.currentIndex + 1 else s.len;
    var autoPlay := s.currentIndex < s.len - 1;
    assert Ended(s, a) == GoToSlide(AtEnd(s, a), target, autoPlay) by {
      if autoPlay { EndedGoesNext(s, a); } else { EndedGoesToEnd(s, a); }
    }
    GoToSlideValid(AtEnd(s, a), target, autoPlay);
    GoToSlideLands(AtEnd(s, a), target, autoPlay);
  }

  /**
   * Where `ended` leads: the next episode, autoplayed; after the last one, the end slide with
   * nothing playing, and isPlaying and currentAudio left as they were.
   */
  lemma EndedMoves(s: State, a: nat)
    requires Valid(s) && SoleAudio(s) && a in s.audios && !s.audios[a].paused
    ensures var r := Ended(s, a);
      (s.currentIndex < s.len - 1 ==>
         r.next.currentIndex == s.currentIndex + 1 && r.next.isPlaying
         && r.next.currentAudio == Some(r.next.slides[s.currentIndex + 1].audio)
         && Playing(r.next) == {r.next.slides[s.currentIndex + 1].audio})
      && (s.currentIndex >= s.len - 1 ==>
            r.next.currentIndex == s.len && r.next.isPlaying == s.isPlaying && r.next.currentAudio == s.currentAudio
            && Playing(r.next) == {})
  {
    AtEndValid(s, a);
    var target := if s.currentIndex < s.len - 1 then s.currentIndex + 1 else s.len;
    var autoPlay := s.currentIndex < s.len - 1;
    assert Ended(s, a) == GoToSlide(AtEnd(s, a), target, autoPlay) by {
      if autoPlay { EndedGoesNext(s, a); } else { EndedGoesToEnd(s, a); }
    }
    GoToSlideEffect(AtEnd(s, a), target, autoPlay);
    GoToSlidePlaying(AtEnd(s, a), target, autoPlay);
  }


  /** What the handlers that call goToSlide rely on: the invariant, where it lands, when it throws. */
  lemma GoToSlideSafe(s: State, i: int, autoPlay: bool)
    requires Valid(s) && SoleAudio(s) && -1 <= i <= s.len
    ensures var r := GoToSlide(s, i, autoPlay);
      Valid(r.next) && SoleAudio(r.next) && r.next.currentIndex == i && r.next.swipe == s.swipe
      && (r.ok <==> !(autoPlay && i == s.len))
  {
    GoToSlideValid(s, i, autoPlay);
    GoToSlideEffect(s, i, autoPlay);
  }

  /** Ending a swipe changes nothing the invariant speaks of. */
  lemma SwipeEnded(s: State)
    requires Valid(s)
    ensures var s1 := s.(swipe := s.swipe.(active := false)); Valid(s1) && (SoleAudio(s) ==> SoleAudio(s1))
  {
  }

  /** Where goToSlide lands and when it throws, without the rest of its effect. */
  lemma GoToSlideLands(s: State, i: int, autoPlay: bool)
    requires Valid(s) && -1 <= i <= s.len
    ensures var r := GoToSlide(s, i, autoPlay); r.next.currentIndex == i && (r.ok <==> !(autoPlay && i == s.len))
  {
    GoToSlideEffect(s, i, autoPlay);
  }

  /** A drag of more than a quarter of the width to the left, before the end slide, is goToSlide(currentIndex + 1, isPlaying). */
  lemma SwipeLeftGoes(s: State, width: nat)
    requires InBounds(s) && s.swipe.active && SwipedLeft(s.swipe.currentX - s.swipe.startX, width) && s.currentIndex < s.len
    ensures TouchEnd(s, width) == GoToSlide(s.(swipe := s.swipe.(active := false)), s.currentIndex + 1, s.isPlaying)
  {
  }

  /** A drag of more than a quarter to the right that is not a left swipe goes back one slide. */
  lemma SwipeRightGoes(s: State, width: nat)
    requires InBounds(s) && s.swipe.active && s.currentIndex > -1
    requires var diff := s.swipe.currentX - s.swipe.startX;
      !(SwipedLeft(diff, width) && s.currentIndex < s.len) && SwipedRight(diff, width)
    ensures TouchEnd(s, width)
      == GoToSlide(s.(swipe := s.swipe.(active := false)), s.currentIndex - 1, s.isPlaying && s.currentIndex > 0)
  {
  }

  /** A left swipe: the next slide, throwing only when it would autoplay the end slide. */
  lemma SwipeLeft(s: State, width: nat)
    requires Valid(s) && SoleAudio(s)
    requires s.swipe.active && SwipedLeft(s.swipe.currentX - s.swipe.startX, width) && s.currentIndex < s.len
    ensures var r := TouchEnd(s, width);
      Valid(r.next) && SoleAudio(r.next) && !r.next.swipe.active && r.next.currentIndex == s.currentIndex + 1
      && (r.ok <==> !(s.currentIndex == s.len - 1 && s.isPlaying))
  {
    SwipeEnded(s);
    var s1 := s.(swipe := s.swipe.(active := false));
    assert TouchEnd(s, width) == GoToSlide(s1, s.currentIndex + 1, s.isPlaying) by { SwipeLeftGoes(s, width); }
    GoToSlideSafe(s1, s.currentIndex + 1, s.isPlaying);
  }

  /** A right swipe: the previous slide, autoplayed only when it is an episode and audio was playing. */
  lemma SwipeRight(s: State, width: nat)
    requires Valid(s) && SoleAudio(s) && s.swipe.active && s.currentIndex > -1
    requires var diff := s.swipe.currentX - s.swipe.startX;
      !(SwipedLeft(diff, width) && s.currentIndex < s.len) && SwipedRight(diff, width)
    ensures var r := TouchEnd(s, width);
      r.ok && Valid(r.next) && SoleAudio(r.next) && !r.next.swipe.active && r.next.currentIndex == s.currentIndex - 1
  {
    SwipeEnded(s);
    var s1 := s.(swipe := s.swipe.(active := false));
    assert TouchEnd(s, width) == GoToSlide(s1, s.currentIndex - 1, s.isPlaying && s.currentIndex > 0) by {
      SwipeRightGoes(s, width);
    }
    GoToSlideSafe(s1, s.currentIndex - 1, s.isPlaying && s.currentIndex > 0);
  }

  /**
   * touchend keeps the invariant and the single-player property and ends the swipe. Past a quarter
   * of the width to the left it shows the next slide, to the right the previous, otherwise the
   * same one (a drag of exactly a quarter stays). It throws exactly on a left swipe from the last
   * episode while isPlaying, which asks goToSlide to autoplay the end slide.
   */
  lemma TouchEndEffect(s: State, width: nat)
    requires Valid(s) && SoleAudio(s)
    ensures var r := TouchEnd(s, width); var diff := s.swipe.currentX - s.swipe.startX;
      Valid(r.next) && SoleAudio(r.next) && !r.next.swipe.active
      && (r.ok <==> !(s.swipe.active && SwipedLeft(diff, width) && s.currentIndex == s.len - 1 && s.isPlaying))
      && r.next.currentIndex ==
           if s.swipe.active && SwipedLeft(diff, width) && s.currentIndex < s.len then s.currentIndex + 1
           else if s.swipe.active && SwipedRight(diff, width) && s.currentIndex > -1 then s.currentIndex - 1
           else s.currentIndex
  {
    var diff := s.swipe.currentX - s.swipe.startX;
    if s.swipe.active && SwipedLeft(diff, width) && s.currentIndex < s.len {
      SwipeLeft(s, width);
    } else if s.swipe.active && SwipedRight(diff, width) && s.currentIndex > -1 {
      SwipeRight(s, width);
    } else {
      SwipeEnded(s);
    }
  }

  /** Space, as corrected, is togglePlayback of the current slide and keeps a single element playing. */
  lemma SpacePressedSole(s: State)
    requires Valid(s) && SoleAudio(s)
    ensures Valid(SpacePressed(s)) && SoleAudio(SpacePressed(s))
    ensures SpacePressed(s).currentIndex == s.currentIndex && SpacePressed(s).slides == s.slides
  {
    if 0 <= s.currentIndex < s.len && s.currentIndex in s.slides && s.slides[s.currentIndex].Episode? {
      TogglePlaybackEffect(s, s.currentIndex);
    }
  }

  /** ArrowLeft outside a text field, past the intro slide, is goToSlide(currentIndex - 1, ...). */
  lemma KeyLeftGoes(s: State)
    requires InBounds(s) && s.currentIndex > -1
    ensures KeyDown(s, LeftArrow, false) == GoToSlide(s, s.currentIndex - 1, s.isPlaying && s.currentIndex > 0)
  {
  }

  /** ArrowRight outside a text field, before the end slide, is goToSlide(currentIndex + 1, isPlaying). */
  lemma KeyRightGoes(s: State)
    requires InBounds(s) && s.currentIndex < s.len
    ensures KeyDown(s, RightArrow, false) == GoToSlide(s, s.currentIndex + 1, s.isPlaying)
  {
  }

  /** ArrowLeft goes back one slide and never throws. */
  lemma KeyLeft(s: State)
    requires Valid(s) && SoleAudio(s) && s.currentIndex > -1
    ensures var r := KeyDown(s, LeftArrow, false);
      r.ok && Valid(r.next) && SoleAudio(r.next) && r.next.currentIndex == s.currentIndex - 1
  {
    assert KeyDown(s, LeftArrow, false) == GoToSlide(s, s.currentIndex - 1, s.isPlaying && s.currentIndex > 0) by {
      KeyLeftGoes(s);
    }
    GoToSlideSafe(s, s.currentIndex - 1, s.isPlaying && s.currentIndex > 0);
  }

  /** ArrowRight goes on one slide and throws only when it would autoplay the end slide. */
  lemma KeyRight(s: State)
    requires Valid(s) && SoleAudio(s) && s.currentIndex < s.len
    ensures var r := KeyDown(s, RightArrow, false);
      Valid(r.next) && SoleAudio(r.next) && r.next.currentIndex == s.currentIndex + 1
      && (r.ok <==> !(s.currentIndex == s.len - 1 && s.isPlaying))
  {
    assert KeyDown(s, RightArrow, false) == GoToSlide(s, s.currentIndex + 1, s.isPlaying) by { KeyRightGoes(s); }
    GoToSlideSafe(s, s.currentIndex + 1, s.isPlaying);
  }

  /**
   * keydown keeps the invariant and the single-player property. The arrows move one slide within
   * [-1, len] and throw only when ArrowRight asks to autoplay the end slide from the last episode;
   * Space toggles; typing in a field does nothing.
   */
  lemma KeyDownEffect(s: State, key: Key, inTextField: bool)
    requires Valid(s) && SoleAudio(s)
    ensures var r := KeyDown(s, key, inTextField);
      Valid(r.next) && SoleAudio(r.next)
      && (r.ok <==> !(!inTextField && key == RightArrow && s.currentIndex == s.len - 1 && s.isPlaying))
      && r.next.currentIndex ==
           (if !inTextField && key == RightArrow && s.currentIndex < s.len then s.currentIndex + 1
            else if !inTextField && key == LeftArrow && s.currentIndex > -1 then s.currentIndex - 1
            else s.currentIndex)
      && (inTextField ==> r == Step(s, true))
  {
    if !inTextField {
      match key
      case SpaceBar => SpacePressedSole(s);
      case LeftArrow => if s.currentIndex > -1 { KeyLeft(s); }
      case RightArrow => if s.currentIndex < s.len { KeyRight(s); }
      case OtherKey =>
    }
  }

  /** With the handlers installed and past the first episode, previoustrack is goToSlide(currentIndex - 1, isPlaying). */
  lemma MediaPreviousGoes(s: State)
    requires InBounds(s) && s.sessionHandlers && s.currentIndex > 0
    ensures MediaPrevious(s) == GoToSlide(s, s.currentIndex - 1, s.isPlaying)
  {
  }

  /** previoustrack past the first episode goes back one and never throws. */
  lemma MediaPreviousGo(s: State)
    requires Valid(s) && SoleAudio(s) && s.sessionHandlers && s.currentIndex > 0
    ensures var r := MediaPrevious(s);
      r.ok && Valid(r.next) && SoleAudio(r.next) && r.next.currentIndex == s.currentIndex - 1
  {
    assert MediaPrevious(s) == GoToSlide(s, s.currentIndex - 1, s.isPlaying) by { MediaPreviousGoes(s); }
    GoToSlideSafe(s, s.currentIndex - 1, s.isPlaying);
  }

  /**
   * previoustrack keeps the invariant and the single-player property, moves back one episode,
   * never onto the intro slide, and never throws.
   */
  lemma MediaPreviousEffect(s: State)
    requires Valid(s) && SoleAudio(s)
    ensures var r := MediaPrevious(s);
      r.ok && Valid(r.next) && SoleAudio(r.next)
      && r.next.currentIndex == (if s.sessionHandlers && s.currentIndex > 0 then s.currentIndex - 1 else s.currentIndex)
  {
    if s.sessionHandlers && s.currentIndex > 0 {
      MediaPreviousGo(s);
    }
  }

  /** With the handlers installed and an episode after this one, nexttrack is goToSlide(currentIndex + 1, isPlaying). */
  lemma MediaNextGoes(s: State)
    requires InBounds(s) && s.sessionHandlers && s.currentIndex < s.len - 1
    ensures MediaNext(s) == GoToSlide(s, s.currentIndex + 1, s.isPlaying)
  {
  }

  /** nexttrack before the last episode goes on one and never throws. */
  lemma MediaNextGo(s: State)
    requires Valid(s) && SoleAudio(s) && s.sessionHandlers && s.currentIndex < s.len - 1
    ensures var r := MediaNext(s);
      r.ok && Valid(r.next) && SoleAudio(r.next) && r.next.currentIndex == s.currentIndex + 1
  {
    assert MediaNext(s) == GoToSlide(s, s.currentIndex + 1, s.isPlaying) by { MediaNextGoes(s); }
    GoToSlideSafe(s, s.currentIndex + 1, s.isPlaying);
  }

  /**
   * nexttrack keeps the invariant and the single-player property, moves on one episode, never
   * onto the end slide, and never throws.
   */
  lemma MediaNextEffect(s: State)
    requires Valid(s) && SoleAudio(s)
    ensures var r := MediaNext(s);
      r.ok && Valid(r.next) && SoleAudio(r.next)
      && r.next.currentIndex == (if s.sessionHandlers && s.currentIndex < s.len - 1 then s.currentIndex + 1 else s.currentIndex)
  {
    if s.sessionHandlers && s.currentIndex < s.len - 1 {
      MediaNextGo(s);
    }
  }

  /** The play action resumes currentAudio alone and sets isPlaying; without handlers it does nothing. */
  lemma MediaPlayEffect(s: State)
    requires Valid(s) && SoleAudio(s)
    ensures Valid(MediaPlay(s)) && SoleAudio(MediaPlay(s))
    ensures s.sessionHandlers && s.currentAudio.Some? ==>
      MediaPlay(s).isPlaying && Playing(MediaPlay(s)) == {s.currentAudio.value}
    ensures !s.sessionHandlers ==> MediaPlay(s) == s
  {
    if s.sessionHandlers && s.currentAudio.Some? {
      SetPausedEffect(s.audios, s.nextAudio, s.currentAudio.value, false);
    }
  }

  /** The pause action leaves nothing playing and clears isPlaying, once the handlers are installed. */
  lemma MediaPauseEffect(s: State)
    requires Valid(s) && SoleAudio(s)
    ensures Valid(MediaPause(s)) && SoleAudio(MediaPause(s))
    ensures s.sessionHandlers ==> Playing(MediaPause(s)) == {}
    ensures s.sessionHandlers && s.currentAudio.Some? ==> !MediaPause(s).isPlaying
  {
    if s.sessionHandlers && s.currentAudio.Some? {
      SetPausedEffect(s.audios, s.nextAudio, s.currentAudio.value, true);
    } else if s.sessionHandlers {
      assert Playing(s) == {};
    }
  }

  /** The seekto action moves currentAudio's position and changes nothing about what plays. */
  lemma MediaSeekToEffect(s: State, time: Option<int>)
    requires Valid(s)
    ensures Valid(MediaSeekTo(s, time)) && Playing(MediaSeekTo(s, time)) == Playing(s)
    ensures MediaSeekTo(s, time).currentAudio == s.currentAudio && MediaSeekTo(s, time).isPlaying == s.isPlaying
    ensures var r := MediaSeekTo(s, time);
      s.sessionHandlers && s.currentAudio.Some? && time.Some? ==>
        var c := s.currentAudio.value;
        r.audios[c] == SeekTo(s.audios[c], time.value) && forall b | b in s.audios && b != c :: r.audios[b] == s.audios[b]
    ensures !(s.sessionHandlers && s.currentAudio.Some? && time.Some?) ==> MediaSeekTo(s, time) == s
  {
    if s.sessionHandlers && s.currentAudio.Some? && time.Some? {
      var c := s.currentAudio.value;
      UpdateAudio(s.audios, s.nextAudio, c, MediaSeekTo(s, time).audios[c]);
    }
  }

  /**
   * The reset of selectShow and closeShowsMenu: back on the intro slide with only that slide in the
   * container, no currentAudio, isPlaying false and, under SoleAudio, nothing playing.
   */
  lemma ResetEffect(s: State, newLen: nat)
    requires Valid(s)
    ensures var t := Reset(s, newLen);
      Valid(t) && t.len == newLen && t.currentIndex == -1 && t.slides == map[-1 := Intro]
      && t.currentAudio == None && !t.isPlaying && t.pendingCleanups == s.pendingCleanups
      && Playing(t) <= Playing(s) - CurrentSet(s) - AudiosOf(s.slides, s.slides.Keys)
      && (SoleAudio(s) ==> Playing(t) == {} && SoleAudio(t))
  {
    var t := Reset(s, newLen);
    forall b | b in t.audios ensures b < t.nextAudio && ClockFits(t.audios[b]) { assert b in s.audios; }
    forall b | b in Playing(t) ensures b in Playing(s) && b !in CurrentSet(s) && b !in AudiosOf(s.slides, s.slides.Keys) { }
  }

  /** selectShow's reset also schedules one move to the first episode. */
  lemma SelectShowResetEffect(s: State, newLen: nat)
    requires Valid(s) && SoleAudio(s)
    ensures var t := SelectShowReset(s, newLen);
      Valid(t) && Playing(t) == {} && t.currentIndex == -1 && t.pendingAdvances == s.pendingAdvances + 1
  {
    ResetEffect(s, newLen);
    assert Playing(SelectShowReset(s, newLen)) == Playing(Reset(s, newLen));
  }

  /** The scheduled move to the first episode never throws; with stories it autoplays the first one. */
  lemma AutoAdvanceEffect(s: State)
    requires Valid(s) && SoleAudio(s) && s.pendingAdvances > 0
    ensures var r := AutoAdvance(s);
      r.ok && Valid(r.next) && SoleAudio(r.next) && r.next.pendingAdvances == s.pendingAdvances - 1
      && (s.len > 0 ==> r.next.currentIndex == 0 && r.next.isPlaying && Playing(r.next) == {r.next.slides[0].audio})
      && (s.len == 0 ==> r.next.currentIndex == s.currentIndex)
  {
    var s1 := s.(pendingAdvances := s.pendingAdvances - 1);
    if s1.len > 0 {
      assert AutoAdvance(s) == GoToSlide(s1, 0, true);
      GoToSlideSafe(s1, 0, true);
      GoToSlideEffect(s1, 0, true);
      GoToSlidePlaying(s1, 0, true);
    }
  }

  /** A click on the intro slide starts the first episode; it never throws. */
  lemma IntroClickEffect(s: State, onIntroStyled: bool)
    requires Valid(s) && SoleAudio(s)
    ensures var r := IntroClick(s, onIntroStyled);
      r.ok && Valid(r.next) && SoleAudio(r.next)
      && (onIntroStyled && s.currentIndex == -1 && s.len > 0 ==>
            r.next.currentIndex == 0 && r.next.isPlaying && Playing(r.next) == {r.next.slides[0].audio})
      && (!(onIntroStyled && s.currentIndex == -1 && s.len > 0) ==> r.next == s)
  {
    if onIntroStyled && s.currentIndex == -1 && s.len > 0 {
      GoToSlideSafe(s, 0, true);
      GoToSlideEffect(s, 0, true);
      GoToSlidePlaying(s, 0, true);
    }
  }

  /** Metadata arriving sets the duration and keeps the invariant (the position is still 0). */
  lemma LoadMetadataValid(s: State, a: nat, d: nat)
    requires Valid(s) && a in s.audios && s.audios[a].duration.None?
    ensures var t := LoadMetadata(s, a, d); Valid(t) && Playing(t) == Playing(s) && t.audios[a].time <= d
  {
    var t := LoadMetadata(s, a, d);
    UpdateAudio(s.audios, s.nextAudio, a, t.audios[a]);
  }

  /**
   * Every event, whether or not its handler throws, keeps the invariant and leaves at most one
   * element playing. Space is handled by SpacePressed, the corrected handler; SpacePressedAsWritten
   * can leave two elements playing (SpaceAsWrittenTwoPlaying).
   */
  lemma ApplyPreserves(s: State, e: Event)
    requires Valid(s) && SoleAudio(s) && Enabled(s, e)
    ensures Valid(Apply(s, e).next) && SoleAudio(Apply(s, e).next)
  {
    match e
    case PlayButton(i) => TogglePlaybackEffect(s, i);
    case RewindButton(i) =>
      RewindEffect(s, i);
      assert Playing(Rewind(s, i)) == Playing(s);
    case ForwardButton(i) => ForwardEffect(s, i);
    case AudioEnded(a) => EndedValid(s, a);
    case MetadataLoaded(a, d) => LoadMetadataValid(s, a, d);
    case TouchBegin(x, onBar) =>
    case TouchMoved(x) =>
    case TouchRelease(w) => TouchEndEffect(s, w);
    case ContainerClick(onIntro) => IntroClickEffect(s, onIntro);
    case KeyPress(k, inField) => KeyDownEffect(s, k, inField);
    case OsPlay => MediaPlayEffect(s);
    case OsPause => MediaPauseEffect(s);
    case OsPrevious => MediaPreviousEffect(s);
    case OsNext => MediaNextEffect(s);
    case OsSeek(t) => MediaSeekToEffect(s, t);
    case CleanupDue => SettleEvicts(s);
    case AdvanceDue => AutoAdvanceEffect(s);
    case ShowSelected(n) =>
      SelectShowResetEffect(s, n);
    case MenuClosedWithChanges(n) => ResetEffect(s, n);
  }

  /**
   * From render()'s state, or any state that keeps the invariant, every sequence of events keeps
   * it: the slide kinds match their indices, and at most one element plays at any time, with
   * Space handled by the corrected SpacePressed.
   */
  lemma {:induction false} ReachesPreserves(s: State, es: seq<Event>, t: State)
    requires Valid(s) && SoleAudio(s) && Reaches(s, es, t)
    ensures Valid(t) && SoleAudio(t) && |Playing(t)| <= 1
    decreases |es|
  {
    if es == [] {
      AtMostOnePlaying(s);
    } else {
      ApplyPreserves(s, es[0]);
      ReachesPreserves(Apply(s, es[0]).next, es[1..], t);
    }
  }

  /**
   * The player starts in render()'s state; from there on at most one element ever plays, with
   * Space handled by the corrected SpacePressed.
   */
  lemma FromStartAtMostOnePlaying(len: nat, es: seq<Event>, t: State)
    requires Reaches(Initial(len), es, t)
    ensures Valid(t) && |Playing(t)| <= 1
  {
    InitialValid(len);
    ReachesPreserves(Initial(len), es, t);
  }

  // The states of the trace below, with two stories.

  /** Episode 0 shown and playing after a tap on the intro. */
  function Tapped(): State
  {
    State(2, 0, Some(0), true, map[-1 := Intro, 0 := Episode(0)], map[0 := Audio(false, 0, None)],
          1, 1, 0, true, Swipe(false, 0, 0))
  }

  /** Episode 1 shown, nothing playing, currentAudio still episode 0's element. */
  function MovedOn(): State
  {
    State(2, 1, Some(0), false, map[-1 := Intro, 0 := Episode(0), 1 := Episode(1)],
          map[0 := Audio(true, 0, None), 1 := Audio(true, 0, None)], 2, 2, 0, true, Swipe(false, 0, 0))
  }

  /** Episode 1 shown, episode 0's element playing again from the lock screen. */
  function Resumed(): State
  {
    MovedOn().(audios := map[0 := Audio(false, 0, None), 1 := Audio(true, 0, None)], isPlaying := true)
  }

  lemma TraceTap()
    ensures IntroClick(Initial(2), true) == Step(Tapped(), true)
  {
    var s := Initial(2);
    assert Arrive(s, 0) == State(2, 0, None, false, map[-1 := Intro, 0 := Episode(0)], map[0 := Audio(true, 0, None)],
                                 1, 0, 0, true, Swipe(false, 0, 0));
  }

  lemma TracePauseAndMove()
    ensures KeyDown(MediaPause(Tapped()), RightArrow, false) == Step(MovedOn(), true)
  {
    var s2 := MediaPause(Tapped());
    assert s2 == Tapped().(audios := map[0 := Audio(true, 0, None)], isPlaying := false);
    assert PauseCurrent(s2) == s2;
    assert KeyDown(s2, RightArrow, false) == GoToSlide(s2, 1, false);
  }

  lemma TraceResume()
    ensures MediaPlay(MovedOn()) == Resumed()
  {
  }

  lemma ResumeReaches()
    ensures Reaches(MovedOn(), [OsPlay], Resumed())
  {
    TraceResume();
    assert [OsPlay][1..] == [];
  }

  lemma MoveReaches()
    ensures Reaches(MediaPause(Tapped()), [KeyPress(RightArrow, false), OsPlay], Resumed())
  {
    TracePauseAndMove();
    ResumeReaches();
    assert [KeyPress(RightArrow, false), OsPlay][1..] == [OsPlay];
  }

  lemma PauseReaches()
    ensures Reaches(Tapped(), [OsPause, KeyPress(RightArrow, false), OsPlay], Resumed())
  {
    MoveReaches();
    assert [OsPause, KeyPress(RightArrow, false), OsPlay][1..] == [KeyPress(RightArrow, false), OsPlay];
  }

  lemma TraceReaches()
    ensures Reaches(Initial(2), [ContainerClick(true), OsPause, KeyPress(RightArrow, false), OsPlay], Resumed())
  {
    TraceTap();
    PauseReaches();
    var es := [ContainerClick(true), OsPause, KeyPress(RightArrow, false), OsPlay];
    assert es[1..] == [OsPause, KeyPress(RightArrow, false), OsPlay];
  }

  lemma ResumedValid()
    ensures Valid(Resumed()) && Playing(Resumed()) == {0} && SoleAudio(Resumed())
  {
    var s := Resumed();
    assert forall i | i in s.slides :: SlideFits(s.slides, s.len, s.audios.Keys, i);
    forall b ensures b in Playing(s) <==> b == 0 { }
  }

  /**
   * Space as written can leave two elements playing. With two stories: tap the intro (episode 0
   * plays), pause from the lock screen, ArrowRight (episode 1 shown, currentAudio still episode
   * 0's element), play from the lock screen (episode 0's element plays again), then Space: episode
   * 1's element starts while episode 0's keeps playing. The corrected Space pauses the other one.
   */
  lemma SpaceAsWrittenTwoPlaying()
    ensures Reaches(Initial(2), [ContainerClick(true), OsPause, KeyPress(RightArrow, false), OsPlay], Resumed())
    ensures Valid(Resumed()) && SoleAudio(Resumed())
    ensures Playing(SpacePressedAsWritten(Resumed())) == {0, 1}
    ensures Playing(SpacePressed(Resumed())) == {1}
  {
    TraceReaches();
    ResumedValid();
    var s4 := Resumed();
    var w := SpacePressedAsWritten(s4);
    assert w.audios == map[0 := Audio(false, 0, None), 1 := Audio(false, 0, None)];
    forall b ensures b in Playing(w) <==> b == 0 || b == 1 { }
    var c := SpacePressed(s4);
    assert c.audios == map[0 := Audio(true, 0, None), 1 := Audio(false, 0, None)];
    forall b ensures b in Playing(c) <==> b == 1 { }
  }

  // ---------------------------------------------------------------------------------------------
  // One slide at a time: how the clean-up's removals add up to Settle

  /** Removing one more slide pauses its element on top of those already paused. */
  lemma PauseAllStep(audios: map<nat, Audio>, slides: map<int, Slide>, gone: set<int>, i: int)
    requires i in slides
    ensures slides[i].Episode? ==>
      PauseAll(audios, AudiosOf(slides, gone + {i})) == SetPaused(PauseAll(audios, AudiosOf(slides, gone)), slides[i].audio, true)
    ensures !slides[i].Episode? ==> AudiosOf(slides, gone + {i}) == AudiosOf(slides, gone)
  {
    if slides[i].Episode? {
      assert AudiosOf(slides, gone + {i}) == AudiosOf(slides, gone) + {slides[i].audio};
    } else {
      assert AudiosOf(slides, gone + {i}) == AudiosOf(slides, gone);
    }
  }
}
