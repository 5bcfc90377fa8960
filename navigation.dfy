/**
 * The slide-navigation and playback state machine of the player (app.js), as values.
 *
 * The state is the player's module-level variables (currentIndex, currentAudio, isPlaying, the
 * swipe-tracking variables), the slides present in the player container, every <audio> element
 * created so far and the timers that have been scheduled but have not fired. Each handler of the
 * source is a function from the state before the event to the state after it. A handler that calls
 * goToSlide yields a Step whose `ok` is false when the call throws a TypeError part-way (the state
 * is then the one reached before the throw).
 */
module Navigation {
  import opened Options

  /** The rewind and forward buttons move by this many seconds. */
  const SkipSeconds := 10

  /** An <audio> element: its `paused` flag, its position and, once metadata has loaded, its duration, in whole seconds. */
  datatype Audio = Audio(paused: bool, time: nat, duration: Option<nat>)

  /** A slide in the container: the intro slide, the end slide, or an episode slide with its own audio element. */
  datatype Slide = Intro | End | Episode(audio: nat)

  /** touchStartX, touchCurrentX and isSwiping (app.js:455-457). */
  datatype Swipe = Swipe(active: bool, startX: int, currentX: int)

  datatype State = State(
    len: nat,                    // playlist.stories.length
    currentIndex: int,
    currentAudio: Option<nat>,   // the audio element currentAudio refers to, if any
    isPlaying: bool,
    slides: map<int, Slide>,     // the slides in the container, by data-index
    audios: map<nat, Audio>,     // every audio element created so far, in the container or not
    nextAudio: nat,              // identity given to the next audio element created
    pendingCleanups: nat,        // goToSlide clean-up timers not yet fired
    pendingAdvances: nat,        // "go to the first episode" timers not yet fired
    sessionHandlers: bool,       // the media-session action handlers have been installed
    swipe: Swipe)

  datatype Step = Step(next: State, ok: bool)

  datatype Key = SpaceBar | LeftArrow | RightArrow | OtherKey

  /** The state render() leaves: only the intro slide, nothing playing, nothing scheduled. */
  function Initial(len: nat): State
  {
    State(len, -1, None, false, map[-1 := Intro], map[], 0, 0, 0, false, Swipe(false, 0, 0))
  }

  predicate InBounds(s: State) { -1 <= s.currentIndex <= s.len }

  // ---------------------------------------------------------------------------------------------
  // Audio elements

  /** `audio.paused`; an element the state does not know reads as paused. */
  predicate IsPaused(audios: map<nat, Audio>, a: nat) { a !in audios || audios[a].paused }

  /** `play()` (paused := false) or `pause()` (paused := true) on one element. */
  function SetPaused(audios: map<nat, Audio>, a: nat, paused: bool): (r: map<nat, Audio>)
    ensures r.Keys == audios.Keys
    ensures a in audios ==> r[a] == audios[a].(paused := paused)
    ensures forall b :: b in audios && b != a ==> r[b] == audios[b]
  {
    if a in audios then audios[a := audios[a].(paused := paused)] else audios
  }

  /** Pauses every element in `gone`: what removing their slides from the document does to them. */
  function PauseAll(audios: map<nat, Audio>, gone: set<nat>): (r: map<nat, Audio>)
    ensures r.Keys == audios.Keys
    ensures forall a :: a in audios ==> r[a] == if a in gone then audios[a].(paused := true) else audios[a]
  {
    map a | a in audios :: if a in gone then audios[a].(paused := true) else audios[a]
  }

  /** The audio elements of the slides at the indices `idx`. */
  function AudiosOf(slides: map<int, Slide>, idx: set<int>): set<nat>
  {
    set i | i in idx && i in slides && slides[i].Episode? :: slides[i].audio
  }

  /** Assigning `currentTime`: before metadata nothing moves; after, the position is clamped to [0, duration]. */
  function SeekTo(au: Audio, t: int): (r: Audio)
    ensures r.paused == au.paused && r.duration == au.duration
    ensures au.duration.None? ==> r == au
    ensures au.duration.Some? ==> r.time <= au.duration.value && (0 <= t <= au.duration.value ==> r.time == t)
  {
    match au.duration
    case None => au
    case Some(d) => au.(time := if t < 0 then 0 else if t > d then d else t)
  }

  // ---------------------------------------------------------------------------------------------
  // goToSlide and its deferred clean-up (app.js:531-597)

  function PauseCurrent(s: State): State
  {
    if s.currentAudio.Some? then s.(audios := SetPaused(s.audios, s.currentAudio.value, true)) else s
  }

  /** The slide for index `i`: the one already in the container, or a new one (app.js:545-562). */
  function Materialize(s: State, i: int): (r: State)
    ensures i in r.slides
  {
    if i in s.slides then s
    else if i == -1 then s.(slides := s.slides[i := Intro])
    else if i == s.len then s.(slides := s.slides[i := End])
    else s.(slides := s.slides[i := Episode(s.nextAudio)],
            audios := s.audios[s.nextAudio := Audio(true, 0, None)],
            nextAudio := s.nextAudio + 1)
  }

  /**
   * goToSlide(i, autoPlay) (app.js:531-597) up to the scheduling of its clean-up. There is no
   * transition lock and no range check; its callers keep `i` within [-1, len]. With autoPlay at an
   * index >= 0 that holds no audio (the end slide), `audio.play()` throws after currentIndex has
   * been updated and before the clean-up is scheduled.
   */
  function GoToSlide(s: State, i: int, autoPlay: bool): Step
    requires -1 <= i <= s.len
  {
    var arrived := Arrive(s, i);
    if autoPlay && i >= 0 then
      if arrived.slides[i].Episode? then
        var started := Start(arrived, arrived.slides[i].audio);
        Step(started.(pendingCleanups := started.pendingCleanups + 1), true)
      else
        Step(arrived, false)
    else
      Step(arrived.(pendingCleanups := arrived.pendingCleanups + 1), true)
  }

  /** goToSlide before its autoplay step: old audio paused, slide present, index moved (app.js:538-575). */
  function Arrive(s: State, i: int): (r: State)
    requires -1 <= i <= s.len
    ensures i in r.slides
  {
    var s1 := Materialize(PauseCurrent(s), i);
    s1.(currentIndex := i, sessionHandlers := s1.sessionHandlers || 0 <= i < s1.len)
  }

  /** `audio.play(); currentAudio = audio; isPlaying = true`. */
  function Start(s: State, a: nat): State
  {
    s.(audios := SetPaused(s.audios, a, false), currentAudio := Some(a), isPlaying := true)
  }

  /** The slides one clean-up removes: all but the current one and the intro slide. */
  function Evicted(s: State): set<int>
  {
    set i | i in s.slides && i != s.currentIndex && !s.slides[i].Intro?
  }

  /** One goToSlide clean-up timer firing (app.js:587-596); it reads currentIndex when it fires. */
  function Settle(s: State): (r: State)
    requires s.pendingCleanups > 0
    ensures r.currentIndex == s.currentIndex && r.pendingCleanups == s.pendingCleanups - 1
    ensures forall i :: i in r.slides <==> i in s.slides && (i == s.currentIndex || s.slides[i].Intro?)
    ensures r.audios.Keys == s.audios.Keys
  {
    var gone := Evicted(s);
    s.(slides := s.slides - gone,
       audios := PauseAll(s.audios, AudiosOf(s.slides, gone)),
       pendingCleanups := s.pendingCleanups - 1)
  }

  // ---------------------------------------------------------------------------------------------
  // The per-slide controls of setupPlayer (app.js:304-426)

  /** togglePlayback of the slide at `idx` (app.js:315-331). */
  function TogglePlayback(s: State, idx: int): (r: State)
    requires idx in s.slides && s.slides[idx].Episode?
    ensures r.slides == s.slides && r.currentIndex == s.currentIndex && r.audios.Keys == s.audios.Keys
    ensures var a := s.slides[idx].audio;
      a in s.audios ==> r.audios[a].paused == !s.audios[a].paused && r.isPlaying == !r.audios[a].paused
  {
    var a := s.slides[idx].audio;
    var s1 := if s.currentAudio.Some? && s.currentAudio.value != a
              then s.(audios := SetPaused(s.audios, s.currentAudio.value, true)) else s;
    if IsPaused(s1.audios, a) then Start(s1, a)
    else
      s1.(audios := SetPaused(s1.audios, a, true), isPlaying := false)
  }

  /** The rewind button of the slide at `idx` (app.js:340-342): back ten seconds, not before 0. */
  function Rewind(s: State, idx: int): (r: State)
    requires idx in s.slides && s.slides[idx].Episode?
    ensures r.slides == s.slides && r.currentAudio == s.currentAudio && r.isPlaying == s.isPlaying
    ensures r.audios.Keys == s.audios.Keys
    ensures var a := s.slides[idx].audio;
      a in s.audios ==> r.audios[a].paused == s.audios[a].paused && r.audios[a].time <= s.audios[a].time
  {
    var a := s.slides[idx].audio;
    if a !in s.audios then s
    else
      var au := s.audios[a];
      var t := if au.time - SkipSeconds < 0 then 0 else au.time - SkipSeconds;
      s.(audios := s.audios[a := SeekTo(au, t)])
  }

  /**
   * The forward button of the slide at `idx` (app.js:345-347): ahead ten seconds, not past the
   * duration. Before metadata the duration is NaN and assigning NaN to currentTime throws.
   */
  function Forward(s: State, idx: int): (r: Step)
    requires idx in s.slides && s.slides[idx].Episode?
    ensures var a := s.slides[idx].audio; r.ok <==> a !in s.audios || s.audios[a].duration.Some?
    ensures r.next.slides == s.slides && r.next.currentAudio == s.currentAudio && r.next.audios.Keys == s.audios.Keys
    ensures var a := s.slides[idx].audio;
      r.ok && a in s.audios ==> r.next.audios[a].paused == s.audios[a].paused && r.next.audios[a].time <= s.audios[a].duration.value
  {
    var a := s.slides[idx].audio;
    if a !in s.audios then Step(s, true)
    else
      var au := s.audios[a];
      match au.duration
      case None => Step(s, false)
      case Some(d) =>
        var t := if d < au.time + SkipSeconds then d else au.time + SkipSeconds;
        Step(s.(audios := s.audios[a := SeekTo(au, t)]), true)
  }

  /** The element's metadata arrives: its duration becomes known. */
  function LoadMetadata(s: State, a: nat, d: nat): (r: State)
    requires a in s.audios && s.audios[a].duration.None?
    ensures r.audios.Keys == s.audios.Keys && r.audios[a].duration == Some(d)
    ensures r.audios[a].paused == s.audios[a].paused && r.audios[a].time == s.audios[a].time
  {
    s.(audios := s.audios[a := s.audios[a].(duration := Some(d))])
  }

  /**
   * The `ended` handler (app.js:401-410) of the element `a`, which was playing and has reached its
   * end (it is now paused at its duration): the next episode with autoplay, or the end slide.
   */
  function Ended(s: State, a: nat): Step
    requires InBounds(s)
    requires a in s.audios && !s.audios[a].paused
  {
    var s1 := AtEnd(s, a);
    if s1.currentIndex < s1.len - 1 then GoToSlide(s1, s1.currentIndex + 1, true)
    else GoToSlide(s1, s1.len, false)
  }

  /** The element `a` as it is when `ended` fires: paused, at its end once the duration is known. */
  function AtEnd(s: State, a: nat): State
    requires a in s.audios
  {
    var au := s.audios[a];
    s.(audios := s.audios[a := au.(paused := true, time := if au.duration.Some? then au.duration.value else au.time)])
  }

  // ---------------------------------------------------------------------------------------------
  // setupSwipe (app.js:459-529)

  /** touchstart (app.js:460-476); a touch on the progress section is ignored. */
  function TouchStart(s: State, x: int, onProgressSection: bool): (r: State)
    ensures r.currentIndex == s.currentIndex && r.audios == s.audios && r.slides == s.slides
    ensures !onProgressSection ==> r.swipe.active && r.swipe.startX == x && r.swipe.currentX == x
  {
    if onProgressSection then s else s.(swipe := Swipe(true, x, x))
  }

  /** touchmove (app.js:478-494). */
  function TouchMove(s: State, x: int): (r: State)
    ensures r.currentIndex == s.currentIndex && r.audios == s.audios && r.slides == s.slides
    ensures r.swipe.active == s.swipe.active && r.swipe.startX == s.swipe.startX
    ensures s.swipe.active ==> r.swipe.currentX == x
  {
    if !s.swipe.active then s else s.(swipe := s.swipe.(currentX := x))
  }

  /** diff < -(0.25 * width), in integers. */
  predicate SwipedLeft(diff: int, width: nat) { 4 * diff < -(width as int) }

  /** diff > 0.25 * width, in integers. */
  predicate SwipedRight(diff: int, width: nat) { 4 * diff > width }

  /**
   * touchend (app.js:496-519) with the window `width` wide: past a quarter of the width to the
   * left, the next slide (one past the last episode is the end slide); to the right, the previous.
   */
  function TouchEnd(s: State, width: nat): (r: Step)
    requires InBounds(s)
  {
    if !s.swipe.active then Step(s, true)
    else
      var s1 := s.(swipe := s.swipe.(active := false));
      var diff := s.swipe.currentX - s.swipe.startX;
      if SwipedLeft(diff, width) && s1.currentIndex < s1.len then
        GoToSlide(s1, s1.currentIndex + 1, s1.isPlaying)
      else if SwipedRight(diff, width) && s1.currentIndex > -1 then
        GoToSlide(s1, s1.currentIndex - 1, s1.isPlaying && s1.currentIndex > 0)
      else
        Step(s1, true)
  }

  /**
   * A click in the container (app.js:522-528); `onIntroStyled` says whether it landed inside an
   * element of class intro-slide (the intro slide, or the end slide, which reuses that class).
   */
  function IntroClick(s: State, onIntroStyled: bool): (r: Step)
    ensures onIntroStyled && s.currentIndex == -1 && s.len > 0 ==> r.next.currentIndex == 0
    ensures !(onIntroStyled && s.currentIndex == -1 && s.len > 0) ==> r == Step(s, true)
  {
    if onIntroStyled && s.currentIndex == -1 && s.len > 0 then GoToSlide(s, 0, true) else Step(s, true)
  }

  // ---------------------------------------------------------------------------------------------
  // setupKeyboard (app.js:797-843)

  /**
   * Space AS WRITTEN (app.js:805-825): toggles the current slide's audio, and on play makes it
   * currentAudio without pausing a different currentAudio.
   */
  function SpacePressedAsWritten(s: State): (r: State)
    ensures r.slides == s.slides && r.currentIndex == s.currentIndex && r.audios.Keys == s.audios.Keys
    ensures 0 <= s.currentIndex < s.len && s.currentIndex in s.slides && s.slides[s.currentIndex].Episode?
            && s.slides[s.currentIndex].audio in s.audios
            ==> var a := s.slides[s.currentIndex].audio; r.audios[a].paused == !s.audios[a].paused
  {
    if 0 <= s.currentIndex < s.len && s.currentIndex in s.slides && s.slides[s.currentIndex].Episode? then
      var a := s.slides[s.currentIndex].audio;
      if IsPaused(s.audios, a) then Start(s, a)
      else
        s.(audios := SetPaused(s.audios, a, true), isPlaying := false)
    else s
  }

  /** Space, corrected to do what the slide's own play button does: togglePlayback of the current slide. */
  function SpacePressed(s: State): (r: State)
    ensures r.slides == s.slides && r.currentIndex == s.currentIndex && r.audios.Keys == s.audios.Keys
    ensures 0 <= s.currentIndex < s.len && s.currentIndex in s.slides && s.slides[s.currentIndex].Episode?
            && s.slides[s.currentIndex].audio in s.audios
            ==> var a := s.slides[s.currentIndex].audio; r.audios[a].paused == !s.audios[a].paused
  {
    if 0 <= s.currentIndex < s.len && s.currentIndex in s.slides && s.slides[s.currentIndex].Episode? then
      TogglePlayback(s, s.currentIndex)
    else s
  }

  /**
   * The keydown handler; keys typed into an input or textarea are ignored. Space goes to the
   * corrected `SpacePressed`; the handler as written is `SpacePressedAsWritten` (see Findings).
   */
  function KeyDown(s: State, key: Key, inTextField: bool): (r: Step)
    requires InBounds(s)
    ensures inTextField || key == OtherKey ==> r == Step(s, true)
    ensures !inTextField && key == LeftArrow ==> r.next.currentIndex == if s.currentIndex > -1 then s.currentIndex - 1 else s.currentIndex
    ensures !inTextField && key == RightArrow ==> r.next.currentIndex == if s.currentIndex < s.len then s.currentIndex + 1 else s.currentIndex
    ensures !inTextField && key == SpaceBar ==> r.ok && r.next.currentIndex == s.currentIndex
  {
    if inTextField then Step(s, true)
    else
      match key
      case SpaceBar => Step(SpacePressed(s), true)
      case LeftArrow =>
        if s.currentIndex > -1 then GoToSlide(s, s.currentIndex - 1, s.isPlaying && s.currentIndex > 0)
        else Step(s, true)
      case RightArrow =>
        if s.currentIndex < s.len then GoToSlide(s, s.currentIndex + 1, s.isPlaying)
        else Step(s, true)
      case OtherKey => Step(s, true)
  }

  // ---------------------------------------------------------------------------------------------
  // Media-session action handlers (app.js:265-300); they exist once a story slide has been shown.

  function MediaPlay(s: State): (r: State)
    ensures r.slides == s.slides && r.currentIndex == s.currentIndex && r.currentAudio == s.currentAudio
    ensures r.audios.Keys == s.audios.Keys
    ensures s.sessionHandlers && s.currentAudio.Some? && s.currentAudio.value in s.audios
            ==> r.isPlaying && !r.audios[s.currentAudio.value].paused
    ensures !(s.sessionHandlers && s.currentAudio.Some?) ==> r == s
  {
    if s.sessionHandlers && s.currentAudio.Some? then
      s.(audios := SetPaused(s.audios, s.currentAudio.value, false), isPlaying := true)
    else s
  }

  function MediaPause(s: State): (r: State)
    ensures r.slides == s.slides && r.currentIndex == s.currentIndex && r.currentAudio == s.currentAudio
    ensures r.audios.Keys == s.audios.Keys
    ensures s.sessionHandlers && s.currentAudio.Some? && s.currentAudio.value in s.audios
            ==> !r.isPlaying && r.audios[s.currentAudio.value].paused
    ensures !(s.sessionHandlers && s.currentAudio.Some?) ==> r == s
  {
    if s.sessionHandlers && s.currentAudio.Some? then
      s.(audios := SetPaused(s.audios, s.currentAudio.value, true), isPlaying := false)
    else s
  }

  function MediaPrevious(s: State): (r: Step)
    requires InBounds(s)
    ensures s.sessionHandlers && s.currentIndex > 0 ==> r.next.currentIndex == s.currentIndex - 1
    ensures !(s.sessionHandlers && s.currentIndex > 0) ==> r == Step(s, true)
  {
    if s.sessionHandlers && s.currentIndex > 0 then GoToSlide(s, s.currentIndex - 1, s.isPlaying)
    else Step(s, true)
  }

  function MediaNext(s: State): (r: Step)
    requires InBounds(s)
    ensures s.sessionHandlers && s.currentIndex < s.len - 1 ==> r.next.currentIndex == s.currentIndex + 1
    ensures !(s.sessionHandlers && s.currentIndex < s.len - 1) ==> r == Step(s, true)
  {
    if s.sessionHandlers && s.currentIndex < s.len - 1 then GoToSlide(s, s.currentIndex + 1, s.isPlaying)
    else Step(s, true)
  }

  /** seekto; `time` is None when the action carries no seekTime. */
  function MediaSeekTo(s: State, time: Option<int>): (r: State)
    ensures r.slides == s.slides && r.currentAudio == s.currentAudio && r.isPlaying == s.isPlaying
    ensures r.audios.Keys == s.audios.Keys
    ensures forall a :: a in s.audios ==> r.audios[a].paused == s.audios[a].paused
    ensures s.sessionHandlers && s.currentAudio.Some? && time.Some? && s.currentAudio.value in s.audios ==>
      r.audios == s.audios[s.currentAudio.value := SeekTo(s.audios[s.currentAudio.value], time.value)]
    ensures !(s.sessionHandlers && s.currentAudio.Some? && time.Some? && s.currentAudio.value in s.audios) ==> r == s
  {
    if s.sessionHandlers && s.currentAudio.Some? && time.Some? && s.currentAudio.value in s.audios then
      var a := s.currentAudio.value;
      s.(audios := s.audios[a := SeekTo(s.audios[a], time.value)])
    else s
  }

  // ---------------------------------------------------------------------------------------------
  // The reset of selectShow and closeShowsMenu, and the auto-advance timer

  /**
   * The reset block of selectShow (app.js:735-746) and closeShowsMenu (app.js:779-790) once the
   * playlist holds `newLen` stories: back to the intro, currentAudio paused and dropped, the
   * container emptied (which pauses every element in it) and a fresh intro slide added.
   */
  function Reset(s: State, newLen: nat): (r: State)
    ensures r.len == newLen && r.currentIndex == -1 && r.currentAudio == None && !r.isPlaying
    ensures r.slides == map[-1 := Intro] && r.audios.Keys == s.audios.Keys
    ensures s.currentAudio.Some? && s.currentAudio.value in s.audios ==> r.audios[s.currentAudio.value].paused
    ensures forall i :: i in s.slides && s.slides[i].Episode? && s.slides[i].audio in s.audios ==> r.audios[s.slides[i].audio].paused
  {
    var audios := if s.currentAudio.Some? then SetPaused(s.audios, s.currentAudio.value, true) else s.audios;
    s.(len := newLen, currentIndex := -1, currentAudio := None, isPlaying := false,
       slides := map[-1 := Intro],
       audios := PauseAll(audios, AudiosOf(s.slides, s.slides.Keys)))
  }

  /** selectShow's reset followed by scheduling the move to the first episode (app.js:750-757). */
  function SelectShowReset(s: State, newLen: nat): (r: State)
    ensures r.len == newLen && r.currentIndex == -1 && r.currentAudio == None && !r.isPlaying
    ensures r.pendingAdvances == s.pendingAdvances + 1
  {
    var r := Reset(s, newLen);
    r.(pendingAdvances := r.pendingAdvances + 1)
  }

  /** The scheduled move to the first episode firing (app.js:750-757, app.js:895-897). */
  function AutoAdvance(s: State): (r: Step)
    requires s.pendingAdvances > 0
    ensures r.next.pendingAdvances == s.pendingAdvances - 1
    ensures s.len > 0 ==> r.next.currentIndex == 0
    ensures s.len == 0 ==> r == Step(s.(pendingAdvances := s.pendingAdvances - 1), true)
  {
    var s1 := s.(pendingAdvances := s.pendingAdvances - 1);
    if s1.len > 0 then GoToSlide(s1, 0, true) else Step(s1, true)
  }

  // ---------------------------------------------------------------------------------------------
  // Events

  /** Everything that can happen to the player, one at a time. */
  datatype Event =
    | PlayButton(slide: int)                 // center button or tap area of a slide
    | RewindButton(slide: int)
    | ForwardButton(slide: int)
    | AudioEnded(audio: nat)
    | MetadataLoaded(audio: nat, duration: nat)
    | TouchBegin(x: int, onProgressSection: bool)
    | TouchMoved(x: int)
    | TouchRelease(width: nat)
    | ContainerClick(onIntroStyled: bool)
    | KeyPress(key: Key, inTextField: bool)
    | OsPlay | OsPause | OsPrevious | OsNext
    | OsSeek(time: Option<int>)
    | CleanupDue                             // a goToSlide clean-up timer fires
    | AdvanceDue                             // a "first episode" timer fires
    | ShowSelected(newLen: nat)              // selectShow, the playlist now holding newLen stories
    | MenuClosedWithChanges(newLen: nat)     // closeShowsMenu after a follow change

  /** Whether `e` can occur: buttons exist only on slides in the container, `ended` comes from a playing element, timers must be pending. */
  predicate Enabled(s: State, e: Event)
  {
    match e
    case PlayButton(i) => i in s.slides && s.slides[i].Episode?
    case RewindButton(i) => i in s.slides && s.slides[i].Episode?
    case ForwardButton(i) => i in s.slides && s.slides[i].Episode?
    case AudioEnded(a) => a in s.audios && !s.audios[a].paused
    case MetadataLoaded(a, _) => a in s.audios && s.audios[a].duration.None?
    case CleanupDue => s.pendingCleanups > 0
    case AdvanceDue => s.pendingAdvances > 0
    case _ => true
  }

  function Apply(s: State, e: Event): Step
    requires InBounds(s) && Enabled(s, e)
  {
    match e
    case PlayButton(i) => Step(TogglePlayback(s, i), true)
    case RewindButton(i) => Step(Rewind(s, i), true)
    case ForwardButton(i) => Forward(s, i)
    case AudioEnded(a) => Ended(s, a)
    case MetadataLoaded(a, d) => Step(LoadMetadata(s, a, d), true)
    case TouchBegin(x, onBar) => Step(TouchStart(s, x, onBar), true)
    case TouchMoved(x) => Step(TouchMove(s, x), true)
    case TouchRelease(w) => TouchEnd(s, w)
    case ContainerClick(onIntro) => IntroClick(s, onIntro)
    case KeyPress(k, inField) => KeyDown(s, k, inField)
    case OsPlay => Step(MediaPlay(s), true)
    case OsPause => Step(MediaPause(s), true)
    case OsPrevious => MediaPrevious(s)
    case OsNext => MediaNext(s)
    case OsSeek(t) => Step(MediaSeekTo(s, t), true)
    case CleanupDue => Step(Settle(s), true)
    case AdvanceDue => AutoAdvance(s)
    case ShowSelected(n) => Step(SelectShowReset(s, n), true)
    case MenuClosedWithChanges(n) => Step(Reset(s, n), true)
  }

  /** Applying the events `es` to `s`, in order, leads to `t`. */
  ghost predicate Reaches(s: State, es: seq<Event>, t: State)
    decreases |es|
  {
    if es == [] then t == s
    else InBounds(s) && Enabled(s, es[0]) && Reaches(Apply(s, es[0]).next, es[1..], t)
  }

  // ---------------------------------------------------------------------------------------------
  // Invariants

  /** The slide at `i` exists, its kind matches its index in a playlist of `len` stories, and an episode slide's element is `known`. */
  predicate SlideFits(slides: map<int, Slide>, len: int, known: set<nat>, i: int)
  {
    i in slides &&
    match slides[i]
    case Intro => i == -1
    case End => i == len
    case Episode(a) => 0 <= i < len && a in known
  }

  predicate SlidesFit(slides: map<int, Slide>, len: int, known: set<nat>)
  {
    forall i | i in slides :: SlideFits(slides, len, known, i)
  }

  /** An element's position is 0 until its duration is known, and never past it. */
  predicate ClockFits(au: Audio)
  {
    match au.duration
    case None => au.time == 0
    case Some(d) => au.time <= d
  }

  /** Every element was numbered below `nextAudio`, and its position fits its duration. */
  predicate AudiosFit(audios: map<nat, Audio>, nextAudio: nat)
  {
    forall a | a in audios :: a < nextAudio && ClockFits(audios[a])
  }

  /**
   * The invariant of the state machine: currentIndex within [-1, len] with its slide in the
   * container, the intro slide always there, every slide of the right kind for its index with its
   * element created, and currentAudio one of the created elements.
   */
  predicate Valid(s: State)
  {
    InBounds(s)
    && -1 in s.slides && s.currentIndex in s.slides
    && SlidesFit(s.slides, s.len, s.audios.Keys)
    && AudiosFit(s.audios, s.nextAudio)
    && (s.currentAudio.Some? ==> s.currentAudio.value in s.audios)
  }

  /** currentAudio, as a set of at most one element. */
  function CurrentSet(s: State): set<nat>
  {
    if s.currentAudio.Some? then {s.currentAudio.value} else {}
  }

  /** Only currentAudio may be playing. */
  predicate SoleAudio(s: State)
  {
    Playing(s) <= CurrentSet(s)
  }

  /** The elements that are not paused. */
  function Playing(s: State): set<nat>
  {
    Running(s.audios)
  }

  function Running(audios: map<nat, Audio>): set<nat>
  {
    set a | a in audios && !audios[a].paused
  }
}
