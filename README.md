# Musedrops previewer player, modelled in Dafny

The previewer (`app.js`) is a single-page browser player for the stories of the Musedrops feed.
It shows the stories as slides: an intro slide at index -1, one episode slide per story, and an
end slide at index `len`. Underneath the DOM code is a small navigation and playback state
machine. It is driven by the module-level variables `currentIndex`, `currentAudio` and
`isPlaying`, by the slides present in the player container, and by the `<audio>` element of each
episode slide. This project models that machine and the catalog code around it.

- `TimeFormat` models `formatTime`: the clock labels of the progress bar, over whole seconds.
- `Catalog` models the story and show catalog:
  - the normalisation loop of `loadPlaylist`;
  - the derived list of shows;
  - the follow set (`toggleFollowShow`, `isShowFollowed`);
  - `filterPlaylist` and the show filter of the URL.
- `Navigation` holds the state machine as values. Each event handler is a function from the state
  before the event to the state after it: `goToSlide` and its deferred clean-up, `togglePlayback`,
  rewind and forward, `ended`, the swipe handlers, the intro tap, the keyboard, the media-session
  actions, the reset of `selectShow` and `closeShowsMenu`, and the timer that moves to the first
  episode. It also defines the invariant `Valid` and the single-player property `SoleAudio`:
  only `currentAudio` may be playing.
- `NavigationProofs` proves what each handler does. It proves that every event keeps `Valid` and
  `SoleAudio`. So, with Space corrected as recorded under Findings, at most one element ever plays
  from the initial state on. It also holds the two findings below.
- `Player` is the running player as a class. Its fields are the module-level variables, the
  slides, the elements and the pending timers. Each handler is a method that updates those fields
  step by step. Each method is proved to leave exactly the state that the matching function of
  `Navigation` or `Catalog` describes.

Modelling choices:

- Audio elements have identities (a counter), not slide indices. `currentAudio` can outlive its
  slide: `goToSlide` without autoplay keeps it, and the clean-up may remove that slide.
- A handler that calls `goToSlide` returns a `Step`. Its `ok` is false when the call throws
  part-way. This happens on `goToSlide(len, true)`: the end slide has no `<audio>` element, so
  `audio.play()` fails after `currentIndex` has moved.
- Timers are explicit events. A goToSlide clean-up (`CleanupDue`) and a move to the first episode
  (`AdvanceDue`) fire whenever the caller chooses, so several can be pending at once.
- Removing a slide from the document pauses its element, as HTML specifies for media elements.

Behaviour of `app.js` that the model keeps as written:

- A drag of exactly a quarter of the window width does not navigate, because `diff < -threshold`
  (app.js:512) is strict.
- `goToSlide` (app.js:531-585) has no transition lock and no range check, so a second call
  during the 300 ms transition runs in full and both clean-ups stay pending.
- `goToSlide(len, true)` throws at `audio.play()` (app.js:580), because the end slide has no
  `<audio>` element.
- The forward button before metadata has loaded assigns NaN to `currentTime` (app.js:345-347),
  which throws.
- The media-session play action (app.js:265-271) plays `currentAudio` directly, not through
  `togglePlayback`.
- `closeShowsMenu` (app.js:776-791) resets to the intro slide without scheduling the move to the
  first episode.

## Model

| member | source | states |
|---|---|---|
| TimeFormat.FormatTime | app.js:27-33 | The label has at least four characters with a colon third from the end. It starts with '-' exactly when the time is finite and negative. NaN and the infinities read "0:00". |
| TimeFormat.Decimal | app.js:32 | `toString` of a non-negative integer: at least one digit, all digits, and a leading '0' only for 0. Below 100 it has at most two digits. |
| TimeFormat.PadStart | app.js:32 | `padStart` leaves a string of at least `width` characters unchanged. A shorter string keeps its characters at the end, preceded by fill characters up to `width`. |
| TimeFormat.PadStartFills | app.js:32 | When the string is shorter than `width`, it ends the padded string and every character before it is the fill character. |
| TimeFormat.DecimalRoundTrip | app.js:32 | Reading the decimal digits back gives the number. |
| TimeFormat.SecondsFieldRoundTrip | app.js:30-32 | The padded seconds field always has exactly two digits, a tens digit of at most 5, and reads back as the remainder. |
| TimeFormat.ClockReads | app.js:27-33 | Decimal minutes with no leading zero, a colon and a two-digit seconds field whose tens digit is at most 5 (so below 60) read back as minutes * 60 + seconds. |
| TimeFormat.ClockRoundTrip | app.js:30-33 | The unsigned clock `mins:ss` of any whole number of seconds reads back as that number. |
| TimeFormat.FormatTimeRoundTrip | app.js:27-33 | Every whole number of seconds, negative ones included, can be read back from its label by a reader that takes a sign, decimal minutes with no leading zero, a colon and two-digit seconds below 60. |
| TimeFormat.ParseTimeRefusesSixtySeconds | app.js:27-33 | That reader refuses a seconds field of 60 or more ("0:65", "1:60"), which no label has, and reads "1:05" as 65. |
| TimeFormat.ParseTimeRefusesLeadingZero | app.js:27-33 | That reader refuses a minutes field with a leading zero ("00:05", "-07:30"), which no label has, and reads "0:05" as 5. |
| TimeFormat.FormatTimeInjective | app.js:27-33 | Two different times never share a label. |
| TimeFormat.FormatTimeExamples | app.js:353-361 | The remaining-time label of position 0 of 125 s is "-2:05". At the end it is "0:00". Before metadata (NaN) it is "0:00". |
| Catalog.NormalizeStory | app.js:78-86 | A story keeps its slug as id and its show slug. A missing or empty title becomes "Untitled", and a missing or empty show name becomes "Unknown Show". |
| Catalog.ShowOf | app.js:64-69 | A show is registered under the story's show slug, with a non-empty title. |
| Catalog.Ids | app.js:64 | The keys of `showsMap`, position by position. |
| Catalog.DistinctShows | app.js:62-75 | The derived shows have pairwise distinct, non-empty ids. |
| Catalog.FirstIndex | app.js:62-64 | The position of the first story of a show: earlier stories belong to other shows. |
| Catalog.FirstIndexOfPrefix | app.js:62-64 | Appending a story does not move the first story of a show already seen. |
| Catalog.DistinctShowsComplete | app.js:62-75 | A show id is in the list exactly when it is a non-empty show slug of some story. |
| Catalog.DistinctShowsFirstAppearance | app.js:62-98 | Each show is built from the first story of that show, and the shows come in first-appearance order. |
| Catalog.LoadPlaylist | app.js:52-98 | The loop maps the stories one for one, in order, each normalised. It returns exactly the derived show list, and an empty feed gives two empty lists. |
| Catalog.IsShowFollowed | app.js:635-637 | A story without a show is always followed, with nothing unfollowed every show is followed, and a followed show's id is not in the unfollowed set. |
| Catalog.ToggleFollow | app.js:625-630 | Toggling flips whether that show is followed and leaves every other show as it was. |
| Catalog.ToggleFollowTwice | app.js:625-630 | Toggling a show twice restores the unfollowed set. |
| Catalog.FilterExact | app.js:128-139 | `Array.prototype.filter` keeps exactly the elements that pass, each with its multiplicity, in their original order. |
| Catalog.FilterPlaylist | app.js:125-144 | With no show: exactly the stories of followed shows. With a show: exactly that show's stories. Catalog order is kept (subsequence and multiplicities), and `currentShow` becomes the argument. |
| Catalog.RemoveFirstQuestionMark | app.js:149 | `replace('?', '')` removes one character exactly when the string contains a '?', and returns a string without '?' unchanged. |
| Catalog.RemoveFirstQuestionMarkCutsFirst | app.js:149 | When the string contains a '?', the result is the text before its first '?' followed by the text after it. |
| Catalog.UrlFilter | app.js:147-171 | A filter applies exactly when the query string, without its first '?', is non-empty and the id of a known show. |
| Catalog.SelectShowStoriesAsWritten | app.js:700-706 | selectShow as written: the show filter, unless the menu recorded follow changes, in which case closeShowsMenu's re-filter to all followed stories wins. |
| Catalog.SelectShowAsWrittenKeepsOtherShows | app.js:700-706 | With stories of shows "a" and "b" and a recorded follow change, selecting show "a" lists both stories, where the show filter alone lists only the story of "a". |
| Navigation.SetPaused | app.js:317 | `play()`/`pause()` changes the `paused` flag of that one element, keeps the set of elements and leaves every other element as it was. |
| Navigation.PauseAll | app.js:588-595 | Removing slides pauses exactly the elements of those slides. |
| Navigation.Materialize | app.js:545-562 | After materialising index i, a slide for i is present. |
| Navigation.Arrive | app.js:538-575 | After the synchronous part of goToSlide, a slide for the new index is present. |
| Navigation.SeekTo | app.js:340-347 | Assigning `currentTime` never starts or stops the element and keeps its duration. Before metadata nothing moves. After, the position stays within the duration and lands exactly on a target inside [0, duration]. |
| Navigation.Settle | app.js:587-596 | A goToSlide clean-up keeps `currentIndex` and the set of elements, consumes one pending clean-up, and leaves exactly the current slide and the intro slide of those present. |
| Navigation.TogglePlayback | app.js:315-331 | togglePlayback keeps the slides, the index and the set of elements. It flips the slide's element between playing and paused, and `isPlaying` afterwards says whether that element plays. |
| Navigation.Rewind | app.js:340-342 | Rewind keeps the slides, `currentAudio`, `isPlaying`, the set of elements and the element's paused flag. It never moves the position forward. |
| Navigation.Forward | app.js:345-347 | Forward throws exactly when the element's duration is unknown. It keeps the slides, `currentAudio`, the set of elements and the paused flag, and never moves past the duration. |
| Navigation.LoadMetadata | app.js:360-362 | When metadata arrives, the element's duration becomes known. Its paused flag and position stay as they were, and the set of elements is kept. |
| Navigation.TouchStart | app.js:460-476 | touchstart never changes the index, the slides or the elements. Outside the progress section it starts a swipe at x. |
| Navigation.TouchMove | app.js:478-494 | touchmove never changes the index, the slides, the elements, the swipe's start or whether a swipe is on. During a swipe it records x. |
| Navigation.IntroClick | app.js:522-528 | A tap on the intro slide with stories moves to index 0. Any other click changes nothing and does not throw. |
| Navigation.SpacePressedAsWritten | app.js:805-825 | Space as written keeps the slides, the index and the set of elements, and flips the current slide's element between playing and paused. |
| Navigation.SpacePressed | app.js:805-825 | Corrected Space keeps the slides, the index and the set of elements, and flips the current slide's element between playing and paused. |
| Navigation.KeyDown | app.js:798-842 | Keys typed into a text field and other keys change nothing. Left goes back one slide unless at the intro, and Right goes forward one unless at the end. Space, with Space corrected as recorded under Findings, keeps the index and never throws. |
| Navigation.MediaPlay | app.js:265-271 | The play action keeps the slides, the index, `currentAudio` and the set of elements. Once the handlers exist it starts `currentAudio` and sets `isPlaying`. Before that, or without `currentAudio`, nothing changes. |
| Navigation.MediaPause | app.js:273-282 | The pause action keeps the slides, the index, `currentAudio` and the set of elements. Once the handlers exist it pauses `currentAudio` and clears `isPlaying`. Before that, or without `currentAudio`, nothing changes. |
| Navigation.MediaPrevious | app.js:284-288 | Once the handlers exist and the index is past the first episode, previoustrack goes back one slide. Otherwise nothing changes and nothing throws. |
| Navigation.MediaNext | app.js:290-294 | Once the handlers exist and the index is before the last episode, nexttrack goes forward one slide. Otherwise nothing changes and nothing throws. |
| Navigation.MediaSeekTo | app.js:296-300 | seekto keeps the slides, `currentAudio`, `isPlaying` and the set of elements, and starts or stops no element. Once the handlers exist, with a `currentAudio` and a seek time, that element alone moves to `SeekTo(old element, seekTime)`. Otherwise the state is unchanged. |
| Navigation.Reset | app.js:735-746 | The reset goes to the intro slide alone, with the new length, no `currentAudio` and `isPlaying` false. It keeps the set of elements and leaves `currentAudio` and every element of a removed slide paused. |
| Navigation.SelectShowReset | app.js:735-757 | selectShow's reset goes to the intro with the new length, nothing current and not playing, and schedules exactly one move to the first episode. |
| Navigation.AutoAdvance | app.js:750-757 | The move to the first episode consumes its timer. With stories it lands on index 0. Without stories it changes nothing else and does not throw. |
| NavigationProofs.InitialValid | app.js:846-851 | render() leaves a state with only the intro slide that keeps the invariant, with nothing playing. |
| NavigationProofs.AtMostOnePlaying | app.js:538-542 | Under the single-player property at most one element plays. |
| NavigationProofs.PauseCurrentValid | app.js:538-542 | goToSlide first pauses `currentAudio`. Under the single-player property nothing plays after that. |
| NavigationProofs.MaterializeValid | app.js:545-562 | A slide already present is reused and the state is unchanged. Otherwise one slide of the right kind is added: intro at -1, end at len, an episode in between. A new episode slide gets an element that did not exist before, paused at position 0 with no duration, and the set of elements grows by exactly that one. |
| NavigationProofs.StartValid | app.js:577-582 | Starting an element when nothing plays leaves exactly that element playing. |
| NavigationProofs.ArriveValid | app.js:538-575 | Pausing and materialising keeps the invariant, moves `currentIndex` and keeps `currentAudio` and `isPlaying`. |
| NavigationProofs.GoToSlideValid | app.js:531-597 | goToSlide keeps the invariant and the single-player property, whether or not it throws. |
| NavigationProofs.GoToSlideEffect | app.js:531-585 | The index becomes i. The call throws exactly when asked to autoplay the end slide. Without autoplay, `currentAudio` and `isPlaying` are left as they were. With autoplay, the new slide's element becomes `currentAudio`. A present slide is reused. One clean-up is scheduled unless it threw. |
| NavigationProofs.GoToSlidePlaying | app.js:538-584 | After goToSlide, only the autoplayed element, if any, is playing. |
| NavigationProofs.GoToSlideSafe | app.js:531-597 | goToSlide keeps both properties, lands on i, leaves the swipe variables alone, and throws exactly on autoplay of the end slide. |
| NavigationProofs.GoToSlideLands | app.js:570 | goToSlide lands on i and throws exactly on autoplay of the end slide. |
| NavigationProofs.SettleEvicts | app.js:587-596 | The clean-up leaves exactly the intro slide and the current one, unchanged, and starts nothing. It keeps the set of elements, leaves every element of a removed slide paused, and leaves every other element exactly as it was. |
| NavigationProofs.PauseAllStep | app.js:588-595 | Removing one more slide pauses its element on top of those already paused. |
| NavigationProofs.TogglePlaybackEffect | app.js:315-331 | A paused element starts, becomes `currentAudio` and is the only one playing, any other `currentAudio` having been paused. A playing element stops, leaving nothing playing and `isPlaying` false. |
| NavigationProofs.TogglePlaybackStarts | app.js:316-324 | The starting branch of togglePlayback. |
| NavigationProofs.TogglePlaybackStops | app.js:326-330 | The stopping branch of togglePlayback. |
| NavigationProofs.TogglePlaybackTwice | app.js:315-331 | Two presses restore the element's state. |
| NavigationProofs.RewindEffect | app.js:340-342 | Rewind moves back ten seconds, not below 0, and changes nothing else about what plays. |
| NavigationProofs.ForwardEffect | app.js:345-347 | Forward throws exactly when the duration is unknown. Otherwise it moves ahead ten seconds, not past the duration. |
| NavigationProofs.ForwardThenRewind | app.js:340-347 | Forward then rewind is the identity when the end is at least ten seconds away. |
| NavigationProofs.RewindThenForward | app.js:340-347 | Rewind then forward is the identity when at least ten seconds have played. |
| NavigationProofs.AtEndStops | app.js:401 | When `ended` fires the element is paused, at its end once the duration is known, and no other element changes. |
| NavigationProofs.AtEndValid | app.js:401 | The element that ended is paused and nothing else changes. |
| NavigationProofs.EndedGoesNext | app.js:403-405 | Before the last episode, `ended` is goToSlide(currentIndex + 1, true). |
| NavigationProofs.EndedGoesToEnd | app.js:406-408 | From the last episode on, `ended` is goToSlide(len, false). |
| NavigationProofs.EndedValid | app.js:401-410 | `ended` never throws and keeps both properties. |
| NavigationProofs.EndedMoves | app.js:401-410 | Before the last episode, `ended` autoplays the next one, which alone plays. Otherwise it shows the end slide with nothing playing, and `isPlaying` and `currentAudio` stay as they were. |
| NavigationProofs.SwipeEnded | app.js:497-498 | Clearing `isSwiping` keeps both properties. |
| NavigationProofs.SwipeLeftGoes | app.js:512-514 | A left swipe before the end slide is goToSlide(currentIndex + 1, isPlaying). |
| NavigationProofs.SwipeRightGoes | app.js:515-517 | A right swipe after the intro is goToSlide(currentIndex - 1, isPlaying && currentIndex > 0). |
| NavigationProofs.SwipeLeft | app.js:512-514 | A left swipe lands on the next slide and throws exactly from the last episode while playing. |
| NavigationProofs.SwipeRight | app.js:515-517 | A right swipe lands on the previous slide and never throws. |
| NavigationProofs.TouchEndEffect | app.js:496-519 | touchend keeps both properties and ends the swipe. Past a quarter of the width to the left it goes to the next slide, to the right to the previous one, and otherwise it stays (a drag of exactly a quarter stays). It throws exactly on a left swipe from the last episode while playing. |
| NavigationProofs.IntroClickEffect | app.js:522-528 | A click on the intro with stories starts the first episode, which alone plays. Any other click changes nothing. It never throws. |
| NavigationProofs.SpacePressedSole | app.js:805-825 | Space, corrected, keeps both properties and the current index. |
| NavigationProofs.KeyLeftGoes | app.js:828-833 | ArrowLeft after the intro is goToSlide(currentIndex - 1, isPlaying && currentIndex > 0). |
| NavigationProofs.KeyRightGoes | app.js:836-841 | ArrowRight before the end slide is goToSlide(currentIndex + 1, isPlaying). |
| NavigationProofs.KeyLeft | app.js:828-833 | ArrowLeft moves back one slide and never throws. |
| NavigationProofs.KeyRight | app.js:836-841 | ArrowRight moves on one slide and throws exactly from the last episode while playing. |
| NavigationProofs.KeyDownEffect | app.js:798-842 | keydown keeps both properties, and the arrows stay within [-1, len]. ArrowRight throws exactly from the last episode while playing. Typing in a field does nothing. |
| NavigationProofs.MediaPlayEffect | app.js:265-271 | The play action resumes `currentAudio`, which alone plays, and sets `isPlaying`. |
| NavigationProofs.MediaPauseEffect | app.js:273-282 | The pause action leaves nothing playing. |
| NavigationProofs.MediaPreviousGoes | app.js:284-288 | previoustrack past the first episode is goToSlide(currentIndex - 1, isPlaying). |
| NavigationProofs.MediaPreviousGo | app.js:284-288 | previoustrack past the first episode goes back one slide and never throws. |
| NavigationProofs.MediaPreviousEffect | app.js:284-288 | previoustrack keeps both properties, moves back one episode (never onto the intro) and never throws. |
| NavigationProofs.MediaNextGoes | app.js:290-294 | nexttrack before the last episode is goToSlide(currentIndex + 1, isPlaying). |
| NavigationProofs.MediaNextGo | app.js:290-294 | nexttrack before the last episode goes on one slide and never throws. |
| NavigationProofs.MediaNextEffect | app.js:290-294 | nexttrack keeps both properties, moves on one episode (never onto the end slide) and never throws. |
| NavigationProofs.MediaSeekToEffect | app.js:296-300 | Once the handlers exist, with a `currentAudio` and a seek time, seekto sets `currentAudio` to `SeekTo(old element, seekTime)` and leaves every other element as it was. Otherwise the state is unchanged. Either way nothing about what plays changes. |
| NavigationProofs.ResetEffect | app.js:735-746 | The reset leaves only the intro slide, at index -1, with no `currentAudio` and `isPlaying` false. It pauses `currentAudio` and every element of the removed slides, so under the single-player property nothing plays. |
| NavigationProofs.SelectShowResetEffect | app.js:735-757 | selectShow's reset leaves nothing playing and schedules one move to the first episode. |
| NavigationProofs.AutoAdvanceEffect | app.js:750-757 | The scheduled move never throws. With stories, it autoplays the first episode, which alone plays. |
| NavigationProofs.LoadMetadataValid | app.js:360-362 | Metadata arriving keeps the invariant and what plays. |
| NavigationProofs.ApplyPreserves | app.js:265-843 | Every enabled event keeps the invariant and the single-player property, whether or not its handler throws, with Space corrected as recorded under Findings. |
| NavigationProofs.ReachesPreserves | app.js:265-843 | Every sequence of events from a valid state keeps both properties, so at most one element plays, with Space corrected as recorded under Findings. |
| NavigationProofs.FromStartAtMostOnePlaying | app.js:846-856 | From render()'s state, at most one element ever plays, with Space corrected as recorded under Findings. |
| NavigationProofs.TraceTap | app.js:522-528 | The intro tap with two stories starts episode 0. |
| NavigationProofs.TracePauseAndMove | app.js:836-841 | After a lock-screen pause, ArrowRight shows episode 1 with `currentAudio` still episode 0's element. |
| NavigationProofs.TraceResume | app.js:265-271 | The lock-screen play then resumes episode 0's element. |
| NavigationProofs.TraceReaches | app.js:265-843 | That sequence of four events is reachable from render()'s state. |
| NavigationProofs.ResumedValid | app.js:265-271 | The state it reaches keeps both properties. |
| NavigationProofs.SpaceAsWrittenTwoPlaying | app.js:813-821 | From that state, Space as written leaves episodes 0 and 1 both playing. The corrected Space leaves only episode 1 playing. |
| Player.Player.Init | app.js:886-901 | init: the feed normalised, the shows derived, the follow set loaded, the followed stories listed or the URL's show applied, and render()'s state, with the first-episode move scheduled when a URL filter applied and has stories. |
| Player.Player.PauseCurrentAudio | app.js:538-542 | The fields afterwards are `Navigation.PauseCurrent` of the fields before. |
| Player.Player.MaterializeSlide | app.js:545-562 | The fields afterwards are `Navigation.Materialize` of the fields before. |
| Player.Player.ArriveAt | app.js:535-575 | The fields afterwards are `Navigation.Arrive` of the fields before. |
| Player.Player.StartAudio | app.js:577-582 | The fields afterwards are `Navigation.Start` of the fields before. |
| Player.Player.GoToSlide | app.js:531-597 | goToSlide on the fields: the new state and whether it throws are those of `Navigation.GoToSlide`. |
| Player.Player.Cleanup | app.js:587-596 | The clean-up timer leaves `Navigation.Settle` of the fields. |
| Player.Player.RemoveSlides | app.js:588-595 | The loop over the container's children, in any order, removes exactly the slides other than the current and intro ones, and pauses exactly their elements. |
| Player.Player.RemoveStep | app.js:592-594 | One child visited joins the removed slides exactly when it is neither current nor the intro. |
| Player.Player.TogglePlayback | app.js:315-331 | The fields afterwards are `Navigation.TogglePlayback` of the fields before. |
| Player.Player.Rewind | app.js:340-342 | The fields afterwards are `Navigation.Rewind` of the fields before. |
| Player.Player.Forward | app.js:345-347 | The fields afterwards and the outcome are `Navigation.Forward`'s. |
| Player.Player.MetadataLoaded | app.js:360-362 | The fields afterwards are `Navigation.LoadMetadata` of the fields before. |
| Player.Player.AudioEnded | app.js:401-410 | The fields afterwards and the outcome are `Navigation.Ended`'s. |
| Player.Player.TouchStart | app.js:460-476 | The fields afterwards are `Navigation.TouchStart` of the fields before. |
| Player.Player.TouchMove | app.js:478-494 | The fields afterwards are `Navigation.TouchMove` of the fields before. |
| Player.Player.TouchEnd | app.js:496-519 | The fields afterwards and the outcome are `Navigation.TouchEnd`'s. |
| Player.Player.ContainerClick | app.js:522-528 | The fields afterwards and the outcome are `Navigation.IntroClick`'s. |
| Player.Player.KeyDown | app.js:798-842 | The fields afterwards and the outcome are `Navigation.KeyDown`'s (Space corrected). |
| Player.Player.MediaPlay | app.js:265-271 | The fields afterwards are `Navigation.MediaPlay` of the fields before. |
| Player.Player.MediaPause | app.js:273-282 | The fields afterwards are `Navigation.MediaPause` of the fields before. |
| Player.Player.MediaPrevious | app.js:284-288 | The fields afterwards and the outcome are `Navigation.MediaPrevious`'s. |
| Player.Player.MediaNext | app.js:290-294 | The fields afterwards and the outcome are `Navigation.MediaNext`'s. |
| Player.Player.MediaSeekTo | app.js:296-300 | The fields afterwards are `Navigation.MediaSeekTo` of the fields before. |
| Player.Player.ToggleFollowShow | app.js:625-633 | Flips whether the show is followed and records a menu change. |
| Player.Player.ResetToIntro | app.js:735-746 | The fields afterwards are `Navigation.Reset` of the fields before. |
| Player.Player.RestartAtIntro | app.js:735-757 | The fields afterwards are `Navigation.SelectShowReset` of the fields before. |
| Player.Player.ListStories | app.js:125-144 | `playlist.stories` becomes the filtered stories, a subsequence of allStories. |
| Player.Player.SelectShow | app.js:700-758 | selectShow, corrected: the playlist is exactly the chosen show's filter and `currentShow` is the show. No menu change stays recorded, and the navigation state is the selectShow reset with one first-episode move scheduled. |
| Player.Player.CloseShowsMenu | app.js:766-794 | After a follow change: the followed stories and the reset. Otherwise nothing changes. |
| Player.Player.AdvanceDue | app.js:750-757 | The fields afterwards and the outcome are `Navigation.AutoAdvance`'s. |

## Left out

- Fetching the feed, HTTP status handling and JSON decoding: `LoadPlaylist` takes the decoded `stories` array.
- localStorage: the follow set is read as a parameter of `Init` and never written back.
- The clipboard, `history.pushState` and reading `window.location`: the query string is a parameter of `Init`.
- HTML and SVG construction and styling: createSlide, createIntroSlide, createEndSlide, updatePlayButton, buildShowsMenu, updateFilterBanner and the slide animations. They are presentation only.
- openShowsMenu, the menu buttons and the loading and error views. They change no modelled state.
- The `playing`, `waiting` and `pause` element events and `timeupdate`. They only redraw buttons and labels.
- The progress bar's percentages and click-to-seek fractions. They are floating point.
- Timer durations (350 ms and 300 ms). The deferred work happens when the caller fires the event.
- The `console` logging.
- Time passing while an element plays. Positions change only by rewind, forward, seekto and `ended`.
- A rejected `play()` promise, as under an autoplay policy. `play()` is taken to start the element.
- The media-session metadata (title, artwork). Only the action handlers are modelled, as installed from the first story slide shown.
- TimeFormat.FormatTime: works on whole seconds. The flooring of fractional seconds by `Math.floor` is not modelled.
- Navigation.Forward: before metadata, `Math.min(NaN, …)` assigns NaN to `currentTime`. This is modelled as a throw, not as the browser's exact TypeError.
- Navigation.SeekTo: a seek before metadata leaves the position where it was, which is 0 until metadata arrives. The browser's deferred "default playback start position" is not modelled.
- Navigation.TouchEnd: `clientX` and `window.innerWidth * 0.25` are floating point in the browser. The model takes touch positions and the width as integers and compares `4 * diff` with the width, which is exact only for whole-pixel coordinates.
- Player.Player.Valid: the class invariant states only the index bounds and that the playlist is drawn from allStories. The full invariant `Navigation.Valid` and `SoleAudio` are proved of the `Navigation` functions that the methods are proved to follow.
- Player.Player.Init: the init timer's length check is modelled as scheduling the move only when the filtered playlist has stories. `AdvanceDue` re-checks the length when it fires.

## Findings

| source | as written | input that shows it | evidently intended | confidence | as-written member | corrected member |
|---|---|---|---|---|---|---|
| app.js:813-821 | Space plays the current slide's element and makes it `currentAudio` without pausing a different `currentAudio`. | Two stories: tap the intro, pause from the lock screen, ArrowRight, play from the lock screen, then Space. The elements of episodes 0 and 1 both play. | Space acts as the slide's play button (togglePlayback), which pauses any other `currentAudio` first. | medium; not executed | NavigationProofs.SpaceAsWrittenTwoPlaying | NavigationProofs.SpacePressedSole |
| app.js:700-706 | selectShow filters by the show, then calls closeShowsMenu. When a follow change was recorded, that re-filters to all followed stories and discards the show filter. | Stories x of show "a" and y of show "b"; a show followed and unfollowed again in the menu; then select show "a". The playlist is [x, y], not [x]. | The selected show's stories only. | medium; not executed | Catalog.SelectShowAsWrittenKeepsOtherShows | Player.Player.SelectShow |
