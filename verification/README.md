# Swipe deck and match page, modelled in Dafny

A model of the decision logic of a small "swipe to say yes" web app, taken
out of its React and DOM wrappers:

- **Gesture** — the drag classifiers. The swipe page's `handleDragEnd` and the
  reusable `SwipeCard`'s `onDragEnd` both turn a horizontal release offset into
  `right` (offset > 100), `left` (offset < -100) or nothing.
- **Deck** — the swipe page as a state machine. It has a fixed four-card
  profile deck whose last card is final. The state is the current `index`, the
  last `dragDirection`, the emoji effect list and the timers still to fire. A
  swipe on an ordinary card schedules an advance to
  `min(index + 1, length - 1)`. On the final card, `right` or `super` navigates
  to `/match?t=<now>`. On the final card, `left` shows a warning, clears
  `dragDirection` and leaves the index where it is. Every swipe spawns an emoji
  burst.
- **EmojiQueue** — `spawnEmojis`: append `count` tokens, and later drop the
  first `count` (`prev.slice(count)`).
- **Decimal** — how the navigation writes the clock value into the URL, and
  how the match page reads it back.
- **MatchTime** — the match page's `matchedAt`: `new Date(Number(t))` when the
  `t` parameter is present and non-empty, otherwise the current time.
- **Share** — the match page's `saveOrShare`. It captures the card and makes a
  PNG blob. It offers the blob to the Web Share API when `canShare` accepts it,
  and otherwise downloads `match.png` through a temporary object URL. A failed
  share also ends in that download. The browser's answers are inputs, and the
  calls the function makes into the browser form its effect trace.

Timers are explicit steps. The 300 ms advance callback is `Deck.AdvanceFires`
and the 2000 ms emoji expiry is `Deck.ExpiryFires`. `Deck.Run` allows them to
interleave with user input in any order. The clock (`Date.now()`) is a
parameter of each user step.

Because the index update is the functional form `prev => min(prev + 1, …)`,
two swipes on the same card before its callback fires move the deck two
cards on. `Deck.DoubleSwipeSkipsCard` states this as-written behaviour. The
`min` cap keeps the index on a card however many callbacks pile up
(`Deck.RunPreservesValid`), and the final card is never left
(`Deck.FinalCardIsSticky`).

In `saveOrShare`, share errors are not told apart: every failure of
`navigator.share`, a cancelled share sheet included, falls back to the
download (src/app/match/page.tsx:66-68). The capture uses `scale: 2`
(src/app/match/page.tsx:55), and the file is `match.png` as `image/png`
(src/app/match/page.tsx:58, 74).

## Model

| member | source | states |
|---|---|---|
| Gesture.ClassifyDrag | src/app/swipe/page.tsx:30-34 | the page decides `right` iff offset > 100, `left` iff offset < -100, nothing iff the offset is in [-100, 100], and never `super` |
| Gesture.CardDragEnd | src/components/SwipeCard.tsx:14-17 | one release makes at most one `onSwipe` call: `right` iff offset > 100, `left` iff offset < -100, none iff the offset is in [-100, 100] |
| Gesture.CardAgreesWithPage | src/components/SwipeCard.tsx:15-16 | on every offset the card calls `onSwipe` exactly when the swipe page's `handleDragEnd` calls `handleSwipe`, and with the same direction |
| Gesture.CardNeverBothDirections | src/components/SwipeCard.tsx:14-17 | one release never reports both `left` and `right` |
| Decimal.ParseShow | src/app/swipe/page.tsx:57 | the decimal spelling of a clock value reads back as the same value |
| EmojiQueue.Spawn | src/app/swipe/page.tsx:36-38 | a spawn appends exactly `count` tokens showing `symbol` after the existing tokens, which are unchanged |
| EmojiQueue.Expire | src/app/swipe/page.tsx:39-41 | an expiry drops exactly the first min(count, length) tokens and keeps the rest in order |
| EmojiQueue.SpawnFlatten | src/app/swipe/page.tsx:36-38 | spawning a burst onto the tokens of earlier bursts gives the tokens of all the bursts in spawn order |
| EmojiQueue.ExpireOldestBurst | src/app/swipe/page.tsx:39-41 | when the list is the tokens of pending bursts, an expiry removes exactly the oldest burst's tokens |
| Deck.ProfilesWellFormed | src/app/swipe/page.tsx:15-20 | the deck has four cards, exactly one is final, and it is the last |
| Deck.MatchUrl | src/app/swipe/page.tsx:57 | the navigation target is `/match?t=` followed by a `t` that parses back to the clock value |
| Deck.Swipe | src/app/swipe/page.tsx:44-74 | a swipe never moves the index itself and always spawns its direction's burst; it schedules an advance iff the card is ordinary, navigates iff the card is final and the direction is not `left`, and shows the warning and clears the direction iff the card is final and the direction is `left` |
| Deck.AdvanceFires | src/app/swipe/page.tsx:69-72 | the deferred callback never takes the index off the deck; it moves the index on by at most one card, and leaves it in place iff the last card already shows; it clears the direction, uses up exactly one pending advance, leaves the emoji list and the expiry timers alone, and keeps a valid state valid |
| Deck.ExpiryFires | src/app/swipe/page.tsx:39-41 | in a valid state the oldest expiry timer removes exactly the tokens of the oldest burst and keeps the state valid; it never touches the index, the direction or the pending advances |
| Deck.TimersCommute | src/app/swipe/page.tsx:39-41 | when an advance callback and an emoji expiry are both due, firing them in either order gives the same state |
| Deck.HandleInput | src/app/swipe/page.tsx:151-174 | a drag swipes iff it is outside the dead zone; a button swipes iff the buttons are shown, that is, off the final card, and then with its own direction; on the final card only a drag decides |
| Deck.Next | src/app/swipe/page.tsx:68-72 | any single step keeps the index on a card and never decreases it |
| Deck.Run | src/app/swipe/page.tsx:68-72 | any sequence of steps keeps the index on a card and never decreases it |
| Deck.NextPreservesValid | src/app/swipe/page.tsx:36-73 | each step keeps the index on a card and the emoji list equal to the tokens of the unexpired bursts |
| Deck.RunPreservesValid | src/app/swipe/page.tsx:36-73 | every state reachable from a valid state is valid |
| Deck.EmojiCountIsPendingTotal | src/app/swipe/page.tsx:36-42 | in a valid state the number of emojis shown is the sum of the counts of the bursts whose expiry timers have not fired |
| Deck.InitValid | src/app/swipe/page.tsx:23-25 | the initial state (card 0, no direction, no emojis) is valid |
| Deck.OrdinaryCardAdvancesByOne | src/app/swipe/page.tsx:68-72 | on an ordinary card, every direction followed by its callback moves the index by exactly one |
| Deck.FinalCardIsSticky | src/app/swipe/page.tsx:55-67 | once the final card shows, no sequence of inputs or timers moves the index |
| Deck.RepeatedRejectsNoDrift | src/app/swipe/page.tsx:58-66 | any number of left drags on the final card each emit the warning and leave the index, the direction and the pending advances unchanged; only sad-face bursts accumulate |
| Deck.WholeDeckScenario | src/app/swipe/page.tsx:30-73 | drags of 150, -150 and 200, each followed by its callback, then a right drag give three advances and one navigation |
| Deck.DoubleSwipeSkipsCard | src/app/swipe/page.tsx:69-72 | two swipes before the first callback fires move the deck from card 0 to card 2 |
| MatchTime.NumberOf | src/app/match/page.tsx:17 | a digit string reads as its value, with a leading `-` as its negation and a leading `+` as itself; the empty string reads as 0, and anything else as NaN |
| MatchTime.DateOf | src/app/match/page.tsx:17 | a date is valid iff its time value is a number within ±8.64e15 ms, and it then holds that value |
| MatchTime.MatchedAt | src/app/match/page.tsx:14-17 | an absent or empty `t` gives the current time; a present `t` gives only a valid date within the time range or the invalid date |
| MatchTime.ClockIgnoredWhenTPresent | src/app/match/page.tsx:17 | a non-empty `t` gives `new Date(Number(t))` whatever the clock reads |
| MatchTime.MatchReadsSwipeMoment | src/app/match/page.tsx:14-17 | the `t` written by the swipe page's navigation is shown as that same moment |
| Share.SaveOrShare | src/app/match/page.tsx:53-79 | nothing happens without a target; nothing is delivered without a blob; the file is shared iff `canShare` accepts it and `share` resolves; otherwise it is downloaded |
| Share.CaptureComesFirst | src/app/match/page.tsx:54-56 | with a target, the page is captured at scale 2 and made into a blob before anything else |
| Share.NoBlobNoDelivery | src/app/match/page.tsx:54-57 | without a target or without a blob, neither `share` nor a download happens |
| Share.ShareCalledIff | src/app/match/page.tsx:61-64 | `share` is called iff there is a blob and `canShare` exists and accepts the file |
| Share.SharedMeansNoDownload | src/app/match/page.tsx:62-65 | a resolved share ends the operation with no download |
| Share.DownloadEndsWithRevoke | src/app/match/page.tsx:71-78 | every download creates the object URL, clicks the anchor and then revokes the URL |
| Share.ObjectUrlsBalanced | src/app/match/page.tsx:71-78 | on every path, object URLs created equal object URLs revoked |
| Share.OnlyMatchPng | src/app/match/page.tsx:58-74 | every file queried, shared or downloaded is `match.png` as `image/png` |
| Share.OutcomeMatchesEffects | src/app/match/page.tsx:53-79 | the reported outcome is the one the browser calls show: a download click means downloaded, otherwise a share call means shared |

## Left out

- `src/app/page.tsx` (intro video, then navigation to the swipe page) has no decision logic.
- Rendering, framer-motion animation, confetti, `spawnHearts`, audio autoplay and the warning dialog's styling are presentation. The warning is the `Rebuff` event.
- The `superLikeActive` flag and its 1500 ms timer only show the "SUPER LIKE" badge. They never affect the index, navigation or effects.
- Emoji ids (`Math.random()`) and positions are random React keys and styling. Tokens are modelled by their symbol alone.
- Timer durations are not modelled. `Deck.Run` lets advance and expiry callbacks fire in any order relative to each other and to user input. Within each kind they fire in scheduling order, because each kind has a single fixed delay.
- `html2canvas`, `toBlob`, `canShare`, `share`, `createObjectURL` and the anchor click are browser calls. They appear only as the inputs in `Share.Platform` and the effects in `Share.Effect`. A rejection of `html2canvas` itself and an exception in the download path are unhandled in the code and are not modelled.
- Drag offsets are real numbers. A NaN offset is not modelled; the code would treat it as no decision.
- MatchTime.NumberOf: reads only an optional sign followed by ASCII digits, and the empty string. JavaScript's `Number` also accepts surrounding whitespace, fractions, exponents and hex forms, which this model reads as NaN. The swipe page only ever writes plain digits.
- Clock values are integral milliseconds. `toLocaleString()` formatting is not modelled.
