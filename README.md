# Memory card game — game-state engine in Dafny

This project models the game engine of a browser pair-matching ("memory") card game. The game loads a
list of card definitions, duplicates it into a deck of pairs, shuffles the deck in place with a
Fisher–Yates loop and lays it out face down. The player flips two cards per turn. A pair with equal
names stays face up, loses its click listener and scores a point. A pair with different names turns
face down again after a delay. Restart reshuffles the same deck and zeroes the score.

Files:

- `wrappers.dfy`: module `Wrappers`, with `Option` and `Result`.
- `deck.dfy`: module `Deck`. It holds the card definitions, the validation and duplication of the loaded
  data (`BuildDeck`), and counting of names (`Occurrences`), with the lemmas that every name appears
  exactly twice and that a permutation keeps the count of each name.
- `shuffle.dfy`: module `Shuffle`. `ShuffleCards` is the in-place loop on an `array`, proved equal to
  the specification function `FisherYates` and a permutation of its input. The random number
  generator is a parameter `rolls: nat -> real`: the k-th draw is `rolls(k)`, a real in [0, 1). The
  index picked is `Pick(roll, current)`, the floor of `roll * current`.
- `game.dfy`: module `Game`. Class `MemoryGame` holds the deck (`cards`, an array shuffled in place)
  and the globals `firstCard`, `secondCard`, `lockBoard` and `score`. Each card on the board is
  identified by its position. Per card there is a `flipped` flag (the CSS class) and a `clickable` flag
  (whether the click listener is still attached). Two more fields say which delayed callback is
  scheduled: `checkPending` (the evaluation timer held in `clickTimeout`) and `unflipPending` (the
  delayed unflip of a mismatched pair). The timer callbacks are the explicit steps `CheckForMatch`
  and `UnflipTimeout`. `Valid()` is the invariant every step keeps:
  - the board is locked exactly while a second card is selected;
  - a second card implies a distinct first card;
  - face-up cards are exactly the matched ones and the selected ones;
  - the number of disabled cards is twice the score;
  - exactly one callback is pending while two cards are selected, and none otherwise.
  `LoadCatDog`, `MismatchScenario` and `MatchScenario` are client methods that play a two-definition
  game through the contracts alone.

The clearTimeout call in the click handler is modelled as an assertion. Given `Restart`'s requirement
that no callback is pending, the assertion proves that no evaluation timer can be pending when that
line is reached, so within the model the call cancels nothing.

The data-validation rule follows the code: the data is rejected only if it is not an array or is
empty. The entries themselves are not checked, so a missing `name` or `image` is not rejected.

## Model

| member | source | states |
|---|---|---|
| Deck.BuildDeck | index.js:17-20 | non-array or empty data is rejected, and only then; otherwise the deck has length 2N, holds the definitions at positions i and N+i, and its multiset is twice the definitions' |
| Deck.DeckDoublesNames | index.js:20 | for any accepted data, every name occurs in the deck exactly twice as often as among the definitions |
| Deck.EachNameTwice | index.js:17-20 | corollary of DeckDoublesNames: with distinct definition names, each name occurs exactly twice in the deck and any other name not at all |
| Deck.OccurrencesOfPermutation | index.js:20-21 | two decks with the same multiset of cards have the same number of cards of every name, so shuffling keeps the pairs |
| Game.LoadedBoardDoublesNames | index.js:16-22 | after a valid load, repeated names or not, the shuffled board holds the definitions' multiset twice and each name twice as often as among the definitions |
| Game.LoadedBoardHasPairs | index.js:16-22 | with distinct definition names, after a valid load the shuffled board holds every definition's name exactly twice and no other name |
| Shuffle.Pick | index.js:35-36 | the random index drawn for `currentIndex` positions lies in [0, currentIndex - 1], that is in [0, currentIndex] after the decrement |
| Shuffle.Swap | index.js:37-39 | the swap exchanges the two positions and leaves every other position alone |
| Shuffle.SwapInPlace | index.js:37-39 | the three-assignment swap through a temporary leaves the array equal to Swap of its old contents |
| Shuffle.FisherYates | index.js:29-41 | the order left by the loop, visiting positions from the last down, keeps the deck's length |
| Shuffle.FisherYatesPermutes | index.js:29-41 | the shuffle keeps the multiset of cards |
| Shuffle.ShortDeckUnchanged | index.js:29-41 | an empty or one-card deck is left unchanged whatever is drawn |
| Shuffle.ShuffleCards | index.js:29-41 | the in-place loop leaves the array equal to FisherYates of its old contents and a permutation of them; it makes exactly `cards.length` draws, every swap in bounds |
| Game.DisableOne | index.js:102-104 | removing the listener of a clickable card adds exactly one disabled card |
| Game.NoneDisabled | index.js:67 | a board where every card has its listener has no disabled card |
| Game.FaceDown | index.js:44-69 | a freshly generated board of n cards has n cards, every one face down (no `flipped` class) |
| Game.AllClickable | index.js:44-69 | a freshly generated board of n cards has every card clickable and none disabled |
| Game.MemoryGame.Load | index.js:2-23 | the page load yields a valid state with score 0, no selection and an unlocked board; invalid data leaves no cards; valid data gives the shuffled duplicated deck, all face down and clickable |
| Game.MemoryGame.Click | index.js:67 | a click on a card whose listener was removed changes nothing; otherwise it behaves as FlipCard |
| Game.MemoryGame.FlipCard | index.js:72-87 | a click while locked or on the first card changes nothing; the first accepted click flips the card and selects it, board unlocked; the second flips and selects it, locks the board and schedules the evaluation; score and listeners are untouched |
| Game.MemoryGame.CheckForMatch | index.js:90-99 | on equal names both selected cards lose their listeners and stay face up, the score goes up by exactly 1 and the turn resets; otherwise nothing changes except that the unflip is scheduled and the board stays locked |
| Game.MemoryGame.DisableCards | index.js:102-106 | exactly the two selected cards lose their listeners and the turn resets |
| Game.MemoryGame.UnflipCards | index.js:109-115 | schedules the delayed unflip and changes nothing else |
| Game.MemoryGame.UnflipTimeout | index.js:110-114 | exactly the two selected cards turn face down, score and listeners unchanged, the turn resets and nothing is pending |
| Game.MemoryGame.ResetBoard | index.js:118-122 | no selection and an unlocked board, nothing else changed |
| Game.MemoryGame.IncreaseScore | index.js:125-128 | the score goes up by exactly 1, nothing else changed |
| Game.MemoryGame.Restart | index.js:131-139 | score 0, no selection, unlocked board, the same array reshuffled in place into a permutation of the previous deck, every card face down and clickable |

## Left out

- Fetching and parsing the card data, the promise chain and the error logging (index.js:11-16, 24-26). This is network I/O. The parsed value is the parameter of `Load`, and the rejection is `BuildDeck`'s `Failure`.
- DOM construction and rendering (index.js:1, 8, 44-69, 127, 135, 137). This covers elements, `innerHTML`, the score's `textContent`, CSS classes and the image fallback. The flags `flipped` and `clickable` stand in for the card elements' state.
- The 300 ms and 1000 ms delays. The callbacks are explicit steps that may run whenever their flag says they are scheduled.
- The distribution of `Math.random`. Its draws are the parameter `rolls`, and only bounds and permutation are proved, not uniformity.
- Game.MemoryGame.Restart: requires that no evaluation or unflip callback is pending. In the code, a restart within 300 ms of a second click leaves the board unlocked while `checkForMatch` is still scheduled. The next accepted click then reaches the `clearTimeout` at index.js:75, which cancels that stale timer. If no card is clicked in time, `checkForMatch` fires and throws on the cleared `firstCard` without changing any state. A restart during the 1000 ms unflip delay cannot be undone that way: that timer is never stored, so it always fires. It then reads whatever selection is current. With none, it throws at line 111. With only a first card, it turns that card face down and throws at line 112, and the card stays selected face down. Line 73 ignores clicks on it until another card is clicked. That card pairs with it, and on a match it stays face down with its listener removed. The model does not capture these interleavings.
- Entries that are not `{name, image}` objects: `Loaded` holds only card records. Such an entry passes the check at index.js:17 and is duplicated at line 20. A `null` or `undefined` entry makes `generateCards` throw at line 48, and the error is logged. `cards` stays filled, and the cards built before that entry stay on the board, clickable. An entry without a `name` property (a number, a string, an object without `name`) does not throw. Its card gets the name `"undefined"`, and all such cards match one another at line 91. The image falls back through `onerror` (56-58) whenever `image` is missing or does not load.
