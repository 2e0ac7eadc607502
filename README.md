# Hangman round engine

This project is a Dafny model of the round engine of the `Hangman` React
component in `hangman-game/src/App.js`. The page holds one state record:

- the selected difficulty;
- the secret word;
- the set of guessed letters;
- the wrong-guess count;
- the status (idle, playing, won, lost);
- the seconds left;
- the win and loss counters of the session.

The page changes that state through five handlers: start a round, guess a
letter, give up (`handleLoss`), one timer second, and select a difficulty.
Small pure pieces sit around them: the difficulty table, the 60-second round
length, upper-casing, the masked word, the win test, the figure stage, the
timer colour and the keyboard filter.

The model has four modules:

- `HangmanRules` (`rules.dfy`) holds the pure pieces as functions, each with a
  contract, and lemmas about them.
- `HangmanRound` (`round.dfy`) is the engine as a state machine on values. It
  has a `Game` record, one transition function per handler (`Start`, `Guess`,
  `Tick`, `Lose`/`GiveUp`, `Select`, `Key`) and the invariant `Inv` of every
  reachable state. Its lemmas state what each transition does and that each
  keeps `Inv`. Over any sequence of page events (`Step`, `Run`), it proves that
  every reachable state keeps `Inv` and that every round begun is counted
  exactly once, as a win or as a loss.
- `HangmanEngine` (`engine.dfy`) is the component as a class. It has one
  field per state cell and one imperative method per handler. Each handler
  (`StartGame`, `HandleGuess`, `Tick`, `GiveUp`, `SelectDifficulty`,
  `HandleKey`) keeps `Valid()` and leaves the object in exactly the state of
  the matching transition function. The internal `HandleLoss` is called in
  the middle of other updates, where `Valid()` need not hold; it promises only
  `State() == Lose(old(State()))`. A small client method drives the object through a
  miss and two give-ups.
- `HangmanScenarios` (`scenarios.dfy`) works through one round: "CAT" on
  Medium, won after one miss.

Inputs the engine does not compute become parameters. The word service's
answer is an `Option<string>` given to start: `None` stands for a failed
request or a failed decoding. The timer is an explicit `Tick` call. A key press
is a key name given to `HandleKey`.

Guards that only the page enforces become preconditions or no-ops:

- Start is offered only outside a round, so `Start` and `StartGame` require
  `status != Playing`. `Key` starts a round only under that same condition.
- The difficulty selector is disabled during a round, so `Select` and
  `SelectDifficulty` require `status != Playing`.
- Give Up is shown only during a round, so `GiveUp` does nothing otherwise.
  `HandleLoss` requires `Playing`, because every caller in the source is in a
  round.
- Only letters reach `handleGuess`, from the A–Z buttons and the
  `/^[a-zA-Z]$/` key filter. So `Guess` and `HandleGuess` require an ASCII
  letter. At the level of event traces (`Step`), a guess of a non-letter is
  ignored.

The win test uses the intended sequential meaning. The code reads `guessed`
from the render before the update, and its `|| ch === letter` makes up for
that. So the model checks coverage of `guessed ∪ {letter}`, which is what the
code computes.

Only the space is excluded from the characters a round must reveal. Any other
character of the secret, letter or not, is a target, as in the code. A secret
holding a non-letter such as `-` can therefore never be won; it can only be
lost.

The page checks that no round is on when start is requested (App.js:259,
App.js:308). The reset itself happens only after the word request has been
answered (App.js:207-218). The model treats start as one atomic step taken
outside a round, so it requires `status != Playing`. Two starts that overlap
the same request are not modelled; see "## Left out".

## Model

| member | source | states |
|---|---|---|
| HangmanRules.SettingsOf | hangman-game/src/App.js:8-12 | every profile has 6 to 8 lives and a minimum word length not above its maximum |
| HangmanRules.MaxWrong | hangman-game/src/App.js:186-187 | the wrong-guess limit is the selected profile's lives, at least one |
| HangmanRules.HarderHasFewerLives | hangman-game/src/App.js:8-12 | a harder profile has strictly fewer lives and strictly longer advisory word bounds |
| HangmanRules.ChooseSecret | hangman-game/src/App.js:205-214 | the secret is the fetched word when it is non-empty, otherwise "developer"; it is never empty |
| HangmanRules.LettersAreTheAlphabet | hangman-game/src/App.js:24-26 | the letter buttons are the 26 upper-case ASCII letters, in strictly increasing order, and nothing else |
| HangmanRules.ToUpper | hangman-game/src/App.js:223 | a character maps to an upper-case letter exactly when it is an ASCII letter; the result is never lower case; non-lower-case characters are unchanged |
| HangmanRules.ToUpperIgnoresCase | hangman-game/src/App.js:223 | two letters upper-case to the same letter exactly when they are equal or differ only in case |
| HangmanRules.Normalize | hangman-game/src/App.js:189 | the normalised secret has the secret's length, upper-cases each position, holds no lower-case letter and has its spaces exactly where the secret has them |
| HangmanRules.NormalizeIdempotent | hangman-game/src/App.js:189 | normalising twice is normalising once |
| HangmanRules.WithoutSpaces | hangman-game/src/App.js:240 | removing spaces keeps exactly the non-space characters and never lengthens the word |
| HangmanRules.LettersOnly | hangman-game/src/App.js:239-241 | the target set holds exactly the characters of the word other than the space |
| HangmanRules.AllFoundIsCover | hangman-game/src/App.js:242-244 | the win test holds exactly when the targets are covered by the earlier guesses plus the new letter |
| HangmanRules.Spaced | hangman-game/src/App.js:195 | joining with single spaces gives length 2n-1 (0 for none), the characters at even positions in order and spaces at odd positions |
| HangmanRules.Display | hangman-game/src/App.js:191-196 | the masked word has length twice the secret length minus one; each even position shows a space, the guessed character or a blank; odd positions are spaces |
| HangmanRules.DisplayAllGuessed | hangman-game/src/App.js:191-196 | once every target is guessed the masked word equals the whole word spaced out |
| HangmanRules.NoBlankIffAllGuessed | hangman-game/src/App.js:191-196 | the masked word has no blank exactly when every target is guessed (both directions) |
| HangmanRules.FigureStage | hangman-game/src/App.js:29 | the stage lies in 0..7, equals the count inside that range and is clamped outside it |
| HangmanRules.FigureStageMonotone | hangman-game/src/App.js:29 | more wrong guesses never draw less of the figure |
| HangmanRules.TimerColorOf | hangman-game/src/App.js:263-268 | green above 40 s, yellow above 20, orange above 10, red otherwise, each an if-and-only-if |
| HangmanRules.TimerColorMonotone | hangman-game/src/App.js:263-268 | less time left never gives a calmer colour |
| HangmanRules.KeyCommandOf | hangman-game/src/App.js:257-260 | a key is forwarded as a guess exactly when it is a single ASCII letter; Enter starts a round exactly when none is being played |
| HangmanRound.InitialInv | hangman-game/src/App.js:177-184 | the initial state (Medium, idle, no guesses, 60 s, no wins or losses) satisfies the invariant |
| HangmanRound.StartResets | hangman-game/src/App.js:205-219 | starting empties the guesses, zeroes the wrong count, sets playing and 60 s whatever the previous outcome, keeps counters and difficulty, and has a non-empty secret |
| HangmanRound.StartInv | hangman-game/src/App.js:205-219 | starting a round establishes the invariant |
| HangmanRound.GuessWhenNotPlaying | hangman-game/src/App.js:221-222 | a guess outside a round changes nothing |
| HangmanRound.GuessRepeated | hangman-game/src/App.js:223-224 | a letter already guessed, in either case, changes nothing, so a miss is never counted twice |
| HangmanRound.GuessIdempotent | hangman-game/src/App.js:221-230 | guessing the same letter twice is guessing it once |
| HangmanRound.GuessMiss | hangman-game/src/App.js:226-237 | a new letter absent from the word is added, raises the wrong count (and the misses) by exactly one, loses the round exactly at the limit with one loss counted, and changes nothing else |
| HangmanRound.GuessHit | hangman-game/src/App.js:238-249 | a new letter of the word is added, leaves the wrong count alone, and wins the round (one win counted) exactly when the targets are covered by the guesses plus that letter |
| HangmanRound.GuessInv | hangman-game/src/App.js:221-250 | a guess keeps the invariant: wrong count equals the number of missed letters, below the limit while playing; a won round has every target guessed |
| HangmanRound.TickSteps | hangman-game/src/App.js:198-203 | outside a round a tick changes nothing; in a round it takes one second off (never below 0) and loses the round, with one loss, exactly when 0 is reached |
| HangmanRound.TickInv | hangman-game/src/App.js:198-203 | a tick keeps the invariant |
| HangmanRound.CountdownExpires | hangman-game/src/App.js:198-203 | n ticks on a round with t seconds left (n ≤ t) leave t-n seconds; the round is lost, with one loss, exactly when n = t |
| HangmanRound.TicksWhenNotPlaying | hangman-game/src/App.js:199 | any number of ticks outside a round changes nothing |
| HangmanRound.FreshRoundTimesOut | hangman-game/src/App.js:198-219 | a fresh round is still on after 59 ticks, lost with one loss after 60, and a 61st tick changes nothing |
| HangmanRound.GiveUpOnce | hangman-game/src/App.js:252-255 | giving up in a round loses it with one loss; outside a round it does nothing; giving up twice equals giving up once |
| HangmanRound.GiveUpInv | hangman-game/src/App.js:252-255 | giving up keeps the invariant |
| HangmanRound.SelectInv | hangman-game/src/App.js:296-298 | choosing a difficulty between rounds keeps the invariant, sets the new limit and changes nothing else |
| HangmanRound.KeyInv | hangman-game/src/App.js:257-260 | a key press keeps the invariant |
| HangmanRound.FinishedShowsWord | hangman-game/src/App.js:336-338 | a won round has no blank left in the masked word; a finished round shows the whole word |
| HangmanRound.PlayingStageExact | hangman-game/src/App.js:29 | during a round the figure stage equals the wrong count, never clamped |
| HangmanRound.StepInv | hangman-game/src/App.js:198-260 | every page event keeps the invariant |
| HangmanRound.StepCounts | hangman-game/src/App.js:245-255 | an event moves a counter only when it ends a round, by one, the win counter for a win and the loss counter for a loss; a round begun starts with no guesses |
| HangmanRound.RunInv | hangman-game/src/App.js:198-260 | any sequence of page events keeps the invariant |
| HangmanRound.RunCounts | hangman-game/src/App.js:233-255 | over any event sequence, wins plus losses plus the round still on grow by exactly the rounds begun, and neither counter decreases |
| HangmanRound.ReachableInv | hangman-game/src/App.js:176-260 | every state reachable from the initial one keeps the invariant, and its wins plus losses plus the round on equal the rounds begun |
| HangmanScenarios.CatIsWon | hangman-game/src/App.js:221-250 | on "CAT", C leaves 0 wrong, Z makes 1, A keeps 1, T wins with one win counted |
| HangmanEngine.Hangman.constructor | hangman-game/src/App.js:177-184 | the object starts in the initial state, which is valid |
| HangmanEngine.Hangman.StartGame | hangman-game/src/App.js:205-219 | the object's new state is the started round; guesses, wrong count, status and timer are reset; counters and difficulty are kept |
| HangmanEngine.Hangman.HandleLoss | hangman-game/src/App.js:252-255 | the round becomes lost and the loss counter grows by one |
| HangmanEngine.Hangman.GiveUp | hangman-game/src/App.js:316-317 | the new state is the give-up transition of the old one; outside a round nothing changes |
| HangmanEngine.Hangman.HandleGuess | hangman-game/src/App.js:221-250 | the new state is the guess transition of the old one; outside a round or for a repeated letter nothing changes; timer, secret and difficulty are kept |
| HangmanEngine.Hangman.Tick | hangman-game/src/App.js:199-201 | the new state is the tick transition of the old one; outside a round nothing changes |
| HangmanEngine.Hangman.SelectDifficulty | hangman-game/src/App.js:294-299 | the new state is the old one with the chosen difficulty, and it stays valid |
| HangmanEngine.Hangman.HandleKey | hangman-game/src/App.js:257-260 | the new state is the key transition of the old one, and it stays valid |

## Left out

- The random-word request and its JSON decoding (App.js:207-210) are left out. They are I/O. The answer is a parameter of start.
- HangmanRound.Start / HangmanEngine.Hangman.StartGame: overlapping starts are not modelled. The page checks `status !== "playing"` when start is requested (App.js:259, App.js:308), but the reset lands only after the awaited request (App.js:207-218). A second start requested before the first one's request is answered passes the same check. When it lands in the middle of the round, it replaces the secret, empties the guesses, zeroes the wrong count and restarts the timer, and no loss is counted for the abandoned round. The model's start is one atomic step that requires `status != Playing`, so this case is out of reach. The round counting of `RunCounts` and `ReachableInv` therefore covers only starts that do not overlap.
- Values of the answer other than strings are left out. The source passes them through `String(...)`.
- React's scheduling is left out: `useState` batching, stale closures, `useMemo` and the `useEffect` that runs `setInterval`/`clearInterval` (App.js:16-22, 198-203). These are framework behaviour. One timer second is an explicit `Tick`: the decrement, then the expiry check.
- `handleLoss` is called inside the `setWrong` updater. Under React's development-mode double invocation it could run twice. This is framework behaviour; the model counts it once.
- The window keydown listener wiring (App.js:16-22, 257) is left out. Only the filter and the dispatch remain.
- All JSX, SVG and Tailwind rendering is left out: figure geometry, layout, letter-button colours and disabled states, the "wrong / max" text. Only the stage clamp, the displayed word and the timer colour are modelled.
- HangmanRules.ToUpper: covers ASCII letters only. JavaScript's `toUpperCase` also maps non-ASCII letters (for example é to É). The model leaves them unchanged, because there is no Unicode case table here.
- HangmanRules.Normalize: the secret is taken to be ASCII. JavaScript's `split("")` and `includes` work on UTF-16 code units, and `toUpperCase` can change a string's length ("ß" becomes "SS"). A Dafny `string` is a sequence of Unicode scalars, and the model keeps the length. So `Normalize`'s length clause and `Display`'s length of twice the secret length minus one hold for ASCII secrets, not for every JavaScript string.
- The profiles' word-length bounds are modelled as data only. Nothing in the component uses them.
