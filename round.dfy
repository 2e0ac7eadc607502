/** The round engine as a state machine on values: the game record, its five
    transitions (start, guess, tick, give up, select difficulty) and the key
    handler, the invariant every reachable state keeps, and the properties of
    each transition. The class in HangmanEngine is proved to follow these. */
module HangmanRound {
  import opened HangmanRules

  datatype Status = Idle | Playing | Won | Lost

  /** Everything the component keeps: the selected difficulty, the secret as
      it was received, the guessed letters, the wrong-guess count, the status,
      the seconds left and the two session counters. */
  datatype Game = Game(
    difficulty: Difficulty,
    secret: string,
    guessed: set<char>,
    wrong: nat,
    status: Status,
    timeLeft: nat,
    wins: nat,
    losses: nat)
  {
    /** The upper-cased secret every rule works on. */
    function Word(): string { Normalize(secret) }

    function Limit(): nat { MaxWrong(difficulty) }
  }

  /** The state before the first round. */
  const Initial: Game := Game(DefaultDifficulty, "", {}, 0, Idle, TimerDuration, 0, 0)

  /** The guessed letters that do not occur in the word. */
  function Misses(word: string, guessed: set<char>): set<char>
  {
    set c | c in guessed && c !in word
  }

  /** The invariant of every reachable state. */
  predicate Inv(g: Game)
  {
    && (forall c :: c in g.guessed ==> IsUpperLetter(c))
    && g.wrong == |Misses(g.Word(), g.guessed)|
    && g.timeLeft <= TimerDuration
    && (g.status == Playing ==> g.wrong < g.Limit() && 0 < g.timeLeft)
    && (g.status == Won ==> LettersOnly(g.Word()) <= g.guessed)
  }

  lemma InitialInv()
    ensures Inv(Initial)
  {
  }

  // ---------------------------------------------------------------------------
  // Transitions
  // ---------------------------------------------------------------------------

  /** Start a round with the word service's answer. */
  function Start(g: Game, fetched: Option<string>): Game
    requires g.status != Playing
  {
    g.(secret := ChooseSecret(fetched), guessed := {}, wrong := 0,
       status := Playing, timeLeft := TimerDuration)
  }

  /** End the round as lost and count the loss. */
  function Lose(g: Game): Game
  {
    g.(status := Lost, losses := g.losses + 1)
  }

  /** The give-up control: it exists only while a round is played. */
  function GiveUp(g: Game): Game
  {
    if g.status == Playing then Lose(g) else g
  }

  /** Guess one letter, in either case. */
  function Guess(g: Game, letter: char): Game
    requires IsAsciiLetter(letter)
  {
    if g.status != Playing then g
    else
      var l := ToUpper(letter);
      if l in g.guessed then g
      else
        var next := g.(guessed := g.guessed + {l});
        if l !in g.Word() then
          var missed := next.(wrong := g.wrong + 1);
          if missed.wrong >= g.Limit() then Lose(missed) else missed
        else if AllFound(g.Word(), g.guessed, l) then
          next.(status := Won, wins := g.wins + 1)
        else next
  }

  /** One second elapses: the countdown steps down (never below zero), and a
      countdown at zero loses the round. */
  function Tick(g: Game): Game
  {
    if g.status != Playing then g
    else
      var next := g.(timeLeft := if g.timeLeft > 0 then g.timeLeft - 1 else 0);
      if next.timeLeft <= 0 then Lose(next) else next
  }

  /** Choose the difficulty of the next round. */
  function Select(g: Game, d: Difficulty): Game
    requires g.status != Playing
  {
    g.(difficulty := d)
  }

  /** A key press: a letter guesses, Enter starts a round when none is on. */
  function Key(g: Game, key: string, fetched: Option<string>): Game
  {
    match KeyCommandOf(key, g.status == Playing)
    case GuessKey(c) => Guess(g, c)
    case StartKey => Start(g, fetched)
    case NoCommand => g
  }

  /** The word as shown: spelled out in full once lost, masked otherwise. */
  function Shown(g: Game): string
  {
    if g.status == Lost then Spaced(g.Word()) else Display(g.Word(), g.guessed)
  }

  // ---------------------------------------------------------------------------
  // Start
  // ---------------------------------------------------------------------------

  /** Starting resets the round whatever the previous one's outcome, keeps the
      counters and the difficulty, and always has a non-empty secret. */
  lemma StartResets(g: Game, fetched: Option<string>)
    requires g.status != Playing
    ensures var r := Start(g, fetched);
      && r.guessed == {} && r.wrong == 0 && r.status == Playing
      && r.timeLeft == 60 && r.secret != []
      && r.wins == g.wins && r.losses == g.losses && r.difficulty == g.difficulty
      && r.Word() == Normalize(ChooseSecret(fetched))
  {
  }

  lemma StartInv(g: Game, fetched: Option<string>)
    requires g.status != Playing
    ensures Inv(Start(g, fetched))
  {
  }

  // ---------------------------------------------------------------------------
  // Guess
  // ---------------------------------------------------------------------------

  /** Outside a round a guess changes nothing. */
  lemma GuessWhenNotPlaying(g: Game, letter: char)
    requires IsAsciiLetter(letter) && g.status != Playing
    ensures Guess(g, letter) == g
  {
  }

  /** A letter guessed before, in either case, changes nothing. */
  lemma GuessRepeated(g: Game, letter: char)
    requires IsAsciiLetter(letter) && ToUpper(letter) in g.guessed
    ensures Guess(g, letter) == g
  {
  }

  lemma GuessIdempotent(g: Game, letter: char)
    requires IsAsciiLetter(letter)
    ensures Guess(Guess(g, letter), letter) == Guess(g, letter)
  {
  }

  /** A new letter that is not in the word is recorded, costs exactly one
      life, and loses the round (counting one loss) when no life is left. */
  lemma GuessMiss(g: Game, letter: char)
    requires Inv(g) && IsAsciiLetter(letter) && g.status == Playing
    requires ToUpper(letter) !in g.guessed && ToUpper(letter) !in g.Word()
    ensures var r := Guess(g, letter);
      && r.guessed == g.guessed + {ToUpper(letter)}
      && r.wrong == g.wrong + 1
      && |Misses(r.Word(), r.guessed)| == |Misses(g.Word(), g.guessed)| + 1
      && (r.status == Lost <==> r.wrong >= g.Limit())
      && (r.status == Playing <==> r.wrong < g.Limit())
      && r.losses == g.losses + (if r.status == Lost then 1 else 0)
      && r.wins == g.wins
      && r.secret == g.secret && r.timeLeft == g.timeLeft && r.difficulty == g.difficulty
  {
    var l := ToUpper(letter);
    assert Misses(g.Word(), g.guessed + {l}) == Misses(g.Word(), g.guessed) + {l};
  }

  /** A new letter of the word costs nothing, and wins the round (counting one
      win) exactly when it completes the word's required characters. */
  lemma GuessHit(g: Game, letter: char)
    requires IsAsciiLetter(letter) && g.status == Playing
    requires ToUpper(letter) !in g.guessed && ToUpper(letter) in g.Word()
    ensures var r := Guess(g, letter);
      && r.guessed == g.guessed + {ToUpper(letter)}
      && r.wrong == g.wrong
      && |Misses(r.Word(), r.guessed)| == |Misses(g.Word(), g.guessed)|
      && (r.status == Won <==> LettersOnly(g.Word()) <= g.guessed + {ToUpper(letter)})
      && (r.status == Playing <==> !(LettersOnly(g.Word()) <= g.guessed + {ToUpper(letter)}))
      && r.wins == g.wins + (if r.status == Won then 1 else 0)
      && r.losses == g.losses
      && r.secret == g.secret && r.timeLeft == g.timeLeft && r.difficulty == g.difficulty
  {
    var l := ToUpper(letter);
    assert Misses(g.Word(), g.guessed + {l}) == Misses(g.Word(), g.guessed);
    AllFoundIsCover(g.Word(), g.guessed, l);
  }

  lemma GuessInv(g: Game, letter: char)
    requires Inv(g) && IsAsciiLetter(letter)
    ensures Inv(Guess(g, letter))
  {
    var l := ToUpper(letter);
    if g.status == Playing && l !in g.guessed {
      if l !in g.Word() {
        GuessMiss(g, letter);
      } else {
        GuessHit(g, letter);
      }
    }
  }

  // ---------------------------------------------------------------------------
  // Tick, give up, select
  // ---------------------------------------------------------------------------

  /** The countdown moves only while a round is played, one second at a time,
      never below zero; reaching zero loses the round with one loss counted. */
  lemma TickSteps(g: Game)
    ensures g.status != Playing ==> Tick(g) == g
    ensures g.status == Playing ==>
      var r := Tick(g);
      && r.timeLeft == (if g.timeLeft > 0 then g.timeLeft - 1 else 0)
      && (r.status == Lost <==> r.timeLeft == 0)
      && (r.status == Playing <==> r.timeLeft > 0)
      && r.losses == g.losses + (if r.timeLeft == 0 then 1 else 0)
      && r.wins == g.wins && r.guessed == g.guessed && r.wrong == g.wrong
  {
  }

  lemma TickInv(g: Game)
    requires Inv(g)
    ensures Inv(Tick(g))
  {
  }

  /** Apply `n` ticks. */
  function Ticks(g: Game, n: nat): Game
    decreases n
  {
    if n == 0 then g else Ticks(Tick(g), n - 1)
  }

  /** A round left alone is lost exactly when its countdown runs out, after as
      many ticks as it had seconds left, with a single loss counted. */
  lemma {:induction false} CountdownExpires(g: Game, n: nat)
    requires Inv(g) && g.status == Playing && n <= g.timeLeft
    ensures var r := Ticks(g, n);
      && r.timeLeft == g.timeLeft - n
      && (r.status == Playing <==> n < g.timeLeft)
      && (r.status == Lost <==> n == g.timeLeft)
      && r.losses == g.losses + (if n == g.timeLeft then 1 else 0)
      && r.wins == g.wins && r.guessed == g.guessed && r.wrong == g.wrong
    decreases n
  {
    if n > 0 {
      var t := Tick(g);
      if g.timeLeft == 1 {
        assert Ticks(t, n - 1) == t;
      } else {
        TickInv(g);
        CountdownExpires(t, n - 1);
      }
    }
  }

  /** Once a round is over, further ticks change nothing. */
  lemma {:induction false} TicksWhenNotPlaying(g: Game, n: nat)
    requires g.status != Playing
    ensures Ticks(g, n) == g
    decreases n
  {
    if n > 0 {
      TicksWhenNotPlaying(Tick(g), n - 1);
    }
  }

  /** A fresh round is lost on its sixtieth second, and the sixty-first tick
      does nothing more. */
  lemma FreshRoundTimesOut(g: Game, fetched: Option<string>)
    requires g.status != Playing
    ensures Ticks(Start(g, fetched), 59).status == Playing
    ensures Ticks(Start(g, fetched), 60).status == Lost
    ensures Ticks(Start(g, fetched), 60).losses == g.losses + 1
    ensures Ticks(Start(g, fetched), 61) == Ticks(Start(g, fetched), 60)
  {
    var s := Start(g, fetched);
    StartInv(g, fetched);
    CountdownExpires(s, 59);
    CountdownExpires(s, 60);
    var e := Ticks(s, 60);
    TicksWhenNotPlaying(e, 1);
    TicksSplit(s, 60, 1);
  }

  lemma {:induction false} TicksSplit(g: Game, m: nat, n: nat)
    ensures Ticks(g, m + n) == Ticks(Ticks(g, m), n)
    decreases m
  {
    if m > 0 {
      TicksSplit(Tick(g), m - 1, n);
    }
  }

  /** Giving up loses a round in play, counting one loss; otherwise it does
      nothing, so giving up twice counts only one loss. */
  lemma GiveUpOnce(g: Game)
    ensures g.status == Playing ==>
      GiveUp(g).status == Lost && GiveUp(g).losses == g.losses + 1 && GiveUp(g).wins == g.wins
    ensures g.status != Playing ==> GiveUp(g) == g
    ensures GiveUp(GiveUp(g)) == GiveUp(g)
  {
  }

  lemma GiveUpInv(g: Game)
    requires Inv(g)
    ensures Inv(GiveUp(g))
  {
  }

  /** Choosing the difficulty between rounds changes nothing else and keeps
      the invariant; while playing it is not offered, because a lower limit
      could fall below the wrong-guess count of the round on. */
  lemma SelectInv(g: Game, d: Difficulty)
    requires Inv(g) && g.status != Playing
    ensures Inv(Select(g, d))
    ensures Select(g, d).Limit() == MaxWrong(d)
    ensures Select(g, d).(difficulty := g.difficulty) == g
  {
  }

  lemma KeyInv(g: Game, key: string, fetched: Option<string>)
    requires Inv(g)
    ensures Inv(Key(g, key, fetched))
  {
    match KeyCommandOf(key, g.status == Playing)
    case GuessKey(c) => GuessInv(g, c);
    case StartKey => StartInv(g, fetched);
    case NoCommand =>
  }

  // ---------------------------------------------------------------------------
  // Derived views of a valid state
  // ---------------------------------------------------------------------------

  /** A round is won only with no blank left in the masked word, and a round
      that is over shows the whole word. */
  lemma FinishedShowsWord(g: Game)
    requires Inv(g) && (g.status == Won || g.status == Lost)
    ensures g.status == Won ==> '_' !in Display(g.Word(), g.guessed)
    ensures Shown(g) == Spaced(g.Word())
  {
  }

  /** While a round is on the figure is never clamped: it shows exactly the
      wrong-guess count. */
  lemma PlayingStageExact(g: Game)
    requires Inv(g) && g.status == Playing
    ensures FigureStage(g.wrong) == g.wrong
  {
  }

  // ---------------------------------------------------------------------------
  // Event traces
  // ---------------------------------------------------------------------------

  /** What the page can deliver. A control that is not offered in the current
      state (start or difficulty while playing) does nothing, and neither does
      a guess of a non-letter. */
  datatype Event =
    | StartEvent(fetched: Option<string>)
    | GuessEvent(letter: char)
    | TickEvent
    | GiveUpEvent
    | SelectEvent(d: Difficulty)
    | KeyEvent(key: string, keyFetched: Option<string>)

  function Step(g: Game, e: Event): Game
  {
    match e
    case StartEvent(f) => if g.status != Playing then Start(g, f) else g
    case GuessEvent(c) => if IsAsciiLetter(c) then Guess(g, c) else g
    case TickEvent => Tick(g)
    case GiveUpEvent => GiveUp(g)
    case SelectEvent(d) => if g.status != Playing then Select(g, d) else g
    case KeyEvent(k, f) => Key(g, k, f)
  }

  function Run(g: Game, es: seq<Event>): Game
    decreases |es|
  {
    if es == [] then g else Run(Step(g, es[0]), es[1..])
  }

  function Active(g: Game): nat
  {
    if g.status == Playing then 1 else 0
  }

  /** Whether an event begins a round. */
  predicate Begins(g: Game, e: Event)
  {
    g.status != Playing && Step(g, e).status == Playing
  }

  /** The number of rounds a sequence of events begins. */
  function RoundsBegun(g: Game, es: seq<Event>): nat
    decreases |es|
  {
    if es == [] then 0
    else (if Begins(g, es[0]) then 1 else 0) + RoundsBegun(Step(g, es[0]), es[1..])
  }

  lemma StepInv(g: Game, e: Event)
    requires Inv(g)
    ensures Inv(Step(g, e))
  {
    match e
    case StartEvent(f) => if g.status != Playing { StartInv(g, f); }
    case GuessEvent(c) => if IsAsciiLetter(c) { GuessInv(g, c); }
    case TickEvent => TickInv(g);
    case GiveUpEvent => GiveUpInv(g);
    case SelectEvent(d) => if g.status != Playing { SelectInv(g, d); }
    case KeyEvent(k, f) => KeyInv(g, k, f);
  }

  /** Every step keeps the books: a counter moves only when a round ends, by
      one, and only the counter of that ending. */
  lemma StepCounts(g: Game, e: Event)
    ensures var r := Step(g, e);
      && r.wins == g.wins + (if g.status == Playing && r.status == Won then 1 else 0)
      && r.losses == g.losses + (if g.status == Playing && r.status == Lost then 1 else 0)
      && (g.status == Playing && r.status != Playing ==> r.status == Won || r.status == Lost)
      && (r.status == Playing && g.status != Playing ==> r.guessed == {} && r.wrong == 0)
  {
  }

  /** Every state reached from the initial one keeps the invariant. */
  lemma {:induction false} RunInv(g: Game, es: seq<Event>)
    requires Inv(g)
    ensures Inv(Run(g, es))
    decreases |es|
  {
    if es != [] {
      StepInv(g, es[0]);
      RunInv(Step(g, es[0]), es[1..]);
    }
  }

  /** Each round begun is counted exactly once, as a win or a loss, once it
      ends: finished rounds plus the round still on equal the rounds begun. */
  lemma {:induction false} RunCounts(g: Game, es: seq<Event>)
    ensures var r := Run(g, es);
      && r.wins + r.losses + Active(r) == g.wins + g.losses + Active(g) + RoundsBegun(g, es)
      && g.wins <= r.wins && g.losses <= r.losses
    decreases |es|
  {
    if es != [] {
      StepCounts(g, es[0]);
      RunCounts(Step(g, es[0]), es[1..]);
    }
  }

  lemma ReachableInv(es: seq<Event>)
    ensures Inv(Run(Initial, es))
    ensures Run(Initial, es).wins + Run(Initial, es).losses + Active(Run(Initial, es)) == RoundsBegun(Initial, es)
  {
    InitialInv();
    RunInv(Initial, es);
    RunCounts(Initial, es);
  }
}
