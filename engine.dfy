/** The Hangman component as an object: one field per state cell and one
    method per handler, each updating the fields step by step. Every handler
    keeps the invariant of HangmanRound and leaves the object in exactly the
    state the matching transition function gives; the internal HandleLoss,
    called in the middle of other updates, promises only the loss step. */
module HangmanEngine {
  import opened HangmanRules
  import opened HangmanRound

  class Hangman {
    var difficulty: Difficulty
    var secret: string
    var guessed: set<char>
    var wrong: nat
    var status: Status
    var timeLeft: nat
    var wins: nat
    var losses: nat

    /** The snapshot the page renders. */
    function State(): Game
      reads this
    {
      Game(difficulty, secret, guessed, wrong, status, timeLeft, wins, losses)
    }

    predicate Valid()
      reads this
    {
      Inv(State())
    }

    constructor ()
      ensures Valid() && State() == Initial
    {
      difficulty := DefaultDifficulty;
      secret := "";
      guessed := {};
      wrong := 0;
      status := Idle;
      timeLeft := TimerDuration;
      wins := 0;
      losses := 0;
      InitialInv();
    }

    /** Begin a round with the word service's answer. Offered only between
        rounds. */
    method StartGame(fetched: Option<string>)
      requires Valid() && status != Playing
      modifies this
      ensures Valid() && State() == Start(old(State()), fetched)
      ensures guessed == {} && wrong == 0 && status == Playing && timeLeft == TimerDuration
      ensures wins == old(wins) && losses == old(losses) && difficulty == old(difficulty)
    {
      secret := ChooseSecret(fetched);
      guessed := {};
      wrong := 0;
      status := Playing;
      timeLeft := TimerDuration;
      StartInv(old(State()), fetched);
    }

    /** Lose the round and count it. Every caller is in a round. */
    method HandleLoss()
      requires status == Playing
      modifies this
      ensures State() == Lose(old(State()))
    {
      status := Lost;
      losses := losses + 1;
    }

    /** The Give Up control, which does nothing unless a round is on. */
    method GiveUp()
      requires Valid()
      modifies this
      ensures Valid() && State() == HangmanRound.GiveUp(old(State()))
      ensures old(status) != Playing ==> unchanged(this)
    {
      GiveUpInv(State());
      if status == Playing {
        HandleLoss();
      }
    }

    /** Guess a letter, given in either case. */
    method HandleGuess(letter: char)
      requires Valid() && IsAsciiLetter(letter)
      modifies this
      ensures Valid() && State() == Guess(old(State()), letter)
      ensures old(status) != Playing || ToUpper(letter) in old(guessed) ==> unchanged(this)
      ensures timeLeft == old(timeLeft) && secret == old(secret) && difficulty == old(difficulty)
    {
      GuessInv(State(), letter);
      if status != Playing {
        return;
      }
      var l := ToUpper(letter);
      if l in guessed {
        return;
      }
      var word := Normalize(secret);
      var before := guessed;
      guessed := guessed + {l};
      if l !in word {
        wrong := wrong + 1;
        if wrong >= MaxWrong(difficulty) {
          HandleLoss();
        }
      } else if AllFound(word, before, l) {
        status := Won;
        wins := wins + 1;
      }
    }

    /** One second of the round timer. */
    method Tick()
      requires Valid()
      modifies this
      ensures Valid() && State() == HangmanRound.Tick(old(State()))
      ensures old(status) != Playing ==> unchanged(this)
    {
      TickInv(State());
      if status != Playing {
        return;
      }
      if timeLeft > 0 {
        timeLeft := timeLeft - 1;
      }
      if timeLeft <= 0 {
        HandleLoss();
      }
    }

    /** Choose the difficulty; the selector is disabled during a round. */
    method SelectDifficulty(d: Difficulty)
      requires Valid() && status != Playing
      modifies this
      ensures Valid() && State() == Select(old(State()), d)
    {
      SelectInv(State(), d);
      difficulty := d;
    }

    /** A key press on the page. */
    method HandleKey(key: string, fetched: Option<string>)
      requires Valid()
      modifies this
      ensures Valid() && State() == Key(old(State()), key, fetched)
    {
      match KeyCommandOf(key, status == Playing)
      case GuessKey(c) => HandleGuess(c);
      case StartKey => StartGame(fetched);
      case NoCommand =>
    }
  }

  /** A short session driven through the object: a miss, then giving up
      twice counts a single loss and leaves the word on show. */
  method GiveUpTwiceCountsOnce(word: string)
    requires word != [] && 'Z' !in Normalize(word)
  {
    var h := new Hangman();
    h.StartGame(Some(word));
    h.HandleGuess('z');
    assert h.wrong == 1 && h.status == Playing;
    h.GiveUp();
    h.GiveUp();
    assert h.losses == 1 && h.wins == 0 && h.status == Lost;
    FinishedShowsWord(h.State());
    assert Shown(h.State()) == Spaced(Normalize(word));
  }
}
