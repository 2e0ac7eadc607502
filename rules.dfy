/** The pure pieces of the Hangman component: the difficulty table, the round
    duration, ASCII upper-casing, the set of letters a round must reveal, the
    masked word, the figure stage, the timer colour and the keyboard filter. */
module HangmanRules {

  datatype Option<T> = None | Some(value: T)

  // ---------------------------------------------------------------------------
  // Configuration
  // ---------------------------------------------------------------------------

  datatype Difficulty = Easy | Medium | Hard

  /** One row of the difficulty table: the number of lives and the advisory
      word-length bounds (the engine never enforces the bounds). */
  datatype Settings = Settings(lives: nat, minLength: nat, maxLength: nat)

  function SettingsOf(d: Difficulty): (s: Settings)
    ensures 6 <= s.lives <= 8
    ensures s.minLength <= s.maxLength
  {
    match d
    case Easy => Settings(8, 3, 6)
    case Medium => Settings(7, 5, 9)
    case Hard => Settings(6, 7, 12)
  }

  /** The wrong-guess limit of a difficulty: its number of lives. */
  function MaxWrong(d: Difficulty): (n: nat)
    ensures n >= 1
    ensures n == SettingsOf(d).lives
  {
    SettingsOf(d).lives
  }

  /** Position of a difficulty in the table, easiest first. */
  function Rank(d: Difficulty): nat
  {
    match d
    case Easy => 0
    case Medium => 1
    case Hard => 2
  }

  /** A harder profile has fewer lives and asks for longer words. */
  lemma HarderHasFewerLives(d1: Difficulty, d2: Difficulty)
    requires Rank(d1) < Rank(d2)
    ensures MaxWrong(d2) < MaxWrong(d1)
    ensures SettingsOf(d1).minLength < SettingsOf(d2).minLength
    ensures SettingsOf(d1).maxLength < SettingsOf(d2).maxLength
  {
  }

  const DefaultDifficulty: Difficulty := Medium

  /** Seconds per round. */
  const TimerDuration: nat := 60

  /** The word used when the word service gives none. */
  const FallbackWord: string := "developer"

  /** The secret a round starts with, from the word service's answer: `None`
      when the request or its decoding failed, `Some(w)` for the first word of
      the answer. An empty word is falsy and is also replaced by the fallback. */
  function ChooseSecret(fetched: Option<string>): (w: string)
    ensures w != []
    ensures fetched.Some? && fetched.value != [] ==> w == fetched.value
    ensures fetched.None? || fetched.value == [] ==> w == FallbackWord
  {
    match fetched
    case Some(word) => if word != [] then word else FallbackWord
    case None => FallbackWord
  }

  // ---------------------------------------------------------------------------
  // Letters and case
  // ---------------------------------------------------------------------------

  predicate IsUpperLetter(c: char) { 'A' <= c <= 'Z' }

  predicate IsLowerLetter(c: char) { 'a' <= c <= 'z' }

  predicate IsAsciiLetter(c: char) { IsUpperLetter(c) || IsLowerLetter(c) }

  /** The letter buttons, A to Z. */
  const Letters: seq<char> := seq(26, i requires 0 <= i < 26 => (65 + i) as char)

  lemma LettersAreTheAlphabet()
    ensures |Letters| == 26
    ensures forall c :: c in Letters <==> IsUpperLetter(c)
    ensures forall i, j :: 0 <= i < j < |Letters| ==> Letters[i] < Letters[j]
  {
    forall c | IsUpperLetter(c)
      ensures c in Letters
    {
      var i := c as int - 65;
      assert Letters[i] == c;
    }
  }

  /** ASCII upper-casing of one character; everything else is left alone. */
  function ToUpper(c: char): (u: char)
    ensures IsAsciiLetter(c) <==> IsUpperLetter(u)
    ensures !IsLowerLetter(u)
    ensures !IsLowerLetter(c) ==> u == c
    ensures IsLowerLetter(c) ==> u as int + 32 == c as int
  {
    if IsLowerLetter(c) then (c as int - 32) as char else c
  }

  /** Upper-casing a letter forgets only its case. */
  lemma ToUpperIgnoresCase(a: char, b: char)
    requires IsAsciiLetter(a) && IsAsciiLetter(b)
    ensures ToUpper(a) == ToUpper(b) <==> (a == b || a as int - b as int == 32 || b as int - a as int == 32)
  {
  }

  /** The upper-cased secret. */
  function Normalize(s: string): (r: string)
    ensures |r| == |s|
    ensures forall i :: 0 <= i < |s| ==> r[i] == ToUpper(s[i])
    ensures forall i :: 0 <= i < |r| ==> !IsLowerLetter(r[i])
    ensures forall i :: 0 <= i < |s| ==> (r[i] == ' ' <==> s[i] == ' ')
  {
    seq(|s|, i requires 0 <= i < |s| => ToUpper(s[i]))
  }

  lemma NormalizeIdempotent(s: string)
    ensures Normalize(Normalize(s)) == Normalize(s)
  {
  }

  // ---------------------------------------------------------------------------
  // The letters a round must reveal
  // ---------------------------------------------------------------------------

  /** The word with its spaces removed. */
  function WithoutSpaces(s: string): (r: string)
    ensures |r| <= |s|
    ensures forall c :: c in r <==> c in s && c != ' '
  {
    if s == [] then []
    else (if s[0] == ' ' then [] else [s[0]]) + WithoutSpaces(s[1..])
  }

  /** The distinct characters of a word other than the space: every one of
      them, letter or not, has to be guessed for the round to be won. */
  function LettersOnly(s: string): (t: set<char>)
    ensures forall c :: c in t <==> c in s && c != ' '
  {
    set c | c in WithoutSpaces(s)
  }

  /** The win test of a correct guess: every required character is among the
      earlier guesses or is the letter just guessed. */
  predicate AllFound(s: string, guessed: set<char>, letter: char)
  {
    forall ch :: ch in LettersOnly(s) ==> ch in guessed || ch == letter
  }

  lemma AllFoundIsCover(s: string, guessed: set<char>, letter: char)
    ensures AllFound(s, guessed, letter) <==> LettersOnly(s) <= guessed + {letter}
  {
  }

  // ---------------------------------------------------------------------------
  // The masked word
  // ---------------------------------------------------------------------------

  /** What one position of the word shows: a space stays a space, a guessed
      character shows itself, anything else is a blank. */
  function Cell(ch: char, guessed: set<char>): char
  {
    if ch == ' ' then ' ' else if ch in guessed then ch else '_'
  }

  function Cells(s: string, guessed: set<char>): (r: string)
    ensures |r| == |s|
    ensures forall i :: 0 <= i < |s| ==> r[i] == Cell(s[i], guessed)
  {
    seq(|s|, i requires 0 <= i < |s| => Cell(s[i], guessed))
  }

  /** The characters of a string joined with single spaces. */
  function Spaced(cs: string): (r: string)
    ensures |r| == if cs == [] then 0 else 2 * |cs| - 1
    ensures forall j :: 0 <= j < |r| && j % 2 == 0 ==> r[j] == cs[j / 2]
    ensures forall j :: 0 <= j < |r| && j % 2 == 1 ==> r[j] == ' '
  {
    if |cs| <= 1 then cs
    else
      var rest := Spaced(cs[1..]);
      assert forall j :: 2 <= j < 2 * |cs| - 1 && j % 2 == 0 ==> rest[j - 2] == cs[j / 2];
      [cs[0], ' '] + rest
  }

  /** The masked word shown while a round is on. */
  function Display(s: string, guessed: set<char>): (r: string)
    ensures |r| == if s == [] then 0 else 2 * |s| - 1
    ensures forall j :: 0 <= j < |r| && j % 2 == 1 ==> r[j] == ' '
    ensures forall j :: 0 <= j < |r| && j % 2 == 0 && s[j / 2] == ' ' ==> r[j] == ' '
    ensures forall j :: 0 <= j < |r| && j % 2 == 0 && s[j / 2] != ' ' && s[j / 2] in guessed ==> r[j] == s[j / 2]
    ensures forall j :: 0 <= j < |r| && j % 2 == 0 && s[j / 2] != ' ' && s[j / 2] !in guessed ==> r[j] == '_'
  {
    Spaced(Cells(s, guessed))
  }

  /** With every required character guessed, the masked word is the word
      itself, spaced out. */
  lemma DisplayAllGuessed(s: string, guessed: set<char>)
    requires LettersOnly(s) <= guessed
    ensures Display(s, guessed) == Spaced(s)
  {
  }

  /** The masked word has no blank exactly when every required character has
      been guessed (the blank itself is never a guess). */
  lemma NoBlankIffAllGuessed(s: string, guessed: set<char>)
    requires '_' !in guessed
    ensures '_' !in Display(s, guessed) <==> LettersOnly(s) <= guessed
  {
    var r := Display(s, guessed);
    if LettersOnly(s) <= guessed {
      forall j | 0 <= j < |r|
        ensures r[j] != '_'
      {
        if j % 2 == 0 {
          assert s[j / 2] == ' ' || s[j / 2] in LettersOnly(s);
        }
      }
    } else {
      var c :| c in LettersOnly(s) && c !in guessed;
      var i :| 0 <= i < |s| && s[i] == c;
      assert (2 * i) / 2 == i && (2 * i) % 2 == 0;
      assert r[2 * i] == '_';
    }
  }

  // ---------------------------------------------------------------------------
  // Figure, timer colour, keyboard
  // ---------------------------------------------------------------------------

  /** How much of the figure is drawn for a wrong-guess count. */
  function FigureStage(wrong: int): (stage: int)
    ensures 0 <= stage <= 7
    ensures 0 <= wrong <= 7 ==> stage == wrong
    ensures wrong < 0 ==> stage == 0
    ensures wrong > 7 ==> stage == 7
  {
    var capped := if wrong < 7 then wrong else 7;
    if capped < 0 then 0 else capped
  }

  lemma FigureStageMonotone(w1: int, w2: int)
    requires w1 <= w2
    ensures FigureStage(w1) <= FigureStage(w2)
  {
  }

  datatype TimerColor = Green | Yellow | Orange | Red

  /** Urgency of a colour, calmest first. */
  function Urgency(c: TimerColor): nat
  {
    match c
    case Green => 0
    case Yellow => 1
    case Orange => 2
    case Red => 3
  }

  function TimerColorOf(timeLeft: int): (c: TimerColor)
    ensures c == Green <==> timeLeft > 40
    ensures c == Yellow <==> 20 < timeLeft <= 40
    ensures c == Orange <==> 10 < timeLeft <= 20
    ensures c == Red <==> timeLeft <= 10
  {
    if timeLeft > 40 then Green
    else if timeLeft > 20 then Yellow
    else if timeLeft > 10 then Orange
    else Red
  }

  /** As time runs out the colour never gets calmer. */
  lemma TimerColorMonotone(t1: int, t2: int)
    requires t1 <= t2
    ensures Urgency(TimerColorOf(t2)) <= Urgency(TimerColorOf(t1))
  {
  }

  /** A key name that is exactly one ASCII letter. */
  predicate IsSingleLetterKey(key: string)
  {
    |key| == 1 && IsAsciiLetter(key[0])
  }

  datatype KeyCommand = GuessKey(letter: char) | StartKey | NoCommand

  /** What a key press asks for: a single letter is a guess; Enter starts a
      round unless one is being played; anything else is ignored. */
  function KeyCommandOf(key: string, playing: bool): (cmd: KeyCommand)
    ensures cmd.GuessKey? <==> IsSingleLetterKey(key)
    ensures cmd.GuessKey? ==> cmd.letter == key[0] && IsAsciiLetter(cmd.letter)
    ensures cmd == StartKey <==> key == "Enter" && !playing
  {
    if IsSingleLetterKey(key) then GuessKey(key[0])
    else if key == "Enter" && !playing then StartKey
    else NoCommand
  }
}
