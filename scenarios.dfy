/** A worked round, checked against the transition functions. */
module HangmanScenarios {
  import opened HangmanRules
  import opened HangmanRound

  lemma CatTargets()
    ensures Normalize("CAT") == "CAT"
    ensures LettersOnly("CAT") == {'C', 'A', 'T'}
  {
  }

  /** "CAT" on Medium: C hits, Z misses once, A hits, T wins. */
  lemma CatIsWon()
    ensures var s0 := Start(Initial, Some("CAT"));
      var s1 := Guess(s0, 'C');
      var s2 := Guess(s1, 'Z');
      var s3 := Guess(s2, 'A');
      var s4 := Guess(s3, 'T');
      && s1.status == Playing && s1.wrong == 0
      && s2.status == Playing && s2.wrong == 1
      && s3.status == Playing && s3.wrong == 1
      && s4.status == Won && s4.wins == 1 && s4.losses == 0
  {
    CatTargets();
    var s0 := Start(Initial, Some("CAT"));
    StartInv(Initial, Some("CAT"));
    var w := s0.Word();
    assert w == "CAT";
    assert 'C' in w && 'A' in w && 'T' in w && 'Z' !in w;
    assert 'T' !in s0.guessed + {'C'};
    GuessHit(s0, 'C');
    var s1 := Guess(s0, 'C');
    assert s1.guessed == {'C'};
    GuessInv(s0, 'C');
    GuessMiss(s1, 'Z');
    var s2 := Guess(s1, 'Z');
    assert s2.guessed == {'C', 'Z'};
    assert 'T' !in s2.guessed + {'A'};
    GuessHit(s2, 'A');
    var s3 := Guess(s2, 'A');
    assert s3.guessed == {'C', 'Z', 'A'};
    GuessHit(s3, 'T');
  }
}
