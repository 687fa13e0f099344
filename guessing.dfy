/** Evaluation of a "guess" event: a case-insensitive comparison against the stored word,
    made only while the room's game is in progress. Case folding is ASCII only. */
module Guessing {
  import opened Rooms

  function FoldChar(c: char): char {
    if 'A' <= c <= 'Z' then (c as int + ('a' as int - 'A' as int)) as char else c
  }

  /** toLowerCase, restricted to ASCII letters. */
  function Lower(s: string): (r: string)
    ensures |r| == |s|
    ensures forall i | 0 <= i < |s| :: r[i] == FoldChar(s[i])
  {
    if s == [] then [] else [FoldChar(s[0])] + Lower(s[1..])
  }

  /** The comparison the guess handler makes. */
  predicate Matches(guess: string, word: string) {
    Lower(guess) == Lower(word)
  }

  /** The same comparison read character by character: equal lengths, and each pair of
      characters equal up to the case of ASCII letters. */
  predicate SameIgnoringCase(a: string, b: string) {
    |a| == |b| && forall i | 0 <= i < |a| :: FoldChar(a[i]) == FoldChar(b[i])
  }

  lemma MatchesIffSameIgnoringCase(guess: string, word: string)
    ensures Matches(guess, word) <==> SameIgnoringCase(guess, word)
  {
  }

  /** Whether a guess for roomId earns a correctGuess broadcast. A missing room reads as an
      empty hash whose gameStatus is not "in-progress", so it never does. */
  function EvaluateGuess(rooms: Store, roomId: string, guess: string): (correct: bool)
    ensures correct <==>
      roomId in rooms && rooms[roomId].status == InProgress && SameIgnoringCase(guess, rooms[roomId].word)
  {
    if roomId !in rooms || rooms[roomId].status != InProgress then false
    else
      MatchesIffSameIgnoringCase(guess, rooms[roomId].word);
      Matches(guess, rooms[roomId].word)
  }

  lemma LowerIdempotent(s: string)
    ensures Lower(Lower(s)) == Lower(s)
  {
  }

  predicate HasNoUpper(s: string) {
    forall i | 0 <= i < |s| :: !('A' <= s[i] <= 'Z')
  }

  lemma LowerFixesLowercase(s: string)
    requires HasNoUpper(s)
    ensures Lower(s) == s
  {
  }

  lemma WordListIsLowercase()
    ensures forall w | w in WORD_LIST :: HasNoUpper(w)
  {
  }

  /** In a valid store a correct guess, folded to lower case, is exactly the stored word,
      which is one of the five words. */
  lemma CorrectGuessIsTheWord(rooms: Store, roomId: string, guess: string)
    requires Valid(rooms) && EvaluateGuess(rooms, roomId, guess)
    ensures rooms[roomId].word in WORD_LIST && Lower(guess) == rooms[roomId].word
  {
    var w := rooms[roomId].word;
    WordListIsLowercase();
    LowerFixesLowercase(w);
    MatchesIffSameIgnoringCase(guess, w);
  }

  /** A guess of another length than the word, such as "guitars" for "guitar", never matches. */
  lemma LengthMismatchNeverMatches(rooms: Store, roomId: string, guess: string)
    requires roomId in rooms && |guess| != |rooms[roomId].word|
    ensures !EvaluateGuess(rooms, roomId, guess)
  {
  }

  lemma GuitarExamples()
    ensures Matches("guitar", "Guitar") && Matches("GUITAR", "Guitar") && Matches("GuiTar", "Guitar")
    ensures !Matches("guitars", "Guitar")
  {
    MatchesIffSameIgnoringCase("guitar", "Guitar");
    MatchesIffSameIgnoringCase("GUITAR", "Guitar");
    MatchesIffSameIgnoringCase("GuiTar", "Guitar");
  }
}
