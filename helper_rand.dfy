/**
 * helper/helper.go, RandKey: a key of the requested length drawn from an
 * alphabet without easily confused characters. crypto/rand is modelled as a
 * stream of draws, each either an index below the alphabet size (what
 * rand.Int(rand.Reader, max) promises) or a read failure.
 */
module Helper {
  import opened Wrappers
  import Types

  /** The alphabet literal of RandKey (its comment says 31 characters; it has 29). */
  const Alphabet: string := "ABCDEFHJKLMNPQRSTWXY123456789"

  /** An index rand.Int can return for max = len(Alphabet). */
  type AlphabetIndex = r: int | 0 <= r < 29

  /** One call of rand.Int: a uniform index, or an error from the entropy source. */
  datatype Draw = Drawn(index: AlphabetIndex) | SourceFailed

  datatype RandError = EntropyUnavailable

  /** Every character of s is one of the alphabet's. */
  ghost predicate OverAlphabet(s: string) {
    forall i :: 0 <= i < |s| ==> s[i] in Alphabet
  }

  /** The size of the alphabet and the characters it leaves out. */
  lemma AlphabetShape()
    ensures |Alphabet| == 29
    ensures forall i :: 0 <= i < |Alphabet| ==> Alphabet[i] !in "0OIGUVZ"
  {
  }

  /** None of the `length` draws from position `from` on fails. */
  ghost predicate AllDrawn(draws: nat -> Draw, from: nat, length: nat) {
    forall j :: from <= j < from + length ==> draws(j).Drawn?
  }

  /**
   * The key the `length` draws from position `from` on spell, or None when
   * one of them fails.
   */
  ghost function KeyFrom(length: nat, draws: nat -> Draw, from: nat): Option<string> {
    if AllDrawn(draws, from, length)
    then Some(seq(length, i requires 0 <= i < length => Alphabet[draws(from + i).index]))
    else None
  }

  /**
   * RandKey fills a buffer of `length` bytes one draw at a time, starting at
   * position `from` of the stream; `next` is the first draw it left unused.
   */
  method RandKey(length: nat, draws: nat -> Draw, from: nat) returns (r: Result<string, RandError>, next: nat)
    ensures r.Ok? <==> forall j :: from <= j < from + length ==> draws(j).Drawn?
    ensures r.Ok? ==> |r.value| == length && next == from + length
    ensures r.Ok? ==> forall i :: 0 <= i < length ==> r.value[i] == Alphabet[draws(from + i).index]
    ensures r.Ok? ==> OverAlphabet(r.value)
    ensures r.Err? ==> from < next <= from + length && draws(next - 1).SourceFailed?
    ensures r.Err? ==> forall j :: from <= j < next - 1 ==> draws(j).Drawn?
    ensures r.Ok? <==> KeyFrom(length, draws, from).Some?
    ensures r.Ok? ==> KeyFrom(length, draws, from) == Some(r.value)
  {
    var out := new char[length];
    var i := 0;
    while i < length
      invariant 0 <= i <= length
      invariant forall j :: from <= j < from + i ==> draws(j).Drawn?
      invariant forall j :: 0 <= j < i ==> out[j] == Alphabet[draws(from + j).index]
    {
      var d := draws(from + i);
      if d.SourceFailed? {
        return Err(EntropyUnavailable), from + i + 1;
      }
      out[i] := Alphabet[d.index];
      i := i + 1;
    }
    assert out[..] == KeyFrom(length, draws, from).value;
    return Ok(out[..]), from + length;
  }

  /** Every alphabet character is one that ValidKey admits. */
  lemma AlphabetHasOnlyKeyRunes()
    ensures forall i :: 0 <= i < |Alphabet| ==> Types.IsKeyRune(Alphabet[i])
  {
  }

  /** A key drawn from the alphabet with 1 to 64 characters passes ValidKey. */
  lemma RandKeyIsValidKey(k: string)
    requires 1 <= |k| <= Types.MaxKeyRunes
    requires OverAlphabet(k)
    ensures Types.ValidKey(k)
  {
    AlphabetHasOnlyKeyRunes();
  }
}
