/** The characters that the text codecs name, in order. */
module Characters {
  const LETTERS := "ABCDEFGHIJKLMNOPQRSTUVWXYZ"
  const SMALL := "abcdefghijklmnopqrstuvwxyz"
  const NUMERALS := "0123456789"

  lemma Consecutive()
    ensures forall i :: 0 <= i < 26 ==> LETTERS[i] as int == 65 + i && SMALL[i] as int == 97 + i
    ensures forall i :: 0 <= i < 10 ==> NUMERALS[i] as int == 48 + i
  {}
}
