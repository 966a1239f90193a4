/**
 * The short-code generator of the URL shortener (`generateShortURL`).
 *
 * The pseudo-random source is replaced by its draws: the caller supplies one
 * index into the alphabet per position of the code, each in [0, |Charset|),
 * which is what `rand.Intn(len(charset))` returns. The generator is then a
 * deterministic function of those draws, and the lemmas below show that it
 * is a bijection between draws and alphanumeric codes.
 */
module Generator {

  /** Number of characters in every generated code (`urlLength`). */
  const UrlLength: nat := 6

  const Lowercase: string := "abcdefghijklmnopqrstuvwxyz"
  const Uppercase: string := "ABCDEFGHIJKLMNOPQRSTUVWXYZ"
  const Digits: string := "0123456789"

  /** The 62-symbol alphabet codes are drawn from (`charset`). */
  const Charset: string := Lowercase + Uppercase + Digits

  /** The alphabet, written as one literal, is the string of the three runs. */
  lemma CharsetIsSourceLiteral()
    ensures Charset == "abcdefghijklmnopqrstuvwxyzABCDEFGHIJKLMNOPQRSTUVWXYZ0123456789"
  {
  }

  /** An independent definition of the alphabet: ASCII letters and digits. */
  predicate IsAlphanumeric(c: char) {
    ('a' <= c <= 'z') || ('A' <= c <= 'Z') || ('0' <= c <= '9')
  }

  /** A well-formed code: exactly UrlLength alphanumeric characters. */
  predicate IsCode(s: string) {
    |s| == UrlLength && forall i :: 0 <= i < |s| ==> IsAlphanumeric(s[i])
  }

  /** Every element of `choices` is an index into Charset. */
  predicate InAlphabet(choices: seq<int>) {
    forall i :: 0 <= i < |choices| ==> 0 <= choices[i] < |Charset|
  }

  /** One draw of the random source for one code: UrlLength indices into Charset. */
  predicate IsDraw(choices: seq<int>) {
    |choices| == UrlLength && InAlphabet(choices)
  }

  /** The character at position k of Charset, computed from the three ASCII runs. */
  function Symbol(k: int): char
    requires 0 <= k < |Charset|
  {
    if k < 26 then ('a' as int + k) as char
    else if k < 52 then ('A' as int + (k - 26)) as char
    else ('0' as int + (k - 52)) as char
  }

  lemma CharsetAt(k: int)
    requires 0 <= k < |Charset|
    ensures |Charset| == 62
    ensures Charset[k] == Symbol(k)
  {
  }

  /**
   * The alphabet has 62 symbols, holds exactly the ASCII letters and digits,
   * and no symbol occurs twice (so each symbol is drawn with equal weight).
   */
  lemma CharsetIsAlphanumeric()
    ensures |Charset| == 62
    ensures forall c :: c in Charset <==> IsAlphanumeric(c)
    ensures forall i, j :: 0 <= i < j < |Charset| ==> Charset[i] != Charset[j]
  {
    forall c | c in Charset
      ensures IsAlphanumeric(c)
    {
      var k :| 0 <= k < |Charset| && Charset[k] == c;
      CharsetAt(k);
    }
    forall c | IsAlphanumeric(c)
      ensures c in Charset
    {
      var k := IndexOf(c);
    }
    forall i, j | 0 <= i < j < |Charset|
      ensures Charset[i] != Charset[j]
    {
      CharsetAt(i);
      CharsetAt(j);
    }
  }

  /** The position of an alphanumeric character in Charset. */
  function IndexOf(c: char): (k: int)
    requires IsAlphanumeric(c)
    ensures 0 <= k < |Charset| && Charset[k] == c
  {
    var k :=
      if 'a' <= c <= 'z' then c as int - 'a' as int
      else if 'A' <= c <= 'Z' then 26 + (c as int - 'A' as int)
      else 52 + (c as int - '0' as int);
    CharsetAt(k);
    k
  }

  /** The code the generator builds from a sequence of draws. */
  function CodeFrom(choices: seq<int>): (code: string)
    requires InAlphabet(choices)
    ensures |code| == |choices|
    ensures forall i :: 0 <= i < |code| ==> IsAlphanumeric(code[i])
  {
    CharsetIsAlphanumeric();
    seq(|choices|, i requires 0 <= i < |choices| => Charset[choices[i]])
  }

  /** The draws that make the generator build `code`. */
  function ChoicesOf(code: string): (choices: seq<int>)
    requires forall i :: 0 <= i < |code| ==> IsAlphanumeric(code[i])
  {
    seq(|code|, i requires 0 <= i < |code| => IndexOf(code[i]))
  }

  /** Every alphanumeric string is built by some draws, so no code is out of reach. */
  lemma CodeFromChoicesOf(code: string)
    requires forall i :: 0 <= i < |code| ==> IsAlphanumeric(code[i])
    ensures InAlphabet(ChoicesOf(code))
    ensures CodeFrom(ChoicesOf(code)) == code
  {
  }

  /** The draws can be read back from the code, so distinct draws give distinct codes. */
  lemma ChoicesOfCodeFrom(choices: seq<int>)
    requires InAlphabet(choices)
    ensures ChoicesOf(CodeFrom(choices)) == choices
  {
    var code := CodeFrom(choices);
    CharsetIsAlphanumeric();
    forall i | 0 <= i < |choices|
      ensures ChoicesOf(code)[i] == choices[i]
    {
      var k := IndexOf(code[i]);
      assert Charset[k] == Charset[choices[i]];
    }
  }

  /** Two different draws never produce the same code. */
  lemma DistinctDrawsDistinctCodes(a: seq<int>, b: seq<int>)
    requires InAlphabet(a) && InAlphabet(b)
    requires a != b
    ensures CodeFrom(a) != CodeFrom(b)
  {
    ChoicesOfCodeFrom(a);
    ChoicesOfCodeFrom(b);
  }

  /**
   * `generateShortURL`: fills a buffer of UrlLength bytes one position at a
   * time with the alphabet symbol each draw selects, and returns it as a
   * string.
   */
  method GenerateCode(choices: seq<int>) returns (code: string)
    requires IsDraw(choices)
    ensures code == CodeFrom(choices)
    ensures IsCode(code)
  {
    var buffer := new char[UrlLength];
    for i := 0 to UrlLength
      invariant forall k :: 0 <= k < i ==> buffer[k] == Charset[choices[k]]
    {
      buffer[i] := Charset[choices[i]];
    }
    code := buffer[..];
  }
}
