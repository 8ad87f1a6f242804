/** The index arithmetic and the avatar initials shared by the two testimonial
    carousels. */
module Carousel {
  import opened Text

  /** `(prev + 1) % n`: the next slide. */
  function NextIndex(i: nat, n: nat): (r: nat)
    requires n > 0
    ensures r < n
    ensures i + 1 < n ==> r == i + 1
  {
    (i + 1) % n
  }

  /** `(prev - 1 + n) % n`: the previous slide. */
  function PrevIndex(i: nat, n: nat): (r: nat)
    requires n > 0
    ensures r < n
    ensures 0 < i <= n ==> r == i - 1
  {
    (i - 1 + n) % n
  }

  /** Going forward then back, or back then forward, returns to the same slide. */
  lemma NextPrevInverse(i: nat, n: nat)
    requires i < n
    ensures PrevIndex(NextIndex(i, n), n) == i
    ensures NextIndex(PrevIndex(i, n), n) == i
  {
    if i + 1 < n {
      assert NextIndex(i, n) == i + 1;
    } else {
      assert NextIndex(i, n) == 0;
    }
    if i == 0 {
      assert (n - 1) % n == n - 1;
    }
  }

  /** The last slide is followed by the first, and the first preceded by the last. */
  lemma WrapAround(n: nat)
    requires n > 0
    ensures NextIndex(n - 1, n) == 0
    ensures PrevIndex(0, n) == n - 1
  {
  }

  /** `.map((n) => n[0]).join("")` over the words: the first character of
      each word; an empty word (from a doubled space) contributes nothing. */
  function FirstChars(words: seq<string>): (r: string)
    ensures |r| <= |words|
  {
    if words == [] then ""
    else (if words[0] == "" then "" else [words[0][0]]) + FirstChars(words[1..])
  }

  /** A character that occurs in no word is not among the first characters. */
  lemma {:induction false} FirstCharsAvoid(words: seq<string>, c: char)
    requires forall k :: 0 <= k < |words| ==> c !in words[k]
    ensures c !in FirstChars(words)
  {
    if words != [] {
      FirstCharsAvoid(words[1..], c);
    }
  }

  /** The fallback avatar text: `name.split(" ").map((n) => n[0]).join("")`.
      There is at most one character per word, never a space, and a name
      that does not start with a space starts its initials with its own
      first character. */
  function Initials(name: string): (r: string)
    ensures |r| <= |Split(name, ' ')|
    ensures ' ' !in r
    ensures name != "" && name[0] != ' ' ==> |r| >= 1 && r[0] == name[0]
  {
    FirstCharsAvoid(Split(name, ' '), ' ');
    FirstChars(Split(name, ' '))
  }

  /** With no empty words, the first characters are exactly one per word, in order. */
  lemma {:induction false} FirstCharsOfWords(words: seq<string>)
    requires forall k :: 0 <= k < |words| ==> words[k] != ""
    ensures |FirstChars(words)| == |words|
    ensures forall k :: 0 <= k < |words| ==> FirstChars(words)[k] == words[k][0]
  {
    if words != [] {
      FirstCharsOfWords(words[1..]);
      assert FirstChars(words) == [words[0][0]] + FirstChars(words[1..]);
    }
  }

  /** A name made of non-empty words joined by single spaces has as initials
      the first character of each word, concatenated in order. */
  lemma InitialsOfJoinedWords(words: seq<string>)
    requires |words| >= 1
    requires forall k :: 0 <= k < |words| ==> words[k] != "" && ' ' !in words[k]
    ensures |Initials(Join(words, ' '))| == |words|
    ensures forall k :: 0 <= k < |words| ==> Initials(Join(words, ' '))[k] == words[k][0]
  {
    SplitJoin(words, ' ');
    FirstCharsOfWords(words);
  }
}
