/** Content hashing, seen from outside: a function from texts to fixed-length digests. */
module Hashing {

  /** "0x" followed by the 64 hex digits of a 32-byte digest. */
  const DIGEST_CHARS: nat := 66

  ghost predicate FixedLength(h: string -> string) {
    forall s :: |h(s)| == DIGEST_CHARS
  }

  /** Any function whose digests all have the fixed length; nothing else is assumed of blake2b. */
  type HashFn = h: string -> string | FixedLength(h)
    witness (s: string) => seq(DIGEST_CHARS, _ => '0')

  /**
   * No two different texts of the list share a digest. The results below ask this only of the texts
   * that a computation really hashed, so a failure always names a collision among those.
   */
  ghost predicate InjectiveOn(h: HashFn, s: seq<string>) {
    forall a, b | a in s && b in s && h(a) == h(b) :: a == b
  }

  ghost predicate Among(texts: seq<string>, all: seq<string>) {
    forall t | t in texts :: t in all
  }

  /** The two texts are one, given that they are among those hashed and have one digest. */
  lemma OneText(h: HashFn, s: seq<string>, a: string, b: string)
    requires InjectiveOn(h, s) && a in s && b in s && h(a) == h(b)
    ensures a == b
  {
  }

  lemma FewerTexts(h: HashFn, s: seq<string>, all: seq<string>)
    requires InjectiveOn(h, all) && Among(s, all)
    ensures InjectiveOn(h, s)
  {
  }
}
