/**
 * The two library primitives the services call besides the cipher:
 * bcrypt (`bcrypt.hash(password, 10)`, `bcrypt.compare`) and
 * `crypto.randomInt(min, max)`. bcrypt is kept abstract; `Sound` is what
 * the services rely on. The random draw is a parameter.
 */
module Primitives {

  /**
   * bcrypt with cost 10: `hash(password, salt)` for the salt bcrypt draws,
   * and `compare(candidate, storedHash)`.
   */
  datatype Hasher = Hasher(hash: (string, nat) -> string, compare: (string, string) -> bool)

  /**
   * A hash accepts the password it was made from. The converse does not
   * hold of bcrypt, which reads only the first 72 bytes of a password, so
   * nothing here assumes it.
   */
  ghost predicate Sound(h: Hasher)
  {
    forall p: string, salt: nat :: h.compare(p, h.hash(p, salt))
  }

  /**
   * `crypto.randomInt(min, max)`: a value in [min, max), the upper bound
   * excluded; `draw` stands for the library's randomness.
   */
  function RandomInt(min: int, max: int, draw: nat): (r: int)
    requires min < max
    ensures min <= r < max
  {
    min + draw % (max - min)
  }

  /** Every value of the range is produced by some draw. */
  lemma RandomIntCovers(min: int, max: int, v: int)
    requires min <= v < max
    ensures RandomInt(min, max, v - min) == v
  {
  }
}
