/** The random source of the game. */
module Random {

  /** randomNumberInRange: some integer in [min, max].  Which one is not
      determined; every caller must work for all of them. */
  method RandomNumberInRange(min: int, max: int) returns (r: int)
    requires min <= max
    ensures min <= r <= max
  {
    r :| min <= r <= max;
  }
}
