/** Counting finite sets. */
module Sets {

  /** A part of a set has no more elements than the set. */
  lemma NoMore<T>(part: set<T>, whole: set<T>)
    requires part <= whole
    ensures |part| <= |whole|
  {
    assert whole == part + (whole - part);
  }
}
