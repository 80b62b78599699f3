/** The difference of two possibly-null sets of strings. */
module SetUtils {
  import opened Wrappers

  /** The elements of a possibly-null set (none for null). */
  function Elements(s: Option<set<string>>): (e: set<string>)
    ensures s.None? ==> e == {}
  {
    if s.None? then {} else s.value
  }

  /** `getDiffFromSet1ToSet2`: a new set holding the elements of `set1` that
    * are not in `set2`; a null `set1` gives the empty set and a null `set2`
    * removes nothing. The arguments are values and are left as they are. */
  method GetDiffFromSet1ToSet2(set1: Option<set<string>>, set2: Option<set<string>>) returns (diff: set<string>)
    ensures forall x :: x in diff <==> x in Elements(set1) && x !in Elements(set2)
  {
    diff := {};
    if set1.Some? {
      diff := diff + set1.value;
    }
    if set2.Some? {
      diff := diff - set2.value;
    }
  }

  /** The difference is inside `set1`, outside `set2`, empty for a null
    * `set1` and all of `set1` for a null `set2`; with `set2` it covers
    * `set1`. */
  lemma DiffProperties(set1: Option<set<string>>, set2: Option<set<string>>, diff: set<string>)
    requires forall x :: x in diff <==> x in Elements(set1) && x !in Elements(set2)
    ensures diff <= Elements(set1) && diff !! Elements(set2)
    ensures set1.None? ==> diff == {}
    ensures set2.None? ==> diff == Elements(set1)
    ensures diff + (Elements(set1) * Elements(set2)) == Elements(set1)
  {
  }
}
