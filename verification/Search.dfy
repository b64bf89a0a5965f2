/** Looking for a character: what `find`, `find_first_of` and a scan for a NUL come down to. */
module Search {

  // The first index of c from `from` on, or else |s|.
  function Find(s: string, c: char, from: nat): (i: nat)
    requires from <= |s|
    ensures from <= i <= |s|
    decreases |s| - from
  {
    if from == |s| || s[from] == c then from else Find(s, c, from + 1)
  }

  lemma {:induction false} FindFacts(s: string, c: char, from: nat)
    requires from <= |s|
    ensures var i := Find(s, c, from); (forall k :: from <= k < i ==> s[k] != c) && (i < |s| ==> s[i] == c)
    decreases |s| - from
  {
    if from == |s| || s[from] == c {
    } else {
      FindFacts(s, c, from + 1);
    }
  }

  lemma {:induction false} FindIs(s: string, c: char, from: nat, i: nat)
    requires from <= i <= |s|
    requires forall k :: from <= k < i ==> s[k] != c
    requires i < |s| ==> s[i] == c
    ensures Find(s, c, from) == i
    decreases i - from
  {
    if from == i {
    } else {
      FindIs(s, c, from + 1, i);
    }
  }
}
