/**
  The few std::wstring searches the scanner relies on, as total functions on
  sequences of characters.
 */
module Text {
  import opened Optional

  /** `s.find(c, from)`: the first position at or after `from` that holds `c`. */
  function Find(s: string, c: char, from: nat): (r: Option<nat>)
    decreases |s| - from
    ensures r.Some? ==> from <= r.value < |s| && s[r.value] == c
    ensures r.Some? ==> forall j :: from <= j < r.value ==> s[j] != c
    ensures r.None? ==> forall j :: from <= j < |s| ==> s[j] != c
  {
    if from >= |s| then None
    else if s[from] == c then Some(from)
    else Find(s, c, from + 1)
  }

  /** `s.find_first_not_of(c)`: the first position that does not hold `c`. */
  function FindFirstNotOf(s: string, c: char): (r: Option<nat>)
    ensures r.Some? ==> r.value < |s| && s[r.value] != c
    ensures r.Some? ==> forall j :: 0 <= j < r.value ==> s[j] == c
    ensures r.None? ==> forall j :: 0 <= j < |s| ==> s[j] == c
  {
    if s == [] then None
    else if s[0] != c then Some(0)
    else match FindFirstNotOf(s[1..], c)
      case None => None
      case Some(k) => Some(k + 1)
  }

  /** Every character of `s` is a blank (vacuously so for the empty string). */
  predicate AllSpaces(s: string) {
    forall i :: 0 <= i < |s| ==> s[i] == ' '
  }

  /** A position that holds `c` with no `c` between `from` and it is what `Find` returns. */
  lemma FindAt(s: string, c: char, from: nat, q: nat)
    requires from <= q < |s| && s[q] == c
    requires forall j :: from <= j < q ==> s[j] != c
    ensures Find(s, c, from) == Some(q)
  {
  }

  /** A position that does not hold `c`, preceded only by `c`, is what `FindFirstNotOf` returns. */
  lemma FindFirstNotOfAt(s: string, c: char, k: nat)
    requires k < |s| && s[k] != c
    requires forall j :: 0 <= j < k ==> s[j] == c
    ensures FindFirstNotOf(s, c) == Some(k)
  {
  }
}
