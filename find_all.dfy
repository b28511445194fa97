/**
  The iteration of Go's `FindAllString(s, -1)` for a pattern that never
  matches the empty string, over the length of the match at each position
  (0 where none starts): take a match where it starts, resume at its end.
*/
module FindAll {

  /** Every match ends inside the text. */
  predicate Fits(ls: seq<nat>) {
    forall q :: 0 <= q < |ls| ==> q + ls[q] <= |ls|
  }

  /** The starts `FindAllString(s, -1)` reports at or after `p`, given the
      match length `ls[q]` at each position (0 for none): a match is taken
      where it starts and the search resumes at its end. */
  function Starts(ls: seq<nat>, p: nat): seq<nat>
    requires Fits(ls) && p <= |ls|
    decreases |ls| - p
  {
    if p == |ls| then []
    else if ls[p] > 0 then [p] + Starts(ls, p + ls[p])
    else Starts(ls, p + 1)
  }

  /** The starts in `st` are matches at or after `p`, left to right and not
      overlapping. */
  predicate Chosen(ls: seq<nat>, st: seq<nat>, p: nat) {
    && (forall k :: 0 <= k < |st| ==> p <= st[k] < |ls| && ls[st[k]] > 0)
    && (forall j, k :: 0 <= j < k < |st| ==> st[j] + ls[st[j]] <= st[k])
  }

  /** A match at `p` followed by matches from its end on. */
  lemma ChosenCons(ls: seq<nat>, p: nat, rest: seq<nat>)
    requires p < |ls| && ls[p] > 0 && Chosen(ls, rest, p + ls[p])
    ensures Chosen(ls, [p] + rest, p)
  {
    var st := [p] + rest;
    forall k | 0 < k < |st|
      ensures st[k] == rest[k - 1]
    {
    }
  }

  lemma {:induction false} StartsOrdered(ls: seq<nat>, p: nat)
    requires Fits(ls) && p <= |ls|
    ensures Chosen(ls, Starts(ls, p), p)
    decreases |ls| - p
  {
    if p < |ls| {
      if ls[p] > 0 {
        StartsOrdered(ls, p + ls[p]);
        ChosenCons(ls, p, Starts(ls, p + ls[p]));
      } else {
        StartsOrdered(ls, p + 1);
      }
    }
  }

  /** Every match the search passed over lies inside a chosen one. */
  lemma {:induction false} StartsCover(ls: seq<nat>, p: nat, q: nat) returns (k: nat)
    requires Fits(ls) && p <= q < |ls| && ls[q] > 0
    ensures k < |Starts(ls, p)| && Starts(ls, p)[k] <= q < Starts(ls, p)[k] + ls[Starts(ls, p)[k]]
    decreases |ls| - p
  {
    var st := Starts(ls, p);
    if ls[p] > 0 {
      var p' := p + ls[p];
      var rest := Starts(ls, p');
      assert st == [p] + rest;
      if q < p' {
        k := 0;
      } else {
        var j := StartsCover(ls, p', q);
        k := j + 1;
        assert st[k] == rest[j];
      }
    } else {
      var j := StartsCover(ls, p + 1, q);
      assert st == Starts(ls, p + 1);
      k := j;
    }
  }
}
