/** The countdown record of the clock-timer widget and the pure updates the
    component applies to its list of countdowns: the one-second tick (a `map`
    over the list), reset (a `map`) and delete (a `filter`). */
module Countdowns {

  /** One countdown as the component stores it; `id` is the creation timestamp. */
  datatype Countdown = Countdown(id: int, time: int, running: bool, message: string, animate: bool)

  /** Every countdown starts from this many seconds. */
  const Duration: int := 10

  /** The text shown once the countdown reaches zero. */
  const TimesUp: string := "\U{23F0} Time's up!"

  /** A countdown as it is created: ten seconds left, running, no message. */
  function Start(id: int): (cd: Countdown)
    ensures cd.id == id && IsRunning(cd) && cd.time == Duration
  {
    Countdown(id, Duration, true, "", false)
  }

  /** The running state: counting, between 1 and 10 seconds left, nothing shown yet. */
  predicate IsRunning(cd: Countdown) {
    cd.running && 0 < cd.time <= Duration && cd.message == "" && !cd.animate
  }

  /** The finished state: stopped at zero with the terminal message and animation. */
  predicate IsFinished(cd: Countdown) {
    !cd.running && cd.time == 0 && cd.message == TimesUp && cd.animate
  }

  /** Every record the component ever holds is in one of the two states. */
  predicate Valid(cd: Countdown) {
    IsRunning(cd) || IsFinished(cd)
  }

  /** A list of countdowns as the component keeps it: at most one, and that one valid. */
  predicate ListValid(cds: seq<Countdown>) {
    |cds| <= 1 && forall i :: 0 <= i < |cds| ==> Valid(cds[i])
  }

  /** Whether a tick acts on the record at all. */
  predicate Counting(cd: Countdown) {
    cd.running && cd.time > 0
  }

  /** Whether this tick is the one that reaches zero and asks for the sound. */
  predicate Finishes(cd: Countdown) {
    Counting(cd) && cd.time - 1 <= 0
  }

  /** The tick's update of one record. */
  function TickOne(cd: Countdown): (r: Countdown)
    ensures r.id == cd.id
    ensures !Counting(cd) ==> r == cd
    ensures Counting(cd) ==> r.time == cd.time - 1
    ensures Counting(cd) && !Finishes(cd) ==> r == cd.(time := cd.time - 1)
    ensures Finishes(cd) ==> IsFinished(r)
    ensures Valid(cd) ==> Valid(r) && 0 <= r.time <= cd.time
  {
    if !cd.running || cd.time <= 0 then cd
    else
      var newTime := cd.time - 1;
      if newTime <= 0 then cd.(time := 0, running := false, message := TimesUp, animate := true)
      else cd.(time := newTime)
  }

  /** The tick's `map` over the whole list. */
  function TickAll(cds: seq<Countdown>): (r: seq<Countdown>)
    ensures |r| == |cds|
    ensures forall i :: 0 <= i < |cds| ==> r[i] == TickOne(cds[i])
  {
    if cds == [] then [] else TickAll(cds[..|cds| - 1]) + [TickOne(cds[|cds| - 1])]
  }

  /** How many records reach zero on this tick, that is how many sound requests it issues. */
  function FinishCount(cds: seq<Countdown>): (n: nat)
    ensures n <= |cds|
    ensures n > 0 <==> exists i :: 0 <= i < |cds| && Finishes(cds[i])
  {
    if cds == [] then 0
    else FinishCount(cds[..|cds| - 1]) + (if Finishes(cds[|cds| - 1]) then 1 else 0)
  }

  /** Reset's update of the matching record: back to the start values, same id. */
  function Restarted(cd: Countdown): (r: Countdown)
    ensures r == Start(cd.id)
  {
    cd.(time := Duration, running := true, message := "", animate := false)
  }

  /** Reset's `map`: the records with `id` restart, the others are untouched. */
  function ResetAll(cds: seq<Countdown>, id: int): (r: seq<Countdown>)
    ensures |r| == |cds|
    ensures forall i :: 0 <= i < |cds| ==> r[i] == if cds[i].id == id then Start(id) else cds[i]
  {
    if cds == [] then []
    else ResetAll(cds[..|cds| - 1], id) + [if cds[|cds| - 1].id == id then Restarted(cds[|cds| - 1]) else cds[|cds| - 1]]
  }

  /** `a` is `b` with some elements left out and the rest in their order. */
  predicate Subsequence(a: seq<Countdown>, b: seq<Countdown>)
    decreases |b|
  {
    if a == [] then true
    else if b == [] then false
    else (a[0] == b[0] && Subsequence(a[1..], b[1..])) || Subsequence(a, b[1..])
  }

  /** Delete's `filter`: drops every copy of every record with `id`, keeps
      every copy of the others, in their order. */
  function DeleteAll(cds: seq<Countdown>, id: int): (r: seq<Countdown>)
    ensures forall c :: multiset(r)[c] == if c.id == id then 0 else multiset(cds)[c]
    ensures Subsequence(r, cds)
    ensures |r| <= |cds|
    ensures (forall c :: c in cds ==> c.id != id) ==> r == cds
  {
    if cds == [] then []
    else
      var rest := DeleteAll(cds[1..], id);
      DeleteAllCons(cds, id, rest);
      if cds[0].id == id then rest else [cds[0]] + rest
  }

  /** One step of the filter: the head is dropped or kept in front of the
      filtered tail, and the multiset and order facts carry over. */
  lemma DeleteAllCons(cds: seq<Countdown>, id: int, rest: seq<Countdown>)
    requires cds != []
    requires forall c :: multiset(rest)[c] == if c.id == id then 0 else multiset(cds[1..])[c]
    requires Subsequence(rest, cds[1..])
    ensures var r := if cds[0].id == id then rest else [cds[0]] + rest;
            && (forall c :: multiset(r)[c] == if c.id == id then 0 else multiset(cds)[c])
            && Subsequence(r, cds)
  {
    assert cds == [cds[0]] + cds[1..];
    assert multiset(cds) == multiset([cds[0]]) + multiset(cds[1..]);
    if cds[0].id != id {
      var r := [cds[0]] + rest;
      assert r[0] == cds[0] && r[1..] == rest;
      assert multiset(r) == multiset([cds[0]]) + multiset(rest);
    } else {
      assert Subsequence(rest, cds[1..]);
      if rest != [] {
        assert Subsequence(rest, cds);
      }
    }
  }

  /** A record survives delete exactly when it was in the list with another id. */
  lemma DeleteAllMembers(cds: seq<Countdown>, id: int)
    ensures forall c :: c in DeleteAll(cds, id) <==> c in cds && c.id != id
  {
    var r := DeleteAll(cds, id);
    forall c ensures c in r <==> c in cds && c.id != id {
      assert c in r <==> multiset(r)[c] > 0;
      assert c in cds <==> multiset(cds)[c] > 0;
    }
  }

  /** Tick, reset and delete keep the list within the component's rule: at most
      one record, running or finished. */
  lemma ListValidPreserved(cds: seq<Countdown>, id: int)
    requires ListValid(cds)
    ensures ListValid(TickAll(cds))
    ensures ListValid(ResetAll(cds, id))
    ensures ListValid(DeleteAll(cds, id))
  {
    var r := DeleteAll(cds, id);
    forall i | 0 <= i < |r| ensures Valid(r[i]) {
      assert multiset(r)[r[i]] > 0;
      assert r[i] in cds;
    }
  }
}
