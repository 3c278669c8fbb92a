/** The countdown and sound logic of the `ClockTimerApp` component: its state
    as a value (`Widget`) with one transition function per handler, and the
    component itself as a class whose methods update its fields in place and
    are proved to follow those transitions. */
module App {
  import opened Countdowns
  import opened Audio

  /** The component's countdown list and its audio state. */
  datatype Widget = Widget(countdowns: seq<Countdown>, player: Player)

  /** The state on mount: no countdown, no audio. */
  const Initial: Widget := Widget([], Idle)

  /** What holds between any two events. */
  predicate Inv(w: Widget) {
    ListValid(w.countdowns) && Consistent(w.player)
  }

  /** `addCountdown`: only with an empty list, asks for the sound and creates
      the countdown `id` (the creation time). */
  function AddStep(w: Widget, id: int): (r: Widget)
    ensures |w.countdowns| > 0 ==> r == w
    ensures w.countdowns == [] ==> r.countdowns == [Start(id)] && r.player == Play(w.player)
    ensures w.countdowns == [] ==> r.player.requests == w.player.requests + 1
    ensures Inv(w) ==> Inv(r)
  {
    if |w.countdowns| > 0 then w
    else Widget([Start(id)], Play(w.player))
  }

  /** The one-second tick: every record ticks, and each record reaching zero
      asks for the sound once. */
  function TickStep(w: Widget): (r: Widget)
    ensures |r.countdowns| == |w.countdowns|
    ensures forall i :: 0 <= i < |w.countdowns| ==> r.countdowns[i].id == w.countdowns[i].id
    ensures r.player.requests == w.player.requests + FinishCount(w.countdowns)
    ensures Inv(w) ==> Inv(r)
    ensures Inv(w) ==> forall i :: 0 <= i < |w.countdowns| ==> 0 <= r.countdowns[i].time <= w.countdowns[i].time
  {
    Widget(TickAll(w.countdowns), PlayTimes(w.player, FinishCount(w.countdowns)))
  }

  /** `resetCountdown(id)`: stop the sound, ask for it again, and restart the
      records with `id`; the request is made whether or not a record matches. */
  function ResetStep(w: Widget, id: int): (r: Widget)
    requires HandleValid(w.player)
    ensures Inv(w) ==> Inv(r)
    ensures r.player.requests == w.player.requests + 1
    ensures r.player.current == Some(|w.player.audios|) && Playing(r.player, |w.player.audios|)
    ensures |r.player.audios| == |w.player.audios| + 1
    ensures w.player.current.Some? ==> !Playing(r.player, w.player.current.value)
    ensures forall k :: 0 <= k < |w.player.audios| && w.player.current != Some(k) ==>
              r.player.audios[k] == w.player.audios[k]
    ensures Consistent(w.player) ==> forall k :: 0 <= k < |w.player.audios| ==> !Playing(r.player, k)
    ensures |r.countdowns| == |w.countdowns|
    ensures forall i :: 0 <= i < |w.countdowns| ==>
              r.countdowns[i] == if w.countdowns[i].id == id then Start(id) else w.countdowns[i]
  {
    Widget(ResetAll(w.countdowns, id), Play(Stop(w.player)))
  }

  /** `deleteCountdown(id)`: stop the sound and drop the records with `id`. */
  function DeleteStep(w: Widget, id: int): (r: Widget)
    requires HandleValid(w.player)
    ensures Inv(w) ==> Inv(r)
    ensures r.player.current == None && r.player.requests == w.player.requests
    ensures |r.player.audios| == |w.player.audios|
    ensures w.player.current.Some? ==> !Playing(r.player, w.player.current.value)
    ensures forall k :: 0 <= k < |w.player.audios| && w.player.current != Some(k) ==>
              r.player.audios[k] == w.player.audios[k]
    ensures Consistent(w.player) ==> Silent(r.player)
    ensures forall c :: multiset(r.countdowns)[c] == if c.id == id then 0 else multiset(w.countdowns)[c]
    ensures forall c :: c in r.countdowns <==> c in w.countdowns && c.id != id
    ensures Subsequence(r.countdowns, w.countdowns)
  {
    DeleteAllMembers(w.countdowns, id);
    Widget(DeleteAll(w.countdowns, id), Stop(w.player))
  }

  /** `n` ticks in a row; however many there are, the invariant holds after them. */
  function Ticks(w: Widget, n: nat): (r: Widget)
    ensures Inv(w) ==> Inv(r)
  {
    if n == 0 then w else TickStep(Ticks(w, n - 1))
  }

  /** A running countdown with `t` seconds left counts down one second per
      tick, finishes on tick `t`, then stays finished; over all those ticks it
      asks for the sound exactly once, on tick `t`. */
  lemma {:induction false} TicksOnRunning(w: Widget, n: nat)
    requires |w.countdowns| == 1 && IsRunning(w.countdowns[0])
    ensures var cd := w.countdowns[0];
            var r := Ticks(w, n);
            && |r.countdowns| == 1
            && (n < cd.time ==> r.countdowns[0] == cd.(time := cd.time - n))
            && (n >= cd.time ==> r.countdowns[0] == cd.(time := 0, running := false, message := TimesUp, animate := true))
            && r.player.requests == w.player.requests + (if n >= cd.time then 1 else 0)
  {
    TicksAfter(w, n);
  }

  /** Where a running countdown stands after `n` ticks. */
  function After(cd: Countdown, n: nat): Countdown {
    if n < cd.time then cd.(time := cd.time - n)
    else cd.(time := 0, running := false, message := TimesUp, animate := true)
  }

  /** One more tick moves a running countdown from where it stands after `n`
      ticks to where it stands after `n + 1`, reaching zero exactly on tick `t`. */
  lemma TickAfter(cd: Countdown, n: nat)
    requires IsRunning(cd)
    ensures TickOne(After(cd, n)) == After(cd, n + 1)
    ensures Finishes(After(cd, n)) <==> n + 1 == cd.time
  {
  }

  /** One tick on the list holding a running countdown after `k` ticks. */
  lemma StepAfter(prev: Widget, cd: Countdown, k: nat)
    requires IsRunning(cd) && prev.countdowns == [After(cd, k)]
    ensures TickStep(prev).countdowns == [After(cd, k + 1)]
    ensures TickStep(prev).player.requests == prev.player.requests + (if k + 1 == cd.time then 1 else 0)
  {
    TickSingle(prev);
    TickAfter(cd, k);
  }

  /** `Ticks` in terms of `After`. */
  lemma {:induction false} TicksAfter(w: Widget, n: nat)
    requires |w.countdowns| == 1 && IsRunning(w.countdowns[0])
    ensures Ticks(w, n).countdowns == [After(w.countdowns[0], n)]
    ensures Ticks(w, n).player.requests == w.player.requests + (if n >= w.countdowns[0].time then 1 else 0)
  {
    if n == 0 {
      var cd := w.countdowns[0];
      assert After(cd, 0) == cd;
      assert Ticks(w, 0) == w && w.countdowns == [cd];
    } else {
      TicksAfter(w, n - 1);
      TicksAfterStep(w, n);
    }
  }

  /** The inductive step of `TicksAfter`: from tick `n - 1` to tick `n`. */
  lemma TicksAfterStep(w: Widget, n: nat)
    requires |w.countdowns| == 1 && IsRunning(w.countdowns[0]) && n > 0
    requires Ticks(w, n - 1).countdowns == [After(w.countdowns[0], n - 1)]
    requires Ticks(w, n - 1).player.requests == w.player.requests + (if n - 1 >= w.countdowns[0].time then 1 else 0)
    ensures Ticks(w, n).countdowns == [After(w.countdowns[0], n)]
    ensures Ticks(w, n).player.requests == w.player.requests + (if n >= w.countdowns[0].time then 1 else 0)
  {
    var prev := Ticks(w, n - 1);
    StepAfter(prev, w.countdowns[0], n - 1);
    assert Ticks(w, n) == TickStep(prev);
  }

  /** One tick on a list of exactly one record. */
  lemma TickSingle(w: Widget)
    requires |w.countdowns| == 1
    ensures TickStep(w).countdowns == [TickOne(w.countdowns[0])]
    ensures TickStep(w).player.requests == w.player.requests + (if Finishes(w.countdowns[0]) then 1 else 0)
  {
    assert w.countdowns[..0] == [];
  }

  /** Starting from mount: after 3 ticks 7 seconds are left; after 10 the
      countdown has finished, and the sound was asked for at the start and
      at the end. */
  lemma StartScenario(id: int)
    ensures Ticks(AddStep(Initial, id), 3).countdowns == [Countdown(id, 7, true, "", false)]
    ensures Ticks(AddStep(Initial, id), 10).countdowns == [Countdown(id, 0, false, TimesUp, true)]
    ensures Ticks(AddStep(Initial, id), 10).player.requests == 2
  {
    TicksOnRunning(AddStep(Initial, id), 3);
    TicksOnRunning(AddStep(Initial, id), 10);
  }

  /** Once the only countdown is deleted, adding one is no longer refused. */
  lemma DeleteThenAdd(w: Widget, id: int, newId: int)
    requires Inv(w) && |w.countdowns| == 1 && w.countdowns[0].id == id
    ensures AddStep(DeleteStep(w, id), newId).countdowns == [Start(newId)]
  {
  }

  /** Reset of a finished countdown restarts it under the same id and starts a
      new sound, with every earlier one stopped. */
  lemma ResetFinished(w: Widget)
    requires Inv(w) && |w.countdowns| == 1 && IsFinished(w.countdowns[0])
    ensures var r := ResetStep(w, w.countdowns[0].id);
            && r.countdowns == [Countdown(w.countdowns[0].id, Duration, true, "", false)]
            && Busy(r.player) && r.player.current == Some(|w.player.audios|)
  {
  }

  /** The overlap of the source's handler, at the level of the component:
      start, reset, a late "ended" event of the first audio, and a second
      reset leave two audios playing at once. */
  lemma LateEndedResetOverlap(id: int)
    ensures var firstReset := ResetStep(AddStep(Initial, id), id);
            var late := firstReset.(player := Ended(firstReset.player, 0));
            var r := ResetStep(late, id);
            && Playing(r.player, 1) && Playing(r.player, 2)
            && r.countdowns == [Start(id)]
  {
  }

  /** The component. `countdowns` is the state set through `setCountdowns`;
      `voice` is `voiceRef.current`; `audios` are the paused flags of the
      audio objects created so far; `playRequests` counts calls of `playSound`. */
  class ClockTimerApp {
    var countdowns: seq<Countdown>
    var voice: Option<nat>
    var audios: seq<bool>
    var playRequests: nat

    /** The component's state as a value. */
    function Model(): Widget
      reads this
    {
      Widget(countdowns, Player(voice, audios, playRequests))
    }

    ghost predicate Valid()
      reads this
    {
      Inv(Model())
    }

    /** Mount: empty list, no handle. */
    constructor ()
      ensures Valid() && Model() == Initial
    {
      countdowns := [];
      voice := None;
      audios := [];
      playRequests := 0;
    }

    /** `playSound`. */
    method PlaySound()
      requires Valid()
      modifies this
      ensures Valid()
      ensures Model() == old(Model()).(player := Play(old(Model()).player))
    {
      playRequests := playRequests + 1;
      if voice.Some? && !audios[voice.value] {
        return;
      }
      audios := audios + [false];
      voice := Some(|audios| - 1);
    }

    /** Pause, rewind and clear the handle, as reset and delete do first. */
    method StopVoice()
      requires Valid()
      modifies this
      ensures Valid()
      ensures Model() == old(Model()).(player := Stop(old(Model()).player))
    {
      if voice.Some? {
        audios := audios[voice.value := true];
        voice := None;
      }
    }

    /** `addCountdown`; `id` stands for `Date.now()`. */
    method Add(id: int)
      requires Valid()
      modifies this
      ensures Valid()
      ensures Model() == AddStep(old(Model()), id)
    {
      if |countdowns| > 0 {
        return;
      }
      PlaySound();
      countdowns := [Countdown(id, Duration, true, "", false)];
    }

    /** One firing of the one-second interval: the updater maps the list and
      calls `playSound` for each record that reaches zero. */
    method Tick()
      requires Valid()
      modifies this
      ensures Valid()
      ensures Model() == TickStep(old(Model()))
    {
      var prev := countdowns;
      var next: seq<Countdown> := [];
      var i := 0;
      while i < |prev|
        invariant 0 <= i <= |prev|
        invariant countdowns == prev && Valid()
        invariant next == TickAll(prev[..i])
        invariant Model().player == PlayTimes(old(Model()).player, FinishCount(prev[..i]))
      {
        var cd := prev[i];
        if Finishes(cd) {
          PlaySound();
        }
        next := next + [TickOne(cd)];
        assert prev[..i + 1][..i] == prev[..i];
        i := i + 1;
      }
      assert prev[..i] == prev;
      countdowns := next;
    }

    /** `resetCountdown(id)`. */
    method Reset(id: int)
      requires Valid()
      modifies this
      ensures Valid()
      ensures Model() == ResetStep(old(Model()), id)
    {
      StopVoice();
      PlaySound();
      countdowns := ResetAll(countdowns, id);
    }

    /** `deleteCountdown(id)`. */
    method Delete(id: int)
      requires Valid()
      modifies this
      ensures Valid()
      ensures Model() == DeleteStep(old(Model()), id)
    {
      StopVoice();
      countdowns := DeleteAll(countdowns, id);
    }

    /** Audio `k` played to the end: the host pauses it, and `onended` clears
        the handle if it still refers to `k`. The event may come late, after
        a reset has already stopped `k` and started a newer audio. */
    method OnEnded(k: nat)
      requires Valid() && k < |audios|
      modifies this
      ensures Valid()
      ensures Model() == old(Model()).(player := EndedOwn(old(Model()).player, k))
    {
      audios := audios[k := true];
      if voice == Some(k) {
        voice := None;
      }
    }

    /** The host did not allow audio `k` to play: it stays paused and the handle is kept. */
    method OnRejected(k: nat)
      requires Valid() && Playing(Model().player, k)
      modifies this
      ensures Valid()
      ensures Model() == old(Model()).(player := Rejected(old(Model()).player, k))
    {
      audios := audios[k := true];
    }
  }
}
