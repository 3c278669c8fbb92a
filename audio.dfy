/** The component's audio handle (`voiceRef.current`) and the alert-sound
    objects it points to. Audio objects are numbered in creation order; the
    model keeps each one's `paused` flag, so "the handle is not paused" reads
    the state of the object the handle refers to. */
module Audio {

  datatype Option<T> = None | Some(value: T)

  /** `current`: the handle, as the number of the audio it refers to, or none.
      `audios[k]`: whether the k-th audio created is paused.
      `requests`: how many times the sound was asked for. */
  datatype Player = Player(current: Option<nat>, audios: seq<bool>, requests: nat)

  /** No audio created, no handle, nothing asked for. */
  const Idle: Player := Player(None, [], 0)

  /** Audio `k` exists and is playing. */
  predicate Playing(p: Player, k: nat) {
    k < |p.audios| && !p.audios[k]
  }

  /** The overlap guard: a handle exists and is not paused. */
  predicate Busy(p: Player) {
    p.current.Some? && Playing(p, p.current.value)
  }

  /** The handle is null or refers to an audio that exists. */
  predicate HandleValid(p: Player) {
    p.current.Some? ==> p.current.value < |p.audios|
  }

  /** The handle is valid, and the only audio that may be playing is the one
      the handle refers to. */
  predicate Consistent(p: Player) {
    && HandleValid(p)
    && forall k :: 0 <= k < |p.audios| && !p.audios[k] ==> p.current == Some(k)
  }

  /** Nothing is playing. */
  predicate Silent(p: Player) {
    forall k :: 0 <= k < |p.audios| ==> p.audios[k]
  }

  /** `playSound`: with the guard up nothing changes; otherwise a new audio is
      created, stored in the handle, and started. */
  function Play(p: Player): (r: Player)
    ensures r.requests == p.requests + 1
    ensures Busy(p) ==> r.current == p.current && r.audios == p.audios
    ensures !Busy(p) ==> r.audios == p.audios + [false] && r.current == Some(|p.audios|)
    ensures Consistent(p) ==> Consistent(r) && Busy(r)
  {
    if Busy(p) then p.(requests := p.requests + 1)
    else Player(Some(|p.audios|), p.audios + [false], p.requests + 1)
  }

  /** Reset's and delete's stop: pause the audio the handle refers to (its
      position is rewound as well) and clear the handle. An audio playing
      without a handle, as a late "ended" event leaves one, is not reached. */
  function Stop(p: Player): (r: Player)
    requires HandleValid(p)
    ensures r.current == None && r.requests == p.requests && |r.audios| == |p.audios|
    ensures p.current.Some? ==> r.audios[p.current.value]
    ensures forall k :: 0 <= k < |p.audios| && p.current != Some(k) ==> r.audios[k] == p.audios[k]
    ensures Consistent(p) ==> Consistent(r) && Silent(r)
  {
    match p.current
    case None => p
    case Some(k) => p.(current := None, audios := p.audios[k := true])
  }

  /** The "ended" event of audio `k`, as the component's `onended` handles
      it: the audio is now paused and the handle is cleared, whatever audio
      it refers to by then. The event may arrive late, after a stop has
      already paused `k` and a newer audio has taken the handle. */
  function Ended(p: Player, k: nat): (r: Player)
    requires k < |p.audios|
    ensures r.current == None && r.requests == p.requests
    ensures !Playing(r, k) && |r.audios| == |p.audios|
    ensures forall j :: 0 <= j < |p.audios| && j != k ==> r.audios[j] == p.audios[j]
    ensures Consistent(p) && Playing(p, k) ==> Consistent(r) && Silent(r)
  {
    Player(None, p.audios[k := true], p.requests)
  }

  /** The "ended" event of audio `k` with a handler that clears the handle
      only while it still refers to `k`. On a playing audio it agrees with
      `Ended`; on a late event it leaves the newer handle in place. */
  function EndedOwn(p: Player, k: nat): (r: Player)
    requires k < |p.audios|
    ensures r.current == if p.current == Some(k) then None else p.current
    ensures r.requests == p.requests && !Playing(r, k) && |r.audios| == |p.audios|
    ensures forall j :: 0 <= j < |p.audios| && j != k ==> r.audios[j] == p.audios[j]
    ensures Consistent(p) ==> Consistent(r)
    ensures Consistent(p) && Playing(p, k) ==> r == Ended(p, k)
  {
    Player(if p.current == Some(k) then None else p.current, p.audios[k := true], p.requests)
  }

  /** The host did not allow `play()` on audio `k` (an autoplay policy, say),
      so the audio stays paused; the handle still refers to it, and the error
      is only logged. */
  function Rejected(p: Player, k: nat): (r: Player)
    requires Playing(p, k)
    ensures r.current == p.current && r.requests == p.requests
    ensures !Playing(r, k) && |r.audios| == |p.audios|
    ensures forall j :: 0 <= j < |p.audios| && j != k ==> r.audios[j] == p.audios[j]
    ensures Consistent(p) ==> Consistent(r) && Silent(r)
  {
    p.(audios := p.audios[k := true])
  }

  /** `n` requests in a row: each adds one to the count, and together they
      keep at most one audio playing. */
  function PlayTimes(p: Player, n: nat): (r: Player)
    ensures r.requests == p.requests + n
    ensures Consistent(p) ==> Consistent(r)
  {
    if n == 0 then p else Play(PlayTimes(p, n - 1))
  }

  /** At most one audio plays at any time. */
  lemma OnePlaying(p: Player, i: nat, j: nat)
    requires Consistent(p) && Playing(p, i) && Playing(p, j)
    ensures i == j
  {
  }

  /** Asking twice in a row leaves the same single handle as asking once. */
  lemma PlayTwice(p: Player)
    requires Consistent(p)
    ensures Play(Play(p)) == Play(p).(requests := p.requests + 2)
  {
  }

  /** After a play the host did not allow, the audio is paused, so the guard
      lets the next request through: it installs a fresh handle. */
  lemma PlayAfterRejected(p: Player, k: nat)
    requires Consistent(p) && Playing(p, k)
    ensures Play(Rejected(p, k)).current == Some(|p.audios|)
  {
  }

  /** A late "ended" event breaks the overlap guard. Audio 0 reaches its end;
      before its event is handled, a reset stops it and starts audio 1. The
      event then clears the handle while audio 1 plays, so the next reset's
      stop finds no handle and its request starts audio 2 beside audio 1. */
  lemma LateEndedOverlap()
    ensures var afterReset := Play(Stop(Play(Idle)));
            var late := Ended(afterReset, 0);
            && Playing(afterReset, 1) && !Playing(afterReset, 0)
            && Playing(late, 1) && late.current == None && !Consistent(late)
            && Playing(Play(Stop(late)), 1) && Playing(Play(Stop(late)), 2)
  {
  }

  /** With the handler that checks its own audio, the same late event keeps
      audio 1 as the handle, and the next request meets the guard. */
  lemma LateEndedOwnGuarded()
    ensures var afterReset := Play(Stop(Play(Idle)));
            var late := EndedOwn(afterReset, 0);
            && late.current == Some(1) && Busy(late)
            && Play(late).audios == late.audios
  {
  }

  /** Any number of requests in a row acts like one, apart from the count. */
  lemma {:induction false} PlayTimesOnce(p: Player, n: nat)
    requires Consistent(p) && n > 0
    ensures PlayTimes(p, n) == Play(p).(requests := p.requests + n)
  {
    if n > 1 {
      PlayTimesOnce(p, n - 1);
      PlayTwice(p);
    }
  }
}
