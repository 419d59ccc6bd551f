/** The background-music player of js/script.js: the loop/shuffle play mode
    persisted in local storage, the `audio.loop` flag that follows it, and
    shuffle's choice of a different next track by rejection sampling. */
module Music {

  import opened Wrappers

  const Loop: string := "loop"
  const Shuffle: string := "shuffle"

  /** `togglePlayMode`'s new mode: loop becomes shuffle, anything else
      (shuffle, or an unexpected stored value) becomes loop. */
  function Toggled(mode: string): (r: string)
    ensures r == Loop || r == Shuffle
    ensures r == Shuffle <==> mode == Loop
  {
    if mode == Loop then Shuffle else Loop
  }

  /** `localStorage.getItem('playMode') || 'shuffle'` */
  function InitialMode(saved: Option<string>): (r: string)
    ensures saved.None? || saved == Some("") ==> r == Shuffle
    ensures saved.Some? && saved.value != "" ==> r == saved.value
  {
    if saved.Some? && saved.value != "" then saved.value else Shuffle
  }

  /** Toggling twice restores a mode written by the page itself. */
  lemma ToggleTwice(mode: string)
    requires mode == Loop || mode == Shuffle
    ensures Toggled(Toggled(mode)) == mode
  {
  }

  /** A foreign stored value is replaced: two toggles end in shuffle. */
  lemma ToggleTwiceForeign(mode: string)
    requires mode != Loop && mode != Shuffle
    ensures Toggled(mode) == Loop && Toggled(Toggled(mode)) == Shuffle
  {
  }

  // ---------------------------------------------------------------------
  // The currently highlighted playlist entry

  /** The index `forEach` leaves in `currentIdx`: the last highlighted entry,
      or -1 when none is highlighted. */
  function LastActive(flags: seq<bool>): (r: int)
    ensures -1 <= r < |flags|
    ensures r >= 0 ==> flags[r]
    ensures forall j :: r < j < |flags| ==> !flags[j]
  {
    if flags == [] then -1
    else if flags[|flags| - 1] then |flags| - 1
    else LastActive(flags[..|flags| - 1])
  }

  /** The `forEach` over the playlist that records the highlighted entry. */
  method FindActive(flags: seq<bool>) returns (current: int)
    ensures current == LastActive(flags)
  {
    current := -1;
    var idx := 0;
    while idx < |flags|
      invariant 0 <= idx <= |flags|
      invariant current == LastActive(flags[..idx])
    {
      if flags[idx] {
        current := idx;
      }
      assert flags[..idx + 1][..idx] == flags[..idx];
      idx := idx + 1;
    }
    assert flags[..|flags|] == flags;
  }

  // ---------------------------------------------------------------------
  // Rejection sampling

  /** `Math.floor(Math.random() * n)` for a draw `roll` of Math.random(). */
  function Draw(roll: real, n: nat): (k: nat)
    requires 0.0 <= roll < 1.0
    ensures n > 0 ==> k < n
    ensures n == 0 ==> k == 0
  {
    var x := roll * n as real;
    ScaledRoll(roll, n as real);
    x.Floor
  }

  /** A roll in [0, 1) scaled by a non-negative m lies in [0, m), below m
      when m is positive. */
  lemma ScaledRoll(roll: real, m: real)
    requires 0.0 <= roll < 1.0 && 0.0 <= m
    ensures 0.0 <= roll * m
    ensures 0.0 < m ==> roll * m < m
  {
    assert m - roll * m == (1.0 - roll) * m;
    if 0.0 < m {
      assert 0.0 < (1.0 - roll) * m;
    }
  }

  /** The `do…while` condition: draw again while the draw repeats the current
      track and there is more than one track. */
  predicate Rejected(k: int, current: int, n: nat): (r: bool)
    ensures n <= 1 ==> !r
    ensures k != current ==> !r
    ensures n > 1 && !r ==> k != current
  {
    k == current && n > 1
  }

  predicate ValidRolls(rolls: seq<real>) {
    forall i :: 0 <= i < |rolls| ==> 0.0 <= rolls[i] < 1.0
  }

  /** The rejection loop of `playRandomSong`, fed by the stream of
      Math.random() results. The stream is assumed to contain an accepted draw
      (true with probability one). The result is the first accepted draw:
      with more than one track it differs from `current`. */
  method PickNext(current: int, n: nat, rolls: seq<real>) returns (next: nat, used: nat)
    requires ValidRolls(rolls)
    requires exists i :: 0 <= i < |rolls| && !Rejected(Draw(rolls[i], n), current, n)
    ensures 0 < used <= |rolls| && next == Draw(rolls[used - 1], n)
    ensures !Rejected(next, current, n)
    ensures n > 1 ==> next != current
    ensures n > 0 ==> next < n
    ensures forall i :: 0 <= i < used - 1 ==> Rejected(Draw(rolls[i], n), current, n)
  {
    next := Draw(rolls[0], n);
    used := 1;
    while Rejected(next, current, n)
      invariant 0 < used <= |rolls| && next == Draw(rolls[used - 1], n)
      invariant forall i :: 0 <= i < used - 1 ==> Rejected(Draw(rolls[i], n), current, n)
      invariant exists i :: used - 1 <= i < |rolls| && !Rejected(Draw(rolls[i], n), current, n)
      decreases |rolls| - used
    {
      next := Draw(rolls[used], n);
      used := used + 1;
    }
  }

  // ---------------------------------------------------------------------
  // The player

  class Player {
    /** `data-src` of each playlist entry. */
    const sources: seq<string>
    /** The `active` class of each playlist entry. */
    const active: array<bool>
    var src: string
    var playMode: string
    var audioLoop: bool
    /** The `playMode` key of local storage. */
    var storedMode: Option<string>

    /** `audio.loop` is on unless the mode is shuffle; for the two modes the
        page writes itself this is `audio.loop == (playMode == 'loop')`. */
    ghost predicate Valid()
      reads this
    {
      active.Length == |sources| && audioLoop == (playMode != Shuffle)
    }

    /** `initMusic` (the first track becomes the source) followed by
        `initPlayMode` with the stored mode; `marked` is the highlighting the
        page starts with. */
    constructor (tracks: seq<string>, marked: seq<bool>, saved: Option<string>)
      requires |marked| == |tracks|
      ensures Valid() && fresh(active)
      ensures sources == tracks && active[..] == marked
      ensures src == (if |tracks| > 0 then tracks[0] else "")
      ensures playMode == InitialMode(saved) && storedMode == saved
      ensures audioLoop <==> playMode != Shuffle
    {
      sources := tracks;
      var flags := new bool[|marked|](i requires 0 <= i < |marked| => marked[i]);
      active := flags;
      src := if |tracks| > 0 then tracks[0] else "";
      var mode := InitialMode(saved);
      playMode := mode;
      audioLoop := mode != Shuffle;
      storedMode := saved;
    }

    /** `togglePlayMode`: flip the mode, keep `audio.loop` in step, persist. */
    method TogglePlayMode()
      requires Valid()
      modifies this`playMode, this`audioLoop, this`storedMode
      ensures Valid()
      ensures playMode == Toggled(old(playMode))
      ensures audioLoop <==> playMode == Loop
      ensures storedMode == Some(playMode)
    {
      if playMode == Loop {
        playMode := Shuffle;
        audioLoop := false;
      } else {
        playMode := Loop;
        audioLoop := true;
      }
      storedMode := Some(playMode);
    }

    /** `playRandomSong`: pick a track other than the highlighted one (when
        there is a choice), highlight exactly that entry, and load it. With an
        empty playlist the source throws before changing anything, which the
        model reports as `ok == false`. */
    method PlayRandomSong(rolls: seq<real>) returns (ok: bool, next: nat)
      requires Valid() && ValidRolls(rolls)
      requires exists i :: 0 <= i < |rolls| && !Rejected(Draw(rolls[i], |sources|), LastActive(active[..]), |sources|)
      modifies active, this`src
      ensures Valid()
      ensures ok <==> |sources| > 0
      ensures !ok ==> active[..] == old(active[..]) && src == old(src)
      ensures ok ==> next < |sources| && src == sources[next]
      ensures ok && |sources| > 1 ==> next != LastActive(old(active[..]))
      ensures ok ==> forall j :: 0 <= j < active.Length ==> (active[j] <==> j == next)
    {
      var current := FindActive(active[..]);
      var used;
      next, used := PickNext(current, |sources|, rolls);
      if |sources| == 0 {
        return false, next;
      }
      var j := 0;
      while j < active.Length
        invariant 0 <= j <= active.Length
        invariant forall k :: 0 <= k < j ==> !active[k]
      {
        active[j] := false;
        j := j + 1;
      }
      active[next] := true;
      src := sources[next];
      ok := true;
    }

    /** The `ended` listener: only shuffle mode moves on, through
        `playRandomSong`, to another track; loop mode (where `audio.loop`
        replays the track) and an empty shuffle playlist change nothing. */
    method OnEnded(rolls: seq<real>) returns (switched: bool, next: nat)
      requires Valid() && ValidRolls(rolls)
      requires playMode == Shuffle ==>
                 exists i :: 0 <= i < |rolls| && !Rejected(Draw(rolls[i], |sources|), LastActive(active[..]), |sources|)
      modifies active, this`src
      ensures Valid()
      ensures switched <==> playMode == Shuffle && |sources| > 0
      ensures !switched ==> active[..] == old(active[..]) && src == old(src)
      ensures switched ==> next < |sources| && src == sources[next]
      ensures switched && |sources| > 1 ==> next != LastActive(old(active[..]))
      ensures switched ==> forall j :: 0 <= j < active.Length ==> (active[j] <==> j == next)
    {
      switched, next := false, 0;
      if playMode == Shuffle {
        switched, next := PlayRandomSong(rolls);
      }
    }
  }
}
