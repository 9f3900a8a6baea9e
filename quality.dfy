/** The JPEG quality controller: an index into a fixed ladder of qualities,
    moved by at most one rung after every encoded frame according to the
    throughput that frame achieved. */
module Quality {

  /** The quality ladder, lowest first. */
  const Levels: seq<int> := [40, 60, 70, 80]

  /** Above this many bytes per second the controller lowers the quality. */
  const HighSpeed: real := 7000000.0

  /** Below this many bytes per second the controller raises the quality. */
  const LowSpeed: real := 4000000.0

  /** The index the controller starts from (lowest quality). */
  const InitialLevel: nat := 0

  /** Bytes per second achieved by a frame of `size` bytes produced `elapsed`
      seconds after the previous one (`size as f64 / last.elapsed().as_secs_f64()`). */
  function TxSpeed(size: nat, elapsed: real): (s: real)
    requires elapsed > 0.0
    ensures s >= 0.0
    ensures s * elapsed == size as real
  {
    size as real / elapsed
  }

  /** The controller's step: lower the quality when the frame went out faster
      than HighSpeed and the index is not at the bottom; otherwise raise it when
      slower than LowSpeed and not at the top; otherwise hold. */
  function NextLevel(level: nat, txSpeed: real): (r: nat)
    requires level < |Levels|
    ensures r < |Levels|
    ensures -1 <= r - level <= 1
    ensures r < level <==> level > 0 && txSpeed > HighSpeed
    ensures r > level <==> !(level > 0 && txSpeed > HighSpeed) && level + 1 < |Levels| && txSpeed < LowSpeed
  {
    if level > 0 && txSpeed > HighSpeed then level - 1
    else if level + 1 < |Levels| && txSpeed < LowSpeed then level + 1
    else level
  }

  /** The index after a run of frames with the given speeds. */
  function LevelAfter(level: nat, speeds: seq<real>): (r: nat)
    requires level < |Levels|
    ensures r < |Levels|
    decreases |speeds|
  {
    if speeds == [] then level
    else LevelAfter(NextLevel(level, speeds[0]), speeds[1..])
  }

  /** Over any run the index moves at most one rung per frame. */
  lemma {:induction false} LevelDrift(level: nat, speeds: seq<real>)
    requires level < |Levels|
    ensures -|speeds| <= LevelAfter(level, speeds) - level <= |speeds|
    decreases |speeds|
  {
    if speeds != [] {
      LevelDrift(NextLevel(level, speeds[0]), speeds[1..]);
    }
  }

  /** Sustained high throughput walks the index down one rung per frame and
      then holds it at the bottom (the floor clamp). */
  lemma {:induction false} SustainedFastFloors(level: nat, speeds: seq<real>)
    requires level < |Levels|
    requires forall i :: 0 <= i < |speeds| ==> speeds[i] > HighSpeed
    ensures LevelAfter(level, speeds) == if level >= |speeds| then level - |speeds| else 0
    decreases |speeds|
  {
    if speeds != [] {
      SustainedFastFloors(NextLevel(level, speeds[0]), speeds[1..]);
    }
  }

  /** Sustained low throughput walks the index up one rung per frame and then
      holds it at the top (the ceiling clamp). */
  lemma {:induction false} SustainedSlowCeils(level: nat, speeds: seq<real>)
    requires level < |Levels|
    requires forall i :: 0 <= i < |speeds| ==> speeds[i] < LowSpeed
    ensures LevelAfter(level, speeds) == if level + |speeds| < |Levels| then level + |speeds| else |Levels| - 1
    decreases |speeds|
  {
    if speeds != [] {
      SustainedSlowCeils(NextLevel(level, speeds[0]), speeds[1..]);
    }
  }

  /** Throughput between the thresholds leaves the index where it is. */
  lemma {:induction false} SteadyHolds(level: nat, speeds: seq<real>)
    requires level < |Levels|
    requires forall i :: 0 <= i < |speeds| ==> LowSpeed <= speeds[i] <= HighSpeed
    ensures LevelAfter(level, speeds) == level
    decreases |speeds|
  {
    if speeds != [] {
      SteadyHolds(NextLevel(level, speeds[0]), speeds[1..]);
    }
  }
}
