/**
 The persistent stream epoch of each camera: every start of a stream takes the
 next one.
 */
module CameraEpochs {
  function Current(epochs: map<int, nat>, camera: int): nat {
    if camera in epochs then epochs[camera] else 0
  }

  class CameraEpochRepository {
    var epochs: map<int, nat>

    constructor ()
      ensures epochs == map[]
    {
      epochs := map[];
    }

    function GetCurrentEpoch(camera: int): nat
      reads this
    {
      Current(epochs, camera)
    }

    method IncrementAndGetEpoch(camera: int) returns (epoch: nat)
      modifies this
      ensures epoch == old(GetCurrentEpoch(camera)) + 1 == GetCurrentEpoch(camera)
      ensures epochs == old(epochs)[camera := epoch]
    {
      if camera !in epochs {
        epochs := epochs[camera := 1];
      } else {
        epochs := epochs[camera := epochs[camera] + 1];
      }
      epoch := epochs[camera];
    }
  }

  // The table after the given cameras asked for an epoch, in that order.
  function After(cameras: seq<int>): map<int, nat> {
    if cameras == [] then map[] else
      var before, c := After(cameras[..|cameras| - 1]), cameras[|cameras| - 1];
      before[c := Current(before, c) + 1]
  }

  // What the i-th request was answered.
  function Issued(cameras: seq<int>, i: nat): nat
    requires i < |cameras|
  {
    Current(After(cameras[..i]), cameras[i]) + 1
  }

  function Count(cameras: seq<int>, c: int): nat {
    if cameras == [] then 0 else
      Count(cameras[..|cameras| - 1], c) + if cameras[|cameras| - 1] == c then 1 else 0
  }

  // The epoch of a camera is the number of its starts.
  lemma {:induction false} EpochCountsStarts(cameras: seq<int>, c: int)
    ensures Current(After(cameras), c) == Count(cameras, c)
  {
    if cameras != [] {
      var before := cameras[..|cameras| - 1];
      EpochCountsStarts(before, c);
      EpochCountsStarts(before, cameras[|cameras| - 1]);
    }
  }

  lemma {:induction false} CountGrows(cameras: seq<int>, i: nat, j: nat)
    requires i < j <= |cameras|
    ensures Count(cameras[..j], cameras[i]) > Count(cameras[..i], cameras[i])
    decreases j
  {
    assert cameras[..j][..j - 1] == cameras[..j - 1];
    if i < j - 1 {
      CountGrows(cameras, i, j - 1);
    }
  }

  // No camera is ever given an epoch twice: later starts get larger ones.
  lemma EpochsIncrease(cameras: seq<int>, i: nat, j: nat)
    requires i < j < |cameras| && cameras[i] == cameras[j]
    ensures Issued(cameras, i) < Issued(cameras, j)
  {
    EpochCountsStarts(cameras[..i], cameras[i]);
    EpochCountsStarts(cameras[..j], cameras[i]);
    CountGrows(cameras, i, j);
  }
}
