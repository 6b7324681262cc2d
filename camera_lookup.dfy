/**
 * Lookup of the back-facing camera (GetBackFacingCameraId).
 *
 * The platform's camera id list and each camera's lens-facing characteristic
 * are foreign queries; here they arrive together as a list of entries in the
 * order the platform reports them.
 */
module CameraLookup {
  import opened Wrappers

  /** The lens-facing values of the platform's camera metadata. */
  datatype LensFacing = Front | Back | External

  datatype CameraEntry = CameraEntry(id: string, facing: LensFacing)

  /** The position of the first back-facing camera, if there is one. */
  function FirstBackFacing(cameras: seq<CameraEntry>): (r: Option<nat>)
    ensures r.None? <==> forall i :: 0 <= i < |cameras| ==> cameras[i].facing != Back
    ensures r.Some? ==>
      && r.value < |cameras|
      && cameras[r.value].facing == Back
      && forall i :: 0 <= i < r.value ==> cameras[i].facing != Back
    decreases |cameras|
  {
    if |cameras| == 0 then None
    else if cameras[0].facing == Back then Some(0)
    else
      match FirstBackFacing(cameras[1..])
      case None => None
      case Some(k) => Some(k + 1)
  }

  /** The id GetBackFacingCameraId returns: that of the first back-facing camera, or "" when there is none. */
  function BackFacingId(cameras: seq<CameraEntry>): (id: string)
    ensures (forall i :: 0 <= i < |cameras| ==> cameras[i].facing != Back) ==> id == ""
    ensures (exists i :: 0 <= i < |cameras| && cameras[i].facing == Back) ==>
      exists k :: 0 <= k < |cameras| && cameras[k].facing == Back && id == cameras[k].id
        && forall i :: 0 <= i < k ==> cameras[i].facing != Back
  {
    match FirstBackFacing(cameras)
    case None => ""
    case Some(k) => cameras[k].id
  }

  /** GetBackFacingCameraId: a linear search that stops at the first back-facing camera. */
  method GetBackFacingCameraId(cameras: seq<CameraEntry>) returns (backId: string)
    ensures backId == BackFacingId(cameras)
  {
    backId := "";
    var i := 0;
    while i < |cameras|
      invariant 0 <= i <= |cameras|
      invariant forall j :: 0 <= j < i ==> cameras[j].facing != Back
    {
      if cameras[i].facing == Back {
        backId := cameras[i].id;
        break;
      }
      i := i + 1;
    }
  }

  /** The returned id belongs to a back-facing camera, and no camera before it faces back. */
  lemma BackFacingIdIsFirstBack(cameras: seq<CameraEntry>, k: int)
    requires 0 <= k < |cameras| && cameras[k].facing == Back
    requires forall i :: 0 <= i < k ==> cameras[i].facing != Back
    ensures BackFacingId(cameras) == cameras[k].id
  {
  }
}
