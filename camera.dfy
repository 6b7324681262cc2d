/**
 * The camera handle lifecycle (class simple::Camera).
 *
 * The object's state is its nullable platform handles. Every platform call is
 * either an input to the method that makes it (the handle it yields, the status
 * it returns) or an effect outside this model (releasing a window, stopping a
 * capture session). A thrown std::runtime_error is a returned Throw outcome.
 */
module SimpleCamera {
  import opened CameraLookup

  /** A native pointer: null, or the address of an object owned by the platform. */
  datatype Ptr = Null | Address(addr: nat)

  /** The platform's success status code. */
  const ACAMERA_OK: int := 0

  /** How a member returns: normally, or by throwing a runtime error with this message. */
  datatype Outcome = Ok | Throw(message: string)

  class Camera {
    var cameraManager: Ptr
    var cameraId: string
    var cameraDevice: Ptr
    var surface: Ptr

    /** A camera that holds no handles. */
    constructor ()
      ensures cameraManager == Null && cameraDevice == Null && surface == Null && cameraId == ""
    {
      cameraManager, cameraId, cameraDevice, surface := Null, "", Null, Null;
    }

    /**
     * Open: store the manager the platform creates, pick the back-facing
     * camera, and store the device handle the platform writes while opening it.
     * `createdManager` is what the manager factory returns, `cameras` the id
     * list with facings, `openStatus` the status of opening the camera and
     * `openedDevice` the device handle it wrote.
     */
    method Open(createdManager: Ptr, cameras: seq<CameraEntry>, openStatus: int, openedDevice: Ptr)
      returns (outcome: Outcome)
      modifies this
      ensures cameraManager == createdManager && surface == old(surface)
      ensures createdManager == Null ==>
        && outcome == Throw("failed to create camera manager")
        && cameraId == old(cameraId) && cameraDevice == old(cameraDevice)
      ensures createdManager != Null ==>
        && cameraId == BackFacingId(cameras)
        && cameraDevice == openedDevice
        && outcome == (if openStatus == ACAMERA_OK then Ok else Throw("failed to open camera"))
    {
      cameraManager := createdManager;
      if cameraManager == Null {
        return Throw("failed to create camera manager");
      }
      cameraId := GetBackFacingCameraId(cameras);
      cameraDevice := openedDevice;
      if openStatus != ACAMERA_OK {
        return Throw("failed to open camera");
      }
      outcome := Ok;
    }

    /** Close: stop the stream, then close the device and delete the manager if present. */
    method Close()
      modifies this
      ensures surface == Null && cameraDevice == Null && cameraManager == Null
      ensures cameraId == old(cameraId)
    {
      StopStream();
      if cameraDevice != Null {
        cameraDevice := Null;
      }
      if cameraManager != Null {
        cameraManager := Null;
      }
    }

    /**
     * StartStream: the surface is stored first; the capture session is set up
     * only when both the device and the surface are non-null, and otherwise the
     * call throws with the surface still stored.
     */
    method StartStream(s: Ptr) returns (outcome: Outcome)
      modifies this`surface
      ensures surface == s
      ensures outcome == (if cameraDevice != Null && s != Null then Ok else Throw("failed to start stream"))
    {
      surface := s;
      if cameraDevice != Null && surface != Null {
        outcome := Ok;
      } else {
        outcome := Throw("failed to start stream");
      }
    }

    /** StopStream: tears the session down and releases the surface only when one is held. */
    method StopStream()
      modifies this`surface
      ensures surface == Null
      ensures old(surface) == Null ==> unchanged(this)
    {
      if surface != Null {
        surface := Null;
      }
    }
  }

  /** Stopping the stream a second time changes nothing: StopStream is idempotent. */
  method StopStreamTwice(c: Camera)
    modifies c
    ensures c.surface == Null
    ensures c.cameraManager == old(c.cameraManager) && c.cameraDevice == old(c.cameraDevice)
    ensures c.cameraId == old(c.cameraId)
  {
    c.StopStream();
    ghost var once := (c.cameraManager, c.cameraId, c.cameraDevice, c.surface);
    c.StopStream();
    assert (c.cameraManager, c.cameraId, c.cameraDevice, c.surface) == once;
  }

  /** Starting a stream on a closed camera throws, yet leaves the given surface stored. */
  method StartAfterClose(c: Camera, s: Ptr) returns (outcome: Outcome)
    modifies c
    ensures outcome == Throw("failed to start stream")
    ensures c.surface == s && c.cameraDevice == Null && c.cameraManager == Null
  {
    c.Close();
    outcome := c.StartStream(s);
  }
}
