/**
 * The camera-handle lifecycle of MainView: one nullable Camera field that the
 * surface callbacks, openCameraInstance, releaseCameraInstance, startView,
 * stopView, updateView and reopen read and reassign.
 *
 * The platform is seen only through its answers, which every operation takes
 * as parameters: what Camera.open() and Camera.open(0) did, the camera count,
 * the supported preview sizes, the display rotation, the CameraInfo of camera
 * id CAMERA_FACING_BACK and whether binding the preview surface succeeded.
 */
module CameraLifecycle {
  import opened Wrappers
  import opened PreviewSize
  import opened Orientation

  /** The identity of one android.hardware.Camera object. */
  datatype Handle = Handle(id: nat)

  /** What one call to Camera.open() or Camera.open(0) did. */
  datatype OpenOutcome = Opened(handle: Handle) | ReturnedNull | Threw

  /** The platform's answers during one openCameraInstance. */
  datatype Device = Device(defaultOpen: OpenOutcome, cameraCount: int, indexOpen: OpenOutcome)

  /** Camera.CameraInfo: which way the camera faces and its sensor orientation. */
  datatype CameraInfo = CameraInfo(facing: int, orientation: int)

  /**
   * The platform's answers during one updateView: whether the holder has a
   * surface, the supported preview sizes, the display rotation code, the
   * CameraInfo of camera id CAMERA_FACING_BACK, and whether setPreviewDisplay
   * succeeded (it may throw IOException).
   */
  datatype ViewEnv = ViewEnv(
    hasSurface: bool,
    supportedSizes: seq<Size>,
    rotation: int,
    info: CameraInfo,
    bindOk: bool)

  /**
   * A held camera together with what the view has done to it: preview
   * running, frame callback installed, preview surface bound, the preview size
   * written into the Parameters object read from it, and the display
   * orientation set on it.
   */
  datatype Session = Session(
    handle: Handle,
    previewing: bool,
    frameCallback: bool,
    boundToSurface: bool,
    chosenPreviewSize: Option<Size>,
    displayOrientation: int)

  /** A camera as Camera.open hands it over: nothing set on it yet. */
  function FreshSession(h: Handle): Session
  {
    Session(h, false, false, false, None, 0)
  }

  /** The handle the field holds, as a set. */
  function Held(camera: Option<Session>): set<Handle>
  {
    if camera.Some? then {camera.value.handle} else {}
  }

  /** The field after `camera = Camera.open()`; a throw skips the assignment. */
  function AfterDefaultOpen(camera: Option<Session>, outcome: OpenOutcome): (r: Option<Session>)
    ensures r.None? <==> outcome.ReturnedNull? || (outcome.Threw? && camera.None?)
    ensures r != camera ==> !outcome.Threw?
    ensures outcome.Opened? ==> r.Some? && r.value == FreshSession(outcome.handle)
  {
    match outcome
    case Opened(h) => Some(FreshSession(h))
    case ReturnedNull => None
    case Threw => camera
  }

  /**
   * The field after openCameraInstance: the default open first; only when that
   * leaves the field null and some camera exists, Camera.open(0).
   */
  function AfterOpen(camera: Option<Session>, dev: Device): (r: Option<Session>)
    ensures r.None? <==>
      AfterDefaultOpen(camera, dev.defaultOpen).None? && (dev.cameraCount <= 0 || !dev.indexOpen.Opened?)
    ensures r.Some? ==>
      r == AfterDefaultOpen(camera, dev.defaultOpen) ||
      (dev.cameraCount > 0 && dev.indexOpen == Opened(r.value.handle) && r.value == FreshSession(r.value.handle))
  {
    var afterDefault := AfterDefaultOpen(camera, dev.defaultOpen);
    if afterDefault.Some? then afterDefault
    else if dev.cameraCount > 0 then
      match dev.indexOpen
      case Opened(h) => Some(FreshSession(h))
      case _ => None
    else None
  }

  /** Camera.open(0) is consulted only when the default open left the field null and a camera exists. */
  lemma IndexOpenOnlyAsFallback(camera: Option<Session>, dev: Device, count: int, index: OpenOutcome)
    requires AfterDefaultOpen(camera, dev.defaultOpen).Some? || (dev.cameraCount <= 0 && count <= 0)
    ensures AfterOpen(camera, dev) == AfterOpen(camera, dev.(cameraCount := count, indexOpen := index))
  {
  }

  /** What updateView leaves on a camera it configured. */
  ghost predicate Configured(s: Session, env: ViewEnv)
  {
    && s.chosenPreviewSize.Some?
    && IsMinCameraSize(env.supportedSizes, s.chosenPreviewSize.value)
    && s.displayOrientation ==
         DisplayOrientation(env.info.facing, env.info.orientation, Degrees(env.rotation))
    && s.previewing == env.bindOk
    && s.frameCallback == env.bindOk
  }

  /**
   * A camera whose preview and frame callback are stopped: the state it must
   * be in when it is released or reconfigured.
   */
  predicate Stopped(s: Session)
  {
    !s.previewing && !s.frameCallback
  }

  class MainView {
    /** The camera field: None is Kotlin's null. */
    var camera: Option<Session>
    /** Cameras that were dropped from the field without being released. */
    ghost var leaked: set<Handle>
    /** Cameras given back with release(), in order, in the state they had then. */
    ghost var released: seq<Session>
    /** Cameras as they were when updateView began to set their size and orientation, in order. */
    ghost var configured: seq<Session>

    /** No camera has been dropped from the field without release(). */
    ghost predicate NothingLeaked()
      reads this
    {
      leaked == {}
    }

    constructor ()
      ensures camera == None && leaked == {} && released == [] && configured == []
    {
      camera := None;
      leaked := {};
      released := [];
      configured := [];
    }

    /** openCameraInstance: true exactly when the field is non-null afterwards. */
    method OpenCameraInstance(dev: Device) returns (success: bool)
      modifies this
      ensures configured == old(configured)
      ensures camera == AfterOpen(old(camera), dev)
      ensures success <==> camera.Some?
      ensures leaked == old(leaked) + (if Held(camera) != Held(old(camera)) then Held(old(camera)) else {})
      ensures released == old(released)
    {
      ghost var before := camera;
      match dev.defaultOpen {
        case Opened(h) => camera := Some(FreshSession(h));
        case ReturnedNull => camera := None;
        case Threw =>
      }

      if camera == None {
        var cameraCount := dev.cameraCount;
        if cameraCount > 0 {
          match dev.indexOpen {
            case Opened(h) => camera := Some(FreshSession(h));
            case ReturnedNull => camera := None;
            case Threw =>
          }
        } else {
          camera := None;
        }
      }

      if Held(camera) != Held(before) {
        leaked := leaked + Held(before);
      }
      success := camera != None;
    }

    /** releaseCameraInstance: releases the held camera, if any, and clears the field. */
    method ReleaseCameraInstance()
      modifies this
      ensures configured == old(configured)
      ensures camera == None
      ensures released == old(released) + (if old(camera).Some? then [old(camera).value] else [])
      ensures leaked == old(leaked)
    {
      if camera != None {
        released := released + [camera.value];
        camera := None;
      }
    }

    /** startView: installs the frame callback and starts the preview; nothing without a camera. */
    method StartView()
      modifies this
      ensures configured == old(configured)
      ensures old(camera).None? ==> unchanged(this)
      ensures old(camera).Some? ==>
        camera == Some(old(camera).value.(frameCallback := true, previewing := true))
      ensures leaked == old(leaked) && released == old(released)
    {
      if camera != None {
        camera := Some(camera.value.(frameCallback := true));
        camera := Some(camera.value.(previewing := true));
      }
    }

    /** stopView: removes the frame callback and stops the preview; nothing without a camera. */
    method StopView()
      modifies this
      ensures configured == old(configured)
      ensures old(camera).None? ==> unchanged(this)
      ensures old(camera).Some? ==>
        camera == Some(old(camera).value.(frameCallback := false, previewing := false))
      ensures leaked == old(leaked) && released == old(released)
    {
      if camera != None {
        camera := Some(camera.value.(frameCallback := false));
        camera := Some(camera.value.(previewing := false));
      }
    }

    /**
     * updateView: with a surface and a camera, stops the preview, writes the
     * size chosen by getMinCameraSize into the camera's parameters, sets the
     * display orientation,
     * binds the surface and, when that succeeded, restarts the preview.
     */
    method UpdateView(env: ViewEnv)
      requires env.hasSurface && camera.Some? ==> |env.supportedSizes| > 0
      modifies this
      ensures !env.hasSurface || old(camera).None? ==> unchanged(this)
      ensures env.hasSurface && old(camera).Some? ==>
        && camera.Some?
        && camera.value.handle == old(camera).value.handle
        && Configured(camera.value, env)
        && camera.value.boundToSurface == (old(camera).value.boundToSurface || env.bindOk)
      ensures configured == old(configured) +
        (if env.hasSurface && old(camera).Some? then [old(camera).value.(frameCallback := false, previewing := false)] else [])
      ensures forall k :: |old(configured)| <= k < |configured| ==> Stopped(configured[k])
      ensures leaked == old(leaked) && released == old(released)
    {
      if !env.hasSurface {
        return;
      }
      if camera == None {
        return;
      }

      StopView();
      configured := configured + [camera.value];

      var minSize := GetMinCameraSize(env.supportedSizes);
      camera := Some(camera.value.(chosenPreviewSize := Some(minSize.value)));

      var degrees := Degrees(env.rotation);
      var displayOrientation := DisplayOrientation(env.info.facing, env.info.orientation, degrees);
      camera := Some(camera.value.(displayOrientation := displayOrientation));

      if env.bindOk {
        camera := Some(camera.value.(boundToSurface := true));
        StartView();
      }
    }

    /** surfaceCreated: opens a camera; if one is held, installs the frame callback and binds the surface. */
    method SurfaceCreated(dev: Device, bindOk: bool)
      modifies this
      ensures configured == old(configured)
      ensures var afterOpen := AfterOpen(old(camera), dev);
        camera == if afterOpen.None? then None
                  else Some(afterOpen.value.(frameCallback := true,
                                          boundToSurface := afterOpen.value.boundToSurface || bindOk))
      ensures leaked == old(leaked) +
        (if Held(AfterOpen(old(camera), dev)) != Held(old(camera)) then Held(old(camera)) else {})
      ensures old(camera).None? ==> leaked == old(leaked)
      ensures released == old(released)
    {
      var success := OpenCameraInstance(dev);
      if !success {
        return;
      }
      camera := Some(camera.value.(frameCallback := true));
      if bindOk {
        camera := Some(camera.value.(boundToSurface := true));
      }
    }

    /** surfaceChanged: opens a camera only when none is held, then runs updateView. */
    method SurfaceChanged(dev: Device, env: ViewEnv)
      requires env.hasSurface && (camera.Some? || AfterOpen(None, dev).Some?) ==> |env.supportedSizes| > 0
      modifies this
      ensures camera.None? <==> old(camera).None? && AfterOpen(None, dev).None?
      ensures old(camera).Some? ==> camera.value.handle == old(camera).value.handle
      ensures old(camera).None? && camera.Some? ==> camera.value.handle == AfterOpen(None, dev).value.handle
      ensures camera.Some? && env.hasSurface ==> Configured(camera.value, env)
      ensures old(camera).Some? && env.hasSurface ==>
        camera.value.boundToSurface == (old(camera).value.boundToSurface || env.bindOk)
      ensures old(camera).None? && camera.Some? && env.hasSurface ==> camera.value.boundToSurface == env.bindOk
      ensures old(camera).Some? && !env.hasSurface ==> camera == old(camera)
      ensures old(camera).None? && !env.hasSurface ==> camera == AfterOpen(None, dev)
      ensures configured == old(configured) +
        (if env.hasSurface && camera.Some? then
           [(if old(camera).Some? then old(camera).value else AfterOpen(None, dev).value).(frameCallback := false, previewing := false)]
         else [])
      ensures forall k :: |old(configured)| <= k < |configured| ==> Stopped(configured[k])
      ensures leaked == old(leaked) && released == old(released)
    {
      if camera == None {
        var success := OpenCameraInstance(dev);
        if !success {
          return;
        }
      }
      UpdateView(env);
    }

    /** surfaceDestroyed: stops the preview and releases the camera. */
    method SurfaceDestroyed()
      modifies this
      ensures configured == old(configured)
      ensures camera == None
      ensures released == old(released) +
        (if old(camera).Some? then [old(camera).value.(frameCallback := false, previewing := false)] else [])
      ensures forall k :: |old(released)| <= k < |released| ==> Stopped(released[k])
      ensures leaked == old(leaked)
    {
      StopView();
      ReleaseCameraInstance();
    }

    /** reopen: stops and releases whatever is held, opens again and, on success, runs updateView. */
    method Reopen(dev: Device, env: ViewEnv)
      requires env.hasSurface && AfterOpen(None, dev).Some? ==> |env.supportedSizes| > 0
      modifies this
      ensures camera.None? <==> AfterOpen(None, dev).None?
      ensures camera.Some? ==> camera.value.handle == AfterOpen(None, dev).value.handle
      ensures camera.Some? && env.hasSurface ==> Configured(camera.value, env)
      ensures camera.Some? && env.hasSurface ==> camera.value.boundToSurface == env.bindOk
      ensures !env.hasSurface ==> camera == AfterOpen(None, dev)
      ensures configured == old(configured) +
        (if env.hasSurface && camera.Some? then [AfterOpen(None, dev).value] else [])
      ensures forall k :: |old(configured)| <= k < |configured| ==> Stopped(configured[k])
      ensures released == old(released) +
        (if old(camera).Some? then [old(camera).value.(frameCallback := false, previewing := false)] else [])
      ensures forall k :: |old(released)| <= k < |released| ==> Stopped(released[k])
      ensures leaked == old(leaked)
    {
      StopView();
      ReleaseCameraInstance();
      var success := OpenCameraInstance(dev);
      if success {
        UpdateView(env);
      }
    }
  }

  /**
   * One surface lifetime as the platform delivers it (created, changed,
   * destroyed) starting with no camera: whatever was opened is released and
   * nothing leaks.
   */
  method SurfaceLifetime(view: MainView, created: Device, changed: Device, env: ViewEnv, bindOk: bool)
    requires view.camera.None? && view.NothingLeaked()
    requires |env.supportedSizes| > 0
    modifies view
    ensures view.camera.None? && view.NothingLeaked()
    ensures var openedHandles := if AfterOpen(None, created).Some? then Held(AfterOpen(None, created))
                          else Held(AfterOpen(None, changed));
      && |view.released| == |old(view.released)| + |openedHandles|
      && view.released[..|old(view.released)|] == old(view.released)
      && forall k :: |old(view.released)| <= k < |view.released| ==>
           view.released[k].handle in openedHandles && Stopped(view.released[k])
    ensures forall k :: |old(view.configured)| <= k < |view.configured| ==> Stopped(view.configured[k])
  {
    view.SurfaceCreated(created, bindOk);
    view.SurfaceChanged(changed, env);
    view.SurfaceDestroyed();
  }
}
