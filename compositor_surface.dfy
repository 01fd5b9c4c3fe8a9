/**
 * SynchronousCompositorOutputSurface and its SoftwareDevice as objects whose
 * fields change step by step. Every method is proved to move the object's
 * abstract value exactly as the matching CompositorSpec function does.
 */
module SyncCompositor {
  import opened Wrappers
  import opened Geometry
  import opened Skia
  import Spec = CompositorSpec

  /** The thread a call runs on; every checked entry point must run on the UI thread. */
  datatype Thread = UiThread | OtherThread

  /**
   * The software output device: hands the compositor the canvas of the
   * software draw in flight, and releases it when the compositor is done.
   */
  class SoftwareDevice {
    const surface: OutputSurface
    /** The 1x1 canvas that absorbs a paint made while no software draw is in flight. */
    const nullCanvas: Canvas

    constructor (surface: OutputSurface)
      ensures this.surface == surface && fresh(nullCanvas)
      ensures nullCanvas.clipDeviceBounds == IRect(0, 0, 1, 1)
      ensures nullCanvas.deviceWidth == 1 && nullCanvas.deviceHeight == 1
    {
      this.surface := surface;
      nullCanvas := new Canvas(IRect(0, 0, 1, 1), IdentityTransform, 1, 1);
    }

    /** Resize: deliberately a no-op, the host decides the canvas size. */
    method Resize(size: Size)
      ensures surface.Abstract() == old(surface.Abstract())
    {
    }

    /** BeginPaint: the in-flight canvas if there is one, the null canvas otherwise. */
    method BeginPaint(damage: Rect) returns (c: Canvas)
      ensures surface.currentSwCanvas != null ==> c == surface.currentSwCanvas
      ensures surface.currentSwCanvas == null ==> c == nullCanvas
      ensures c == Spec.PaintTarget(surface.Abstract(), nullCanvas)
    {
      if surface.currentSwCanvas != null {
        c := surface.currentSwCanvas;
      } else {
        c := nullCanvas;
      }
    }

    /** EndPaint: the surface's canvas is released. */
    method EndPaint()
      modifies surface`currentSwCanvas
      ensures surface.currentSwCanvas == null
    {
      surface.currentSwCanvas := null;
    }
  }

  class OutputSurface {
    const routingId: int
    /** The capability this adapter announces: GL initialisation is deferred. */
    const deferredGlInitialization: bool
    var clientBound: bool
    var hasContext: bool
    var needsBeginFrame: bool
    var didSwapBuffer: bool
    var currentSwCanvas: Canvas?
    var surfaceSize: Size
    /** The calls made to the compositor client and to the delegate, in order. */
    var log: seq<Spec.Event>
    var device: SoftwareDevice?

    ghost predicate Valid()
      reads this, device
    {
      device != null && device.surface == this
    }

    /** The abstract value of the surface. */
    function Abstract(): Spec.State
      reads this
    {
      Spec.State(routingId, clientBound, hasContext, needsBeginFrame, didSwapBuffer,
                 if currentSwCanvas == null then None else Some(currentSwCanvas),
                 surfaceSize, log)
    }

    constructor (routingId: int)
      ensures Valid() && fresh(device)
      ensures Abstract() == Spec.Initial(routingId)
      ensures deferredGlInitialization
    {
      this.routingId := routingId;
      deferredGlInitialization := true;
      clientBound, hasContext := false, false;
      needsBeginFrame, didSwapBuffer := false, false;
      currentSwCanvas := null;
      surfaceSize := Size(0, 0);
      log := [];
      device := null;
      new;
      device := new SoftwareDevice(this);
    }

    /** The destructor's notification to the delegate. */
    method Destroy(registry: Spec.Registry, ghost thread: Thread)
      requires thread == UiThread
      modifies this`log
      ensures Abstract() == Spec.Destroy(old(Abstract()), registry)
    {
      if routingId in registry {
        log := log + [Spec.DidDestroySynchronousOutputSurface(registry[routingId])];
      }
    }

    function ForcedDrawToSoftwareDevice(): (b: bool)
      reads this
      ensures b == Spec.ForcedDrawToSoftwareDevice(Abstract())
    {
      currentSwCanvas != null
    }

    /** BindToClient; `baseBound` is what the base class's bind returned. */
    method BindToClient(baseBound: bool, registry: Spec.Registry, ghost thread: Thread) returns (ok: bool)
      requires thread == UiThread
      modifies this`clientBound, this`log
      ensures Spec.BindToClient(old(Abstract()), baseBound, registry) == Spec.Outcome(Abstract(), ok)
    {
      if !baseBound {
        return false;
      }
      clientBound := true;
      if routingId in registry {
        log := log + [Spec.DidBindOutputSurface(registry[routingId])];
      }
      return true;
    }

    /** Reshape: deliberately a no-op, the host decides the surface size. */
    method Reshape(size: Size, scaleFactor: real)
      ensures Abstract() == old(Abstract())
    {
    }

    method SetNeedsBeginFrame(enable: bool, registry: Spec.Registry, ghost thread: Thread)
      requires thread == UiThread
      modifies this`needsBeginFrame, this`log
      ensures Abstract() == Spec.RequestBeginFrame(old(Abstract()), enable, registry)
    {
      needsBeginFrame := enable;
      if routingId in registry {
        log := log + [Spec.SetContinuousInvalidate(registry[routingId], needsBeginFrame)];
      }
    }

    /** SwapBuffers: flushes the GL context (not modelled) and records the swap. */
    method SwapBuffers()
      requires hasContext
      modifies this`didSwapBuffer
      ensures didSwapBuffer
    {
      didSwapBuffer := true;
    }

    /** InitializeHwDraw; `created` is whether the GL context was created and set. */
    method InitializeHwDraw(created: bool, ghost thread: Thread) returns (ok: bool)
      requires thread == UiThread && clientBound && !hasContext
      modifies this`hasContext
      ensures Spec.InitializeHwDraw(old(Abstract()), created) == Spec.Outcome(Abstract(), ok)
    {
      hasContext := created;
      ok := created;
    }

    /** The compositor's calls back into the surface during one client call, run in order. */
    method RunClient(script: seq<Spec.Callback>, registry: Spec.Registry, ghost thread: Thread)
      requires Valid() && thread == UiThread && (hasContext || !Spec.HasSwap(script))
      modifies this
      ensures Valid() && device == old(device) && hasContext == old(hasContext)
      ensures Abstract() == Spec.Run(old(Abstract()), script, registry)
    {
      var i := 0;
      while i < |script|
        invariant 0 <= i <= |script|
        invariant Valid() && device == old(device) && hasContext == old(hasContext)
        invariant Abstract() == Spec.Run(old(Abstract()), script[..i], registry)
      {
        match script[i] {
          case SwapBuffers =>
            SwapBuffers();
          case BeginPaint(damage) =>
            var _ := device.BeginPaint(damage);
          case EndPaint =>
            device.EndPaint();
          case SetNeedsBeginFrame(enable) =>
            SetNeedsBeginFrame(enable, registry, thread);
          case Reshape(size, scaleFactor) =>
            Reshape(size, scaleFactor);
          case Resize(size) =>
            device.Resize(size);
        }
        assert script[..i + 1][..i] == script[..i];
        i := i + 1;
      }
      assert script[..|script|] == script;
    }

    method InvokeComposite(damage: Size, reaction: Spec.Reaction, registry: Spec.Registry, ghost thread: Thread)
      requires Valid() && thread == UiThread && Spec.ReactionOk(hasContext, reaction)
      modifies this
      ensures Valid() && device == old(device)
      ensures Abstract() == Spec.InvokeComposite(old(Abstract()), damage, reaction, registry)
    {
      log := log + [Spec.SetNeedsRedrawRect(RectAtOrigin(damage))];
      RunClient(reaction.onRedraw, registry, thread);
      if needsBeginFrame {
        log := log + [Spec.BeginFrame];
        RunClient(reaction.onBeginFrame, registry, thread);
      }
    }

    /** DemandDrawHw; the host's draw of one hardware frame. */
    method DemandDrawHw(surfaceSize: Size, transform: Transform, clip: Rect,
                        reaction: Spec.Reaction, registry: Spec.Registry, ghost thread: Thread)
      returns (drew: bool)
      requires Valid() && thread == UiThread && clientBound && hasContext
      modifies this
      ensures Valid() && device == old(device)
      ensures Spec.DemandDrawHw(old(Abstract()), surfaceSize, transform, clip, reaction, registry)
              == Spec.Outcome(Abstract(), drew)
    {
      didSwapBuffer := false;
      var adjustedTransform := Spec.AdjustTransformForClip(transform, clip);
      this.surfaceSize := surfaceSize;
      log := log + [Spec.SetExternalDrawConstraints(adjustedTransform, clip)];
      InvokeComposite(clip.Extent(), reaction, registry, thread);
      drew := didSwapBuffer;
    }

    /** DemandDrawSw; the host's draw of one software frame into `canvas`. */
    method DemandDrawSw(canvas: Canvas, reaction: Spec.Reaction, registry: Spec.Registry, ghost thread: Thread)
      returns (finishedDraw: bool)
      requires Valid() && thread == UiThread && clientBound && currentSwCanvas == null
      requires Spec.ReactionOk(hasContext, reaction)
      modifies this
      ensures Valid() && device == old(device)
      ensures Spec.DemandDrawSw(old(Abstract()), canvas, reaction, registry)
              == Spec.Outcome(Abstract(), finishedDraw)
      ensures currentSwCanvas == null
    {
      currentSwCanvas := canvas;
      var clip := SkIRectToRect(canvas.clipDeviceBounds);
      var transform := Spec.AdjustTransformForClip(canvas.totalMatrix, clip);
      surfaceSize := MakeSize(canvas.deviceWidth, canvas.deviceHeight);
      log := log + [Spec.SetExternalDrawConstraints(transform, clip)];
      InvokeComposite(clip.Extent(), reaction, registry, thread);
      finishedDraw := currentSwCanvas == null;
      currentSwCanvas := null;
    }
  }
}
