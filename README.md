# Synchronous compositor output surface and Google logo parser, in Dafny

This project models two pieces of Chromium.

**The synchronous compositor output surface**
(`content/browser/android/in_process/synchronous_compositor_output_surface.cc`).
An Android WebView host uses it to force exactly one frame, right now, out of a
compositor that normally schedules itself. The frame goes through either the
hardware path (`DemandDrawHw`) or the software path (`DemandDrawSw`, which draws
into a canvas the host supplies). The model has two layers:

- `CompositorSpec` is a pure state machine. Its state holds the routing id,
  whether a client is bound, whether a GL context exists, the
  `needs_begin_frame_` and `did_swap_buffer_` flags, the in-flight software
  canvas (`current_sw_canvas_`), `surface_size_`, and a log of every call the
  surface makes to the compositor client or to the delegate.
- While the surface calls `SetNeedsRedrawRect` or `BeginFrame`, the compositor
  may call back into it synchronously. What it calls back is an input, a
  `Reaction`: one script of callbacks for each of the two calls. The callbacks
  are `SwapBuffers`, `BeginPaint`, `EndPaint`, `SetNeedsBeginFrame`, `Reshape`
  and `Resize`.
- `SyncCompositor` has the classes `OutputSurface` and `SoftwareDevice`. Their
  fields change step by step, as in the source. The device's `EndPaint` writes
  the surface's canvas field. Each method is proved to change the object's
  abstract value exactly as the matching `CompositorSpec` function does.
- The delegate is looked up fresh by routing id on every notification. The
  lookup is a `registry` parameter.

**The Google logo response parser**
(`components/search_provider_logos/google_logo_api.cc`). It strips an optional
`)]}'` preamble, then finds the `update` → `logo` dictionaries. It enforces that
`data` must decode as base64 and must come with `mime_type`. Finally it clamps
`time_to_live` and computes the expiration time. The JSON tree is the `Json`
datatype (`base::Value`). The JSON reader and the base64 decoder are parameters
that either succeed or fail.

Modules: `Wrappers` (Option), `Geometry` (gfx sizes, rectangles, affine
transforms), `Skia` (SkIRect and the canvas), `CompositorSpec`, `SyncCompositor`,
`Json`, `GoogleLogoApi`.

Modelling notes:

- The surface keeps separate fields, as the C++ class does: there is no single
  mode value.
- `SoftwareDevice::BeginPaint` has a debug check that a canvas is in flight, but
  it also handles the case where none is. The model keeps that handling
  (it returns the null canvas) and has no precondition.
- `time_to_live` is read into a C++ `int`, whose largest value (2,147,483,647)
  is below `kMaxTimeToLiveMS` (2,592,000,000). So the `std::min` at
  `google_logo_api.cc:82` never picks the maximum for a value that was read;
  `GoogleLogoApi.TimeToLiveNeverClamped` states this. The maximum still caps
  the absent case.
- The compositor is assumed never to call `SwapBuffers` while no GL context
  exists: the source dereferences `context3d()` there. The draw methods state
  this as a precondition on the compositor's reaction (see "## Left out").

## Model

| member | source | states |
|---|---|---|
| `CompositorSpec.Initial` | content/browser/android/in_process/synchronous_compositor_output_surface.cc:82-93 | A new surface has no client, no context, both flags false, no canvas in flight and an empty call log |
| `CompositorSpec.GetDelegate` | content/browser/android/in_process/synchronous_compositor_output_surface.cc:229-232 | The delegate exists exactly when the routing id is registered, and is the registered one |
| `CompositorSpec.PaintTarget` | content/browser/android/in_process/synchronous_compositor_output_surface.cc:61-66 | BeginPaint hands out the in-flight canvas when a software draw is in flight, the null canvas otherwise |
| `CompositorSpec.ForcedDrawToSoftwareDevice` | content/browser/android/in_process/synchronous_compositor_output_surface.cc:102-104 | True exactly when a software canvas is in flight |
| `CompositorSpec.Step` | content/browser/android/in_process/synchronous_compositor_output_surface.cc:58-69 | One compositor callback: SwapBuffers sets the swap flag, EndPaint releases the canvas, SetNeedsBeginFrame stores the flag and notifies the delegate if one exists; Reshape, Resize and BeginPaint change nothing; binding, context and size never change |
| `CompositorSpec.RequestBeginFrame` | content/browser/android/in_process/synchronous_compositor_output_surface.cc:128-135 | The compositor's SetNeedsBeginFrame: the flag becomes `enable`; the delegate, if any, gets exactly one SetContinuousInvalidate(enable); nothing else changes |
| `CompositorSpec.SetNeedsBeginFrameLastWriteWins` | content/browser/android/in_process/synchronous_compositor_output_surface.cc:128-135 | Two calls leave the same state as the last one alone, apart from the notices |
| `CompositorSpec.RunKeepsBinding` | content/browser/android/in_process/synchronous_compositor_output_surface.cc:117-141 | No compositor callback changes the routing id, the client binding, the context or the surface size (Reshape and Resize are no-ops) |
| `CompositorSpec.RunCanvas` | content/browser/android/in_process/synchronous_compositor_output_surface.cc:67-69 | After a script the canvas is cleared exactly when the script called EndPaint, and unchanged otherwise |
| `CompositorSpec.RunSwap` | content/browser/android/in_process/synchronous_compositor_output_surface.cc:137-141 | After a script the swap flag is set exactly when it was set before or the script called SwapBuffers |
| `CompositorSpec.RunFlag` | content/browser/android/in_process/synchronous_compositor_output_surface.cc:128-131 | After a script the begin-frame flag is the last value the script requested, or the old value if it requested none |
| `CompositorSpec.RunLog` | content/browser/android/in_process/synchronous_compositor_output_surface.cc:132-134 | A script adds to the log only the delegate's SetContinuousInvalidate notices, one per request, in order |
| `CompositorSpec.RunEffect` | content/browser/android/in_process/synchronous_compositor_output_surface.cc:128-141 | The combined effect of a callback script on every field of the state |
| `CompositorSpec.AdjustTransformForClip` | content/browser/android/in_process/synchronous_compositor_output_surface.cc:144-148 | The adjusted transform keeps the linear part and maps every point to where the old one did, moved by (-clip.x, -clip.y, 0) |
| `CompositorSpec.AdjustTransformForClipRoundTrip` | content/browser/android/in_process/synchronous_compositor_output_surface.cc:144-148 | Translating back by the clip origin recovers the host's transform |
| `CompositorSpec.AdjustIdentityExample` | content/browser/android/in_process/synchronous_compositor_output_surface.cc:144-148 | The identity with clip (10, 20, 100, 50) becomes a translation by (-10, -20, 0) |
| `CompositorSpec.InvokeComposite` | content/browser/android/in_process/synchronous_compositor_output_surface.cc:215-220 | The first new call is SetNeedsRedrawRect of the damage at the origin, the old log is kept, and binding, context and size are unchanged |
| `CompositorSpec.InvokeCompositeEffect` | content/browser/android/in_process/synchronous_compositor_output_surface.cc:215-220 | The exact calls made: SetNeedsRedrawRect of the damage at the origin, the redraw's notices, then BeginFrame and its notices only if the flag is set after the redraw; and the resulting swap, canvas and flag |
| `CompositorSpec.InvokeCompositeBeginFrameOnce` | content/browser/android/in_process/synchronous_compositor_output_surface.cc:215-220 | The first new call is SetNeedsRedrawRect(Rect(0, 0, damage)); exactly one BeginFrame is added when the flag is set and none otherwise |
| `CompositorSpec.BeginFrameFollowsStoredFlag` | content/browser/android/in_process/synchronous_compositor_output_surface.cc:218-219 | If the compositor makes no begin-frame request while redrawing, BeginFrame is sent exactly when `needs_begin_frame_` was set |
| `CompositorSpec.BindToClient` | content/browser/android/in_process/synchronous_compositor_output_surface.cc:106-115 | A failed base bind returns false and changes nothing; a successful one returns true, binds the client, and notifies the delegate exactly when one exists; no other field changes |
| `CompositorSpec.DestroyNotifiesOnce` | content/browser/android/in_process/synchronous_compositor_output_surface.cc:95-100 | Destruction adds exactly one destroy notice when a delegate exists and none otherwise, whatever the binding state, and changes nothing else |
| `CompositorSpec.Destroy` | content/browser/android/in_process/synchronous_compositor_output_surface.cc:95-100 | The delegate, if one exists, gets one DidDestroySynchronousOutputSurface appended; nothing else changes |
| `CompositorSpec.InitializeHwDraw` | content/browser/android/in_process/synchronous_compositor_output_surface.cc:151-159 | Requires a bound client and no context; the context exists afterwards, and true is returned, exactly when creation succeeded |
| `CompositorSpec.DemandDrawHw` | content/browser/android/in_process/synchronous_compositor_output_surface.cc:161-188 | Requires a bound client and a context; stores the surface size, pushes SetExternalDrawConstraints(adjusted transform, clip) then SetNeedsRedrawRect of the clip size, and returns the swap flag as the draw leaves it |
| `CompositorSpec.DemandDrawHwBeginFrameOnce` | content/browser/android/in_process/synchronous_compositor_output_surface.cc:177-187 | A hardware demand draw sends exactly one BeginFrame when the flag is set after the redraw, and none otherwise |
| `CompositorSpec.DemandDrawHwReportsSwap` | content/browser/android/in_process/synchronous_compositor_output_surface.cc:177-187 | DemandDrawHw returns true exactly when SwapBuffers ran during this call (during the redraw, or during BeginFrame if one was sent), and stores the surface size |
| `CompositorSpec.DemandDrawHwIgnoresStaleSwap` | content/browser/android/in_process/synchronous_compositor_output_surface.cc:177 | A swap flag left over from an earlier draw never affects DemandDrawHw's result |
| `CompositorSpec.DemandDrawSw` | content/browser/android/in_process/synchronous_compositor_output_surface.cc:190-213 | Requires a bound client and no canvas in flight; no canvas is in flight afterwards; the size is the canvas's device size; pushes the constraints derived from the canvas, then SetNeedsRedrawRect of the clip size |
| `CompositorSpec.DemandDrawSwReleasesCanvas` | content/browser/android/in_process/synchronous_compositor_output_surface.cc:190-213 | After DemandDrawSw no canvas is in flight; it returns true exactly when EndPaint ran during the call; the surface size is the canvas's device size |
| `CompositorSpec.DemandDrawSwBeginFrameOnce` | content/browser/android/in_process/synchronous_compositor_output_surface.cc:194-212 | A software demand draw sends exactly one BeginFrame when the flag is set after the redraw, and none otherwise |
| `CompositorSpec.SoftwarePaintTarget` | content/browser/android/in_process/synchronous_compositor_output_surface.cc:61-69 | During a software draw the canvas is in flight, and BeginPaint returns the host's canvas, until EndPaint; after that, the null canvas |
| `CompositorSpec.DrawPathsShareAdjustment` | content/browser/android/in_process/synchronous_compositor_output_surface.cc:179-208 | Given the canvas's matrix and clip, both paths push the same SetExternalDrawConstraints(adjusted transform, unchanged clip), followed by the same SetNeedsRedrawRect |
| `CompositorSpec.HostOperationsKeepIdle` | content/browser/android/in_process/synchronous_compositor_output_surface.cc:210-212 | Starting from no canvas in flight, every host operation ends with no canvas in flight |
| `CompositorSpec.NoOpCallbacks` | content/browser/android/in_process/synchronous_compositor_output_surface.cc:117-120 | Reshape, Resize and BeginPaint leave the state unchanged |
| `SyncCompositor.SoftwareDevice.constructor` | content/browser/android/in_process/synchronous_compositor_output_surface.cc:53-57 | The device belongs to its surface and owns a fresh 1x1 null canvas |
| `SyncCompositor.SoftwareDevice.Resize` | content/browser/android/in_process/synchronous_compositor_output_surface.cc:58-60 | Changes nothing: the embedder controls the canvas size |
| `SyncCompositor.SoftwareDevice.BeginPaint` | content/browser/android/in_process/synchronous_compositor_output_surface.cc:61-66 | Returns the surface's in-flight canvas if there is one, the null canvas otherwise |
| `SyncCompositor.SoftwareDevice.EndPaint` | content/browser/android/in_process/synchronous_compositor_output_surface.cc:67-69 | Clears the surface's canvas field and nothing else |
| `SyncCompositor.OutputSurface.constructor` | content/browser/android/in_process/synchronous_compositor_output_surface.cc:82-93 | Abstract value is `Initial(routingId)`; GL initialisation is announced as deferred; no delegate call |
| `SyncCompositor.OutputSurface.Destroy` | content/browser/android/in_process/synchronous_compositor_output_surface.cc:95-100 | Moves the surface as `CompositorSpec.Destroy` does |
| `SyncCompositor.OutputSurface.ForcedDrawToSoftwareDevice` | content/browser/android/in_process/synchronous_compositor_output_surface.cc:102-104 | True exactly when a software canvas is in flight |
| `SyncCompositor.OutputSurface.BindToClient` | content/browser/android/in_process/synchronous_compositor_output_surface.cc:106-115 | Result and new state as `CompositorSpec.BindToClient` gives them |
| `SyncCompositor.OutputSurface.Reshape` | content/browser/android/in_process/synchronous_compositor_output_surface.cc:117-120 | Changes nothing: the embedder controls the surface size |
| `SyncCompositor.OutputSurface.SetNeedsBeginFrame` | content/browser/android/in_process/synchronous_compositor_output_surface.cc:128-135 | Moves the surface as `CompositorSpec.RequestBeginFrame` does |
| `SyncCompositor.OutputSurface.SwapBuffers` | content/browser/android/in_process/synchronous_compositor_output_surface.cc:137-141 | Requires a context; sets the swap flag and nothing else |
| `SyncCompositor.OutputSurface.InitializeHwDraw` | content/browser/android/in_process/synchronous_compositor_output_surface.cc:151-159 | Result and new state as `CompositorSpec.InitializeHwDraw` gives them |
| `SyncCompositor.OutputSurface.RunClient` | content/browser/android/in_process/synchronous_compositor_output_surface.cc:217-219 | Requires the UI thread, and a context if the script swaps; running the compositor's callbacks one after another moves the surface as `CompositorSpec.Run` does |
| `SyncCompositor.OutputSurface.InvokeComposite` | content/browser/android/in_process/synchronous_compositor_output_surface.cc:215-220 | Requires the UI thread, and a context if the reaction swaps; moves the surface as `CompositorSpec.InvokeComposite` does |
| `SyncCompositor.OutputSurface.DemandDrawHw` | content/browser/android/in_process/synchronous_compositor_output_surface.cc:161-188 | Requires a bound client and a context; result and new state as `CompositorSpec.DemandDrawHw` gives them |
| `SyncCompositor.OutputSurface.DemandDrawSw` | content/browser/android/in_process/synchronous_compositor_output_surface.cc:190-213 | Requires a bound client, no draw in flight, and a context if the reaction swaps; result and new state as `CompositorSpec.DemandDrawSw` gives them; the canvas field is null on return |
| `Geometry.PostTranslate` | content/browser/android/in_process/synchronous_compositor_output_surface.cc:147 | A post-translation maps every point where the old transform did, then moves it by the offset |
| `Skia.SkIRectToRect` | content/browser/android/in_process/synchronous_compositor_output_surface.cc:196-198 | The clip keeps the canvas clip's origin and its extent; an inverted edge gives an empty extent |
| `Json.GetDictionary` | components/search_provider_logos/google_logo_api.cc:49-57 | Succeeds exactly when the key holds a dictionary, and returns it |
| `Json.GetString` | components/search_provider_logos/google_logo_api.cc:61-76 | Succeeds exactly when the key holds a string, and returns it |
| `Json.GetInteger` | components/search_provider_logos/google_logo_api.cc:78-80 | Succeeds exactly when the key holds an integer, and returns it |
| `GoogleLogoApi.GoogleAppendFingerprintToLogoURL` | components/search_provider_logos/google_logo_api.cc:20-23 | Appends exactly one parameter, `async` = `"es_dfp:"` + fingerprint, and keeps the URL and its earlier parameters |
| `GoogleLogoApi.FingerprintRoundTrip` | components/search_provider_logos/google_logo_api.cc:20-23 | The fingerprint can be read back from the URL built with it |
| `GoogleLogoApi.StripPreamble` | components/search_provider_logos/google_logo_api.cc:38-41 | If the response starts with `)]}'`, the preamble followed by the result is the response; otherwise the response is unchanged |
| `GoogleLogoApi.StripPreambleRoundTrip` | components/search_provider_logos/google_logo_api.cc:38-41 | Exactly one preamble is removed from a prefixed body |
| `GoogleLogoApi.ParseIgnoresPreamble` | components/search_provider_logos/google_logo_api.cc:38-43 | A body that does not itself start with `)]}'` parses the same with or without one preamble in front |
| `GoogleLogoApi.LogoDictionary` | components/search_provider_logos/google_logo_api.cc:47-57 | Found exactly when the top level is a dictionary with an `update` dictionary holding a `logo` dictionary, and then it is that `logo` dictionary |
| `GoogleLogoApi.ResponseLogoDictionary` | components/search_provider_logos/google_logo_api.cc:38-57 | Found exactly when the stripped response is valid JSON whose nested dictionaries exist, and then it is the top level's `update` → `logo` dictionary |
| `GoogleLogoApi.TimeToLive` | components/search_provider_logos/google_logo_api.cc:78-87 | At most the maximum. Present: equals the given value or the maximum, whichever is smaller, and no showing after expiry. Absent: the maximum, and showing after expiry |
| `GoogleLogoApi.TimeToLiveNeverClamped` | components/search_provider_logos/google_logo_api.cc:79-82 | A `time_to_live` that was read is always below the maximum, so it is used as given |
| `GoogleLogoApi.ParseLogoDictionary` | components/search_provider_logos/google_logo_api.cc:59-90 | A logo is built exactly when the image rule holds |
| `GoogleLogoApi.GoogleParseLogoResponse` | components/search_provider_logos/google_logo_api.cc:25-91 | Accepts exactly when the stripped response is valid JSON with the nested `update`/`logo` dictionaries and the image rule holds |
| `GoogleLogoApi.ParseRejects` | components/search_provider_logos/google_logo_api.cc:43-57 | Invalid JSON, a non-dictionary top level, or a missing `update` or `logo` dictionary gives no logo |
| `GoogleLogoApi.ParseImageRule` | components/search_provider_logos/google_logo_api.cc:61-71 | Undecodable `data`, or `data` without `mime_type`, gives no logo. Decodable `data` with `mime_type` gives a logo with that image and type. No `data` gives a logo with no image and an empty type |
| `GoogleLogoApi.OptionalFieldsNeverReject` | components/search_provider_logos/google_logo_api.cc:73-76 | Removing `target`, `fingerprint` and `alt` never changes acceptance; when present they are copied, otherwise they are empty |
| `GoogleLogoApi.ParseTimeToLive` | components/search_provider_logos/google_logo_api.cc:78-88 | Expiration = response time + min(ttl, max) with no showing after expiry, or + max with showing after expiry; never later than response time + max |
| `GoogleLogoApi.NonIntegerTimeToLiveIgnored` | components/search_provider_logos/google_logo_api.cc:80 | A `time_to_live` that is not an integer is treated as absent |

## Left out

- GL context handling is modelled only as the boolean `hasContext`. This covers
  creating the context (lines 37-46), `InitializeAndSetContext3D`,
  `shallowFlushCHROMIUM`, and releasing the current GL context before a
  hardware draw (lines 173-175). These are foreign GPU calls.
  `InitializeHwDraw` takes whether creation succeeded as a parameter. The
  context-loss check noted at line 185 is not in the source either.
- The thread check (`CalledOnValidThread`) is a ghost `thread` parameter. Each
  checked entry point requires it to be `UiThread`. Thread identity is not
  something Dafny can observe.
- `BeginFrame` carries no timestamp. The clock `base::TimeTicks::Now()` is left
  out.
- `SendFrameToParentCompositor` (it is unreachable) and `CopyToBitmap` (it is
  not implemented) are not modelled.
- Skia internals are left out. A canvas is only its device clip bounds, its
  total matrix and its device size. The 3x3-to-4x4 matrix conversion is not
  modelled: the canvas holds its matrix already in 4x4 form.
- Geometry.PostTranslate: transforms are affine, and their entries are exact
  reals. Perspective matrices and floating-point rounding are not modelled.
- `SyncCompositor.OutputSurface.BindToClient`: the base
  `cc::OutputSurface::BindToClient` is not part of this model. Its outcome is
  the parameter `baseBound`. On failure the model leaves the surface unchanged.
- What the compositor does inside `SetNeedsRedrawRect` and `BeginFrame` is an
  input script (`Reaction`), not a model of cc's scheduler. The script cannot
  re-enter a demand draw: re-entry is a programming error in the source.
- A compositor that calls `SwapBuffers` while no GL context exists is excluded
  by a precondition (`CompositorSpec.ReactionOk`) on `RunClient`,
  `InvokeComposite` and `DemandDrawSw`. In the source that call dereferences a
  null `context3d()` (line 139), so the model does not say what happens then.
- The delegate lookup `SynchronousCompositorImpl::FromRoutingID` is a `registry`
  map passed to each call. The delegate's own behaviour is out of scope.
- `base::JSONReader::Read` and `base::Base64Decode` are parameters that either
  succeed or fail. `net::AppendQueryParameter` records the name and value it is
  given: URL escaping and serialisation are foreign library code.
- `kMaxTimeToLiveMS` is declared in `logo_common.h`, which is not part of this
  model. The model uses Chromium's value of 30 days.
- `base::Time` and `base::TimeDelta` are unbounded integers of microseconds.
  64-bit overflow of `response_time + time_to_live` is not modelled.
- Only the `LogoMetadata` fields the parser sets are kept. Other fields keep
  their defaults, and an absent optional string is the empty default string.
  Sharing of the reference-counted image buffer is not modelled.
- The dictionary lookups use literal keys. `DictionaryValue`'s dotted-path
  expansion is not modelled; none of the keys used here contains a dot.
