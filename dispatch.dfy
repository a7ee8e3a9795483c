/** The envelope-returning requests of the `/uiDevice` location taken together:
    one request value per location class (with its Kotlin default arguments),
    one dispatch function, and a table of what each request's success condition
    and failure envelope are. */
module UiDeviceDispatch {
  import opened KotlinTypes
  import opened StatusEnvelope
  import H = UiDeviceHandlers

  const DEFAULT_META_STATE: int32 := 0
  const DEFAULT_IDLE_TIMEOUT: int64 := 10_000

  /** The location classes' parameters, with the same defaults. */
  datatype Request =
    | Click(x: int32, y: int32)
    | FindObject(resourceId: Option<string> := None, uiSelector: Option<string> := None,
                 bySelector: Option<string> := None)
    | PressBack
    | PressDelete
    | PressEnter
    | PressHome
    | PressKeyCode(keyCode: int32, metaState: int32 := DEFAULT_META_STATE)
    | WaitForIdle(timeout: int64 := DEFAULT_IDLE_TIMEOUT)
    | WaitForWindowUpdate(timeout: int64, packageName: Option<string> := None)

  /** The driver operations these requests use, as the answers the device gives. */
  datatype Device = Device(
    click: (int32, int32) -> bool,
    pressBack: () -> bool,
    pressDelete: () -> bool,
    pressEnter: () -> bool,
    pressHome: () -> bool,
    pressKeyCode: (int32, int32) -> bool,
    waitForWindowUpdate: (Option<string>, int64) -> bool)

  /** One call on the device driver, with the arguments it is made with. */
  datatype DriverCall =
    | ClickAt(x: int32, y: int32)
    | PressBackKey
    | PressDeleteKey
    | PressEnterKey
    | PressHomeKey
    | PressKeyCodeWith(keyCode: int32, metaState: int32)
    | WaitIdle(timeout: int64)
    | WaitWindowUpdate(packageName: Option<string>, timeout: int64)

  /** What a handler answers and the driver calls it made, in order. */
  datatype Answer = Answer(response: Option<StatusResponse>, calls: seq<DriverCall>)

  /** The one driver call each request other than FindObject makes. */
  function CallFor(req: Request): (c: DriverCall)
    requires !req.FindObject?
  {
    match req
    case Click(x, y) => ClickAt(x, y)
    case PressBack => PressBackKey
    case PressDelete => PressDeleteKey
    case PressEnter => PressEnterKey
    case PressHome => PressHomeKey
    case PressKeyCode(keyCode, metaState) => PressKeyCodeWith(keyCode, metaState)
    case WaitForIdle(timeout) => WaitIdle(timeout)
    case WaitForWindowUpdate(timeout, packageName) => WaitWindowUpdate(packageName, timeout)
  }

  /** What the device answers to one driver call; `waitForIdle` returns
      nothing, which counts as a true answer. */
  predicate Answers(device: Device, call: DriverCall) {
    match call
    case ClickAt(x, y) => device.click(x, y)
    case PressBackKey => device.pressBack()
    case PressDeleteKey => device.pressDelete()
    case PressEnterKey => device.pressEnter()
    case PressHomeKey => device.pressHome()
    case PressKeyCodeWith(keyCode, metaState) => device.pressKeyCode(keyCode, metaState)
    case WaitIdle(_) => true
    case WaitWindowUpdate(packageName, timeout) => device.waitForWindowUpdate(packageName, timeout)
  }

  /** When a request succeeds: the driver call it makes answers true; FindObject
      "succeeds" when a selector argument is present; WaitForIdle always does. */
  predicate Succeeds(req: Request, device: Device) {
    match req
    case Click(x, y) => device.click(x, y)
    case FindObject(resourceId, uiSelector, bySelector) =>
      resourceId.Some? || uiSelector.Some? || bySelector.Some?
    case PressBack => device.pressBack()
    case PressDelete => device.pressDelete()
    case PressEnter => device.pressEnter()
    case PressHome => device.pressHome()
    case PressKeyCode(keyCode, metaState) => device.pressKeyCode(keyCode, metaState)
    case WaitForIdle(_) => true
    case WaitForWindowUpdate(timeout, packageName) => device.waitForWindowUpdate(packageName, timeout)
  }

  /** The error code each request reports on failure. */
  function FailureCode(req: Request): (code: Option<StatusCode>) {
    match req
    case FindObject(_, _, _) => Some(ARGUMENT_MISSING)
    case PressKeyCode(_, _) => Some(INTERACTION_KEY)
    case WaitForWindowUpdate(_, _) => Some(TIMEOUT_WINDOW_UPDATE)
    case _ => None
  }

  predicate IsKeyPress(req: Request) {
    req.PressBack? || req.PressDelete? || req.PressEnter? || req.PressHome?
  }

  /** The name a key-press request reports itself by. */
  function KeyName(req: Request): (name: string)
    requires IsKeyPress(req)
  {
    match req
    case PressBack => "BACK"
    case PressDelete => "DELETE"
    case PressEnter => "ENTER"
    case PressHome => "HOME"
  }

  /** The message each request reports on failure; only WaitForWindowUpdate's
      depends on anything, namely on how long the driver's wait took. */
  function FailureMessage(req: Request, elapsedMs: int64): (message: string) {
    match req
    case Click(_, _) => "Cannot click"
    case FindObject(_, _, _) => "A selector must be specified"
    case PressBack | PressDelete | PressEnter | PressHome => H.CANNOT_PRESS_PREFIX + KeyName(req)
    case PressKeyCode(_, _) => "Cannot press KeyCode"
    case WaitForIdle(_) => ""  // never fails
    case WaitForWindowUpdate(timeout, packageName) =>
      if packageName.Some? && elapsedMs < timeout then "Current window does not have the same package name"
      else "Timeout waiting for window update"
  }

  /** The answer to a request: `None` is FindObject's `null` result,
      `Some(r)` an envelope; `calls` are the driver calls made on the way.
      `elapsedMs` is the time the driver call took. */
  function Respond(req: Request, device: Device, elapsedMs: int64): (a: Answer)
    ensures a.calls == if req.FindObject? then [] else [CallFor(req)]
    ensures a.response.None? <==> req.FindObject? && Succeeds(req, device)
    ensures a.response.Some? ==> WellFormed(a.response.value)
    ensures a.response.Some? ==> (a.response.value.status == OK <==> Succeeds(req, device))
    ensures !req.FindObject? ==> a.response.Some? && (a.response.value.status == OK <==> Answers(device, a.calls[0]))
    ensures a.response.Some? && a.response.value.status == ERROR ==>
      a.response.value == StatusResponse(ERROR, FailureCode(req), Some(FailureMessage(req, elapsedMs)))
  {
    match req
    case Click(x, y) => Answer(Some(H.Click(x, y, device.click)), [ClickAt(x, y)])
    case FindObject(resourceId, uiSelector, bySelector) => Answer(H.FindObject(resourceId, uiSelector, bySelector), [])
    case PressBack => Answer(Some(H.PressBack(device.pressBack)), [PressBackKey])
    case PressDelete => Answer(Some(H.PressDelete(device.pressDelete)), [PressDeleteKey])
    case PressEnter => Answer(Some(H.PressEnter(device.pressEnter)), [PressEnterKey])
    case PressHome => Answer(Some(H.PressHome(device.pressHome)), [PressHomeKey])
    case PressKeyCode(keyCode, metaState) =>
      Answer(Some(H.PressKeyCode(keyCode, metaState, device.pressKeyCode)), [PressKeyCodeWith(keyCode, metaState)])
    case WaitForIdle(timeout) => Answer(Some(H.WaitForIdle(timeout)), [WaitIdle(timeout)])
    case WaitForWindowUpdate(timeout, packageName) =>
      Answer(Some(H.WaitForWindowUpdate(timeout, packageName, device.waitForWindowUpdate, elapsedMs)),
             [WaitWindowUpdate(packageName, timeout)])
  }

  /** Every request other than FindObject answers with an envelope, and a
      failed request's envelope names the request: two requests of different
      kinds never fail with the same envelope. */
  lemma FailuresIdentifyRequest(req1: Request, req2: Request, device: Device, elapsedMs: int64)
    requires !Succeeds(req1, device) && !Succeeds(req2, device)
    requires Respond(req1, device, elapsedMs).response == Respond(req2, device, elapsedMs).response
    ensures req1.Click? == req2.Click? && req1.FindObject? == req2.FindObject?
    ensures req1.PressBack? == req2.PressBack? && req1.PressDelete? == req2.PressDelete?
    ensures req1.PressEnter? == req2.PressEnter? && req1.PressHome? == req2.PressHome?
    ensures req1.PressKeyCode? == req2.PressKeyCode? && req1.WaitForWindowUpdate? == req2.WaitForWindowUpdate?
  {
    if IsKeyPress(req1) && IsKeyPress(req2) {
      assert FailureMessage(req1, elapsedMs) == FailureMessage(req2, elapsedMs);
      H.PressPrefixCancels(KeyName(req1), KeyName(req2));
    }
  }

  /** An omitted `metaState` presses the key with no meta keys held. */
  lemma PressKeyCodeDefaultsToNoMeta(keyCode: int32, device: Device, elapsedMs: int64)
    ensures Respond(PressKeyCode(keyCode), device, elapsedMs).calls == [PressKeyCodeWith(keyCode, 0)]
    ensures Respond(PressKeyCode(keyCode), device, elapsedMs).response.Some?
    ensures Respond(PressKeyCode(keyCode), device, elapsedMs).response.value.status == OK
            <==> device.pressKeyCode(keyCode, 0)
  {
  }
}
