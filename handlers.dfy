/** The request handlers of the `/uiDevice` location that answer with a
    `StatusResponse` envelope. Each one makes (at most) one call on the device
    driver; the driver is not modelled, so its operations are parameters of
    arrow type and each handler is a function of the driver's answer. */
module UiDeviceHandlers {
  import opened KotlinTypes
  import opened StatusEnvelope

  const CANNOT_CLICK := "Cannot click"
  const SELECTOR_MISSING := "A selector must be specified"
  const CANNOT_PRESS_PREFIX := "Cannot press "
  const CANNOT_PRESS_KEY_CODE := "Cannot press KeyCode"
  const PACKAGE_MISMATCH := "Current window does not have the same package name"
  const WINDOW_UPDATE_TIMEOUT := "Timeout waiting for window update"

  /** Key names `pressKeyResponse` is called with. */
  const BACK := "BACK"
  const DELETE := "DELETE"
  const ENTER := "ENTER"
  const HOME := "HOME"

  /** `Click.response`: clicks at (x, y). */
  function Click(x: int32, y: int32, click: (int32, int32) -> bool): (r: StatusResponse)
    ensures WellFormed(r)
    ensures r.status == OK <==> click(x, y)
    ensures r.status == ERROR ==> r.statusCode == None && r.errorMessage == Some(CANNOT_CLICK)
  {
    if click(x, y) then Success() else Failure(None, CANNOT_CLICK)
  }

  /** `FindObject.response`: `Some` is the error envelope, `None` the `null`
      answer. No driver call is made and no selector is looked at. */
  function FindObject(resourceId: Option<string>, uiSelector: Option<string>, bySelector: Option<string>)
    : (r: Option<StatusResponse>)
    ensures r.Some? <==> resourceId.None? && uiSelector.None? && bySelector.None?
    ensures r.Some? ==> WellFormed(r.value) && r.value.status == ERROR
    ensures r.Some? ==> r.value.statusCode == Some(ARGUMENT_MISSING) && r.value.errorMessage == Some(SELECTOR_MISSING)
  {
    // `resourceId ?: uiSelector ?: bySelector == null`: the elvis chain binds
    // tighter than `==`, so this tests whether the first non-null is absent.
    var first := if resourceId.Some? then resourceId else if uiSelector.Some? then uiSelector else bySelector;
    if first.None? then Some(Failure(Some(ARGUMENT_MISSING), SELECTOR_MISSING)) else None
  }

  /** `UiDevice.pressKeyResponse`: performs the press action once. */
  function PressKeyResponse(pressAny: () -> bool, name: string): (r: StatusResponse)
    ensures WellFormed(r)
    ensures r.status == OK <==> pressAny()
    ensures r.status == ERROR ==> r.statusCode == None && r.errorMessage == Some(CANNOT_PRESS_PREFIX + name)
  {
    if pressAny() then Success() else Failure(None, CANNOT_PRESS_PREFIX + name)
  }

  /** Two "Cannot press" messages are equal only for equal key names. */
  lemma PressPrefixCancels(name1: string, name2: string)
    ensures CANNOT_PRESS_PREFIX + name1 == CANNOT_PRESS_PREFIX + name2 <==> name1 == name2
  {
    var m1, m2 := CANNOT_PRESS_PREFIX + name1, CANNOT_PRESS_PREFIX + name2;
    if m1 == m2 {
      assert name1 == m1[|CANNOT_PRESS_PREFIX|..];
      assert name2 == m2[|CANNOT_PRESS_PREFIX|..];
    }
  }

  /** The key name is recoverable from a failed press's message, so different
      keys never produce the same failure envelope. */
  lemma PressFailureNamesKey(pressAny: () -> bool, name1: string, name2: string)
    requires !pressAny()
    ensures PressKeyResponse(pressAny, name1) == PressKeyResponse(pressAny, name2) <==> name1 == name2
  {
    PressPrefixCancels(name1, name2);
  }

  /** `PressBack.response`. */
  function PressBack(pressBack: () -> bool): (r: StatusResponse)
    ensures WellFormed(r)
    ensures r.status == OK <==> pressBack()
    ensures r.status == ERROR ==> r.statusCode == None && r.errorMessage == Some(CANNOT_PRESS_PREFIX + "BACK")
  {
    PressKeyResponse(pressBack, BACK)
  }

  /** `PressDelete.response`. */
  function PressDelete(pressDelete: () -> bool): (r: StatusResponse)
    ensures WellFormed(r)
    ensures r.status == OK <==> pressDelete()
    ensures r.status == ERROR ==> r.statusCode == None && r.errorMessage == Some(CANNOT_PRESS_PREFIX + "DELETE")
  {
    PressKeyResponse(pressDelete, DELETE)
  }

  /** `PressEnter.response`. */
  function PressEnter(pressEnter: () -> bool): (r: StatusResponse)
    ensures WellFormed(r)
    ensures r.status == OK <==> pressEnter()
    ensures r.status == ERROR ==> r.statusCode == None && r.errorMessage == Some(CANNOT_PRESS_PREFIX + "ENTER")
  {
    PressKeyResponse(pressEnter, ENTER)
  }

  /** `PressHome.response`. */
  function PressHome(pressHome: () -> bool): (r: StatusResponse)
    ensures WellFormed(r)
    ensures r.status == OK <==> pressHome()
    ensures r.status == ERROR ==> r.statusCode == None && r.errorMessage == Some(CANNOT_PRESS_PREFIX + "HOME")
  {
    PressKeyResponse(pressHome, HOME)
  }

  /** `PressKeyCode.response`: presses `keyCode` with the meta keys in `metaState`. */
  function PressKeyCode(keyCode: int32, metaState: int32, pressKeyCode: (int32, int32) -> bool): (r: StatusResponse)
    ensures WellFormed(r)
    ensures r.status == OK <==> pressKeyCode(keyCode, metaState)
    ensures r.status == ERROR ==>
      r.statusCode == Some(INTERACTION_KEY) && r.errorMessage == Some(CANNOT_PRESS_KEY_CODE)
  {
    if pressKeyCode(keyCode, metaState) then Success()
    else Failure(Some(INTERACTION_KEY), CANNOT_PRESS_KEY_CODE)
  }

  /** `WaitForIdle.response`: the driver's wait returns nothing, and the answer
      is a success whatever happened. */
  function WaitForIdle(timeout: int64): (r: StatusResponse)
    ensures WellFormed(r)
    ensures r == StatusResponse(OK, None, None)
  {
    Success()
  }

  /** `WaitForWindowUpdate.response`: `elapsedMs` is the wall-clock time the
      driver's wait took. */
  function WaitForWindowUpdate(
    timeout: int64, packageName: Option<string>,
    waitForWindowUpdate: (Option<string>, int64) -> bool, elapsedMs: int64): (r: StatusResponse)
    ensures WellFormed(r)
    ensures r.status == OK <==> waitForWindowUpdate(packageName, timeout)
    ensures r.status == ERROR ==> r.statusCode == Some(TIMEOUT_WINDOW_UPDATE)
    ensures r.status == ERROR ==>
      (r.errorMessage == Some(PACKAGE_MISMATCH) <==> packageName.Some? && elapsedMs < timeout)
    ensures r.status == ERROR ==>
      (r.errorMessage == Some(WINDOW_UPDATE_TIMEOUT) <==> packageName.None? || elapsedMs >= timeout)
  {
    if waitForWindowUpdate(packageName, timeout) then Success()
    else Failure(
      Some(TIMEOUT_WINDOW_UPDATE),
      if packageName.Some? && elapsedMs < timeout then PACKAGE_MISMATCH else WINDOW_UPDATE_TIMEOUT)
  }
}
