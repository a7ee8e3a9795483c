# CulebraTester2 `/uiDevice` handlers in Dafny

CulebraTester2 runs on an Android device and exposes the device's UI
automation driver (`UiDevice`) over HTTP, so that a test harness elsewhere can
click, press keys, wait for the UI, find objects and take screenshots. The file
`location/UiDevice.kt` holds one location class per endpoint. Each class's
`response()` makes at most one call on the driver (FindObject makes none) and turns the driver's answer into a
`StatusResponse` envelope (status `OK` or `ERROR`, an optional status code, an
optional error message) or into a resource such as a screenshot file.

This project models that decision logic and proves what each endpoint answers:

- `kotlin_types.dfy` (module `KotlinTypes`): Kotlin nullables (`Option`) and the
  fixed-width `Int` and `Long` (`int32`, `int64`).
- `status_envelope.dfy` (module `StatusEnvelope`): the `StatusResponse`
  envelope, the error codes `ARGUMENT_MISSING`, `INTERACTION_KEY` and
  `TIMEOUT_WINDOW_UPDATE` (numeric values kept abstract), and the envelope's
  invariant `WellFormed`: a success has no code and no message, and every error
  has a message.
- `handlers.dfy` (module `UiDeviceHandlers`): one pure function per
  envelope-returning handler. Each driver operation is a parameter of arrow
  type, so a contract can say that the answer depends on the driver call with
  exactly the request's arguments (`click(x, y)`,
  `pressKeyCode(keyCode, metaState)`, `waitForWindowUpdate(packageName, timeout)`).
  The wall-clock time that WaitForWindowUpdate measures is a parameter.
- `dispatch.dfy` (module `UiDeviceDispatch`): all these requests as one
  `Request` datatype, with the Kotlin default arguments (`metaState = 0`,
  `timeout = 10_000`, `packageName = null`, the three selectors `null`). It
  also has one `Respond` function that returns the answer together with the
  driver calls made. It is proved to agree with a per-request table of driver
  calls, success conditions, error codes and messages.
- `screenshot.dfy` (module `Screenshot`): the screenshot temp-file lifecycle.
  `FileStore` holds the files that exist, the pending deletion tasks and the
  next file number. It has one function per step (create a temp file, respond,
  delete a file, run a pending deletion). The class `ScreenshotFiles` keeps the
  same state in fields and updates it in place; each of its methods is proved
  to follow the function for its step.

The model follows the code as written. A failed capture throws
"Cannot get screenshot" and does not delete the temporary file it has just
created, so that file is left behind for good: no later step removes a file
that has been left behind.
Take any interleaving of whole screenshot requests and deletion tasks, in any
order. Each failed capture leaves one more file behind, and so does each delete
the file system refuses. Starting from an empty cache directory, once no
deletion is pending, the files that remain number exactly the failed captures
plus the refused deletes.
A design that deletes the file on the failure path would be a different
program and is not modelled.

In `FindObject`, the Kotlin condition `resourceId ?: uiSelector ?: bySelector == null`
is read with Kotlin's precedence: the elvis operator binds tighter than `==`. So
the handler reports `ARGUMENT_MISSING` exactly when all three arguments are
`null`. An empty string counts as supplied. No selector is parsed or matched:
with any argument present, the handler answers `null`.

## Model

| member | source | states |
|---|---|---|
| `UiDeviceHandlers.Click` | app/src/main/java/com/dtmilano/android/culebratester2/location/UiDevice.kt:66-72 | The envelope is OK exactly when the driver's `click(x, y)` returns true; otherwise it is ERROR with no code and the message "Cannot click"; always well-formed |
| `UiDeviceHandlers.FindObject` | app/src/main/java/com/dtmilano/android/culebratester2/location/UiDevice.kt:144-153 | An error envelope (ARGUMENT_MISSING, "A selector must be specified") is returned exactly when resourceId, uiSelector and bySelector are all null; otherwise the answer is null; no driver call |
| `UiDeviceHandlers.PressKeyResponse` | app/src/main/java/com/dtmilano/android/culebratester2/location/UiDevice.kt:168-173 | OK exactly when the press action returns true; otherwise ERROR with no code and the message "Cannot press " followed by the key name |
| `UiDeviceHandlers.PressPrefixCancels` | app/src/main/java/com/dtmilano/android/culebratester2/location/UiDevice.kt:172 | Two "Cannot press ..." messages are equal exactly when their key names are equal |
| `UiDeviceHandlers.PressFailureNamesKey` | app/src/main/java/com/dtmilano/android/culebratester2/location/UiDevice.kt:168-173 | When the press fails, two calls give the same envelope exactly when they pass the same key name, so the message identifies the key |
| `UiDeviceHandlers.PressBack` | app/src/main/java/com/dtmilano/android/culebratester2/location/UiDevice.kt:182-184 | OK exactly when the driver's pressBack returns true; otherwise ERROR, no code, "Cannot press BACK" |
| `UiDeviceHandlers.PressDelete` | app/src/main/java/com/dtmilano/android/culebratester2/location/UiDevice.kt:193-195 | OK exactly when the driver's pressDelete returns true; otherwise ERROR, no code, "Cannot press DELETE" |
| `UiDeviceHandlers.PressEnter` | app/src/main/java/com/dtmilano/android/culebratester2/location/UiDevice.kt:204-206 | OK exactly when the driver's pressEnter returns true; otherwise ERROR, no code, "Cannot press ENTER" |
| `UiDeviceHandlers.PressHome` | app/src/main/java/com/dtmilano/android/culebratester2/location/UiDevice.kt:215-217 | OK exactly when the driver's pressHome returns true; otherwise ERROR, no code, "Cannot press HOME" |
| `UiDeviceHandlers.PressKeyCode` | app/src/main/java/com/dtmilano/android/culebratester2/location/UiDevice.kt:227-237 | OK exactly when the driver's `pressKeyCode(keyCode, metaState)` returns true; otherwise ERROR with INTERACTION_KEY and "Cannot press KeyCode" |
| `UiDeviceHandlers.WaitForIdle` | app/src/main/java/com/dtmilano/android/culebratester2/location/UiDevice.kt:257-261 | Always the plain OK envelope, whatever the timeout and whatever the driver's wait did |
| `UiDeviceHandlers.WaitForWindowUpdate` | app/src/main/java/com/dtmilano/android/culebratester2/location/UiDevice.kt:275-286 | OK exactly when the driver's wait returns true. Otherwise ERROR with TIMEOUT_WINDOW_UPDATE. The message is "Current window does not have the same package name" exactly when a package name was given and the elapsed time is below the timeout, and "Timeout waiting for window update" exactly otherwise |
| `UiDeviceDispatch.Respond` | app/src/main/java/com/dtmilano/android/culebratester2/location/UiDevice.kt:64-288 | Every request other than FindObject makes exactly one driver call, with the request's own arguments (`WaitForIdle` makes `waitForIdle(timeout)`). FindObject makes none. Every request gets a well-formed envelope, except FindObject with a selector, which answers null. The envelope is OK exactly when the request succeeds: its driver call answered true, or always for WaitForIdle; for every request but FindObject this is stated against the recorded call itself, so the call recorded is the call whose answer decides the envelope. A failure carries that request's error code and message from the table |
| `UiDeviceDispatch.FailuresIdentifyRequest` | app/src/main/java/com/dtmilano/android/culebratester2/location/UiDevice.kt:64-288 | Two failed requests that answer with the same envelope are of the same kind: the failure envelope identifies the endpoint |
| `UiDeviceDispatch.PressKeyCodeDefaultsToNoMeta` | app/src/main/java/com/dtmilano/android/culebratester2/location/UiDevice.kt:227 | A PressKeyCode request without metaState makes the one driver call `pressKeyCode(keyCode, 0)`, and answers OK exactly when that call returns true |
| `Screenshot.CaptureSucceeds` | app/src/main/java/com/dtmilano/android/culebratester2/location/UiDevice.kt:35-41 | A successful capture returns a file that did not exist before and exists now. Exactly one deletion of that file is scheduled, after REMOVE_TEMP_FILE_DELAY = 2000 ms (line 16). Nothing else changes, nothing more is left behind, and the store invariant is kept |
| `Screenshot.CaptureFails` | app/src/main/java/com/dtmilano/android/culebratester2/location/UiDevice.kt:35-44 | A failed capture throws "Cannot get screenshot" and schedules no deletion. The fresh file it created exists and is added to the files left behind. The store invariant is kept |
| `Screenshot.RunDeletionKeepsConsistent` | app/src/main/java/com/dtmilano/android/culebratester2/location/UiDevice.kt:40-53 | Running any pending deletion removes that task. If the delete succeeds, the file is gone and nothing more is left behind. If the delete is refused, nothing else changes and that file is left behind from then on. The store invariant is kept |
| `Screenshot.LeakedAlongTrace` | app/src/main/java/com/dtmilano/android/culebratester2/location/UiDevice.kt:35-53 | Along any interleaving of screenshot requests and deletion tasks, in any order, the invariant holds and every file left behind stays left behind. The number of files left behind grows by exactly one per failed capture plus one per refused delete |
| `Screenshot.DeletionsLeaveLeaked` | app/src/main/java/com/dtmilano/android/culebratester2/location/UiDevice.kt:40-53 | Once every scheduled deletion has run (and each delete succeeds), the files that still exist are exactly those with no deletion scheduled |
| `Screenshot.FilesLeftBehind` | app/src/main/java/com/dtmilano/android/culebratester2/location/UiDevice.kt:35-53 | From an empty cache directory, once a run of requests and tasks has no deletion left pending, the number of files remaining is the number of failed captures plus the number of refused deletes |
| `Screenshot.ScreenshotFiles.constructor` | app/src/main/java/com/dtmilano/android/culebratester2/location/UiDevice.kt:59 | An empty cache directory with no pending deletions, equal to the empty store `Empty()` that `FilesLeftBehind` starts from, satisfies the store invariant |
| `Screenshot.ScreenshotFiles.CreateTempFile` | app/src/main/java/com/dtmilano/android/culebratester2/location/UiDevice.kt:58-61 | Adds one file that did not exist and has no pending deletion; the pending tasks are unchanged |
| `Screenshot.ScreenshotFiles.Respond` | app/src/main/java/com/dtmilano/android/culebratester2/location/UiDevice.kt:35-44 | In place, follows `AfterResponse`. On success it returns the new file and appends one 2000 ms deletion of it. On failure it throws "Cannot get screenshot", leaves the tasks unchanged and keeps one more file |
| `Screenshot.ScreenshotFiles.RemoveTempFile` | app/src/main/java/com/dtmilano/android/culebratester2/location/UiDevice.kt:49-53 | `delete` succeeds exactly when the file exists and the file system allows it, and only then removes the file. A failed delete changes nothing |
| `Screenshot.ScreenshotFiles.RunDeletion` | app/src/main/java/com/dtmilano/android/culebratester2/location/UiDevice.kt:40 | A launched deletion task runs: it leaves the queue and deletes its file. Follows `AfterDeletion` and keeps the invariant |

## Left out

- `UiDeviceHandlers.PressKeyResponse`: each handler function takes the driver's answer as a pure function, so its own contract does not count the driver calls it makes, and `UiDeviceHandlers.WaitForIdle` does not show its `waitForIdle(timeout)` call. The driver calls are stated once for all handlers: `UiDeviceDispatch.Respond` records them and promises exactly one call per request with the request's arguments, and none for FindObject.
- `DumpWindowHierarchy` (lines 21-28): it hands the driver's raw dump to `convertWindowHierarchyDumpToJson`, which is not part of this model; no logic of its own.
- `CurrentPackageName`, `DisplayHeight`, `DisplayWidth`, `DisplaySizeDp`, `DisplayRotation`, `LastTraversedText`, `ProductName`: they wrap a driver value in a response object unchanged (`DisplayRotationEnum.of` is not part of this model).
- The `sel@[$]value,...` selector grammar: it appears only in the documentation of `FindObject`; the handler never parses or matches a selector, and answers `null` whenever an argument is present.
- The device driver, `Holder`, Ktor routing and the generated server models: driver operations are arrow-typed parameters and each answer is an input. The numeric values of the status codes are abstract. The third positional argument of `StatusResponse` in `WaitForWindowUpdate` is taken to be the error message.
- Time: `System.currentTimeMillis` becomes the elapsed-milliseconds parameter of `WaitForWindowUpdate`. The `Long` subtraction that computes it is not modelled, nor is its wrap-around.
- `GlobalScope.launch { delay(...) }`: a launched task is an entry of the pending-deletion queue carrying its 2000 ms delay. When it runs is not modelled, so any pending task may run next. Process termination, which drops pending tasks, is not modelled either.
- File I/O: `File.createTempFile`, `File.delete` and the cache directory become the `FileStore` value. Temp files are numbered, not named. A delete refused for any reason other than the file being absent is the `denied` input. Creating the temp file never fails in the model: the `IOException` that `File.createTempFile` may throw, which makes `response()` throw before `takeScreenshot` is called, is not modelled.
- `Screenshot.ScreenshotFiles.Respond`: `scale` and `quality` are passed only to the driver's `takeScreenshot`, whose answer is the `captured` input. The image bytes and the `Float` scale are not modelled.
- `Screenshot.LeakedAlongTrace`: each screenshot request is one atomic step (create the file, take the answer, schedule the deletion). Overlapping requests, where a file exists while its capture is still unanswered, are not a state of the model, so "once no deletion is pending" in `Screenshot.FilesLeftBehind` also presumes no request is in flight.
- Logging (`Log.w` on a failed delete) and the serialisation of driver calls across concurrent requests, which this file does not do.
