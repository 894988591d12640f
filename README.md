# webthumbnail — a Dafny model of the capture controller

`webthumbnail.py` loads one web page in WebKit and saves a picture of it
to `--out`. If `--width` and/or `--height` are given, the picture is
rescaled, or rescaled and cropped, first. Every reply the page's network
manager completes (the document and its sub-resources: images, style
sheets, scripts) overwrites the recorded reply. The process exit code
therefore reports the error of the last reply that finished before the
page did, which may belong to a sub-resource rather than the document.

This project models the part of the script that makes decisions:

- **`Imaging`** (`imaging.dfy`): ARGB32 rasters, allocating a painted raster
  (`Raster`) and `QImage.copy` (`Copy`). The three smooth-resampling calls
  (`scaledToWidth`, `scaledToHeight`, `scaled(..., KeepAspectRatioByExpanding)`)
  are an opaque `Resampler`. Its predicate `Lawful` assumes only what each
  call is named for.
- **`Outcome`** (`outcome.dfy`): the reply error codes, how the recorded
  reply becomes the payload of the `finished` signal (`Classify`), and how
  the module-level handler `on_finished` turns that payload into an exit
  code and a line on standard error (`OnFinished`).
- **`Capture`** (`thumbnailer.dfy`): the `Thumbnailer` class. It has the
  mutable `reply` field, the page's viewport, and ghost logs of loads
  started, images saved and signals emitted. It has one method per
  connected callback (`OnNetworkFinished`, `OnPageFinished`), plus
  `Render`, a plain method that `OnPageFinished` calls when `ok` is set.
  The pure function `Resize` is `render`'s choice of output image. `Step`
  gives the effect of one callback on the object's observable state. The
  two callbacks' `ensures` tie the new state to `Step`, and `Render`'s
  give the new viewport and the new saves directly.
- **`Session`** (`session.dfy`): `Replay` folds `Step` over any sequence of
  engine callbacks. Lemmas state what holds for every interleaving: the
  last reply wins, one `finished` per page-finished event, and one save per
  successful page-finished event.

The rendering engine is a set of inputs: the content size it measures and
the pixels it paints (a `Canvas`), both given to `OnPageFinished`; the
viewport the page has before any render, given to the constructor; and
the order in which it delivers callbacks, which is arbitrary in `Session`.

Facts about the script that shape the model:

- `--width` and `--height` are not validated by the script. The model
  requires them to be positive and below 2^31 when given (`Capture.Request.Valid`).
- Rasters are allocated as ARGB32.
- A page-finished event with `ok` false renders and saves nothing, but
  still emits its `finished` signal.

## Model

| member | source | states |
|---|---|---|
| `Imaging.Raster` | webthumbnail.py:62-65 | The raster is allocated at the given (viewport) size and holds exactly what the engine painted. An empty size gives a null image. |
| `Imaging.Copy` | webthumbnail.py:76 | `copy(x, y, w, h)` of a non-null image is exactly `w`×`h`. Each pixel is the source pixel at the offset position, or 0 outside the source. A null source gives a null image. |
| `Capture.Resize` | webthumbnail.py:66-76 | No target: the output is the raster unchanged. Only height: the output is the height scaler's result, and for a non-null raster (non-empty content) it has that height. Only width: the output is the width scaler's result, and for a non-null raster it has that width. Both, for a non-null raster: the output is exactly `width`×`height` and is the top-left, (0,0)-anchored corner of the covering expanded image. The output is always a well-formed raster; for a null raster the scaled sizes are left open. |
| `Capture.Step` | webthumbnail.py:43-58 | A network reply only overwrites `reply`. A page-finished event keeps `reply` and emits exactly one payload, `Classify(reply)`. It sizes the viewport to the content and appends one save of the rendered image to `out` exactly when `ok`. Otherwise the viewport and saves are unchanged. |
| `Capture.Thumbnailer.constructor` | webthumbnail.py:26-41 | Keeps the request. Starts exactly one load, of `url`. `reply` starts as `None`. Nothing has been saved or emitted yet. |
| `Capture.Thumbnailer.OnNetworkFinished` | webthumbnail.py:57-58 | Overwrites `reply` with the new reply and changes nothing else (the frame is `reply` only). |
| `Capture.Thumbnailer.OnPageFinished` | webthumbnail.py:43-55 | Emits exactly one payload, classified from the recorded reply. Saves one image iff `ok`. A failed load leaves the saves and the viewport unchanged. The new state is `Step` of the old state. |
| `Capture.Thumbnailer.Render` | webthumbnail.py:60-77 | Sets the viewport to the content size first, allocates the raster at that viewport size, and saves `Resize` of it to `out`. `reply` and the emitted signals are outside its frame. |
| `Outcome.Classify` | webthumbnail.py:46-54 | The payload is `None` iff the reply had no error. It is "Invalid Request Error" iff no reply was recorded. Otherwise it is the reply error's name. |
| `Outcome.OnFinished` | webthumbnail.py:80-85 | The exit code is 0 iff the payload is `None`, and 1 otherwise. On failure, standard error receives the message followed by a newline. On success nothing is written. |
| `Outcome.ExitStatusOfReply` | webthumbnail.py:46-85 | End to end, the process exits 0 exactly when the recorded reply carried no error. With no reply it exits 1 with "Invalid Request Error". Otherwise it exits 1 with the error's name. |
| `Session.ReplayLastReplyWins` | webthumbnail.py:57-58 | For every callback order, the recorded reply is that of the last network-finished callback, or the initial one if none arrived. |
| `Session.ReplayEmitsOncePerPage` | webthumbnail.py:43-55 | For every callback sequence, the number of `finished` signals grows by exactly the number of page-finished events, and earlier payloads are never changed. |
| `Session.ReplaySavesOncePerOk` | webthumbnail.py:43-45 | For every callback sequence, saves grow by exactly the number of page-finished events with `ok` set. Earlier saves are kept, and every new save goes to the `--out` path. |
| `Session.ReplayEmitsLastReply` | webthumbnail.py:46-55 | The payload emitted by a page-finished event is the classification of the last reply delivered before it. |
| `Session.ProcessExitIsFirstPayload` | webthumbnail.py:80-94 | In any trace, the first payload emitted is the classification of the last reply delivered before the first page-finished event, and it is never changed by later callbacks. The process exits 0 iff that reply had no error, and 1 otherwise. |
| `Session.FailedLoadSavesNothing` | webthumbnail.py:43-55 | A failed load writes no file but still emits one signal. Unless the reply was a success, that signal leads to exit code 1. |
| `Session.LoadedWithFailingReply` | webthumbnail.py:43-85 | `ok` with an erroneous reply still saves one image, and the process exits 1 naming the error. |
| `Session.UnscaledCaptureIsRaster` | webthumbnail.py:61-67 | With no target size, for a page with content (non-empty content size) and `ok` set, the viewport becomes the content size, and the saved image is the raster itself at that size. |
| `Session.CroppedCaptureHasRequestedSize` | webthumbnail.py:72-76 | With both targets, a page with content is saved at exactly `width`×`height`. |

## Left out

- Argument parsing (lines 16-20), `main`, the `QApplication` event loop and SIGINT handling (lines 88-98): these are process plumbing. The event loop is represented only by the arbitrary callback orders of `Session.Replay`.
- Session.Replay: over-approximates the process. `on_finished` calls `QApplication.exit`, so in the running process no callback reaches the object after the first `finished` signal, while `Replay` keeps accepting callbacks. `Session.ProcessExitIsFirstPayload` states that only the first payload decides the exit.
- WebKit itself is outside the model: page loading, layout, scrollbar policy (lines 33-41) and painting through `mainFrame().render(painter)`. The measured content size and the painted pixels are inputs.
- The QNetworkReply object is reduced to its error code. The error codes listed are a selection of Qt 4's `QNetworkReply.NetworkError` values; that toolkit is not part of this model. Any code missing from the list would be reported like every other non-`NoError` code, by its name.
- `Imaging.Raster` and `Imaging.Lawful`: allocation failure for oversized rasters is ignored. The toolkit returns a null image when a raster's byte count exceeds its `int` limit (for example a 1024×600000 page, or `--width 100000 --height 100000`), and then no file is written. The model instead allocates a raster of the requested size, and the expanding scale covers the box.
- Smooth resampling (`Qt.SmoothTransformation`) and the toolkit's rounding are not modelled. The other dimension and the pixels of `scaledToWidth`, `scaledToHeight` and `scaled` are unconstrained. `Imaging.Lawful` assumes that on a non-null image with a positive target the named dimension is exact, so a degenerate down-scale that the toolkit might turn into a null image is assumed away.
- `Capture.Resize`: `--width`/`--height` must be positive and below 2^31 when given, because the toolkit takes them as C `int`s. A larger value makes the binding raise inside `render`, so no `finished` signal is emitted; the model does not cover that path. The script does not check them, and the model does not say what the toolkit does with zero or negative targets.
- `QImage.save` and file I/O: a save is recorded in a ghost log as (path, image). Whether the file write succeeds is not modelled; `save`'s result is ignored by the script.
- Qt's conversion of a `None` payload through `Signal(unicode)` is not modelled. The payload is taken to arrive at `on_finished` as `None`.
