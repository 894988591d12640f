/**
  The capture controller: a `Thumbnailer` records the last network reply,
  renders and saves the page when loading succeeded, and emits exactly one
  `finished` signal per page-finished event.
*/
module Capture {

  import opened Wrappers
  import opened Imaging
  import opened Outcome

  /**
    A target dimension is either absent, or positive and small enough to be
    passed to the toolkit as a C `int`.
  */
  predicate PositiveIfGiven(d: Option<int>) {
    d.Some? ==> 0 < d.value < 0x8000_0000
  }

  /** What the command line asks for: the url, `--out`, `--width`, `--height`. */
  datatype Request = Request(url: string, out: string, width: Option<int>, height: Option<int>) {
    predicate Valid() {
      PositiveIfGiven(width) && PositiveIfGiven(height)
    }
  }

  /**
    The output image `render` chooses from the rendered raster: unchanged
    when neither dimension is asked for, scaled to the one dimension given,
    or scaled to cover the box and then cut to exactly `width` by `height`
    from the top-left corner.
  */
  function Resize(img: Image, width: Option<int>, height: Option<int>, rs: Resampler): (out: Image)
    requires img.Valid() && Lawful(rs)
    requires PositiveIfGiven(width) && PositiveIfGiven(height)
    ensures out.Valid()
    ensures width.None? && height.None? ==> out == img
    ensures width.None? && height.Some? ==> out == rs.toHeight(img, height.value)
    ensures width.None? && height.Some? && !img.IsNull() ==> out.height == height.value
    ensures width.Some? && height.None? ==> out == rs.toWidth(img, width.value)
    ensures width.Some? && height.None? && !img.IsNull() ==> out.width == width.value
    ensures width.Some? && height.Some? && !img.IsNull() ==>
      && out.width == width.value && out.height == height.value
      && TopLeftOf(out, rs.expanding(img, width.value, height.value))
  {
    if width.None? && height.None? then img
    else if width.None? then rs.toHeight(img, height.value)
    else if height.None? then rs.toWidth(img, width.value)
    else
      var scaled := rs.expanding(img, width.value, height.value);
      Copy(scaled, 0, 0, width.value, height.value)
  }

  /** The image `render` saves for a page of content size `contents`. */
  function Rendered(req: Request, rs: Resampler, contents: Size, paint: Canvas): Image
    requires req.Valid() && Lawful(rs)
  {
    Resize(Raster(contents, paint), req.width, req.height, rs)
  }

  /** A callback delivered by the engine. */
  datatype Event =
    | NetworkFinished(error: ReplyError)
    | PageFinished(ok: bool, contents: Size, paint: Canvas)

  /** A save of `image` to the file at `path`. */
  datatype SavedImage = SavedImage(path: string, image: Image)

  /**
    The observable state of a thumbnailer: the recorded reply, the page's
    viewport, every save made and every `finished` payload emitted.
  */
  datatype Snapshot = Snapshot(
    reply: Option<ReplyError>,
    viewport: Size,
    saved: seq<SavedImage>,
    emitted: seq<Option<string>>)

  /** The effect of one callback on the state. */
  function Step(req: Request, rs: Resampler, s: Snapshot, ev: Event): (t: Snapshot)
    requires req.Valid() && Lawful(rs)
    ensures ev.NetworkFinished? ==> t == s.(reply := Some(ev.error))
    ensures ev.PageFinished? ==> t.reply == s.reply
    ensures ev.PageFinished? ==> t.emitted == s.emitted + [Classify(s.reply)]
    ensures ev.PageFinished? && ev.ok ==>
      t.viewport == ev.contents &&
      t.saved == s.saved + [SavedImage(req.out, Rendered(req, rs, ev.contents, ev.paint))]
    ensures ev.PageFinished? && !ev.ok ==> t.viewport == s.viewport && t.saved == s.saved
  {
    match ev
    case NetworkFinished(e) => s.(reply := Some(e))
    case PageFinished(ok, contents, paint) =>
      var drawn :=
        if ok then s.(viewport := contents,
                      saved := s.saved + [SavedImage(req.out, Rendered(req, rs, contents, paint))])
        else s;
      drawn.(emitted := s.emitted + [Classify(s.reply)])
  }

  /**
    The thumbnailer object. `reply` and the page's viewport change in place;
    the ghost logs record the load started, the images saved and the
    `finished` payloads emitted.
  */
  class Thumbnailer {
    const url: string
    const out: string
    const width: Option<int>
    const height: Option<int>
    const scaler: Resampler

    var reply: Option<ReplyError>
    var viewport: Size

    ghost var loads: seq<string>
    ghost var saved: seq<SavedImage>
    ghost var emitted: seq<Option<string>>

    function Config(): Request {
      Request(url, out, width, height)
    }

    ghost predicate Valid() {
      Config().Valid() && Lawful(scaler)
    }

    ghost function State(): Snapshot
      reads this
    {
      Snapshot(reply, viewport, saved, emitted)
    }

    /**
      Creates the thumbnailer and starts loading `url`; no reply has been
      recorded yet. `viewport0` is the page's viewport before any render.
    */
    constructor (url: string, out: string, width: Option<int>, height: Option<int>,
                 scaler: Resampler, viewport0: Size)
      requires Request(url, out, width, height).Valid() && Lawful(scaler)
      ensures Valid()
      ensures Config() == Request(url, out, width, height) && this.scaler == scaler
      ensures reply == None && viewport == viewport0
      ensures loads == [url] && saved == [] && emitted == []
    {
      this.url := url;
      this.out := out;
      this.width := width;
      this.height := height;
      this.scaler := scaler;
      reply := None;
      viewport := viewport0;
      loads := [url];
      saved := [];
      emitted := [];
    }

    /** A network reply finished: it becomes the recorded reply. */
    method OnNetworkFinished(error: ReplyError)
      requires Valid()
      modifies this`reply
      ensures reply == Some(error)
      ensures State() == Step(Config(), scaler, old(State()), NetworkFinished(error))
    {
      reply := Some(error);
    }

    /**
      The page finished loading with flag `ok`: render and save only if
      `ok`, then emit exactly one `finished` payload classified from the
      recorded reply.
    */
    method OnPageFinished(ok: bool, contents: Size, paint: Canvas)
      requires Valid()
      modifies this`viewport, this`saved, this`emitted
      ensures reply == old(reply)
      ensures emitted == old(emitted) + [Classify(reply)]
      ensures ok ==> |saved| == |old(saved)| + 1 && saved[..|old(saved)|] == old(saved)
      ensures !ok ==> saved == old(saved) && viewport == old(viewport)
      ensures State() == Step(Config(), scaler, old(State()), PageFinished(ok, contents, paint))
    {
      if ok {
        Render(contents, paint);
      }
      emitted := emitted + [Classify(reply)];
    }

    /**
      Sizes the viewport to the page's content, allocates the raster at the
      viewport's size, lets the engine paint it, picks the output image and
      saves it to `out`.
    */
    method Render(contents: Size, paint: Canvas)
      requires Valid()
      modifies this`viewport, this`saved
      ensures viewport == contents
      ensures saved == old(saved) + [SavedImage(out, Resize(Raster(viewport, paint), width, height, scaler))]
    {
      viewport := contents;
      var image := Raster(viewport, paint);
      var outimg := Resize(image, width, height, scaler);
      saved := saved + [SavedImage(out, outimg)];
    }
  }
}
