/**
  Whole sessions: the engine delivers callbacks one after another, and
  the thumbnailer's state is the fold of `Step` over them. The lemmas say
  which reply is reported, how many signals are emitted and when images
  are saved, for any order of callbacks.
*/
module Session {

  import opened Wrappers
  import opened Imaging
  import opened Outcome
  import opened Capture

  /** The state after delivering `evs` in order, starting from `s`. */
  function Replay(req: Request, rs: Resampler, s: Snapshot, evs: seq<Event>): Snapshot
    requires req.Valid() && Lawful(rs)
    decreases |evs|
  {
    if |evs| == 0 then s else Replay(req, rs, Step(req, rs, s, evs[0]), evs[1..])
  }

  /** The error of the last network reply in `evs`, or `r0` if there is none. */
  function LastReply(r0: Option<ReplyError>, evs: seq<Event>): Option<ReplyError>
    decreases |evs|
  {
    if |evs| == 0 then r0
    else if evs[|evs| - 1].NetworkFinished? then Some(evs[|evs| - 1].error)
    else LastReply(r0, evs[..|evs| - 1])
  }

  /** How many page-finished events `evs` holds. */
  function PageEvents(evs: seq<Event>): nat
    decreases |evs|
  {
    if |evs| == 0 then 0 else (if evs[0].PageFinished? then 1 else 0) + PageEvents(evs[1..])
  }

  /** How many page-finished events with `ok` set `evs` holds. */
  function OkPageEvents(evs: seq<Event>): nat
    decreases |evs|
  {
    if |evs| == 0 then 0 else (if evs[0].PageFinished? && evs[0].ok then 1 else 0) + OkPageEvents(evs[1..])
  }

  /** Delivering one more callback is one more step. */
  lemma {:induction false} ReplayAppend(req: Request, rs: Resampler, s: Snapshot, evs: seq<Event>, e: Event)
    requires req.Valid() && Lawful(rs)
    ensures Replay(req, rs, s, evs + [e]) == Step(req, rs, Replay(req, rs, s, evs), e)
    decreases |evs|
  {
    if |evs| == 0 {
      assert evs + [e] == [e];
      assert [e][1..] == [];
    } else {
      assert (evs + [e])[0] == evs[0];
      assert (evs + [e])[1..] == evs[1..] + [e];
      ReplayAppend(req, rs, Step(req, rs, s, evs[0]), evs[1..], e);
    }
  }

  /**
    The last reply wins: whatever the interleaving, the recorded reply is
    the one delivered by the last network-finished callback, and the
    initial one only if no network reply arrived.
  */
  lemma {:induction false} ReplayLastReplyWins(req: Request, rs: Resampler, s: Snapshot, evs: seq<Event>)
    requires req.Valid() && Lawful(rs)
    ensures Replay(req, rs, s, evs).reply == LastReply(s.reply, evs)
    decreases |evs|
  {
    if |evs| > 0 {
      var init, e := evs[..|evs| - 1], evs[|evs| - 1];
      assert evs == init + [e];
      ReplayAppend(req, rs, s, init, e);
      ReplayLastReplyWins(req, rs, s, init);
    }
  }

  /**
    Exactly one `finished` signal per page-finished event, and the payloads
    already emitted are never changed.
  */
  lemma {:induction false} ReplayEmitsOncePerPage(req: Request, rs: Resampler, s: Snapshot, evs: seq<Event>)
    requires req.Valid() && Lawful(rs)
    ensures |Replay(req, rs, s, evs).emitted| == |s.emitted| + PageEvents(evs)
    ensures Replay(req, rs, s, evs).emitted[..|s.emitted|] == s.emitted
    decreases |evs|
  {
    if |evs| > 0 {
      var t := Step(req, rs, s, evs[0]);
      ReplayEmitsOncePerPage(req, rs, t, evs[1..]);
      assert t.emitted[..|s.emitted|] == s.emitted;
    }
  }

  /**
    An image is saved exactly once per page-finished event whose flag is
    set, always to the requested output path; failed loads save nothing.
  */
  lemma {:induction false} ReplaySavesOncePerOk(req: Request, rs: Resampler, s: Snapshot, evs: seq<Event>)
    requires req.Valid() && Lawful(rs)
    ensures |Replay(req, rs, s, evs).saved| == |s.saved| + OkPageEvents(evs)
    ensures Replay(req, rs, s, evs).saved[..|s.saved|] == s.saved
    ensures forall i :: |s.saved| <= i < |Replay(req, rs, s, evs).saved| ==>
      Replay(req, rs, s, evs).saved[i].path == req.out
    decreases |evs|
  {
    if |evs| > 0 {
      var t := Step(req, rs, s, evs[0]);
      ReplaySavesOncePerOk(req, rs, t, evs[1..]);
      assert t.saved[..|s.saved|] == s.saved;
    }
  }

  /**
    The payload a page-finished event emits is the classification of the
    last reply delivered before it.
  */
  lemma ReplayEmitsLastReply(req: Request, rs: Resampler, s: Snapshot, evs: seq<Event>,
                             ok: bool, contents: Size, paint: Canvas)
    requires req.Valid() && Lawful(rs)
    ensures Replay(req, rs, s, evs + [PageFinished(ok, contents, paint)]).emitted ==
      Replay(req, rs, s, evs).emitted + [Classify(LastReply(s.reply, evs))]
  {
    ReplayAppend(req, rs, s, evs, PageFinished(ok, contents, paint));
    ReplayLastReplyWins(req, rs, s, evs);
  }

  /** Delivering `a` and then `b` is delivering `a + b`. */
  lemma {:induction false} ReplayConcat(req: Request, rs: Resampler, s: Snapshot, a: seq<Event>, b: seq<Event>)
    requires req.Valid() && Lawful(rs)
    ensures Replay(req, rs, s, a + b) == Replay(req, rs, Replay(req, rs, s, a), b)
    decreases |a|
  {
    if |a| == 0 {
      assert a + b == b;
    } else {
      assert (a + b)[0] == a[0];
      assert (a + b)[1..] == a[1..] + b;
      ReplayConcat(req, rs, Step(req, rs, s, a[0]), a[1..], b);
    }
  }

  /**
    The process exit is decided by the first `finished` signal, because its
    handler ends the event loop: in any trace, the first payload emitted is
    the classification of the last reply delivered before the first
    page-finished event, and the process exits with `OnFinished` of it.
    Later callbacks append after it and never change it.
  */
  lemma ProcessExitIsFirstPayload(req: Request, rs: Resampler, s: Snapshot, pre: seq<Event>,
                                  ok: bool, contents: Size, paint: Canvas, post: seq<Event>)
    requires req.Valid() && Lawful(rs)
    requires PageEvents(pre) == 0
    ensures var t := Replay(req, rs, s, pre + [PageFinished(ok, contents, paint)] + post);
      && |t.emitted| > |s.emitted|
      && t.emitted[..|s.emitted|] == s.emitted
      && t.emitted[|s.emitted|] == Classify(LastReply(s.reply, pre))
      && OnFinished(t.emitted[|s.emitted|]).code == (if LastReply(s.reply, pre) == Some(NoError) then 0 else 1)
  {
    var page := PageFinished(ok, contents, paint);
    var mid := Replay(req, rs, s, pre + [page]);
    ReplayEmitsOncePerPage(req, rs, s, pre);
    assert Replay(req, rs, s, pre).emitted == s.emitted;
    ReplayEmitsLastReply(req, rs, s, pre, ok, contents, paint);
    assert mid.emitted == s.emitted + [Classify(LastReply(s.reply, pre))];
    ReplayConcat(req, rs, s, pre + [page], post);
    ReplayEmitsOncePerPage(req, rs, mid, post);
    var t := Replay(req, rs, mid, post);
    assert t.emitted[..|mid.emitted|] == mid.emitted;
    assert t.emitted[|s.emitted|] == t.emitted[..|mid.emitted|][|s.emitted|];
    assert t.emitted[..|s.emitted|] == t.emitted[..|mid.emitted|][..|s.emitted|];
  }

  /**
    A load that fails writes no file, yet still emits its `finished`
    signal, and a process ending on it exits 1.
  */
  lemma FailedLoadSavesNothing(req: Request, rs: Resampler, s: Snapshot, contents: Size, paint: Canvas)
    requires req.Valid() && Lawful(rs)
    ensures Step(req, rs, s, PageFinished(false, contents, paint)).saved == s.saved
    ensures |Step(req, rs, s, PageFinished(false, contents, paint)).emitted| == |s.emitted| + 1
    ensures s.reply != Some(NoError) ==>
      OnFinished(Step(req, rs, s, PageFinished(false, contents, paint)).emitted[|s.emitted|]).code == 1
  {
  }

  /**
    A page reported as loaded while the recorded reply carries an error is
    still saved, but the process exits 1 with the error's name.
  */
  lemma LoadedWithFailingReply(req: Request, rs: Resampler, s: Snapshot, contents: Size, paint: Canvas)
    requires req.Valid() && Lawful(rs)
    requires s.reply.Some? && s.reply.value != NoError
    ensures |Step(req, rs, s, PageFinished(true, contents, paint)).saved| == |s.saved| + 1
    ensures OnFinished(Step(req, rs, s, PageFinished(true, contents, paint)).emitted[|s.emitted|]) ==
      Exit(1, Name(s.reply.value) + "\n")
  {
  }

  /**
    With neither `--width` nor `--height`, the saved image is the raster
    itself, at the size of the page's content.
  */
  lemma UnscaledCaptureIsRaster(req: Request, rs: Resampler, s: Snapshot, contents: Size, paint: Canvas)
    requires req.Valid() && Lawful(rs)
    requires req.width.None? && req.height.None? && !contents.IsEmpty()
    ensures var t := Step(req, rs, s, PageFinished(true, contents, paint));
      && t.viewport == contents
      && t.saved[|s.saved|].image == Raster(contents, paint)
      && t.saved[|s.saved|].image.width == contents.width
      && t.saved[|s.saved|].image.height == contents.height
  {
  }

  /**
    With both `--width` and `--height`, a page with content is saved at
    exactly the requested size.
  */
  lemma CroppedCaptureHasRequestedSize(req: Request, rs: Resampler, s: Snapshot, contents: Size, paint: Canvas)
    requires req.Valid() && Lawful(rs)
    requires req.width.Some? && req.height.Some? && !contents.IsEmpty()
    ensures var t := Step(req, rs, s, PageFinished(true, contents, paint));
      && t.saved[|s.saved|].image.width == req.width.value
      && t.saved[|s.saved|].image.height == req.height.value
  {
  }
}
